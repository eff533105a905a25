/** The interactive configuration of the TypeScript command (cli/src/prompts.ts):
    the `validate` and `default` callbacks of each question and the
    configuration record built from the answers.

    A `validate` callback answers `true` or the message shown to the user;
    here that is a `Verdict`. JavaScript's `a || b` on strings picks `a`
    unless it is empty. */
module Prompts {
  import opened Wrappers
  import opened Text
  import opened Dialects
  import opened Config

  datatype Verdict = Accepted | Rejected(message: string)

  /** `a || b` for strings. */
  function Or(a: string, b: string): string
  {
    if a != "" then a else b
  }

  // ---------------------------------------------------------------------
  // Dot-separated labels, the shape of `label(\.label)*`

  /** The index of the first '.'. */
  function DotIndex(s: string): (i: nat)
    requires '.' in s
    ensures i < |s| && s[i] == '.' && '.' !in s[..i]
  {
    if s[0] == '.' then 0
    else
      var j := DotIndex(s[1..]);
      assert s[..j + 1] == [s[0]] + s[1..][..j];
      j + 1
  }

  /** The text between the dots, in order. */
  function Labels(s: string): seq<string>
    decreases |s|
  {
    if '.' !in s then [s]
    else
      var i := DotIndex(s);
      [s[..i]] + Labels(s[i + 1..])
  }

  /** The labels joined with '.'. */
  function JoinDots(parts: seq<string>): string
  {
    if |parts| == 0 then ""
    else if |parts| == 1 then parts[0]
    else parts[0] + "." + JoinDots(parts[1..])
  }

  /** A dot with none before it is the first dot. */
  lemma FirstDotAt(s: string, j: nat)
    requires j < |s| && s[j] == '.' && '.' !in s[..j]
    ensures DotIndex(s) == j
  {
    var i := DotIndex(s);
    assert forall m :: 0 <= m < j ==> s[..j][m] == s[m];
    assert forall m :: 0 <= m < i ==> s[..i][m] == s[m];
  }

  /** Splitting then joining gives the text back, and no label holds a dot. */
  lemma {:induction false} LabelsJoinBack(s: string)
    ensures |Labels(s)| > 0 && JoinDots(Labels(s)) == s
    ensures forall k :: 0 <= k < |Labels(s)| ==> '.' !in Labels(s)[k]
    decreases |s|
  {
    if '.' in s {
      var i := DotIndex(s);
      var rest := Labels(s[i + 1..]);
      LabelsJoinBack(s[i + 1..]);
      assert Labels(s) == [s[..i]] + rest;
      assert JoinDots(Labels(s)) == s[..i] + "." + JoinDots(rest);
      assert s == s[..i] + "." + s[i + 1..];
    }
  }

  /** Joining labels without dots then splitting gives the labels back. */
  lemma {:induction false} JoinSplitsBack(parts: seq<string>)
    requires |parts| > 0 && forall k :: 0 <= k < |parts| ==> '.' !in parts[k]
    ensures Labels(JoinDots(parts)) == parts
    decreases |parts|
  {
    if |parts| > 1 {
      var head, tail := parts[0], JoinDots(parts[1..]);
      var s := head + "." + tail;
      assert JoinDots(parts) == s;
      assert s[|head|] == '.';
      assert s[..|head|] == head;
      FirstDotAt(s, |head|);
      assert s[|head| + 1..] == tail;
      JoinSplitsBack(parts[1..]);
    }
  }

  // ---------------------------------------------------------------------
  // The validators

  /** The project name: required, then without whitespace, then an
      identifier. */
  function ValidateProjectName(input: string): Verdict
  {
    if IsBlank(input) then Rejected("Project name is required")
    else if HasJsSpace(input) then Rejected("Project name cannot contain spaces")
    else if !IsIdentifier(input) then Rejected("Project name must be a valid identifier")
    else Accepted
  }

  /** `[a-z][a-z0-9]*` */
  predicate ReverseLabel(l: string)
  {
    |l| > 0 && IsAsciiLower(l[0]) && forall i :: 1 <= i < |l| ==> IsAsciiLower(l[i]) || IsAsciiDigit(l[i])
  }

  /** `^[a-z][a-z0-9]*(\.[a-z][a-z0-9]*)*$` */
  predicate IsReverseDomain(s: string)
  {
    forall k :: 0 <= k < |Labels(s)| ==> ReverseLabel(Labels(s)[k])
  }

  function ValidateBundlePrefix(input: string): Verdict
  {
    if IsBlank(input) then Rejected("Bundle ID prefix is required")
    else if !IsReverseDomain(input) then
      Rejected("Bundle ID prefix must be in reverse domain notation (e.g., com.company.app)")
    else Accepted
  }

  /** The main bundle id, against the prefix answered before it. */
  function ValidateMainBundleId(input: string, prefix: string): Verdict
  {
    if IsBlank(input) then Rejected("Main bundle ID is required")
    else if prefix != "" && !StartsWith(input, prefix) then Rejected("Main bundle ID must start with " + prefix)
    else Accepted
  }

  function ValidateClipBundleId(input: string, prefix: string): Verdict
  {
    if IsBlank(input) then Rejected("Clip bundle ID is required")
    else if prefix != "" && !StartsWith(input, prefix) then Rejected("Clip bundle ID must start with " + prefix)
    else if !EndsWith(input, ".Clip") then Rejected("Clip bundle ID must end with '.Clip'")
    else Accepted
  }

  function ValidateStructName(input: string): Verdict
  {
    if IsBlank(input) then Rejected("Struct name is required")
    else if !IsIdentifier(input) then Rejected("Struct name must be a valid Swift identifier")
    else Accepted
  }

  /** The start URL; `urlParses` is what the `URL` constructor decides. */
  function ValidateStartUrl(input: string, urlParses: bool): Verdict
  {
    if IsBlank(input) then Rejected("Start URL is required")
    else if !StartsWith(input, "http://") && !StartsWith(input, "https://") then
      Rejected("Start URL must start with http:// or https://")
    else if !urlParses then Rejected("Invalid URL format")
    else Accepted
  }

  /** `[a-z0-9]([a-z0-9-]{0,61}[a-z0-9])?` under the `i` flag: one to 63
      letters, digits or hyphens, neither first nor last a hyphen. */
  predicate DomainLabel(l: string)
  {
    1 <= |l| <= 63 && l[0] != '-' && l[|l| - 1] != '-'
    && forall i :: 0 <= i < |l| ==> IsAsciiAlnum(l[i]) || l[i] == '-'
  }

  predicate IsDomain(s: string)
  {
    forall k :: 0 <= k < |Labels(s)| ==> DomainLabel(Labels(s)[k])
  }

  function ValidateDomain(input: string): Verdict
  {
    if IsBlank(input) then Rejected("Associated domain is required")
    else if !IsDomain(input) then Rejected("Invalid domain format")
    else Accepted
  }

  /** One or more of `0-9`: JavaScript's `\d`. */
  predicate IsDigits(s: string)
  {
    |s| > 0 && forall i :: 0 <= i < |s| ==> IsAsciiDigit(s[i])
  }

  /** `^\d+\.\d+$` */
  predicate IsMajorMinor(s: string)
  {
    |Labels(s)| == 2 && IsDigits(Labels(s)[0]) && IsDigits(Labels(s)[1])
  }

  function ValidateDeploymentTarget(input: string): Verdict
  {
    if IsBlank(input) then Rejected("Deployment target is required")
    else if !IsMajorMinor(input) then Rejected("Deployment target must be in format X.Y (e.g., 16.0)")
    else Accepted
  }

  /** The version, build number and Xcode version questions only require an
      answer; `what` is the question's subject. */
  function ValidateRequired(input: string, what: string): Verdict
  {
    if IsBlank(input) then Rejected(what + " is required") else Accepted
  }

  // ---------------------------------------------------------------------
  // The defaults

  function DefaultDisplayName(projectName: string): string
  {
    Or(projectName, "My App")
  }

  function DefaultBundlePrefix(projectName: string): string
  {
    "com.example." + Or(Lower(projectName), "myapp")
  }

  function DefaultMainBundleId(prefix: string): string
  {
    Or(prefix, "com.example.myapp")
  }

  function DefaultClipBundleId(mainBundleId: string, prefix: string): string
  {
    Or(mainBundleId, Or(prefix, "com.example.myapp")) + ".Clip"
  }

  function DefaultStructName(projectName: string): string
  {
    Or(projectName, "MyApp") + "App"
  }

  function DefaultMainTargetName(projectName: string): string
  {
    Or(projectName, "MyApp")
  }

  function DefaultClipTargetName(projectName: string): string
  {
    Or(projectName, "MyApp") + "Clip"
  }

  // ---------------------------------------------------------------------
  // The record built from the answers

  datatype Answers = Answers(
    projectName: string, displayName: string, bundleIdPrefix: string, mainBundleId: string,
    clipBundleId: string, structName: string, startURL: string, associatedDomain: string,
    version: string, buildNumber: string, deploymentTarget: string, xcodeVersion: string,
    mainTargetName: string, clipTargetName: string)

  /** A target name equal to the project's default is left out of the
      record. */
  function Assemble(a: Answers): WhitelabelConfig
  {
    WhitelabelConfig(
      ProjectSection(a.projectName, a.displayName, a.bundleIdPrefix, a.version, a.buildNumber),
      AppSection(a.mainBundleId, a.clipBundleId, a.structName, a.startURL,
        if a.mainTargetName == a.projectName then None else Some(a.mainTargetName),
        if a.clipTargetName == a.projectName + "Clip" then None else Some(a.clipTargetName)),
      DomainsSection(a.associatedDomain),
      IosSection(a.deploymentTarget, a.xcodeVersion))
  }

  // ---------------------------------------------------------------------
  // What the validators accept

  /** The whitespace test never decides the verdict on its own: a name is
      accepted exactly when it is an identifier. It does choose the message
      for a name with whitespace that is not blank. */
  lemma ProjectNameAcceptedIff(input: string)
    ensures ValidateProjectName(input) == Accepted <==> IsIdentifier(input)
    ensures !IsBlank(input) && HasJsSpace(input) ==>
      ValidateProjectName(input) == Rejected("Project name cannot contain spaces")
  {
    if IsIdentifier(input) {
      assert !IsJsSpace(input[0]);
      assert forall i :: 0 <= i < |input| ==> !IsJsSpace(input[i]);
    }
  }

  /** The labels of text joined from labels begin with the first label. */
  lemma JoinStartsWithFirst(parts: seq<string>)
    requires |parts| > 0
    ensures StartsWith(JoinDots(parts), parts[0])
  {
  }

  /** A reverse domain begins with a lowercase letter. */
  lemma ReverseDomainStartsLower(s: string)
    requires IsReverseDomain(s)
    ensures |s| > 0 && IsAsciiLower(s[0])
  {
    LabelsJoinBack(s);
    JoinStartsWithFirst(Labels(s));
    assert ReverseLabel(Labels(s)[0]);
    assert s[0] == Labels(s)[0][0];
  }

  /** The prefix is accepted exactly when it is a reverse domain. */
  lemma BundlePrefixAcceptedIff(input: string)
    ensures ValidateBundlePrefix(input) == Accepted <==> IsReverseDomain(input)
  {
    if IsReverseDomain(input) {
      ReverseDomainStartsLower(input);
    }
  }

  /** `[a-z][a-z0-9]*(\.[a-z][a-z0-9]*)*` read character by character: a
      lowercase letter first, only lowercase letters, digits and dots, and a
      lowercase letter after every dot. */
  predicate ReverseDomainChars(s: string)
  {
    |s| > 0 && IsAsciiLower(s[0])
    && (forall i :: 0 <= i < |s| ==> IsAsciiLower(s[i]) || IsAsciiDigit(s[i]) || s[i] == '.')
    && (forall i :: 0 <= i < |s| && s[i] == '.' ==> i + 1 < |s| && IsAsciiLower(s[i + 1]))
  }

  lemma {:induction false} ReverseDomainByChars(s: string)
    ensures IsReverseDomain(s) <==> ReverseDomainChars(s)
    decreases |s|
  {
    if '.' !in s {
      ReverseDomainSingle(s);
      CharsSingle(s);
    } else {
      var i := DotIndex(s);
      var h, t := s[..i], s[i + 1..];
      assert s == h + "." + t;
      ReverseDomainByChars(t);
      ReverseDomainCons(h, t);
      ReverseDomainJoin(h, t);
    }
  }

  /** Text without a dot is one label. */
  lemma ReverseDomainSingle(s: string)
    requires '.' !in s
    ensures IsReverseDomain(s) <==> ReverseLabel(s)
  {
    assert Labels(s) == [s] && Labels(s)[0] == s;
  }

  lemma CharsSingle(s: string)
    requires '.' !in s
    ensures ReverseDomainChars(s) <==> ReverseLabel(s)
  {
    assert forall i :: 0 <= i < |s| ==> s[i] != '.';
  }

  /** A label, a dot, then more: a reverse domain exactly when the label is
      one and the rest is one. */
  lemma ReverseDomainCons(h: string, t: string)
    requires '.' !in h
    ensures IsReverseDomain(h + "." + t) <==> ReverseLabel(h) && IsReverseDomain(t)
  {
    LabelsOfCons(h, t);
    var ls, lt := Labels(h + "." + t), Labels(t);
    assert ls == [h] + lt && ls[0] == h;
    assert forall k :: 0 <= k < |lt| ==> lt[k] == ls[k + 1];
    assert forall k :: 1 <= k < |ls| ==> ls[k] == lt[k - 1];
  }

  /** The character-level reading of the same step. */
  lemma ReverseDomainJoin(h: string, t: string)
    requires '.' !in h
    ensures ReverseDomainChars(h + "." + t) <==> ReverseLabel(h) && ReverseDomainChars(t)
  {
    var s := h + "." + t;
    var i := |h|;
    assert forall m :: 0 <= m < |h| ==> s[m] == h[m] && h[m] != '.';
    assert forall m :: 0 <= m < |t| ==> s[i + 1 + m] == t[m];
    if ReverseDomainChars(s) {
      assert i > 0 && s[i] == '.';
      assert ReverseLabel(h);
      assert t[0] == s[i + 1];
      forall m | 0 <= m < |t| && t[m] == '.' ensures m + 1 < |t| && IsAsciiLower(t[m + 1]) {
        assert s[i + 1 + m] == '.';
      }
    }
    if ReverseLabel(h) && ReverseDomainChars(t) {
      forall m | 0 <= m < |s| ensures IsAsciiLower(s[m]) || IsAsciiDigit(s[m]) || s[m] == '.' {
        if m > i {
          assert s[m] == t[m - i - 1];
        }
      }
      forall m | 0 <= m < |s| && s[m] == '.' ensures m + 1 < |s| && IsAsciiLower(s[m + 1]) {
        if m > i {
          assert s[m] == t[m - i - 1];
          assert s[m + 1] == t[m - i];
        } else if m == i {
          assert s[m + 1] == t[0];
        }
      }
    }
  }

  /** The main id needs an answer and, against a non-empty prefix, the
      prefix; against an empty prefix only the answer. */
  lemma MainBundleIdAcceptedIff(input: string, prefix: string)
    ensures ValidateMainBundleId(input, prefix) == Accepted <==> !IsBlank(input) && StartsWith(input, prefix)
  {
  }

  /** All three clip checks must pass; a clip id failing both the prefix and
      the suffix is told about the prefix. */
  lemma ClipBundleIdChecks(input: string, prefix: string)
    ensures ValidateClipBundleId(input, prefix) == Accepted
      <==> !IsBlank(input) && StartsWith(input, prefix) && EndsWith(input, ".Clip")
    ensures !IsBlank(input) && !StartsWith(input, prefix) ==>
      ValidateClipBundleId(input, prefix) == Rejected("Clip bundle ID must start with " + prefix)
  {
    if !IsBlank(input) && !StartsWith(input, prefix) {
      assert prefix != "";
    }
  }

  // ---------------------------------------------------------------------
  // The defaults pass the validators that follow them

  /** After an accepted main id, the suggested clip id is accepted. */
  lemma DefaultClipBundleIdAccepted(mainBundleId: string, prefix: string)
    requires ValidateMainBundleId(mainBundleId, prefix) == Accepted
    ensures ValidateClipBundleId(DefaultClipBundleId(mainBundleId, prefix), prefix) == Accepted
  {
    var c := mainBundleId + ".Clip";
    assert mainBundleId != "";
    assert DefaultClipBundleId(mainBundleId, prefix) == c;
    assert c[..|prefix|] == mainBundleId[..|prefix|];
    assert c[|c| - 5..] == ".Clip";
    assert c[|c| - 4] == 'C' && !IsJsSpace('C');
  }

  /** After an accepted project name, the suggested struct name is accepted. */
  lemma DefaultStructNameAccepted(projectName: string)
    requires ValidateProjectName(projectName) == Accepted
    ensures ValidateStructName(DefaultStructName(projectName)) == Accepted
  {
    ProjectNameAcceptedIff(projectName);
    var n := projectName + "App";
    assert n[0] == projectName[0] && !IsJsSpace(n[0]);
    assert forall i :: 1 <= i < |n| ==> IsIdentPart(n[i]) by {
      forall i | 1 <= i < |n| ensures IsIdentPart(n[i]) {
        if i < |projectName| {
          assert n[i] == projectName[i];
        } else {
          assert n[i] == "App"[i - |projectName|];
        }
      }
    }
  }

  /** After an accepted prefix, the suggested main id is accepted. */
  lemma DefaultMainBundleIdAccepted(prefix: string)
    requires ValidateBundlePrefix(prefix) == Accepted
    ensures ValidateMainBundleId(DefaultMainBundleId(prefix), prefix) == Accepted
  {
    assert prefix != "";
    assert prefix[..|prefix|] == prefix;
  }

  /** A label without dots, a dot, then more text: the label comes first. */
  lemma LabelsOfCons(h: string, t: string)
    requires '.' !in h
    ensures Labels(h + "." + t) == [h] + Labels(t)
  {
    var s := h + "." + t;
    assert s[..|h|] == h;
    FirstDotAt(s, |h|);
    assert s[|h| + 1..] == t;
  }

  /** `com.example.<l>`, for a label `l` without dots, is a reverse domain
      exactly when `l` is a reverse-domain label. */
  lemma ExampleReverseDomain(l: string)
    requires '.' !in l
    ensures IsReverseDomain("com.example." + l) <==> ReverseLabel(l)
  {
    var e := "example" + "." + l;
    assert "com.example." + l == "com" + "." + e;
    ExampleTail(l, e);
    assert ReverseLabel("com");
    ReverseDomainCons("com", e);
  }

  lemma ExampleTail(l: string, e: string)
    requires '.' !in l && e == "example" + "." + l
    ensures IsReverseDomain(e) <==> ReverseLabel(l)
  {
    ReverseDomainSingle(l);
    assert ReverseLabel("example");
    ReverseDomainCons("example", l);
  }

  /** An identifier in lower case holds no dot, and is a reverse-domain
      label exactly when it holds no underscore. */
  lemma LowerIdentifier(name: string)
    requires IsIdentifier(name)
    ensures '.' !in Lower(name)
    ensures ReverseLabel(Lower(name)) <==> '_' !in name
  {
    var l := Lower(name);
    assert forall i :: 0 <= i < |l| ==> l[i] != '.' by {
      forall i | 0 <= i < |l| ensures l[i] != '.' {
        assert IsIdentStart(name[i]) || IsIdentPart(name[i]);
      }
    }
    if '_' in name {
      var j :| 0 <= j < |name| && name[j] == '_';
      assert l[j] == '_';
    } else {
      assert IsAsciiLetter(name[0]);
      forall i | 1 <= i < |l| ensures IsAsciiLower(l[i]) || IsAsciiDigit(l[i]) {
        assert IsIdentPart(name[i]) && name[i] != '_';
      }
    }
  }

  /** The suggested prefix `com.example.<name in lower case>` is accepted for
      an accepted project name exactly when the name has no underscore:
      lower-casing keeps an underscore, which a reverse-domain label may not
      hold. */
  lemma DefaultBundlePrefixAcceptedIff(projectName: string)
    requires ValidateProjectName(projectName) == Accepted
    ensures ValidateBundlePrefix(DefaultBundlePrefix(projectName)) == Accepted <==> '_' !in projectName
  {
    ProjectNameAcceptedIff(projectName);
    var l := Lower(projectName);
    LowerIdentifier(projectName);
    var prefix := "com.example." + l;
    assert DefaultBundlePrefix(projectName) == prefix;
    ExampleReverseDomain(l);
    BundlePrefixAcceptedIff(prefix);
  }

  // ---------------------------------------------------------------------
  // Domains and versions

  /** Each label in lower case. */
  function LowerAll(parts: seq<string>): seq<string>
  {
    seq(|parts|, k requires 0 <= k < |parts| => Lower(parts[k]))
  }

  /** Lower-casing maps '.' to itself, so it commutes with joining at a dot. */
  lemma LowerJoin(h: string, t: string)
    ensures Lower(h + "." + t) == Lower(h) + "." + Lower(t)
  {
    var s, r := h + "." + t, Lower(h) + "." + Lower(t);
    forall m | 0 <= m < |s| ensures Lower(s)[m] == r[m] {
      if m < |h| {
        assert s[m] == h[m];
      } else if m > |h| {
        assert s[m] == t[m - |h| - 1];
      }
    }
  }

  /** Lower-casing adds no dot. */
  lemma LowerAddsNoDot(s: string)
    requires '.' !in s
    ensures '.' !in Lower(s)
  {
    assert forall m :: 0 <= m < |s| ==> s[m] != '.' && Lower(s)[m] != '.';
  }

  /** Lower-casing keeps the dots where they are, so the labels of the
      lower-cased text are the lower-cased labels. */
  lemma {:induction false} LabelsOfLower(s: string)
    ensures Labels(Lower(s)) == LowerAll(Labels(s))
    decreases |s|
  {
    if '.' !in s {
      LowerAddsNoDot(s);
      assert Labels(s) == [s];
    } else {
      var i := DotIndex(s);
      var h, t := s[..i], s[i + 1..];
      assert s == h + "." + t;
      LabelsOfLower(t);
      LowerCons(h, t, Labels(t));
    }
  }

  /** The step of `LabelsOfLower` at the first dot. */
  lemma LowerCons(h: string, t: string, rest: seq<string>)
    requires '.' !in h && rest == Labels(t)
    requires Labels(Lower(t)) == LowerAll(rest)
    ensures Labels(Lower(h + "." + t)) == LowerAll(Labels(h + "." + t))
  {
    LabelsOfCons(h, t);
    LabelsOfLowerCons(h, t);
    LowerAllCons(h, rest);
  }

  lemma LabelsOfLowerCons(h: string, t: string)
    requires '.' !in h
    ensures Labels(Lower(h + "." + t)) == [Lower(h)] + Labels(Lower(t))
  {
    LowerJoin(h, t);
    LowerAddsNoDot(h);
    LabelsOfCons(Lower(h), Lower(t));
  }

  lemma LowerAllCons(h: string, rest: seq<string>)
    ensures LowerAll([h] + rest) == [Lower(h)] + LowerAll(rest)
  {
  }

  /** A label is a domain label in any case. */
  lemma DomainLabelIgnoresCase(w: string)
    ensures DomainLabel(Lower(w)) <==> DomainLabel(w)
  {
    assert forall i :: 0 <= i < |w| ==> (IsAsciiAlnum(Lower(w)[i]) <==> IsAsciiAlnum(w[i]));
    assert forall i :: 0 <= i < |w| ==> (Lower(w)[i] == '-' <==> w[i] == '-');
  }

  /** The `i` flag: a domain is accepted in any case. */
  lemma DomainIgnoresCase(s: string)
    ensures IsDomain(Lower(s)) <==> IsDomain(s)
  {
    LabelsOfLower(s);
    forall k | 0 <= k < |Labels(s)| ensures DomainLabel(Labels(Lower(s))[k]) <==> DomainLabel(Labels(s)[k]) {
      DomainLabelIgnoresCase(Labels(s)[k]);
    }
  }

  /** An accepted deployment target is two digit runs around one dot... */
  lemma MajorMinorSplits(s: string)
    requires IsMajorMinor(s)
    ensures s == Labels(s)[0] + "." + Labels(s)[1]
  {
    LabelsJoinBack(s);
    assert JoinDots(Labels(s)) == Labels(s)[0] + "." + JoinDots(Labels(s)[1..]);
  }

  /** ... and any two digit runs around one dot are accepted. */
  lemma MajorMinorOfDigits(a: string, b: string)
    requires IsDigits(a) && IsDigits(b)
    ensures ValidateDeploymentTarget(a + "." + b) == Accepted
  {
    assert forall i :: 0 <= i < |a| ==> a[i] != '.';
    assert forall i :: 0 <= i < |b| ==> b[i] != '.';
    JoinSplitsBack([a, b]);
    assert JoinDots([a, b]) == a + "." + b;
    assert (a + "." + b)[0] == a[0];
  }

  // ---------------------------------------------------------------------
  // The assembled record

  /** Leaving a default target name out of the record loses nothing: the
      generator resolves it back to the answer, except that the TypeScript
      port also replaces an empty answer by the default. */
  lemma AssembledTargets(a: Answers)
    ensures MainTarget(Python, Assemble(a)) == a.mainTargetName
    ensures ClipTarget(Python, Assemble(a)) == a.clipTargetName
    ensures MainTarget(TypeScript, Assemble(a)) == Or(a.mainTargetName, a.projectName)
    ensures ClipTarget(TypeScript, Assemble(a)) == Or(a.clipTargetName, a.projectName + "Clip")
  {
  }

  /** Answers the prompts accept give a record the validator accepts, in
      either implementation. */
  lemma PromptedConfigValid(d: Dialect, a: Answers, urlParses: bool)
    requires ValidateMainBundleId(a.mainBundleId, a.bundleIdPrefix) == Accepted
    requires ValidateClipBundleId(a.clipBundleId, a.bundleIdPrefix) == Accepted
    requires ValidateStructName(a.structName) == Accepted
    requires ValidateStartUrl(a.startURL, urlParses) == Accepted
    ensures Errors(d, Assemble(a)) == []
  {
    NoErrorsIffValid(d, Assemble(a));
  }
}
