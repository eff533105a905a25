/** The configuration record (`WhitelabelConfig` in cli/src/validator.ts, the
    parsed JSON object in generate_whitelabel.py), the two optional target
    names, and the validator both implementations run before generating. */
module Config {
  import opened Wrappers
  import opened Text
  import opened Dialects
  import opened Replace

  datatype ProjectSection = ProjectSection(
    name: string, displayName: string, bundleIdPrefix: string, version: string, buildNumber: string)

  datatype AppSection = AppSection(
    mainBundleId: string, clipBundleId: string, structName: string, startURL: string,
    mainTargetName: Option<string>, clipTargetName: Option<string>)

  datatype DomainsSection = DomainsSection(associatedDomain: string)

  datatype IosSection = IosSection(deploymentTarget: string, xcodeVersion: string)

  datatype WhitelabelConfig = WhitelabelConfig(
    project: ProjectSection, app: AppSection, domains: DomainsSection, ios: IosSection)

  // ---------------------------------------------------------------------
  // Target names

  /** An optional target name with its fallback. Python's `dict.get` falls
      back only when the key is absent; TypeScript's `||` also when the name
      is the empty string. */
  function ResolveTarget(d: Dialect, given: Option<string>, fallback: string): (t: string)
    ensures given.None? ==> t == fallback
    ensures given.Some? && given.value != "" ==> t == given.value
    ensures given == Some("") && d == Python ==> t == ""
    ensures given == Some("") && d == TypeScript ==> t == fallback
  {
    match given
    case None => fallback
    case Some(name) => if d == TypeScript && name == "" then fallback else name
  }

  function MainTarget(d: Dialect, config: WhitelabelConfig): string
  {
    ResolveTarget(d, config.app.mainTargetName, config.project.name)
  }

  function ClipTarget(d: Dialect, config: WhitelabelConfig): string
  {
    ResolveTarget(d, config.app.clipTargetName, config.project.name + "Clip")
  }

  /** The two implementations pick different target names exactly when a
      name is given as the empty string and its fallback is not empty. */
  lemma TargetResolutionDiverges(given: Option<string>, fallback: string)
    ensures ResolveTarget(Python, given, fallback) != ResolveTarget(TypeScript, given, fallback)
      <==> given == Some("") && fallback != ""
  {
  }

  // ---------------------------------------------------------------------
  // The validator

  const MainPrefixMessage := "mainBundleId must start with bundleIdPrefix"
  const ClipPrefixMessage := "clipBundleId must start with bundleIdPrefix"
  const ClipSuffixMessage := "clipBundleId should end with '.Clip'"
  const StructNameMessage := "structName must be a valid Swift identifier"
  const StartUrlMessage := "startURL must start with http:// or https://"

  /** The messages in the order the checks run. */
  const Messages: seq<string> :=
    [MainPrefixMessage, ClipPrefixMessage, ClipSuffixMessage, StructNameMessage, StartUrlMessage]

  /** `^[A-Za-z_][A-Za-z0-9_]*$`. Python's `$` also matches just before a
      newline that ends the string; JavaScript's only at the end. */
  predicate StructNameMatches(d: Dialect, s: string)
  {
    IsIdentifier(s) || (d == Python && |s| > 0 && s[|s| - 1] == '\n' && IsIdentifier(s[..|s| - 1]))
  }

  /** The scheme test is on the raw text, so it is case-sensitive. */
  predicate HasWebScheme(url: string)
  {
    StartsWith(url, "http://") || StartsWith(url, "https://")
  }

  /** The outcome of each of the five checks, in the order they run. */
  function Checks(d: Dialect, config: WhitelabelConfig): (c: seq<bool>)
    ensures |c| == |Messages|
  {
    var app := config.app;
    var prefix := config.project.bundleIdPrefix;
    [StartsWith(app.mainBundleId, prefix), StartsWith(app.clipBundleId, prefix),
     EndsWith(app.clipBundleId, ".Clip"), StructNameMatches(d, app.structName),
     HasWebScheme(app.startURL)]
  }

  /** The messages of the failed checks from index `i` on, in check order. */
  function ErrorsFrom(checks: seq<bool>, messages: seq<string>, i: nat): seq<string>
    requires |checks| == |messages| && i <= |checks|
    decreases |checks| - i
  {
    if i == |checks| then []
    else (if checks[i] then [] else [messages[i]]) + ErrorsFrom(checks, messages, i + 1)
  }

  function Errors(d: Dialect, config: WhitelabelConfig): seq<string>
  {
    ErrorsFrom(Checks(d, config), Messages, 0)
  }

  /** The indices of the failed checks from `i` on, ascending. */
  function Failing(checks: seq<bool>, i: nat): seq<nat>
    requires i <= |checks|
    decreases |checks| - i
  {
    if i == |checks| then [] else (if checks[i] then [] else [i]) + Failing(checks, i + 1)
  }

  /** `Failing` lists exactly the failed checks, each once, in ascending order. */
  lemma {:induction false} FailingIsAscending(checks: seq<bool>, i: nat)
    requires i <= |checks|
    ensures var f := Failing(checks, i);
      && (forall k :: 0 <= k < |f| ==> i <= f[k] < |checks| && !checks[f[k]])
      && (forall k, l :: 0 <= k < l < |f| ==> f[k] < f[l])
      && (forall j :: i <= j < |checks| && !checks[j] ==> j in f)
    decreases |checks| - i
  {
    if i < |checks| {
      FailingIsAscending(checks, i + 1);
    }
  }

  /** The error list is the messages of the failed checks, in check order. */
  lemma {:induction false} ErrorsAreFailedMessages(checks: seq<bool>, messages: seq<string>, i: nat)
    requires |checks| == |messages| && i <= |checks|
    ensures var f := Failing(checks, i);
      |ErrorsFrom(checks, messages, i)| == |f|
      && forall k :: 0 <= k < |f| ==> f[k] < |messages| && ErrorsFrom(checks, messages, i)[k] == messages[f[k]]
    decreases |checks| - i
  {
    if i < |checks| {
      ErrorsAreFailedMessages(checks, messages, i + 1);
      var f, e := Failing(checks, i + 1), ErrorsFrom(checks, messages, i + 1);
      if checks[i] {
        assert Failing(checks, i) == f && ErrorsFrom(checks, messages, i) == e;
      } else {
        var f', e' := [i] + f, [messages[i]] + e;
        assert Failing(checks, i) == f' && ErrorsFrom(checks, messages, i) == e';
        assert forall k :: 1 <= k < |f'| ==> f'[k] == f[k - 1] && e'[k] == e[k - 1];
      }
    }
  }

  /** No message at all exactly when every check passes. */
  lemma {:induction false} NoErrorsIffAllPass(checks: seq<bool>, messages: seq<string>, i: nat)
    requires |checks| == |messages| && i <= |checks|
    ensures ErrorsFrom(checks, messages, i) == [] <==> forall j :: i <= j < |checks| ==> checks[j]
    decreases |checks| - i
  {
    if i < |checks| {
      NoErrorsIffAllPass(checks, messages, i + 1);
    }
  }

  /** `validateConfig` / the list `validate_config` builds: one `push` per
      failed check, in order. */
  method ValidateConfig(d: Dialect, config: WhitelabelConfig) returns (errors: seq<string>)
    ensures errors == Errors(d, config)
  {
    ghost var c := Checks(d, config);
    var app := config.app;
    var prefix := config.project.bundleIdPrefix;
    errors := [];
    if !StartsWith(app.mainBundleId, prefix) {
      errors := errors + [MainPrefixMessage];
    }
    assert errors == Message(c[0], MainPrefixMessage);
    if !StartsWith(app.clipBundleId, prefix) {
      errors := errors + [ClipPrefixMessage];
    }
    ghost var e1 := Message(c[1], ClipPrefixMessage);
    assert errors == Message(c[0], MainPrefixMessage) + e1;
    if !EndsWith(app.clipBundleId, ".Clip") {
      errors := errors + [ClipSuffixMessage];
    }
    ghost var e2 := Message(c[2], ClipSuffixMessage);
    assert errors == Message(c[0], MainPrefixMessage) + e1 + e2;
    if !StructNameMatches(d, app.structName) {
      errors := errors + [StructNameMessage];
    }
    ghost var e3 := Message(c[3], StructNameMessage);
    assert errors == Message(c[0], MainPrefixMessage) + e1 + e2 + e3;
    if !HasWebScheme(app.startURL) {
      errors := errors + [StartUrlMessage];
    }
    ghost var e4 := Message(c[4], StartUrlMessage);
    assert errors == Message(c[0], MainPrefixMessage) + e1 + e2 + e3 + e4;
    ErrorsUnrolled(c, Messages);
  }

  function Message(ok: bool, message: string): seq<string>
  {
    if ok then [] else [message]
  }

  /** The recursion of `ErrorsFrom` written out for five checks. */
  lemma ErrorsUnrolled(c: seq<bool>, m: seq<string>)
    requires |c| == |m| == 5
    ensures ErrorsFrom(c, m, 0)
      == Message(c[0], m[0]) + Message(c[1], m[1]) + Message(c[2], m[2]) + Message(c[3], m[3])
         + Message(c[4], m[4])
  {
    var e0, e1, e2, e3, e4 := Message(c[0], m[0]), Message(c[1], m[1]), Message(c[2], m[2]),
      Message(c[3], m[3]), Message(c[4], m[4]);
    assert ErrorsFrom(c, m, 4) == e4 + [] == e4;
    assert ErrorsFrom(c, m, 3) == e3 + e4;
    assert ErrorsFrom(c, m, 2) == e2 + (e3 + e4);
    assert ErrorsFrom(c, m, 1) == e1 + (e2 + (e3 + e4));
    assert ErrorsFrom(c, m, 0) == e0 + (e1 + (e2 + (e3 + e4)));
    AppendAssoc(e2, e3, e4);
    AppendAssoc(e1, e2 + e3, e4);
    AppendAssoc(e1, e2, e3);
    AppendAssoc(e0, e1 + e2 + e3, e4);
    AppendAssoc(e0, e1 + e2, e3);
    AppendAssoc(e0, e1, e2);
  }

  /** The run goes on exactly when all five checks pass. */
  lemma NoErrorsIffValid(d: Dialect, config: WhitelabelConfig)
    ensures var app := config.app;
      Errors(d, config) == [] <==>
        StartsWith(app.mainBundleId, config.project.bundleIdPrefix)
        && StartsWith(app.clipBundleId, config.project.bundleIdPrefix)
        && EndsWith(app.clipBundleId, ".Clip") && StructNameMatches(d, app.structName)
        && HasWebScheme(app.startURL)
  {
    var c := Checks(d, config);
    NoErrorsIffAllPass(c, Messages, 0);
    assert (forall j :: 0 <= j < |c| ==> c[j]) <==> c[0] && c[1] && c[2] && c[3] && c[4];
  }

  /** Every check runs: the messages are those of all failed checks, each
      once, in the fixed order main prefix, clip prefix, `.Clip` suffix,
      struct name, URL scheme. */
  lemma ErrorsInCheckOrder(d: Dialect, config: WhitelabelConfig)
    ensures var c, e, f := Checks(d, config), Errors(d, config), Failing(Checks(d, config), 0);
      && |e| == |f|
      && (forall k :: 0 <= k < |f| ==> f[k] < |Messages| && !c[f[k]] && e[k] == Messages[f[k]])
      && (forall k, l :: 0 <= k < l < |f| ==> f[k] < f[l])
      && (forall j :: 0 <= j < |c| && !c[j] ==> j in f)
  {
    FailingIsAscending(Checks(d, config), 0);
    ErrorsAreFailedMessages(Checks(d, config), Messages, 0);
  }

  /** A clip identifier that lacks only the `.Clip` suffix yields exactly one
      message. */
  lemma OnlyClipSuffixFails(d: Dialect, config: WhitelabelConfig)
    requires StartsWith(config.app.mainBundleId, config.project.bundleIdPrefix)
    requires StartsWith(config.app.clipBundleId, config.project.bundleIdPrefix)
    requires !EndsWith(config.app.clipBundleId, ".Clip")
    requires StructNameMatches(d, config.app.structName) && HasWebScheme(config.app.startURL)
    ensures Errors(d, config) == [ClipSuffixMessage]
  {
    var c := Checks(d, config);
    ErrorsUnrolled(c, Messages);
    assert Message(c[2], Messages[2]) == [ClipSuffixMessage];
  }

  /** An empty prefix satisfies both prefix checks. */
  lemma EmptyPrefixPassesPrefixChecks(d: Dialect, config: WhitelabelConfig)
    requires config.project.bundleIdPrefix == ""
    ensures Checks(d, config)[0] && Checks(d, config)[1]
  {
  }

  /** The empty struct name is not an identifier, and the scheme test does
      not ignore case. */
  lemma EmptyNameAndUpperSchemeFail(d: Dialect)
    ensures !StructNameMatches(d, "")
    ensures !HasWebScheme("HTTPS://x")
  {
    assert "HTTPS://x"[0] != "http://"[0];
    assert "HTTPS://x"[0] != "https://"[0];
  }

  /** An identifier followed by one newline passes the Python check and
      fails the TypeScript one. */
  lemma TrailingNewlineDiverges(name: string)
    requires IsIdentifier(name)
    ensures StructNameMatches(Python, name + "\n")
    ensures !StructNameMatches(TypeScript, name + "\n")
  {
    var s := name + "\n";
    assert s[..|s| - 1] == name;
    assert !IsIdentPart(s[|s| - 1]);
  }

  /** The Python script ends the run with status 1 when any check failed
      and otherwise goes on. */
  method ValidateOrExit(config: WhitelabelConfig) returns (outcome: Outcome<()>)
    ensures outcome == Exit(1) <==> Errors(Python, config) != []
    ensures outcome == Continue(()) <==> Errors(Python, config) == []
  {
    var errors := ValidateConfig(Python, config);
    if |errors| > 0 {
      return Exit(1);
    }
    return Continue(());
  }
}
