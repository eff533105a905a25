/** Literal search-and-replace as the two generators perform it.

    Python's `str.replace(p, r)` and `re.sub` on a pattern without
    metacharacters, and JavaScript's `String.prototype.replace` with a global
    regular expression built from an escaped literal, all scan the ORIGINAL
    string from left to right, take the leftmost occurrence, insert the
    replacement and resume after the occurrence, so that inserted text is never
    scanned again. `ScanFrom` is that scan. It is parameterised by where a
    match may start (anywhere, or only at the start of a line as `^` with the
    multiline flag) and by how the replacement text is produced (literally in
    Python, through ECMAScript's GetSubstitution in JavaScript). */
module Replace {
  import opened Text

  /** Python's multiline `^` only looks at '\n'; ECMAScript's also at '\r',
      U+2028 and U+2029. */
  datatype LineBreaks = PythonBreaks | JsBreaks

  predicate IsBreak(b: LineBreaks, c: char)
  {
    c == '\n' || (b == JsBreaks && (c == '\r' || c == '\U{2028}' || c == '\U{2029}'))
  }

  predicate HasNoBreak(b: LineBreaks, s: string)
  {
    forall i :: 0 <= i < |s| ==> !IsBreak(b, s[i])
  }

  datatype Anchor = Anywhere | LineStart(breaks: LineBreaks)

  /** Whether a match may start at index `i` of `s`. */
  predicate AnchorHolds(a: Anchor, s: string, i: nat)
    requires i <= |s|
  {
    match a
    case Anywhere => true
    case LineStart(b) => i == 0 || IsBreak(b, s[i - 1])
  }

  datatype Replacement = Literal(text: string) | JsTemplate(text: string)

  /** ECMAScript GetSubstitution for a pattern with no capture groups:
      `$$` gives '$', `$&` the matched text, `` $` `` the text before the
      match, `$'` the text after it; any other '$' (including `$1` and `$<`,
      which have no group to refer to) stands for itself. */
  function Expand(t: string, matched: string, before: string, after: string): string
    decreases |t|
  {
    if |t| == 0 then ""
    else if t[0] == '$' && |t| >= 2 && t[1] == '$' then "$" + Expand(t[2..], matched, before, after)
    else if t[0] == '$' && |t| >= 2 && t[1] == '&' then matched + Expand(t[2..], matched, before, after)
    else if t[0] == '$' && |t| >= 2 && t[1] == '`' then before + Expand(t[2..], matched, before, after)
    else if t[0] == '$' && |t| >= 2 && t[1] == '\'' then after + Expand(t[2..], matched, before, after)
    else [t[0]] + Expand(t[1..], matched, before, after)
  }

  predicate NoDollar(t: string)
  {
    forall i :: 0 <= i < |t| ==> t[i] != '$'
  }

  /** A template without '$' expands to itself. */
  lemma {:induction false} ExpandWithoutDollar(t: string, matched: string, before: string, after: string)
    requires NoDollar(t)
    ensures Expand(t, matched, before, after) == t
    decreases |t|
  {
    if |t| > 0 {
      assert t[0] != '$';
      assert Expand(t, matched, before, after) == [t[0]] + Expand(t[1..], matched, before, after);
      ExpandWithoutDollar(t[1..], matched, before, after);
      assert t == [t[0]] + t[1..];
    }
  }

  /** The text that replaces the occurrence of `p` at index `i` of `s`. */
  function Inserted(r: Replacement, s: string, i: nat, p: string): string
    requires i + |p| <= |s|
  {
    match r
    case Literal(t) => t
    case JsTemplate(t) => Expand(t, p, s[..i], s[i + |p|..])
  }

  predicate MatchesAt(s: string, p: string, a: Anchor, i: nat)
    requires i <= |s|
  {
    OccursAt(s, p, i) && AnchorHolds(a, s, i)
  }

  /** The global replacement of `p` by `r` in `s`, scanning from index `i`. */
  function ScanFrom(s: string, p: string, r: Replacement, a: Anchor, i: nat): string
    requires |p| > 0 && i <= |s|
    decreases |s| - i
  {
    if i == |s| then ""
    else if MatchesAt(s, p, a, i) then Inserted(r, s, i, p) + ScanFrom(s, p, r, a, i + |p|)
    else [s[i]] + ScanFrom(s, p, r, a, i + 1)
  }

  function Scan(s: string, p: string, r: Replacement, a: Anchor): string
    requires |p| > 0
  {
    ScanFrom(s, p, r, a, 0)
  }

  /** Python `s.replace(p, r)` for a non-empty `p`. */
  function ReplaceAll(s: string, p: string, r: string): string
    requires |p| > 0
  {
    Scan(s, p, Literal(r), Anywhere)
  }

  /** JavaScript `s.replace(p, r)` with a string pattern: only the first
      occurrence is replaced, and `r` goes through GetSubstitution. */
  function ReplaceFirstFrom(s: string, p: string, r: string, i: nat): string
    requires |p| > 0 && i <= |s|
    decreases |s| - i
  {
    if OccursAt(s, p, i) then Inserted(JsTemplate(r), s, i, p) + s[i + |p|..]
    else if i == |s| then ""
    else [s[i]] + ReplaceFirstFrom(s, p, r, i + 1)
  }

  function ReplaceFirst(s: string, p: string, r: string): string
    requires |p| > 0
  {
    ReplaceFirstFrom(s, p, r, 0)
  }

  // ---------------------------------------------------------------------
  // One step of each scan, and the sequence facts the proofs chain.

  lemma ScanMatchStep(s: string, p: string, r: Replacement, a: Anchor, i: nat)
    requires |p| > 0 && i < |s| && MatchesAt(s, p, a, i)
    ensures i + |p| <= |s|
    ensures ScanFrom(s, p, r, a, i) == Inserted(r, s, i, p) + ScanFrom(s, p, r, a, i + |p|)
  {
  }

  lemma ScanSkipStep(s: string, p: string, r: Replacement, a: Anchor, i: nat)
    requires |p| > 0 && i < |s| && !MatchesAt(s, p, a, i)
    ensures ScanFrom(s, p, r, a, i) == [s[i]] + ScanFrom(s, p, r, a, i + 1)
  {
  }

  lemma FirstSkipStep(s: string, p: string, r: string, i: nat)
    requires |p| > 0 && i < |s| && !OccursAt(s, p, i)
    ensures ReplaceFirstFrom(s, p, r, i) == [s[i]] + ReplaceFirstFrom(s, p, r, i + 1)
  {
  }

  lemma FirstMatchStep(s: string, p: string, r: string, i: nat)
    requires |p| > 0 && i <= |s| && OccursAt(s, p, i)
    ensures i + |p| <= |s|
    ensures ReplaceFirstFrom(s, p, r, i) == Inserted(JsTemplate(r), s, i, p) + s[i + |p|..]
  {
  }

  lemma AppendAssoc<T>(x: seq<T>, y: seq<T>, z: seq<T>)
    ensures x + (y + z) == (x + y) + z
  {
  }

  lemma ConsSlice(s: string, i: nat, j: nat)
    requires i < j <= |s|
    ensures s[i..j] == [s[i]] + s[i + 1..j]
  {
  }

  lemma ConsSuffix(s: string, i: nat)
    requires i < |s|
    ensures s[i..] == [s[i]] + s[i + 1..]
  {
  }

  /** An occurrence of `p` at `i` splits the rest of `s` after `p`. */
  lemma OccurrenceSplits(s: string, p: string, i: nat)
    requires OccursAt(s, p, i)
    ensures i + |p| <= |s| && s[i..] == p + s[i + |p|..]
  {
    assert s[i..] == s[i..][..|p|] + s[i..][|p|..];
  }

  // ---------------------------------------------------------------------
  // Properties of the scans.

  /** Where no match can start, the scan copies the string unchanged. */
  lemma {:induction false} NoMatchLeavesUnchanged(s: string, p: string, r: Replacement, a: Anchor, i: nat)
    requires |p| > 0 && i <= |s|
    requires forall j :: i <= j <= |s| ==> !MatchesAt(s, p, a, j)
    ensures ScanFrom(s, p, r, a, i) == s[i..]
    decreases |s| - i
  {
    if i < |s| {
      ScanSkipStep(s, p, r, a, i);
      NoMatchLeavesUnchanged(s, p, r, a, i + 1);
      ConsSuffix(s, i);
    }
  }

  /** Before the leftmost occurrence the replace-first copies the text. */
  lemma {:induction false} ReplaceFirstSkips(s: string, p: string, r: string, i: nat, j: nat)
    requires |p| > 0 && i <= j <= |s|
    requires forall k :: i <= k < j ==> !OccursAt(s, p, k)
    ensures ReplaceFirstFrom(s, p, r, i) == s[i..j] + ReplaceFirstFrom(s, p, r, j)
    decreases j - i
  {
    if i < j {
      FirstSkipStep(s, p, r, i);
      ReplaceFirstSkips(s, p, r, i + 1, j);
      ConsSlice(s, i, j);
      AppendAssoc([s[i]], s[i + 1..j], ReplaceFirstFrom(s, p, r, j));
    } else {
      assert s[i..j] == [];
    }
  }

  /** The replace-first inserts the replacement at the leftmost occurrence
      and copies everything else. */
  lemma ReplaceFirstAtLeftmost(s: string, p: string, r: string, j: nat)
    requires |p| > 0 && j <= |s| && OccursAt(s, p, j)
    requires forall k :: 0 <= k < j ==> !OccursAt(s, p, k)
    ensures ReplaceFirst(s, p, r) == s[..j] + Inserted(JsTemplate(r), s, j, p) + s[j + |p|..]
  {
    ReplaceFirstSkips(s, p, r, 0, j);
    var ins := Inserted(JsTemplate(r), s, j, p);
    assert ReplaceFirstFrom(s, p, r, j) == ins + s[j + |p|..];
    assert s[..j] == s[0..j];
    AppendAssoc(s[..j], ins, s[j + |p|..]);
  }

  /** Without an occurrence the replace-first leaves the text as it is. */
  lemma {:induction false} ReplaceFirstWithoutOccurrence(s: string, p: string, r: string, i: nat)
    requires |p| > 0 && i <= |s|
    requires forall k :: i <= k <= |s| ==> !OccursAt(s, p, k)
    ensures ReplaceFirstFrom(s, p, r, i) == s[i..]
    decreases |s| - i
  {
    if i < |s| {
      FirstSkipStep(s, p, r, i);
      ReplaceFirstWithoutOccurrence(s, p, r, i + 1);
      ConsSuffix(s, i);
    }
  }

  /** A template without '$' inserts exactly its own text, so the JavaScript
      scan then agrees with the Python one. */
  lemma {:induction false} TemplateWithoutDollarIsLiteral(s: string, p: string, t: string, a: Anchor, i: nat)
    requires |p| > 0 && i <= |s| && NoDollar(t)
    ensures ScanFrom(s, p, JsTemplate(t), a, i) == ScanFrom(s, p, Literal(t), a, i)
    decreases |s| - i
  {
    if i == |s| {
    } else if MatchesAt(s, p, a, i) {
      ScanMatchStep(s, p, JsTemplate(t), a, i);
      ScanMatchStep(s, p, Literal(t), a, i);
      ExpandWithoutDollar(t, p, s[..i], s[i + |p|..]);
      TemplateWithoutDollarIsLiteral(s, p, t, a, i + |p|);
    } else {
      ScanSkipStep(s, p, JsTemplate(t), a, i);
      ScanSkipStep(s, p, Literal(t), a, i);
      TemplateWithoutDollarIsLiteral(s, p, t, a, i + 1);
    }
  }

  /** The scan from `i` that replaces `p` by itself reproduces `s[i..]`. */
  predicate SelfFrom(s: string, p: string, a: Anchor, i: nat)
    requires |p| > 0 && i <= |s|
  {
    ScanFrom(s, p, Literal(p), a, i) == s[i..]
  }

  /** Replacing `p` by itself changes nothing. */
  lemma ReplaceBySelf(s: string, p: string, a: Anchor)
    requires |p| > 0
    ensures Scan(s, p, Literal(p), a) == s
  {
    SelfFromAll(s, p, a, 0);
    assert s[0..] == s;
  }

  lemma {:induction false} SelfFromAll(s: string, p: string, a: Anchor, i: nat)
    requires |p| > 0 && i <= |s|
    ensures SelfFrom(s, p, a, i) == true
    decreases |s| - i
  {
    if i == |s| {
    } else if MatchesAt(s, p, a, i) {
      SelfFromAll(s, p, a, i + |p|);
      SelfAfterMatch(s, p, a, i);
    } else {
      SelfFromAll(s, p, a, i + 1);
      SelfAfterSkip(s, p, a, i);
    }
  }

  lemma SelfAfterMatch(s: string, p: string, a: Anchor, i: nat)
    requires |p| > 0 && i < |s| && MatchesAt(s, p, a, i)
    requires i + |p| <= |s| && SelfFrom(s, p, a, i + |p|) == true
    ensures SelfFrom(s, p, a, i) == true
  {
    ScanMatchStep(s, p, Literal(p), a, i);
    OccurrenceSplits(s, p, i);
  }

  lemma SelfAfterSkip(s: string, p: string, a: Anchor, i: nat)
    requires |p| > 0 && i < |s| && !MatchesAt(s, p, a, i)
    requires SelfFrom(s, p, a, i + 1) == true
    ensures SelfFrom(s, p, a, i) == true
  {
    ScanSkipStep(s, p, Literal(p), a, i);
    ConsSuffix(s, i);
  }

  /** Replacing the first occurrence of `p` by `p` itself changes nothing,
      when `p` holds no '$'. */
  lemma {:induction false} ReplaceFirstBySelf(s: string, p: string, i: nat)
    requires |p| > 0 && i <= |s| && NoDollar(p)
    ensures ReplaceFirstFrom(s, p, p, i) == s[i..]
    decreases |s| - i
  {
    if OccursAt(s, p, i) {
      FirstMatchStep(s, p, p, i);
      ExpandWithoutDollar(p, p, s[..i], s[i + |p|..]);
      OccurrenceSplits(s, p, i);
    } else if i < |s| {
      FirstSkipStep(s, p, p, i);
      ReplaceFirstBySelf(s, p, i + 1);
      ConsSuffix(s, i);
    }
  }

  /** On a text holding `p` twice in a row, replacing every occurrence
      rewrites both copies and replacing the first rewrites one. */
  lemma RepeatedPattern(p: string, r: string)
    requires |p| > 0 && NoDollar(r)
    ensures ReplaceAll(p + p, p, r) == r + r
    ensures ReplaceFirst(p + p, p, r) == r + p
  {
    var s := p + p;
    assert OccursAt(s, p, 0) by { assert s[0..][..|p|] == p; }
    assert OccursAt(s, p, |p|) by { assert s[|p|..][..|p|] == p; }
    ScanMatchStep(s, p, Literal(r), Anywhere, 0);
    ScanMatchStep(s, p, Literal(r), Anywhere, |p|);
    assert ScanFrom(s, p, Literal(r), Anywhere, |s|) == "";
    FirstMatchStep(s, p, r, 0);
    ExpandWithoutDollar(r, p, s[..0], s[|p|..]);
    assert s[|p|..] == p;
  }

  /** Replacing the first occurrence from `i` on gives the same text as
      replacing every occurrence. */
  predicate FirstIsAll(s: string, p: string, r: string, i: nat)
    requires |p| > 0 && i <= |s|
  {
    ReplaceFirstFrom(s, p, r, i) == ScanFrom(s, p, Literal(r), Anywhere, i)
  }

  /** Where `p` occurs at most once, at `m`, and the replacement holds no
      '$', replacing the first occurrence and replacing every occurrence
      give the same text. */
  lemma FirstAgreesWithAll(s: string, p: string, r: string, m: nat)
    requires |p| > 0 && NoDollar(r)
    requires forall j :: 0 <= j <= |s| && OccursAt(s, p, j) ==> j == m
    ensures ReplaceFirst(s, p, r) == ReplaceAll(s, p, r)
  {
    FirstAgreesFrom(s, p, r, m, 0);
  }

  lemma {:induction false} FirstAgreesFrom(s: string, p: string, r: string, m: nat, i: nat)
    requires |p| > 0 && i <= |s| && NoDollar(r)
    requires forall j :: i <= j <= |s| && OccursAt(s, p, j) ==> j == m
    ensures FirstIsAll(s, p, r, i) == true
    decreases |s| - i
  {
    if OccursAt(s, p, i) {
      FirstAgreesAtOccurrence(s, p, r, i);
    } else if i < |s| {
      FirstSkipStep(s, p, r, i);
      ScanSkipStep(s, p, Literal(r), Anywhere, i);
      FirstAgreesFrom(s, p, r, m, i + 1);
    } else {
      assert ReplaceFirstFrom(s, p, r, i) == [];
    }
  }

  /** At the only occurrence both replace it and copy the rest. */
  lemma FirstAgreesAtOccurrence(s: string, p: string, r: string, i: nat)
    requires |p| > 0 && i <= |s| && NoDollar(r) && OccursAt(s, p, i)
    requires forall j :: i < j <= |s| ==> !OccursAt(s, p, j)
    ensures FirstIsAll(s, p, r, i) == true
  {
    assert i + |p| <= |s|;
    NoMatchLeavesUnchanged(s, p, Literal(r), Anywhere, i + |p|);
    FirstMatchStep(s, p, r, i);
    ExpandWithoutDollar(r, p, s[..i], s[i + |p|..]);
    ScanMatchStep(s, p, Literal(r), Anywhere, i);
  }

  // ---------------------------------------------------------------------
  // Line-anchored replacement, read line by line.

  /** Length of the first line of `s`, its terminating break included. */
  function FirstLineLength(s: string, b: LineBreaks): (k: nat)
    ensures k <= |s|
    ensures |s| > 0 ==> k > 0
    ensures 0 < k < |s| ==> IsBreak(b, s[k - 1])
  {
    if |s| == 0 then 0
    else if IsBreak(b, s[0]) then 1
    else 1 + FirstLineLength(s[1..], b)
  }

  /** Length of the line of `s` that starts at index `i`. */
  function LineLengthAt(s: string, b: LineBreaks, i: nat): (k: nat)
    requires i <= |s|
    ensures i + k <= |s|
    ensures i < |s| ==> k > 0
  {
    FirstLineLength(s[i..], b)
  }

  /** Only the last character of a line can be a break. */
  lemma {:induction false} FirstLineInterior(s: string, b: LineBreaks, j: nat)
    requires j + 1 < FirstLineLength(s, b)
    ensures !IsBreak(b, s[j])
    decreases j
  {
    if j > 0 {
      FirstLineInterior(s[1..], b, j - 1);
      assert s[1..][j - 1] == s[j];
    }
  }

  /** One line, with the prefix `p` replaced when the line begins with it. */
  function RenameLine(line: string, p: string, t: string): string
  {
    if StartsWith(line, p) then t + line[|p|..] else line
  }

  /** Reference reading of a line-anchored global replacement: split `s` into
      lines and rename each line independently. */
  function PerLine(s: string, p: string, t: string, b: LineBreaks): string
    decreases |s|
  {
    if |s| == 0 then ""
    else
      var k := FirstLineLength(s, b);
      RenameLine(s[..k], p, t) + PerLine(s[k..], p, t, b)
  }

  /** The line-anchored rename scan from index `i`, and the per-line
      reading of the same suffix. The proofs below work on these two names
      and take each step of the underlying recursions from a step lemma. */
  function Anchored(s: string, p: string, t: string, b: LineBreaks, i: nat): string
    requires |p| > 0 && i <= |s|
  {
    ScanFrom(s, p, Literal(t), LineStart(b), i)
  }

  function PerLineFrom(s: string, p: string, t: string, b: LineBreaks, i: nat): string
    requires i <= |s|
  {
    PerLine(s[i..], p, t, b)
  }

  lemma AnchoredMatchStep(s: string, p: string, t: string, b: LineBreaks, i: nat)
    requires |p| > 0 && i < |s| && MatchesAt(s, p, LineStart(b), i)
    ensures i + |p| <= |s| && Anchored(s, p, t, b, i) == t + Anchored(s, p, t, b, i + |p|)
  {
    ScanMatchStep(s, p, Literal(t), LineStart(b), i);
  }

  lemma AnchoredSkipStep(s: string, p: string, t: string, b: LineBreaks, i: nat)
    requires |p| > 0 && i < |s| && !MatchesAt(s, p, LineStart(b), i)
    ensures Anchored(s, p, t, b, i) == [s[i]] + Anchored(s, p, t, b, i + 1)
  {
    ScanSkipStep(s, p, Literal(t), LineStart(b), i);
  }

  /** Positions that are not line starts are copied. */
  lemma {:induction false} CopyThrough(s: string, p: string, t: string, b: LineBreaks, j: nat, m: nat)
    requires |p| > 0 && j <= m <= |s|
    requires forall q :: j <= q < m ==> !AnchorHolds(LineStart(b), s, q)
    ensures Anchored(s, p, t, b, j) == s[j..m] + Anchored(s, p, t, b, m)
    decreases m - j
  {
    if j < m {
      AnchoredSkipStep(s, p, t, b, j);
      CopyThrough(s, p, t, b, j + 1, m);
      ConsSlice(s, j, m);
      AppendAssoc([s[j]], s[j + 1..m], Anchored(s, p, t, b, m));
    } else {
      assert s[j..m] == [];
    }
  }

  /** On the line starting at `i`, an occurrence of a break-free `p` at `i`
      is the same thing as the line beginning with `p`. */
  lemma LineBeginsWith(s: string, p: string, b: LineBreaks, i: nat, k: nat)
    requires |p| > 0 && HasNoBreak(b, p) && i < |s| && k == LineLengthAt(s, b, i)
    ensures OccursAt(s, p, i) <==> StartsWith(s[i..i + k], p)
  {
    var rest := s[i..];
    assert s[i..i + k] == rest[..k];
  }

  /** Inside a line no position is a line start. */
  lemma LineInterior(s: string, b: LineBreaks, i: nat, k: nat)
    requires i < |s| && k == LineLengthAt(s, b, i)
    ensures forall q :: i < q < i + k ==> !AnchorHolds(LineStart(b), s, q)
  {
    var rest := s[i..];
    forall q | i < q < i + k
      ensures !AnchorHolds(LineStart(b), s, q)
    {
      FirstLineInterior(rest, b, q - 1 - i);
      assert s[q - 1] == rest[q - 1 - i];
    }
  }

  lemma OneLineMatch(s: string, p: string, t: string, b: LineBreaks, i: nat, k: nat)
    requires |p| > 0 && i < |s| && MatchesAt(s, p, LineStart(b), i)
    requires k == LineLengthAt(s, b, i) && |p| <= k
    ensures Anchored(s, p, t, b, i) == t + s[i + |p|..i + k] + Anchored(s, p, t, b, i + k)
  {
    LineInterior(s, b, i, k);
    AnchoredMatchStep(s, p, t, b, i);
    CopyThrough(s, p, t, b, i + |p|, i + k);
    AppendAssoc(t, s[i + |p|..i + k], Anchored(s, p, t, b, i + k));
  }

  lemma OneLineSkip(s: string, p: string, t: string, b: LineBreaks, i: nat, k: nat)
    requires |p| > 0 && i < |s| && !MatchesAt(s, p, LineStart(b), i)
    requires k == LineLengthAt(s, b, i)
    ensures Anchored(s, p, t, b, i) == s[i..i + k] + Anchored(s, p, t, b, i + k)
  {
    LineInterior(s, b, i, k);
    AnchoredSkipStep(s, p, t, b, i);
    CopyThrough(s, p, t, b, i + 1, i + k);
    ConsSlice(s, i, i + k);
    AppendAssoc([s[i]], s[i + 1..i + k], Anchored(s, p, t, b, i + k));
  }

  /** From the start of a line, the anchored scan emits that line renamed
      and continues at the start of the next line. */
  lemma OneLine(s: string, p: string, t: string, b: LineBreaks, i: nat, k: nat, n: nat)
    requires |p| > 0 && HasNoBreak(b, p) && i < |s|
    requires AnchorHolds(LineStart(b), s, i)
    requires k == LineLengthAt(s, b, i) && n == i + k
    ensures Anchored(s, p, t, b, i) == RenameLine(s[i..n], p, t) + Anchored(s, p, t, b, n)
  {
    var line := s[i..i + k];
    LineBeginsWith(s, p, b, i, k);
    if StartsWith(line, p) {
      OneLineMatch(s, p, t, b, i, k);
      assert line[|p|..] == s[i + |p|..i + k];
    } else {
      OneLineSkip(s, p, t, b, i, k);
    }
  }

  /** One line of the per-line reading: the line at `i`, renamed, followed
      by the rest. */
  lemma PerLineStep(s: string, p: string, t: string, b: LineBreaks, i: nat, k: nat, n: nat)
    requires i < |s| && k == LineLengthAt(s, b, i) && n == i + k
    ensures PerLineFrom(s, p, t, b, i) == RenameLine(s[i..n], p, t) + PerLineFrom(s, p, t, b, n)
  {
    var rest := s[i..];
    assert rest[..k] == s[i..i + k];
    assert rest[k..] == s[i + k..];
  }

  /** `^p` with the multiline flag renames exactly the lines that begin with
      `p`, provided `p` contains no line break. */
  lemma AnchoredIsPerLine(s: string, p: string, t: string, b: LineBreaks)
    requires |p| > 0 && HasNoBreak(b, p)
    ensures Scan(s, p, Literal(t), LineStart(b)) == PerLine(s, p, t, b)
  {
    AnchoredFrom(s, p, t, b, 0);
    assert s[0..] == s;
  }

  lemma {:induction false} AnchoredFrom(s: string, p: string, t: string, b: LineBreaks, i: nat)
    requires |p| > 0 && HasNoBreak(b, p) && i <= |s|
    requires AnchorHolds(LineStart(b), s, i)
    ensures Anchored(s, p, t, b, i) == PerLineFrom(s, p, t, b, i)
    decreases |s| - i
  {
    if i == |s| {
      NothingLeft(s, p, t, b, i);
    } else {
      var k := LineLengthAt(s, b, i);
      var n := i + k;
      if n < |s| {
        LineEndIsLineStart(s, b, i, k, n);
        AnchoredFrom(s, p, t, b, n);
        LineThenRest(s, p, t, b, i, k, n);
      } else {
        LastLine(s, p, t, b, i, k, n);
      }
    }
  }

  /** If the scan from the next line start `n` agrees with the per-line
      reading, so does the scan from this one. */
  lemma LineThenRest(s: string, p: string, t: string, b: LineBreaks, i: nat, k: nat, n: nat)
    requires |p| > 0 && HasNoBreak(b, p) && i < |s| && AnchorHolds(LineStart(b), s, i)
    requires k == LineLengthAt(s, b, i) && n == i + k
    requires Anchored(s, p, t, b, n) == PerLineFrom(s, p, t, b, n)
    ensures Anchored(s, p, t, b, i) == PerLineFrom(s, p, t, b, i)
  {
    OneLine(s, p, t, b, i, k, n);
    PerLineStep(s, p, t, b, i, k, n);
  }

  /** The last line is renamed on its own. */
  lemma LastLine(s: string, p: string, t: string, b: LineBreaks, i: nat, k: nat, n: nat)
    requires |p| > 0 && HasNoBreak(b, p) && i < |s| && AnchorHolds(LineStart(b), s, i)
    requires k == LineLengthAt(s, b, i) && n == i + k == |s|
    ensures Anchored(s, p, t, b, i) == PerLineFrom(s, p, t, b, i)
  {
    NothingLeft(s, p, t, b, n);
    LineThenRest(s, p, t, b, i, k, n);
  }

  lemma NothingLeft(s: string, p: string, t: string, b: LineBreaks, i: nat)
    requires |p| > 0 && i == |s|
    ensures Anchored(s, p, t, b, i) == PerLineFrom(s, p, t, b, i) == ""
  {
    assert s[i..] == [];
  }

  /** The position after a line that is not the last is a line start. */
  lemma LineEndIsLineStart(s: string, b: LineBreaks, i: nat, k: nat, n: nat)
    requires i < |s| && k == LineLengthAt(s, b, i) && n == i + k < |s|
    ensures AnchorHolds(LineStart(b), s, n)
  {
    var rest := s[i..];
    assert rest[k - 1] == s[i + k - 1];
  }
}
