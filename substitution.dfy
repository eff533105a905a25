/** Placeholder substitution: `replace_variables` in generate_whitelabel.py
    and `replaceVariables` in cli/src/utils.ts.

    The variables are key/value pairs in the order of the dictionary or
    object they come from. For each key in turn, every occurrence of
    `${key}` in the current text is replaced by the value, scanning once from
    left to right; a later key's pass sees the text that earlier passes
    inserted, but no pass rescans its own insertions. */
module Substitution {
  import opened Text
  import opened Replace
  import opened Dialects

  /** One entry of the mapping. */
  datatype Binding = Binding(key: string, value: string)

  type Variables = seq<Binding>

  /** The token `${key}`. */
  function Placeholder(key: string): string
  {
    "${" + key + "}"
  }

  /** The result of substituting every pair of `vars`, in order. */
  function Substitute(d: Dialect, content: string, vars: Variables): string
    decreases |vars|
  {
    if vars == [] then content
    else
      Substitute(d, Scan(content, Placeholder(vars[0].key), ReplacementOf(d, vars[0].value), Anywhere), vars[1..])
  }

  // ---------------------------------------------------------------------
  // The TypeScript port builds a regular expression from the placeholder
  // with `placeholder.replace(/[.*+?^${}()|[\]\\]/g, '\\$&')`.

  /** The characters that expression puts a backslash before. */
  predicate IsRegexMeta(c: char)
  {
    c == '.' || c == '*' || c == '+' || c == '?' || c == '^' || c == '$' || c == '{' || c == '}'
    || c == '(' || c == ')' || c == '|' || c == '[' || c == ']' || c == '\\'
  }

  function Escape(s: string): string
    decreases |s|
  {
    if |s| == 0 then ""
    else (if IsRegexMeta(s[0]) then ['\\', s[0]] else [s[0]]) + Escape(s[1..])
  }

  /** A regular expression built only of ordinary characters and
      backslash-escaped characters. */
  predicate IsPlainRegex(p: string)
    decreases |p|
  {
    if |p| == 0 then true
    else if p[0] == '\\' then |p| >= 2 && IsPlainRegex(p[2..])
    else !IsRegexMeta(p[0]) && IsPlainRegex(p[1..])
  }

  /** The one string a plain regular expression matches: an escaped
      character stands for itself. */
  function LiteralOf(p: string): string
    requires IsPlainRegex(p)
    decreases |p|
  {
    if |p| == 0 then ""
    else if p[0] == '\\' then [p[1]] + LiteralOf(p[2..])
    else [p[0]] + LiteralOf(p[1..])
  }

  /** Escaping yields a plain expression that matches exactly the original
      text, so `${key}` is searched for literally, whatever the key holds. */
  lemma {:induction false} EscapeMatchesLiterally(s: string)
    ensures IsPlainRegex(Escape(s)) && LiteralOf(Escape(s)) == s
    decreases |s|
  {
    if |s| > 0 {
      EscapeMatchesLiterally(s[1..]);
      var rest := Escape(s[1..]);
      if IsRegexMeta(s[0]) {
        var e := ['\\', s[0]] + rest;
        assert e[2..] == rest;
        assert LiteralOf(e) == [s[0]] + LiteralOf(rest);
      } else {
        var e := [s[0]] + rest;
        assert e[1..] == rest;
        assert LiteralOf(e) == [s[0]] + LiteralOf(rest);
      }
      assert s == [s[0]] + s[1..];
    }
  }

  /** The loop of both implementations. The TypeScript branch searches for
      the text its escaped regular expression matches. */
  method ReplaceVariables(d: Dialect, content: string, vars: Variables) returns (result: string)
    ensures result == Substitute(d, content, vars)
  {
    result := content;
    for i := 0 to |vars|
      invariant Substitute(d, result, vars[i..]) == Substitute(d, content, vars)
    {
      var key, value := vars[i].key, vars[i].value;
      var placeholder := Placeholder(key);
      var needle := placeholder;
      if d == TypeScript {
        var pattern := Escape(placeholder);
        EscapeMatchesLiterally(placeholder);
        needle := LiteralOf(pattern);
      }
      result := Scan(result, needle, ReplacementOf(d, value), Anywhere);
      assert vars[i..][1..] == vars[i + 1..];
    }
  }

  // ---------------------------------------------------------------------
  // Properties of the substitution.

  /** Content holding none of the tokens comes back unchanged; in particular
      an empty mapping changes nothing. */
  lemma {:induction false} NoPlaceholderUnchanged(d: Dialect, content: string, vars: Variables)
    requires forall i :: 0 <= i < |vars| ==> !Contains(content, Placeholder(vars[i].key))
    ensures Substitute(d, content, vars) == content
    decreases |vars|
  {
    if vars != [] {
      var key, value := vars[0].key, vars[0].value;
      var p := Placeholder(key);
      assert !Contains(content, p);
      NoMatchLeavesUnchanged(content, p, ReplacementOf(d, value), Anywhere, 0);
      NoPlaceholderUnchanged(d, content, vars[1..]);
    }
  }

  /** Running the substitution again changes nothing once no token of any
      key is left in its result. */
  lemma SecondPassUnchanged(d: Dialect, content: string, vars: Variables)
    requires forall i :: 0 <= i < |vars| ==> !Contains(Substitute(d, content, vars), Placeholder(vars[i].key))
    ensures Substitute(d, Substitute(d, content, vars), vars) == Substitute(d, content, vars)
  {
    NoPlaceholderUnchanged(d, Substitute(d, content, vars), vars);
  }

  /** Without that condition a second pass can change the text: the value of
      `a` completes a token `${a}` around the one it replaced. */
  lemma SubstitutionNotIdempotent()
    ensures Substitute(Python, "${${a}}", [Binding("a", "a")]) == "${a}"
    ensures Substitute(Python, "${a}", [Binding("a", "a")]) == "a"
  {
    var s := "${${a}}";
    var p := Placeholder("a");
    assert p == "${a}";
    var r := Literal("a");
    assert !OccursAt(s, p, 0) by { assert s[2] != p[2]; }
    assert !OccursAt(s, p, 1) by { assert s[1] != p[0]; }
    assert OccursAt(s, p, 2) by { assert s[2..][..4] == p; }
    assert !OccursAt(s, p, 6);
    assert ScanFrom(s, p, r, Anywhere, 6) == "}";
    assert ScanFrom(s, p, r, Anywhere, 2) == "a}";
    assert ScanFrom(s, p, r, Anywhere, 0) == "${a}";
    assert OccursAt(p, p, 0);
    assert ScanFrom(p, p, r, Anywhere, 0) == "a";
  }

  /** When no value holds a '$' both implementations compute the same text. */
  lemma {:induction false} DialectsAgreeWithoutDollar(content: string, vars: Variables)
    requires forall i :: 0 <= i < |vars| ==> NoDollar(vars[i].value)
    ensures Substitute(TypeScript, content, vars) == Substitute(Python, content, vars)
    decreases |vars|
  {
    if vars != [] {
      var key, value := vars[0].key, vars[0].value;
      TemplateWithoutDollarIsLiteral(content, Placeholder(key), value, Anywhere, 0);
      var next := Scan(content, Placeholder(key), Literal(value), Anywhere);
      DialectsAgreeWithoutDollar(next, vars[1..]);
    }
  }

  /** A value holding `$&` is inserted as written by the Python script but
      is read as "the matched text" by the TypeScript port. */
  lemma DollarPatternDiverges()
    ensures Substitute(Python, "${a}", [Binding("a", "$&")]) == "$&"
    ensures Substitute(TypeScript, "${a}", [Binding("a", "$&")]) == "${a}"
  {
    var p := Placeholder("a");
    assert OccursAt(p, p, 0);
    assert p[..0] == "" && p[4..] == "";
    assert Expand("$&", p, "", "") == p + Expand("", p, "", "");
    assert ScanFrom(p, p, JsTemplate("$&"), Anywhere, 0) == p;
    assert ScanFrom(p, p, Literal("$&"), Anywhere, 0) == "$&";
  }

  /** Order matters: a later key's pass sees what an earlier one inserted. */
  lemma LaterKeysSeeEarlierValues()
    ensures Substitute(Python, "${a}", [Binding("a", "${b}"), Binding("b", "x")]) == "x"
    ensures Substitute(Python, "${a}", [Binding("b", "x"), Binding("a", "${b}")]) == "${b}"
  {
    var pa := Placeholder("a");
    var pb := Placeholder("b");
    assert OccursAt(pa, pa, 0) && OccursAt(pb, pb, 0);
    assert ScanFrom(pa, pa, Literal("${b}"), Anywhere, 0) == pb;
    assert ScanFrom(pb, pb, Literal("x"), Anywhere, 0) == "x";
    assert !OccursAt(pa, pb, 0) by { assert pa[2] != pb[2]; }
    NoMatchLeavesUnchanged(pa, pb, Literal("x"), Anywhere, 0);
  }

  // ---------------------------------------------------------------------
  // The TypeScript port's re-check of the renamed entitlement files tests
  // `/\$\{[^}]+\}/` before substituting again.

  /** No '}' at the indices from `lo` up to `hi`. */
  predicate NoBraceBetween(c: string, lo: nat, hi: nat)
    requires hi <= |c|
  {
    forall m :: lo <= m < hi ==> c[m] != '}'
  }

  /** Some `${` is followed by at least one character other than '}' and
      then a '}'. */
  predicate HasPlaceholder(c: string)
  {
    exists i, j :: 0 <= i && i + 2 < j < |c| && c[i] == '$' && c[i + 1] == '{' && c[j] == '}'
      && NoBraceBetween(c, i + 2, j)
  }

  /** The token of a non-empty key without '}' is such a placeholder. */
  lemma TokenIsPlaceholder(c: string, key: string)
    requires |key| > 0 && '}' !in key && Contains(c, Placeholder(key))
    ensures HasPlaceholder(c)
  {
    var p := Placeholder(key);
    var i :| 0 <= i <= |c| && OccursAt(c, p, i);
    var j := i + 2 + |key|;
    var t := c[i..][..|p|];
    assert t == p;
    assert c[i] == t[0] == '$' && c[i + 1] == t[1] == '{' && c[j] == t[j - i] == '}';
    forall m | i + 2 <= m < j ensures c[m] != '}' {
      assert c[m] == t[m - i] == key[m - i - 2];
    }
    assert NoBraceBetween(c, i + 2, j);
  }

  /** The re-check only skips substitutions that would change nothing: with
      keys that are non-empty and free of '}', text without a placeholder is
      a fixed point of the substitution. */
  lemma GuardedRecheckIsSubstitution(d: Dialect, c: string, vars: Variables)
    requires forall i :: 0 <= i < |vars| ==> |vars[i].key| > 0 && '}' !in vars[i].key
    requires !HasPlaceholder(c)
    ensures Substitute(d, c, vars) == c
  {
    forall i | 0 <= i < |vars| ensures !Contains(c, Placeholder(vars[i].key)) {
      if Contains(c, Placeholder(vars[i].key)) {
        TokenIsPlaceholder(c, vars[i].key);
      }
    }
    NoPlaceholderUnchanged(d, c, vars);
  }
}
