/** The filter that keeps build products, version-control data and the
    generator's own files out of a generated project: `should_exclude` in
    generate_whitelabel.py and `shouldExclude` in cli/src/utils.ts.

    A path is given relative to the template root, with '/' between its
    components. A pattern that starts with '*' is a suffix pattern; any other
    pattern excludes a path that contains it anywhere or whose last component
    equals it. */
module Exclusion {
  import opened Text
  import opened Dialects

  /** The eight patterns both lists begin with. */
  const CommonPatterns: seq<string> := [
    ".git", ".gitignore", "*.xcodeproj", "*.xcworkspace", "DerivedData", ".DS_Store",
    "__pycache__", "*.pyc"
  ]

  /** `EXCLUDE_PATTERNS` of generate_whitelabel.py. */
  const PythonPatterns: seq<string> := CommonPatterns + [
    "generate_whitelabel.py", "whitelabel.config.json", "cyango.config.json", "WHITELABEL.md"
  ]

  /** `EXCLUDE_PATTERNS` of cli/src/utils.ts. */
  const TypeScriptPatterns: seq<string> := CommonPatterns + ["cli", ".cursor", ".claude"]

  function Patterns(d: Dialect): seq<string>
  {
    match d
    case Python => PythonPatterns
    case TypeScript => TypeScriptPatterns
  }

  /** Python's `Path.name` and Node's `path.basename` on a path without a
      trailing separator: the text after the last '/'. */
  function Basename(path: string): (name: string)
    ensures EndsWith(path, name)
    ensures '/' !in name
    ensures |name| < |path| ==> path[|path| - |name| - 1] == '/'
    decreases |path|
  {
    if |path| == 0 || path[|path| - 1] == '/' then ""
    else Basename(path[..|path| - 1]) + [path[|path| - 1]]
  }

  /** `relPath.replace(/\\/g, '/')`: every backslash becomes a slash. */
  function Normalise(path: string): (r: string)
    ensures |r| == |path| && '\\' !in r
    ensures forall i :: 0 <= i < |path| && path[i] != '\\' ==> r[i] == path[i]
  {
    seq(|path|, i requires 0 <= i < |path| => if path[i] == '\\' then '/' else path[i])
  }

  /** The string the patterns are matched against. */
  function PathString(d: Dialect, rel: string): string
  {
    match d
    case Python => rel
    case TypeScript => Normalise(rel)
  }

  /** One pattern against the path string and the last component. Only the
      TypeScript port also tests a suffix pattern against the last component. */
  predicate PatternMatches(d: Dialect, pattern: string, pathStr: string, name: string)
  {
    if StartsWith(pattern, "*") then
      EndsWith(pathStr, pattern[1..]) || (d == TypeScript && EndsWith(name, pattern[1..]))
    else
      Contains(pathStr, pattern) || name == pattern
  }

  predicate Excluded(d: Dialect, rel: string)
  {
    exists k :: 0 <= k < |Patterns(d)| && PatternMatches(d, Patterns(d)[k], PathString(d, rel), Basename(rel))
  }

  /** The body of the loop for one pattern. */
  method MatchPattern(d: Dialect, pattern: string, pathStr: string, name: string) returns (matched: bool)
    ensures matched <==> PatternMatches(d, pattern, pathStr, name)
  {
    if StartsWith(pattern, "*") {
      var suffix := pattern[1..];
      matched := EndsWith(pathStr, suffix) || (d == TypeScript && EndsWith(name, suffix));
    } else {
      matched := Contains(pathStr, pattern) || name == pattern;
    }
  }

  /** The loop over a pattern list, returning at the first pattern that
      matches. */
  method AnyPatternMatches(d: Dialect, patterns: seq<string>, pathStr: string, name: string) returns (found: bool)
    ensures found <==> exists k :: 0 <= k < |patterns| && PatternMatches(d, patterns[k], pathStr, name)
  {
    for k := 0 to |patterns|
      invariant forall j :: 0 <= j < k ==> !PatternMatches(d, patterns[j], pathStr, name)
    {
      var matched := MatchPattern(d, patterns[k], pathStr, name);
      if matched {
        return true;
      }
    }
    return false;
  }

  /** `should_exclude` / `shouldExclude`: the loop over the dialect's list,
      on the path string and its last component. */
  method ShouldExclude(d: Dialect, rel: string) returns (excluded: bool)
    ensures excluded <==> Excluded(d, rel)
  {
    excluded := AnyPatternMatches(d, Patterns(d), PathString(d, rel), Basename(rel));
  }

  // ---------------------------------------------------------------------
  // A reference reading: a suffix pattern ends the raw path, a plain
  // pattern occurs in it.

  predicate SimpleMatch(pattern: string, rel: string)
  {
    if StartsWith(pattern, "*") then EndsWith(rel, pattern[1..]) else Contains(rel, pattern)
  }

  predicate SimplyExcluded(d: Dialect, rel: string)
  {
    exists k :: 0 <= k < |Patterns(d)| && SimpleMatch(Patterns(d)[k], rel)
  }

  predicate HasNoSeparator(p: string)
  {
    '/' !in p && '\\' !in p
  }

  lemma CommonPatternsHaveNoSeparator()
    ensures forall k :: 0 <= k < |CommonPatterns| ==> HasNoSeparator(CommonPatterns[k])
  {
  }

  lemma ScriptNameHasNoSeparator()
    ensures HasNoSeparator("generate_whitelabel.py")
  {
  }

  lemma ConfigNameHasNoSeparator()
    ensures HasNoSeparator("whitelabel.config.json")
  {
  }

  lemma LegacyConfigNameHasNoSeparator()
    ensures HasNoSeparator("cyango.config.json")
  {
  }

  lemma DocumentationNameHasNoSeparator()
    ensures HasNoSeparator("WHITELABEL.md")
  {
  }

  lemma PythonOnlyPatternsHaveNoSeparator()
    ensures forall k :: 8 <= k < |PythonPatterns| ==> HasNoSeparator(PythonPatterns[k])
  {
    ScriptNameHasNoSeparator();
    ConfigNameHasNoSeparator();
    LegacyConfigNameHasNoSeparator();
    DocumentationNameHasNoSeparator();
    forall k | 8 <= k < |PythonPatterns|
      ensures HasNoSeparator(PythonPatterns[k])
    {
      if k == 8 {
        assert PythonPatterns[k] == "generate_whitelabel.py";
      } else if k == 9 {
        assert PythonPatterns[k] == "whitelabel.config.json";
      } else if k == 10 {
        assert PythonPatterns[k] == "cyango.config.json";
      } else {
        assert PythonPatterns[k] == "WHITELABEL.md";
      }
    }
  }

  lemma TypeScriptOnlyPatternsHaveNoSeparator()
    ensures forall k :: 8 <= k < |TypeScriptPatterns| ==> HasNoSeparator(TypeScriptPatterns[k])
  {
  }

  lemma PatternsHaveNoSeparator(d: Dialect)
    ensures forall k :: 0 <= k < |Patterns(d)| ==> HasNoSeparator(Patterns(d)[k])
  {
    CommonPatternsHaveNoSeparator();
    PythonOnlyPatternsHaveNoSeparator();
    TypeScriptOnlyPatternsHaveNoSeparator();
    var ps := Patterns(d);
    forall k | 0 <= k < |ps| ensures HasNoSeparator(ps[k]) {
      if k < 8 {
        assert ps[k] == CommonPatterns[k];
      }
    }
  }

  /** Normalising separators neither creates nor destroys an occurrence of a
      text without separators. */
  lemma NormalisedOccurs(s: string, p: string, i: nat)
    requires HasNoSeparator(p) && i <= |s|
    ensures OccursAt(Normalise(s), p, i) <==> OccursAt(s, p, i)
  {
    var n := Normalise(s);
    if |p| <= |s| - i {
      if OccursAt(s, p, i) {
        forall j | 0 <= j < |p| ensures n[i + j] == p[j] {
          assert s[i..][j] == p[j];
        }
        assert n[i..][..|p|] == p;
      }
      if OccursAt(n, p, i) {
        forall j | 0 <= j < |p| ensures s[i + j] == p[j] {
          assert n[i..][j] == p[j];
          assert p[j] != '/' && p[j] != '\\';
        }
        assert s[i..][..|p|] == p;
      }
    }
  }

  lemma NormalisedContains(s: string, p: string)
    requires HasNoSeparator(p)
    ensures Contains(Normalise(s), p) <==> Contains(s, p)
  {
    if Contains(s, p) {
      var i :| 0 <= i <= |s| && OccursAt(s, p, i);
      NormalisedOccurs(s, p, i);
    }
    if Contains(Normalise(s), p) {
      var i :| 0 <= i <= |s| && OccursAt(Normalise(s), p, i);
      NormalisedOccurs(s, p, i);
    }
  }

  lemma NormalisedEndsWith(s: string, suffix: string)
    requires HasNoSeparator(suffix)
    ensures EndsWith(Normalise(s), suffix) <==> EndsWith(s, suffix)
  {
    EndsWithOccurs(s, suffix);
    EndsWithOccurs(Normalise(s), suffix);
    if |suffix| <= |s| {
      NormalisedOccurs(s, suffix, |s| - |suffix|);
    }
  }

  /** For one pattern without separators, the dialect's test agrees with the
      reference: the backslash normalisation and the tests on the last
      component never change the verdict. */
  lemma PatternMatchesSimply(d: Dialect, pattern: string, rel: string)
    requires HasNoSeparator(pattern)
    ensures PatternMatches(d, pattern, PathString(d, rel), Basename(rel)) <==> SimpleMatch(pattern, rel)
  {
    if StartsWith(pattern, "*") {
      var suffix := pattern[1..];
      assert HasNoSeparator(suffix) by {
        assert forall c :: c in suffix ==> c in pattern;
      }
      SuffixMatchesSimply(d, suffix, rel);
    } else {
      PlainMatchesSimply(d, pattern, rel);
    }
  }

  /** A suffix pattern: the last component ends the path, so a suffix of it
      ends the path too. */
  lemma SuffixMatchesSimply(d: Dialect, suffix: string, rel: string)
    requires HasNoSeparator(suffix)
    ensures EndsWith(PathString(d, rel), suffix) || (d == TypeScript && EndsWith(Basename(rel), suffix))
      <==> EndsWith(rel, suffix)
  {
    var name := Basename(rel);
    if d == TypeScript {
      NormalisedEndsWith(rel, suffix);
      if EndsWith(name, suffix) {
        EndsWithTrans(rel, name, suffix);
      }
    }
  }

  /** A plain pattern: a last component equal to it occurs in the path. */
  lemma PlainMatchesSimply(d: Dialect, pattern: string, rel: string)
    requires HasNoSeparator(pattern)
    ensures Contains(PathString(d, rel), pattern) || Basename(rel) == pattern <==> Contains(rel, pattern)
  {
    var name := Basename(rel);
    if d == TypeScript {
      NormalisedContains(rel, pattern);
    }
    if name == pattern {
      EndsWithOccurs(rel, name);
      assert OccursAt(rel, pattern, |rel| - |name|);
    }
  }

  /** Both filters exclude exactly the paths that end with the text of a
      suffix pattern or contain a plain pattern. */
  lemma ExclusionIsSuffixOrSubstring(d: Dialect, rel: string)
    ensures Excluded(d, rel) <==> SimplyExcluded(d, rel)
  {
    PatternsHaveNoSeparator(d);
    var ps := Patterns(d);
    forall k | 0 <= k < |ps|
      ensures PatternMatches(d, ps[k], PathString(d, rel), Basename(rel)) <==> SimpleMatch(ps[k], rel)
    {
      PatternMatchesSimply(d, ps[k], rel);
    }
  }

  /** `.git` is a plain pattern, so it also excludes `.github/...`,
      `.gitignore` and `.gitattributes`. */
  lemma GitSubstringExcluded(d: Dialect, rel: string)
    requires Contains(rel, ".git")
    ensures Excluded(d, rel)
  {
    ExclusionIsSuffixOrSubstring(d, rel);
    var git := Patterns(d)[0];
    assert git == ".git" && git[0] != '*';
    assert SimpleMatch(git, rel);
  }

  /** The TypeScript list holds the plain pattern `cli`, so every path that
      contains those three letters anywhere is excluded, not only the `cli`
      directory. */
  lemma CliSubstringExcluded(rel: string)
    requires Contains(rel, "cli")
    ensures Excluded(TypeScript, rel)
  {
    ExclusionIsSuffixOrSubstring(TypeScript, rel);
    var cli := Patterns(TypeScript)[8];
    assert cli == "cli" && cli[0] != '*';
    assert SimpleMatch(cli, rel);
  }

  /** A suffix's characters all occur in a text that ends with it. */
  lemma SuffixCharOccurs(rel: string, suffix: string, j: nat)
    requires j < |suffix|
    ensures EndsWith(rel, suffix) ==> suffix[j] in rel
  {
    if EndsWith(rel, suffix) {
      assert rel[|rel| - |suffix| + j] == suffix[j];
    }
  }

  /** A path missing one of the characters of a pattern's text is not
      matched by it. */
  lemma AbsentCharNotMatched(pattern: string, rel: string, j: nat)
    requires 0 < j < |pattern| && pattern[j] !in rel
    ensures !SimpleMatch(pattern, rel)
  {
    if StartsWith(pattern, "*") {
      SuffixCharOccurs(rel, pattern[1..], j - 1);
    } else {
      AbsentCharNotContained(rel, pattern, j);
    }
  }

  /** "WHITELABEL.md" contains none of the eight common patterns: each of
      them holds a character the name lacks. */
  lemma DocumentationMissesCommonAt(k: nat)
    requires k < |CommonPatterns|
    ensures !SimpleMatch(CommonPatterns[k], "WHITELABEL.md")
  {
    var doc := "WHITELABEL.md";
    var p := CommonPatterns[k];
    if k == 0 {
      assert p == ".git" && 'g' !in doc;
    } else if k == 1 {
      assert p == ".gitignore" && 'g' !in doc;
    } else if k == 2 {
      assert p == "*.xcodeproj" && 'x' !in doc;
    } else if k == 3 {
      assert p == "*.xcworkspace" && 'x' !in doc;
    } else if k == 4 {
      assert p == "DerivedData" && 'e' !in doc;
    } else if k == 5 {
      assert p == ".DS_Store" && 'S' !in doc;
    } else if k == 6 {
      assert p == "__pycache__" && 'p' !in doc;
    } else {
      assert p == "*.pyc" && 'p' !in doc;
    }
    AbsentCharNotMatched(p, doc, 2);
  }

  lemma TypeScriptPatternsMissDocumentation()
    ensures forall k :: 0 <= k < |TypeScriptPatterns| ==> !SimpleMatch(TypeScriptPatterns[k], "WHITELABEL.md")
  {
    var doc := "WHITELABEL.md";
    forall k | 0 <= k < |TypeScriptPatterns|
      ensures !SimpleMatch(TypeScriptPatterns[k], doc)
    {
      if k < 8 {
        assert TypeScriptPatterns[k] == CommonPatterns[k];
        DocumentationMissesCommonAt(k);
      } else {
        assert TypeScriptPatterns[k] in {"cli", ".cursor", ".claude"};
        assert 'l' !in doc && 'c' !in doc;
        AbsentCharNotMatched(TypeScriptPatterns[k], doc, 1);
      }
    }
  }

  lemma DocumentationKeptByTypeScript()
    ensures !Excluded(TypeScript, "WHITELABEL.md")
  {
    TypeScriptPatternsMissDocumentation();
    ExclusionIsSuffixOrSubstring(TypeScript, "WHITELABEL.md");
  }

  /** The Python script keeps its own documentation out; the command-line
      port copies it. */
  lemma DocumentationDiverges()
    ensures Excluded(Python, "WHITELABEL.md") && !Excluded(TypeScript, "WHITELABEL.md")
  {
    var doc := "WHITELABEL.md";
    var own := Patterns(Python)[11];
    assert own == doc && own[0] != '*';
    assert OccursAt(doc, doc, 0);
    assert SimpleMatch(own, doc);
    ExclusionIsSuffixOrSubstring(Python, doc);
    DocumentationKeptByTypeScript();
  }

  /** No pattern of the Python list occurs in "cli": all are longer. */
  lemma PythonPatternsMissCli()
    ensures forall k :: 0 <= k < |PythonPatterns| ==> !SimpleMatch(PythonPatterns[k], "cli")
  {
    forall k | 0 <= k < |PythonPatterns|
      ensures !SimpleMatch(PythonPatterns[k], "cli")
    {
      var p := PythonPatterns[k];
      if k == 0 {
        assert p == ".git";
      } else {
        assert |p| >= 5 by {
          if k < 8 { assert p == CommonPatterns[k]; }
        }
      }
    }
  }

  /** The command-line port keeps its own `cli` directory out, and with it
      everything below; the Python script copies it. */
  lemma CliDirectoryDiverges()
    ensures !Excluded(Python, "cli") && Excluded(TypeScript, "cli")
  {
    assert OccursAt("cli", "cli", 0);
    PythonPatternsMissCli();
    ExclusionIsSuffixOrSubstring(Python, "cli");
    CliSubstringExcluded("cli");
  }
}
