/** The template copy: `copy_template` / `copy_recursive` in
    generate_whitelabel.py and `copyTemplate` / `copyRecursive` in
    cli/src/generator.ts.

    A path is a sequence of components. The template is a tree of entries
    read as it is before the copy starts; the output directory is an object
    holding the directories and files created under it, each keyed by its
    path relative to the output directory, which is also its path relative
    to the template. */
module Copy {
  import opened Wrappers
  import opened Text
  import opened Dialects
  import opened Exclusion

  type Path = seq<string>

  datatype Entry = File(name: string, content: string) | Dir(name: string, children: seq<Entry>)

  /** The components joined with '/', as `str(rel_path)` on POSIX and
      `path.relative` print them. */
  function Join(p: Path): string
    decreases |p|
  {
    if |p| == 0 then ""
    else if |p| == 1 then p[0]
    else p[0] + "/" + Join(p[1..])
  }

  // ---------------------------------------------------------------------
  // Is the output inside the template?

  /** Python's `output_path.relative_to(template_path)` succeeds exactly
      when the template's components begin the output's. */
  predicate Inside(template: Path, output: Path)
  {
    template <= output
  }

  /** Number of leading components two paths share. */
  function CommonLength(a: Path, b: Path): (n: nat)
    ensures n <= |a| && n <= |b| && a[..n] == b[..n]
    ensures n < |a| && n < |b| ==> a[n] != b[n]
    decreases |a|
  {
    if |a| == 0 || |b| == 0 || a[0] != b[0] then 0
    else
      var n := 1 + CommonLength(a[1..], b[1..]);
      assert a[..n] == [a[0]] + a[1..][..n - 1];
      assert b[..n] == [b[0]] + b[1..][..n - 1];
      n
  }

  function Ups(n: nat): (r: Path)
    ensures |r| == n && forall i :: 0 <= i < n ==> r[i] == ".."
  {
    seq(n, i => "..")
  }

  /** Node's `path.relative(from, to)` for two resolved absolute paths: one
      `..` per component of `from` below the common part, then the rest of
      `to`. */
  function Relative(from: Path, to: Path): Path
  {
    var n := CommonLength(from, to);
    Ups(|from| - n) + to[n..]
  }

  /** The TypeScript port's test, as written: the relative path does not
      start with the two characters `..` (it is never absolute on POSIX). */
  predicate InsideAsWritten(template: Path, output: Path)
  {
    !StartsWith(Join(Relative(template, output)), "..")
  }

  lemma JoinStart(p: Path)
    requires |p| > 0
    ensures StartsWith(Join(p), "..") <==> StartsWith(p[0], "..")
  {
    if |p| > 1 {
      var j := p[0] + "/" + Join(p[1..]);
      assert Join(p) == j;
      if |p[0]| >= 2 {
        assert j[..2] == p[0][..2];
      } else if |p[0]| == 1 {
        assert j[1] == '/';
      } else {
        assert j[0] == '/';
      }
    }
  }

  lemma CommonOfPrefix(a: Path, b: Path)
    requires a <= b
    ensures CommonLength(a, b) == |a|
  {
    assert forall k :: 0 <= k < |a| ==> a[k] == b[k];
  }

  lemma CommonOfAll(a: Path, b: Path)
    ensures CommonLength(a, b) == |a| ==> a <= b
  {
    var n := CommonLength(a, b);
    if n == |a| {
      assert a == a[..n];
    }
  }

  /** The test as written agrees with the component test except when the
      output's first component below the template begins with `..`. */
  lemma InsideAsWrittenCharacterised(template: Path, output: Path)
    ensures InsideAsWritten(template, output)
      <==> (Inside(template, output)
            && (|output| == |template| || !StartsWith(output[|template|], "..")))
  {
    var n := CommonLength(template, output);
    var rel := Relative(template, output);
    if Inside(template, output) {
      CommonOfPrefix(template, output);
      assert rel == output[|template|..];
      if |output| > |template| {
        JoinStart(rel);
      }
    } else {
      CommonOfAll(template, output);
      assert rel[0] == "..";
      JoinStart(rel);
    }
  }

  /** A child of the template called `..x` is inside it, but the test as
      written says it is not; the copy then walks into its own output. */
  lemma DotDotChildMisjudged()
    ensures Inside(["t"], ["t", "..x"]) && !InsideAsWritten(["t"], ["t", "..x"])
  {
    InsideAsWrittenCharacterised(["t"], ["t", "..x"]);
    assert StartsWith("..x", "..");
  }

  /** The inside test the walk uses: Python's `relative_to` test, and the
      test the TypeScript port evidently intends. The TypeScript port as
      written uses `InsideAsWritten`, which `DotDotChildMisjudged` shows
      to differ. */
  function OutputInside(template: Path, output: Path): bool
  {
    Inside(template, output)
  }

  // ---------------------------------------------------------------------
  // The walk, as a function of the template tree

  /** What the walk needs to know: the dialect (for the exclusion list)
      and, when the output is inside the template, its path relative to the
      template. */
  datatype Context = Context(d: Dialect, outRel: Option<Path>)

  function MakeContext(d: Dialect, template: Path, output: Path): (ctx: Context)
    ensures ctx.outRel.Some? <==> Inside(template, output)
    ensures ctx.outRel.Some? ==> template + ctx.outRel.value == output
  {
    if OutputInside(template, output) then Context(d, Some(output[|template|..])) else Context(d, None)
  }

  /** A source is skipped when it is at or under the output (when that is
      inside the template) or when the exclusion patterns match it. */
  predicate Skipped(ctx: Context, rel: Path)
  {
    (ctx.outRel.Some? && ctx.outRel.value <= rel) || Excluded(ctx.d, Join(rel))
  }

  /** Directories created and files written, keyed by relative path. */
  datatype Copied = Copied(dirs: set<Path>, files: map<Path, string>)

  const Nothing := Copied({}, map[])

  /** `b` happening after `a`: a file written twice keeps the later text. */
  function Then(a: Copied, b: Copied): Copied
  {
    Copied(a.dirs + b.dirs, a.files + b.files)
  }

  /** `copy_recursive(template/rel, output/rel)` for the entry `e` at
      `base + [e.name]`. */
  function Visit(ctx: Context, e: Entry, base: Path): Copied
    decreases e, 2, 0
  {
    var rel := base + [e.name];
    if Skipped(ctx, rel) then Nothing
    else match e
      case File(_, content) => Copied({}, map[rel := content])
      case Dir(_, _) => Then(Copied({rel}, map[]), VisitFrom(ctx, e, rel, 0))
  }

  /** A source at or under the output, or one the filter excludes, adds
      nothing. */
  lemma SkippedVisitsNothing(ctx: Context, e: Entry, base: Path)
    requires Skipped(ctx, base + [e.name])
    ensures Visit(ctx, e, base) == Nothing
  {
  }

  /** The children of directory `parent`, from the `i`-th on, in listing
      order. */
  function VisitFrom(ctx: Context, parent: Entry, base: Path, i: nat): Copied
    requires parent.Dir? && i <= |parent.children|
    decreases parent, 1, |parent.children| - i
  {
    if i == |parent.children| then Nothing
    else Then(Visit(ctx, parent.children[i], base), VisitFrom(ctx, parent, base, i + 1))
  }

  /** The whole walk: every entry of the template directory `root`. */
  function CopyAll(ctx: Context, root: Entry): Copied
    requires root.Dir?
  {
    VisitFrom(ctx, root, [], 0)
  }

  // ---------------------------------------------------------------------
  // An independent description of the template's contents

  /** The entries hold a file at `sub` with text `c`. */
  predicate HasFile(entries: seq<Entry>, sub: Path, c: string)
    decreases |sub|, 1
  {
    |sub| > 0 && exists j :: 0 <= j < |entries| && FileIn(entries[j], sub, c)
  }

  predicate FileIn(e: Entry, sub: Path, c: string)
    requires |sub| > 0
    decreases |sub|, 0
  {
    e.name == sub[0]
    && if |sub| == 1 then e.File? && e.content == c
       else e.Dir? && HasFile(e.children, sub[1..], c)
  }

  /** The entries hold a directory at `sub`. */
  predicate HasDir(entries: seq<Entry>, sub: Path)
    decreases |sub|, 1
  {
    |sub| > 0 && exists j :: 0 <= j < |entries| && DirIn(entries[j], sub)
  }

  predicate DirIn(e: Entry, sub: Path)
    requires |sub| > 0
    decreases |sub|, 0
  {
    e.name == sub[0] && e.Dir?
    && (|sub| == 1 || HasDir(e.children, sub[1..]))
  }

  /** No prefix of `rel` longer than `n` components is skipped. */
  predicate KeptFrom(ctx: Context, rel: Path, n: nat)
  {
    forall k :: n < k <= |rel| ==> !Skipped(ctx, rel[..k])
  }

  predicate Kept(ctx: Context, rel: Path)
  {
    KeptFrom(ctx, rel, 0)
  }

  // ---------------------------------------------------------------------
  // Soundness: whatever is written comes from the template and was kept

  lemma {:induction false} VisitFilesSound(ctx: Context, e: Entry, base: Path, rel: Path)
    requires rel in Visit(ctx, e, base).files
    ensures |rel| > |base| && rel[..|base|] == base
    ensures FileIn(e, rel[|base|..], Visit(ctx, e, base).files[rel])
    ensures KeptFrom(ctx, rel, |base|)
    decreases e, 2, 0
  {
    var here := base + [e.name];
    if e.File? {
      FileVisitSound(ctx, e, base, rel);
    } else {
      VisitFromFilesSound(ctx, e, here, 0, rel);
      DirVisitFileSound(ctx, e, base, rel, Visit(ctx, e, base).files[rel]);
    }
  }

  lemma FileVisitSound(ctx: Context, e: Entry, base: Path, rel: Path)
    requires e.File? && rel in Visit(ctx, e, base).files
    ensures |rel| > |base| && rel[..|base|] == base
    ensures FileIn(e, rel[|base|..], Visit(ctx, e, base).files[rel])
    ensures KeptFrom(ctx, rel, |base|)
  {
    var here := base + [e.name];
    assert !Skipped(ctx, here);
    assert rel == here;
    assert rel[|base|..] == [e.name];
    KeptLast(ctx, rel, |base|);
  }

  /** A path found below directory `e` at `base + [e.name]`, read from
      `base`. */
  lemma DirVisitFileSound(ctx: Context, e: Entry, base: Path, rel: Path, c: string)
    requires e.Dir? && !Skipped(ctx, base + [e.name])
    requires |rel| > |base| + 1 && rel[..|base| + 1] == base + [e.name]
    requires HasFile(e.children, rel[|base| + 1..], c)
    requires KeptFrom(ctx, rel, |base| + 1)
    ensures |rel| > |base| && rel[..|base|] == base
    ensures FileIn(e, rel[|base|..], c)
    ensures KeptFrom(ctx, rel, |base|)
  {
    var here := base + [e.name];
    var sub := rel[|base|..];
    assert sub[0] == rel[|base|] == here[|base|] == e.name;
    assert sub[1..] == rel[|base| + 1..];
    assert rel[..|base|] == here[..|base|] == base;
  }

  lemma {:induction false} VisitFromFilesSound(ctx: Context, parent: Entry, base: Path, i: nat, rel: Path)
    requires parent.Dir? && i <= |parent.children|
    requires rel in VisitFrom(ctx, parent, base, i).files
    ensures |rel| > |base| && rel[..|base|] == base
    ensures HasFile(parent.children, rel[|base|..], VisitFrom(ctx, parent, base, i).files[rel])
    ensures KeptFrom(ctx, rel, |base|)
    decreases parent, 1, |parent.children| - i
  {
    var first := Visit(ctx, parent.children[i], base);
    var rest := VisitFrom(ctx, parent, base, i + 1);
    if rel in rest.files {
      VisitFromFilesSound(ctx, parent, base, i + 1, rel);
    } else {
      VisitFilesSound(ctx, parent.children[i], base, rel);
    }
  }

  lemma {:induction false} VisitDirsSound(ctx: Context, e: Entry, base: Path, rel: Path)
    requires rel in Visit(ctx, e, base).dirs
    ensures |rel| > |base| && rel[..|base|] == base
    ensures DirIn(e, rel[|base|..])
    ensures KeptFrom(ctx, rel, |base|)
    decreases e, 2, 0
  {
    var here := base + [e.name];
    assert !Skipped(ctx, here) && e.Dir?;
    if rel == here {
      DirItselfSound(ctx, e, base, rel);
    } else {
      assert rel in VisitFrom(ctx, e, here, 0).dirs;
      VisitFromDirsSound(ctx, e, here, 0, rel);
      DirBelowSound(ctx, e, base, rel);
    }
  }

  lemma DirItselfSound(ctx: Context, e: Entry, base: Path, rel: Path)
    requires e.Dir? && rel == base + [e.name] && !Skipped(ctx, rel)
    ensures |rel| > |base| && rel[..|base|] == base
    ensures DirIn(e, rel[|base|..])
    ensures KeptFrom(ctx, rel, |base|)
  {
    assert rel[|base|..] == [e.name];
    KeptLast(ctx, rel, |base|);
  }

  /** A path whose only component beyond `n` is not skipped is kept from
      `n`. */
  lemma KeptLast(ctx: Context, rel: Path, n: nat)
    requires |rel| == n + 1 && !Skipped(ctx, rel)
    ensures KeptFrom(ctx, rel, n)
  {
    forall k | n < k <= |rel| ensures !Skipped(ctx, rel[..k]) {
      assert rel[..k] == rel;
    }
  }

  lemma DirBelowSound(ctx: Context, e: Entry, base: Path, rel: Path)
    requires e.Dir? && !Skipped(ctx, base + [e.name])
    requires |rel| > |base| + 1 && rel[..|base| + 1] == base + [e.name]
    requires HasDir(e.children, rel[|base| + 1..])
    requires KeptFrom(ctx, rel, |base| + 1)
    ensures |rel| > |base| && rel[..|base|] == base
    ensures DirIn(e, rel[|base|..])
    ensures KeptFrom(ctx, rel, |base|)
  {
    var here := base + [e.name];
    var sub := rel[|base|..];
    assert sub[0] == rel[|base|] == here[|base|] == e.name;
    assert sub[1..] == rel[|base| + 1..];
    assert rel[..|base|] == here[..|base|] == base;
  }

  lemma {:induction false} VisitFromDirsSound(ctx: Context, parent: Entry, base: Path, i: nat, rel: Path)
    requires parent.Dir? && i <= |parent.children|
    requires rel in VisitFrom(ctx, parent, base, i).dirs
    ensures |rel| > |base| && rel[..|base|] == base
    ensures HasDir(parent.children, rel[|base|..])
    ensures KeptFrom(ctx, rel, |base|)
    decreases parent, 1, |parent.children| - i
  {
    if rel in VisitFrom(ctx, parent, base, i + 1).dirs {
      VisitFromDirsSound(ctx, parent, base, i + 1, rel);
    } else {
      VisitDirsSound(ctx, parent.children[i], base, rel);
    }
  }
  // ---------------------------------------------------------------------
  // Completeness: every template file and directory that is kept is copied

  lemma {:induction false} VisitFilesComplete(ctx: Context, e: Entry, base: Path, rel: Path, c: string)
    requires |rel| > |base| && rel[..|base|] == base
    requires FileIn(e, rel[|base|..], c) && KeptFrom(ctx, rel, |base|)
    ensures rel in Visit(ctx, e, base).files
    decreases e, 2, 0
  {
    var here := base + [e.name];
    var sub := rel[|base|..];
    assert rel[..|base| + 1] == here;
    assert !Skipped(ctx, rel[..|base| + 1]);
    if |sub| == 1 {
      assert rel == here;
    } else {
      var j :| 0 <= j < |e.children| && FileIn(e.children[j], sub[1..], c);
      assert sub[1..] == rel[|here|..];
      VisitFromFilesComplete(ctx, e, here, 0, rel, c, j);
    }
  }

  lemma {:induction false} VisitFromFilesComplete(ctx: Context, parent: Entry, base: Path, i: nat, rel: Path, c: string, j: nat)
    requires parent.Dir? && i <= j < |parent.children|
    requires |rel| > |base| && rel[..|base|] == base
    requires FileIn(parent.children[j], rel[|base|..], c) && KeptFrom(ctx, rel, |base|)
    ensures rel in VisitFrom(ctx, parent, base, i).files
    decreases parent, 1, |parent.children| - i
  {
    if i == j {
      VisitFilesComplete(ctx, parent.children[i], base, rel, c);
    } else {
      VisitFromFilesComplete(ctx, parent, base, i + 1, rel, c, j);
    }
  }

  lemma {:induction false} VisitDirsComplete(ctx: Context, e: Entry, base: Path, rel: Path)
    requires |rel| > |base| && rel[..|base|] == base
    requires DirIn(e, rel[|base|..]) && KeptFrom(ctx, rel, |base|)
    ensures rel in Visit(ctx, e, base).dirs
    decreases e, 2, 0
  {
    var here := base + [e.name];
    var sub := rel[|base|..];
    assert rel[..|base| + 1] == here;
    assert !Skipped(ctx, rel[..|base| + 1]);
    if |sub| == 1 {
      assert rel == here;
    } else {
      var j :| 0 <= j < |e.children| && DirIn(e.children[j], sub[1..]);
      assert sub[1..] == rel[|here|..];
      VisitFromDirsComplete(ctx, e, here, 0, rel, j);
    }
  }

  lemma {:induction false} VisitFromDirsComplete(ctx: Context, parent: Entry, base: Path, i: nat, rel: Path, j: nat)
    requires parent.Dir? && i <= j < |parent.children|
    requires |rel| > |base| && rel[..|base|] == base
    requires DirIn(parent.children[j], rel[|base|..]) && KeptFrom(ctx, rel, |base|)
    ensures rel in VisitFrom(ctx, parent, base, i).dirs
    decreases parent, 1, |parent.children| - i
  {
    if i == j {
      VisitDirsComplete(ctx, parent.children[i], base, rel);
    } else {
      VisitFromDirsComplete(ctx, parent, base, i + 1, rel, j);
    }
  }

  // ---------------------------------------------------------------------
  // What the copy produces

  /** A file lands at `rel` exactly when the template has a file there and
      no prefix of `rel` is skipped; its text is that of a template file at
      `rel`. */
  lemma CopiedFiles(ctx: Context, root: Entry, rel: Path)
    requires root.Dir?
    ensures rel in CopyAll(ctx, root).files
      ==> HasFile(root.children, rel, CopyAll(ctx, root).files[rel]) && Kept(ctx, rel)
    ensures forall c :: HasFile(root.children, rel, c) && Kept(ctx, rel) ==> rel in CopyAll(ctx, root).files
  {
    assert rel[..0] == [] && rel[0..] == rel;
    if rel in CopyAll(ctx, root).files {
      VisitFromFilesSound(ctx, root, [], 0, rel);
    }
    forall c | HasFile(root.children, rel, c) && Kept(ctx, rel)
      ensures rel in CopyAll(ctx, root).files
    {
      var j :| 0 <= j < |root.children| && FileIn(root.children[j], rel, c);
      VisitFromFilesComplete(ctx, root, [], 0, rel, c, j);
    }
  }

  /** A directory is created at `rel` exactly when the template has a
      directory there and no prefix of `rel` is skipped. */
  lemma CopiedDirs(ctx: Context, root: Entry, rel: Path)
    requires root.Dir?
    ensures rel in CopyAll(ctx, root).dirs <==> HasDir(root.children, rel) && Kept(ctx, rel)
  {
    assert rel[..0] == [] && rel[0..] == rel;
    if rel in CopyAll(ctx, root).dirs {
      VisitFromDirsSound(ctx, root, [], 0, rel);
    }
    if HasDir(root.children, rel) && Kept(ctx, rel) {
      var j :| 0 <= j < |root.children| && DirIn(root.children[j], rel);
      VisitFromDirsComplete(ctx, root, [], 0, rel, j);
    }
  }

  /** No source at or under the output is copied. */
  lemma NothingFromOutput(ctx: Context, root: Entry, rel: Path)
    requires root.Dir? && ctx.outRel.Some? && ctx.outRel.value <= rel
    ensures rel !in CopyAll(ctx, root).files && rel !in CopyAll(ctx, root).dirs
  {
    CopiedFiles(ctx, root, rel);
    CopiedDirs(ctx, root, rel);
    assert rel[..|rel|] == rel;
  }

  /** Below an excluded directory nothing is copied: its descendants are
      never visited. */
  lemma ExcludedPrunes(ctx: Context, root: Entry, rel: Path, k: nat)
    requires root.Dir? && 0 < k <= |rel| && Excluded(ctx.d, Join(rel[..k]))
    ensures rel !in CopyAll(ctx, root).files && rel !in CopyAll(ctx, root).dirs
  {
    CopiedFiles(ctx, root, rel);
    CopiedDirs(ctx, root, rel);
    assert Skipped(ctx, rel[..k]);
  }

  lemma {:induction false} AllSkippedFrom(ctx: Context, parent: Entry, base: Path, i: nat)
    requires parent.Dir? && i <= |parent.children|
    requires ctx.outRel.Some? && ctx.outRel.value <= base
    ensures VisitFrom(ctx, parent, base, i) == Nothing
    decreases |parent.children| - i
  {
    if i < |parent.children| {
      AllSkippedFrom(ctx, parent, base, i + 1);
      assert ctx.outRel.value <= base + [parent.children[i].name];
      assert Visit(ctx, parent.children[i], base) == Nothing;
      MergeEmpty(map[]);
    }
  }

  /** An output that is the template itself copies nothing: every source is
      at or under it. Removing such an output before the copy leaves an
      empty directory to list, with the same result. */
  lemma OutputIsTemplateCopiesNothing(d: Dialect, template: Path, root: Entry)
    requires root.Dir?
    ensures CopyAll(MakeContext(d, template, template), root) == Nothing
  {
    var ctx := MakeContext(d, template, template);
    assert ctx.outRel.value == [];
    AllSkippedFrom(ctx, root, [], 0);
  }

  /** The directory holding a file of the tree is a directory of the tree. */
  lemma {:induction false} FileParentIsDir(entries: seq<Entry>, sub: Path, c: string)
    requires HasFile(entries, sub, c) && |sub| > 1
    ensures HasDir(entries, sub[..|sub| - 1])
    decreases |sub|
  {
    var j :| 0 <= j < |entries| && FileIn(entries[j], sub, c);
    var e := entries[j];
    var parent := sub[..|sub| - 1];
    if |sub| > 2 {
      FileParentIsDir(e.children, sub[1..], c);
      assert sub[1..][..|sub| - 2] == parent[1..];
    } else {
      assert |parent| == 1;
    }
    assert DirIn(e, parent);
  }

  /** Every copied file's directory was copied too: the walk creates a
      directory before anything inside it. */
  lemma ParentCopied(ctx: Context, root: Entry, rel: Path)
    requires root.Dir? && rel in CopyAll(ctx, root).files && |rel| > 1
    ensures rel[..|rel| - 1] in CopyAll(ctx, root).dirs
  {
    var parent := rel[..|rel| - 1];
    CopiedFiles(ctx, root, rel);
    FileParentIsDir(root.children, rel, CopyAll(ctx, root).files[rel]);
    forall k | 0 < k <= |parent| ensures !Skipped(ctx, parent[..k]) {
      assert parent[..k] == rel[..k];
    }
    CopiedDirs(ctx, root, parent);
  }

  // ---------------------------------------------------------------------
  // The copy as the programs run it

  /** The answer to "Overwrite? (y/N)" lets the copy go on exactly when it
      lower-cases to `y`. */
  predicate Confirmed(answer: string)
  {
    Lower(answer) == "y"
  }

  lemma ConfirmedIffY(answer: string)
    ensures Confirmed(answer) <==> answer == "y" || answer == "Y"
  {
    if Confirmed(answer) {
      assert |answer| == 1 && LowerChar(answer[0]) == 'y';
    }
    if answer == "Y" {
      assert Lower(answer)[0] == LowerChar('Y') == 'y';
    }
    if answer == "y" {
      assert Lower(answer)[0] == LowerChar('y') == 'y';
    }
  }

  lemma MergeAssoc(a: map<Path, string>, b: map<Path, string>, c: map<Path, string>)
    ensures (a + b) + c == a + (b + c)
  {
  }

  lemma MergeEmpty(a: map<Path, string>)
    ensures a + map[] == a && map[] + a == a
  {
  }

  /** The output directory: the directories and files under it, by path
      relative to it. */
  class OutputDir {
    var dirs: set<Path>
    var files: map<Path, string>

    constructor ()
      ensures dirs == {} && files == map[]
    {
      dirs := {};
      files := map[];
    }

    /** `copy_recursive(src, dst)` / `copyRecursive(src, dst)` for the entry
        `e` whose parent is at `base`, which must already exist. */
    method CopyRecursive(ctx: Context, e: Entry, base: Path)
      modifies this
      requires base == [] || base in dirs
      ensures dirs == old(dirs) + Visit(ctx, e, base).dirs
      ensures files == old(files) + Visit(ctx, e, base).files
      decreases e, 2
    {
      var rel := base + [e.name];
      if ctx.outRel.Some? && ctx.outRel.value <= rel {
        SkippedVisitsNothing(ctx, e, base);
        MergeEmpty(files);
        return;
      }
      var excluded := ShouldExclude(ctx.d, Join(rel));
      if excluded {
        SkippedVisitsNothing(ctx, e, base);
        MergeEmpty(files);
        return;
      }
      CopyKept(ctx, e, base);
    }

    /** The entry `e`, neither the output nor excluded: a file is written, a
        directory created and its listing copied. */
    method CopyKept(ctx: Context, e: Entry, base: Path)
      modifies this
      requires base == [] || base in dirs
      requires !Skipped(ctx, base + [e.name])
      ensures dirs == old(dirs) + Visit(ctx, e, base).dirs
      ensures files == old(files) + Visit(ctx, e, base).files
      decreases e, 1
    {
      var rel := base + [e.name];
      match e
      case File(_, content) =>
        files := files[rel := content];
      case Dir(_, _) =>
        dirs := dirs + {rel};
        CopyChildren(ctx, e, rel);
        MergeEmpty(VisitFrom(ctx, e, rel, 0).files);
        MergeAssoc(old(files), map[], VisitFrom(ctx, e, rel, 0).files);
    }

    /** The loop over the listing of directory `e`, copied to `rel`. */
    method CopyChildren(ctx: Context, e: Entry, rel: Path)
      modifies this
      requires e.Dir? && rel in dirs
      ensures dirs == old(dirs) + VisitFrom(ctx, e, rel, 0).dirs
      ensures files == old(files) + VisitFrom(ctx, e, rel, 0).files
      decreases e, 0
    {
      for i := 0 to |e.children|
        invariant rel in dirs
        invariant dirs + VisitFrom(ctx, e, rel, i).dirs == old(dirs) + VisitFrom(ctx, e, rel, 0).dirs
        invariant files + VisitFrom(ctx, e, rel, i).files == old(files) + VisitFrom(ctx, e, rel, 0).files
      {
        ghost var before := files;
        CopyRecursive(ctx, e.children[i], rel);
        MergeAssoc(before, Visit(ctx, e.children[i], rel).files, VisitFrom(ctx, e, rel, i + 1).files);
      }
      MergeEmpty(files);
    }

    /** One entry of the template directory. The entry that is the output
        itself is passed over here already; `CopyRecursive` would skip it
        anyway. */
    method CopyTopEntry(ctx: Context, entry: Entry)
      modifies this
      ensures dirs == old(dirs) + Visit(ctx, entry, []).dirs
      ensures files == old(files) + Visit(ctx, entry, []).files
    {
      if ctx.outRel.Some? && [entry.name] == ctx.outRel.value {
        assert Visit(ctx, entry, []) == Nothing;
        MergeEmpty(files);
      } else {
        CopyRecursive(ctx, entry, []);
      }
    }

    /** `copy_template` / `copyTemplate` after both paths have been
        resolved: ask before overwriting an existing output, then empty it
        and copy every entry of the template directory `root`, walking with
        the dialect's exclusion list and the output's place in the template.
        Removing an output that is an ancestor of the template removes the
        template too, and listing it then fails. */
    method CopyTemplate(d: Dialect, template: Path, output: Path, root: Entry, outputExists: bool, answer: string)
      returns (outcome: Outcome<()>)
      modifies this
      requires root.Dir?
      requires !outputExists ==> dirs == {} && files == map[]
      ensures outputExists && !Confirmed(answer) ==> outcome == Exit(0) && dirs == old(dirs) && files == old(files)
      ensures outputExists && Confirmed(answer) && output < template ==>
        outcome == Exit(1) && dirs == {} && files == map[]
      ensures !outputExists || (Confirmed(answer) && !(output < template)) ==>
        var ctx := MakeContext(d, template, output);
        outcome == Continue(()) && dirs == CopyAll(ctx, root).dirs && files == CopyAll(ctx, root).files
    {
      if outputExists {
        if !Confirmed(answer) {
          return Exit(0);
        }
        dirs := {};
        files := map[];
        if output < template {
          return Exit(1);
        }
      }
      var ctx := MakeContext(d, template, output);
      MergeEmpty(CopyAll(ctx, root).files);
      for i := 0 to |root.children|
        invariant dirs + VisitFrom(ctx, root, [], i).dirs == CopyAll(ctx, root).dirs
        invariant files + VisitFrom(ctx, root, [], i).files == CopyAll(ctx, root).files
      {
        ghost var before := files;
        CopyTopEntry(ctx, root.children[i]);
        MergeAssoc(before, Visit(ctx, root.children[i], []).files, VisitFrom(ctx, root, [], i + 1).files);
      }
      MergeEmpty(files);
      return Continue(());
    }
  }
}
