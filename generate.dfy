/** What both implementations do to the copied output: patch project.yml,
    substitute into the two entitlement files, rename them after the targets,
    (in the TypeScript port) substitute into the renamed files again when a
    placeholder is left, and substitute into the files of a fixed table.

    The output directory is the `OutputDir` the copy filled. Nothing here
    creates or removes a directory, so the methods change only its files.
    A run that ends the process (an exception in Python, the `catch` around
    the generator in the TypeScript command) is an `Exit(1)`. */
module Generator {
  import opened Wrappers
  import opened Text
  import opened Dialects
  import opened Substitution
  import opened Config
  import opened ProjectYml
  import opened Copy

  type Files = map<Path, string>

  /** `Path.exists()` / `fs.pathExists`: a file or a directory. */
  predicate Exists(dirs: set<Path>, files: Files, p: Path)
  {
    p in files || p in dirs
  }

  /** A method's outcome and the files it leaves agree with the outcome a
      specification function computes. After an exit the files no longer
      matter: the process is over. */
  predicate Reached(o: Outcome<()>, files: Files, expected: Outcome<Files>)
  {
    match expected
    case Continue(f) => o == Continue(()) && files == f
    case Exit(s) => o == Exit(s)
  }

  // ---------------------------------------------------------------------
  // update_file / updateFile

  /** A missing file is skipped with a warning; reading a directory fails;
      a file gets the substitution. */
  function UpdatedFile(d: Dialect, dirs: set<Path>, files: Files, path: Path, vars: Variables): Outcome<Files>
  {
    if path in files then Continue(files[path := Substitute(d, files[path], vars)])
    else if path in dirs then Exit(1)
    else Continue(files)
  }

  method UpdateFile(d: Dialect, out: OutputDir, path: Path, vars: Variables) returns (outcome: Outcome<()>)
    modifies out
    ensures out.dirs == old(out.dirs)
    ensures Reached(outcome, out.files, UpdatedFile(d, old(out.dirs), old(out.files), path, vars))
  {
    if path !in out.files && path !in out.dirs {
      return Continue(());
    }
    if path !in out.files {
      return Exit(1);
    }
    var content := out.files[path];
    var updated := ReplaceVariables(d, content, vars);
    out.files := out.files[path := updated];
    return Continue(());
  }

  /** The update fails exactly on a directory; otherwise it keeps the set of
      files, rewrites only `path`, and leaves a missing file missing. */
  lemma UpdateTouchesOnlyPath(d: Dialect, dirs: set<Path>, files: Files, path: Path, vars: Variables)
    ensures UpdatedFile(d, dirs, files, path, vars).Continue? <==> path in files || path !in dirs
    ensures path !in files && path !in dirs ==> UpdatedFile(d, dirs, files, path, vars) == Continue(files)
    ensures UpdatedFile(d, dirs, files, path, vars).Continue? ==>
      var f := UpdatedFile(d, dirs, files, path, vars).value;
      f.Keys == files.Keys && forall q :: q in files && q != path ==> f[q] == files[q]
  {
  }

  /** Updating the same file twice with the same variables is updating it
      once, when the first pass leaves none of their tokens behind. */
  lemma UpdateTwice(d: Dialect, dirs: set<Path>, files: Files, path: Path, vars: Variables)
    requires path in files
    requires forall i :: 0 <= i < |vars| ==> !Contains(Substitute(d, files[path], vars), Placeholder(vars[i].key))
    ensures UpdatedFile(d, dirs, UpdatedFile(d, dirs, files, path, vars).value, path, vars)
      == UpdatedFile(d, dirs, files, path, vars)
  {
    SecondPassUnchanged(d, files[path], vars);
    var f := files[path := Substitute(d, files[path], vars)];
    assert f[path := f[path]] == f;
  }

  // ---------------------------------------------------------------------
  // update_project_yml / updateProjectYml

  const ProjectYmlPath: Path := ["project.yml"]

  /** Reading a missing project.yml (or a directory of that name) is not
      caught in either implementation. */
  function UpdatedProjectYml(d: Dialect, config: WhitelabelConfig, files: Files): Outcome<Files>
  {
    if ProjectYmlPath in files
    then Continue(files[ProjectYmlPath := PatchProjectYml(d, config, files[ProjectYmlPath])])
    else Exit(1)
  }

  method UpdateProjectYml(d: Dialect, config: WhitelabelConfig, out: OutputDir) returns (outcome: Outcome<()>)
    modifies out
    ensures out.dirs == old(out.dirs)
    ensures Reached(outcome, out.files, UpdatedProjectYml(d, config, old(out.files)))
  {
    if ProjectYmlPath !in out.files {
      return Exit(1);
    }
    var main := MainTarget(d, config);
    var clip := ClipTarget(d, config);
    var content := out.files[ProjectYmlPath];
    content := ReplaceVariables(d, content, YmlVariables(config));
    content := RenameHeader(d, content, "MainApp", main);
    content := RenameHeader(d, content, "MainAppClip", clip);
    content := RenameDependency(d, content, clip);
    content := RewriteSetting(d, content, "MainApp", main);
    content := RewriteSetting(d, content, "MainAppClip", clip);
    out.files := out.files[ProjectYmlPath := content];
    return Continue(());
  }

  // ---------------------------------------------------------------------
  // rename_entitlements / renameEntitlements

  /** `<target>.entitlements` at the top of the output. */
  function EntitlementsPath(target: string): Path
  {
    [target + ".entitlements"]
  }

  /** One guarded move: the file at `from` moves to `to` when `from` is a
      file and nothing exists at `to`. */
  function Moved(dirs: set<Path>, files: Files, from: Path, to: Path): Files
  {
    if from in files && !Exists(dirs, files, to) then (files - {from})[to := files[from]]
    else files
  }

  /** Both moves, the main target's first. */
  function RenamedEntitlements(dirs: set<Path>, files: Files, main: string, clip: string): Files
  {
    var first := Moved(dirs, files, EntitlementsPath("MainApp"), EntitlementsPath(main));
    Moved(dirs, first, EntitlementsPath("MainAppClip"), EntitlementsPath(clip))
  }

  method MoveIfFree(out: OutputDir, from: Path, to: Path)
    modifies out
    ensures out.dirs == old(out.dirs)
    ensures out.files == Moved(old(out.dirs), old(out.files), from, to)
  {
    if from in out.files && to !in out.files && to !in out.dirs {
      var content := out.files[from];
      out.files := out.files - {from};
      out.files := out.files[to := content];
    }
  }

  method RenameEntitlements(d: Dialect, config: WhitelabelConfig, out: OutputDir)
    modifies out
    ensures out.dirs == old(out.dirs)
    ensures out.files == RenamedEntitlements(old(out.dirs), old(out.files), MainTarget(d, config), ClipTarget(d, config))
  {
    var main := MainTarget(d, config);
    var clip := ClipTarget(d, config);
    MoveIfFree(out, EntitlementsPath("MainApp"), EntitlementsPath(main));
    MoveIfFree(out, EntitlementsPath("MainAppClip"), EntitlementsPath(clip));
  }

  /** A move carries the content from `from` to `to` when its guard holds,
      changes nothing when it does not, and never touches another path. */
  lemma MoveTouchesNothingElse(dirs: set<Path>, files: Files, from: Path, to: Path)
    ensures var r := Moved(dirs, files, from, to);
      forall q :: q != from && q != to ==> (q in r <==> q in files) && (q in r ==> r[q] == files[q])
    ensures from in files && !Exists(dirs, files, to) ==>
      var r := Moved(dirs, files, from, to);
      to in r && r[to] == files[from] && from !in r
    ensures !(from in files && !Exists(dirs, files, to)) ==> Moved(dirs, files, from, to) == files
  {
  }

  /** A move repeated is the move once. */
  lemma MoveIdempotent(dirs: set<Path>, files: Files, from: Path, to: Path)
    ensures Moved(dirs, Moved(dirs, files, from, to), from, to) == Moved(dirs, files, from, to)
  {
  }

  /** The rename touches no path but the four entitlement files. */
  lemma RenameTouchesNothingElse(dirs: set<Path>, files: Files, main: string, clip: string, q: Path)
    requires q !in {EntitlementsPath("MainApp"), EntitlementsPath(main), EntitlementsPath("MainAppClip"), EntitlementsPath(clip)}
    ensures var r := RenamedEntitlements(dirs, files, main, clip);
      (q in r <==> q in files) && (q in r ==> r[q] == files[q])
  {
    var first := Moved(dirs, files, EntitlementsPath("MainApp"), EntitlementsPath(main));
    MoveTouchesNothingElse(dirs, files, EntitlementsPath("MainApp"), EntitlementsPath(main));
    MoveTouchesNothingElse(dirs, first, EntitlementsPath("MainAppClip"), EntitlementsPath(clip));
  }

  /** A second rename changes nothing, unless the main target's file name is
      the clip template's or the clip target's is the main template's: then
      one move frees or fills the other's source. */
  lemma RenameIdempotent(dirs: set<Path>, files: Files, main: string, clip: string)
    requires EntitlementsPath(main) != EntitlementsPath("MainAppClip")
    requires EntitlementsPath(clip) != EntitlementsPath("MainApp")
    ensures var once := RenamedEntitlements(dirs, files, main, clip);
      RenamedEntitlements(dirs, once, main, clip) == once
  {
    var a, b := EntitlementsPath("MainApp"), EntitlementsPath("MainAppClip");
    var m, c := EntitlementsPath(main), EntitlementsPath(clip);
    var f1 := Moved(dirs, files, a, m);
    var f2 := Moved(dirs, f1, b, c);
    assert a[0][7] == '.' && b[0][7] == 'C';
    assert a != b;
    MoveTouchesNothingElse(dirs, files, a, m);
    MoveTouchesNothingElse(dirs, f1, b, c);
    // The main move's guard fails on f2.
    if a in f2 {
      assert a in f1;
      assert Exists(dirs, f1, m);
      assert Exists(dirs, f2, m);
    }
    assert Moved(dirs, f2, a, m) == f2;
    // And then the clip move's guard fails too.
    if b in f2 {
      assert b in f1 && f2 == f1;
      assert Exists(dirs, f2, c);
    }
    assert Moved(dirs, f2, b, c) == f2;
  }

  /** Both exceptions happen: a project named `MainAppClip` has its main
      entitlements moved only by the second call, and a clip target named
      `MainApp` has its file moved twice. */
  lemma RenameNotIdempotent()
    ensures var files := map[EntitlementsPath("MainApp") := "a", EntitlementsPath("MainAppClip") := "b"];
      var once := RenamedEntitlements({}, files, "MainAppClip", "X");
      once == map[EntitlementsPath("MainApp") := "a", EntitlementsPath("X") := "b"]
      && RenamedEntitlements({}, once, "MainAppClip", "X") != once
    ensures var files := map[EntitlementsPath("MainAppClip") := "b"];
      var once := RenamedEntitlements({}, files, "Y", "MainApp");
      once == map[EntitlementsPath("MainApp") := "b"]
      && RenamedEntitlements({}, once, "Y", "MainApp") != once
  {
    var a, b := EntitlementsPath("MainApp"), EntitlementsPath("MainAppClip");
    var x, y := EntitlementsPath("X"), EntitlementsPath("Y");
    assert |a[0]| == 20 && |b[0]| == 24 && |x[0]| == 14 && |y[0]| == 14;
    assert a != b && a != x && b != x && a != y && b != y;
    var files := map[a := "a", b := "b"];
    var f1 := Moved({}, files, a, b);
    assert f1 == files;
    var once := Moved({}, f1, b, x);
    assert once == map[a := "a", x := "b"];
    assert Moved({}, once, a, b) == map[b := "a", x := "b"];
    var g := map[b := "b"];
    assert Moved({}, g, a, y) == g;
    assert Moved({}, g, b, a) == map[a := "b"];
    assert Moved({}, map[a := "b"], a, y) == map[y := "b"];
  }

  // ---------------------------------------------------------------------
  // The variable tables of `main` / `generateWhitelabel`

  /** The twelve variables, in the order of the literal. */
  function AllVariables(config: WhitelabelConfig): Variables
  {
    [
      Binding("projectName", config.project.name),
      Binding("displayName", config.project.displayName),
      Binding("bundleIdPrefix", config.project.bundleIdPrefix),
      Binding("mainBundleId", config.app.mainBundleId),
      Binding("clipBundleId", config.app.clipBundleId),
      Binding("structName", config.app.structName),
      Binding("startURL", config.app.startURL),
      Binding("associatedDomain", config.domains.associatedDomain),
      Binding("version", config.project.version),
      Binding("buildNumber", config.project.buildNumber),
      Binding("deploymentTarget", config.ios.deploymentTarget),
      Binding("xcodeVersion", config.ios.xcodeVersion)
    ]
  }

  /** The configuration field each variable name stands for, read off the
      record directly. */
  function FieldNamed(config: WhitelabelConfig, name: string): Option<string>
  {
    if name == "projectName" then Some(config.project.name)
    else if name == "displayName" then Some(config.project.displayName)
    else if name == "bundleIdPrefix" then Some(config.project.bundleIdPrefix)
    else if name == "mainBundleId" then Some(config.app.mainBundleId)
    else if name == "clipBundleId" then Some(config.app.clipBundleId)
    else if name == "structName" then Some(config.app.structName)
    else if name == "startURL" then Some(config.app.startURL)
    else if name == "associatedDomain" then Some(config.domains.associatedDomain)
    else if name == "version" then Some(config.project.version)
    else if name == "buildNumber" then Some(config.project.buildNumber)
    else if name == "deploymentTarget" then Some(config.ios.deploymentTarget)
    else if name == "xcodeVersion" then Some(config.ios.xcodeVersion)
    else None
  }

  /** `variables[k]`: the value bound to `key`. */
  function ValueOf(vars: Variables, key: string): Option<string>
    decreases |vars|
  {
    if vars == [] then None
    else if vars[0].key == key then Some(vars[0].value)
    else ValueOf(vars[1..], key)
  }

  /** The value of the first binding of `key`, when no earlier one has it. */
  lemma {:induction false} ValueOfFirst(vars: Variables, key: string, i: nat)
    requires i < |vars| && vars[i].key == key && |key| > 0
    requires forall j :: 0 <= j < i ==> |vars[j].key| != |key| || vars[j].key[0] != key[0]
    ensures ValueOf(vars, key) == Some(vars[i].value)
    decreases i
  {
    if i > 0 {
      assert vars[1..][i - 1] == vars[i];
      ValueOfFirst(vars[1..], key, i - 1);
    }
  }

  /** A key no binding has is not found. */
  lemma {:induction false} ValueOfAbsent(vars: Variables, key: string)
    requires forall j :: 0 <= j < |vars| ==> vars[j].key != key
    ensures ValueOf(vars, key) == None
    decreases |vars|
  {
    if vars != [] {
      ValueOfAbsent(vars[1..], key);
    }
  }

  /** Looking a name up among the twelve variables reads the field of that
      name, and fails for any other name. */
  lemma AllVariablesAreFields(config: WhitelabelConfig, name: string)
    ensures ValueOf(AllVariables(config), name) == FieldNamed(config, name)
  {
    if name == "projectName" || name == "displayName" {
      ProjectVariables(config, name);
    } else if name == "bundleIdPrefix" || name == "mainBundleId" {
      BundleVariables(config, name);
    } else if name == "clipBundleId" || name == "structName" {
      ClipVariables(config, name);
    } else if name == "startURL" || name == "associatedDomain" {
      WebVariables(config, name);
    } else if name == "version" || name == "buildNumber" {
      VersionVariables(config, name);
    } else if name == "deploymentTarget" || name == "xcodeVersion" {
      ToolVariables(config, name);
    } else {
      ValueOfAbsent(AllVariables(config), name);
    }
  }

  lemma ProjectVariables(config: WhitelabelConfig, name: string)
    requires name == "projectName" || name == "displayName"
    ensures ValueOf(AllVariables(config), name) == FieldNamed(config, name)
  {
    var v := AllVariables(config);
    if name == "projectName" {
      ValueOfFirst(v, name, 0);
    } else {
      ValueOfFirst(v, name, 1);
    }
  }

  lemma BundleVariables(config: WhitelabelConfig, name: string)
    requires name == "bundleIdPrefix" || name == "mainBundleId"
    ensures ValueOf(AllVariables(config), name) == FieldNamed(config, name)
  {
    var v := AllVariables(config);
    if name == "bundleIdPrefix" {
      ValueOfFirst(v, name, 2);
    } else {
      ValueOfFirst(v, name, 3);
    }
  }

  lemma ClipVariables(config: WhitelabelConfig, name: string)
    requires name == "clipBundleId" || name == "structName"
    ensures ValueOf(AllVariables(config), name) == FieldNamed(config, name)
  {
    var v := AllVariables(config);
    if name == "clipBundleId" {
      ValueOfFirst(v, name, 4);
    } else {
      ValueOfFirst(v, name, 5);
    }
  }

  lemma WebVariables(config: WhitelabelConfig, name: string)
    requires name == "startURL" || name == "associatedDomain"
    ensures ValueOf(AllVariables(config), name) == FieldNamed(config, name)
  {
    var v := AllVariables(config);
    if name == "startURL" {
      ValueOfFirst(v, name, 6);
    } else {
      ValueOfFirst(v, name, 7);
    }
  }

  lemma VersionVariables(config: WhitelabelConfig, name: string)
    requires name == "version" || name == "buildNumber"
    ensures ValueOf(AllVariables(config), name) == FieldNamed(config, name)
  {
    var v := AllVariables(config);
    if name == "version" {
      ValueOfFirst(v, name, 8);
    } else {
      ValueOfFirst(v, name, 9);
    }
  }

  lemma ToolVariables(config: WhitelabelConfig, name: string)
    requires name == "deploymentTarget" || name == "xcodeVersion"
    ensures ValueOf(AllVariables(config), name) == FieldNamed(config, name)
  {
    var v := AllVariables(config);
    if name == "deploymentTarget" {
      ValueOfFirst(v, name, 10);
    } else {
      ValueOfFirst(v, name, 11);
    }
  }

  /** `{k: variables[k] for k in var_names}`, and the TypeScript loop
      filling `fileVars`: one binding per name, in the order of the names. */
  function Select(vars: Variables, names: seq<string>): Variables
    requires forall n :: n in names ==> ValueOf(vars, n).Some?
  {
    seq(|names|, i requires 0 <= i < |names| => Binding(names[i], ValueOf(vars, names[i]).value))
  }

  method SelectVariables(vars: Variables, names: seq<string>) returns (fileVars: Variables)
    requires forall n :: n in names ==> ValueOf(vars, n).Some?
    ensures fileVars == Select(vars, names)
  {
    fileVars := [];
    for i := 0 to |names|
      invariant fileVars == Select(vars, names[..i])
    {
      var value := ValueOf(vars, names[i]);
      fileVars := fileVars + [Binding(names[i], value.value)];
    }
    assert names[..|names|] == names;
  }

  /** Each file receives exactly its listed variables, each with the value of
      the configuration field of that name. */
  lemma SelectedFromConfig(config: WhitelabelConfig, names: seq<string>)
    requires forall n :: n in names ==> FieldNamed(config, n).Some?
    ensures forall n :: n in names ==> ValueOf(AllVariables(config), n).Some?
    ensures var s := Select(AllVariables(config), names);
      |s| == |names| && forall i :: 0 <= i < |s| ==> s[i] == Binding(names[i], FieldNamed(config, names[i]).value)
  {
    forall n | n in names ensures ValueOf(AllVariables(config), n) == FieldNamed(config, n) {
      AllVariablesAreFields(config, n);
    }
  }

  datatype TableEntry = TableEntry(path: Path, names: seq<string>)

  /** The entries the two tables share, in order. */
  const SharedTable: seq<TableEntry> := [
    TableEntry(["Info.plist"], ["displayName"]),
    TableEntry(["Info-Clip.plist"], ["displayName"]),
    TableEntry(["Sources", "App", "App.swift"], ["structName", "associatedDomain"]),
    TableEntry(["Sources", "App", "AppConfig.swift"], ["startURL"]),
    TableEntry(["Package.swift"], ["projectName"]),
    TableEntry(["privacy_policy.md"], ["displayName"]),
    TableEntry(["xtool-Info.plist"], ["displayName"]),
    TableEntry(["xtool.yml"], ["mainBundleId"])
  ]

  /** Python's `files_to_update` ends with BUILD_INSTRUCTIONS.md; the
      TypeScript `filesToUpdate` does not have it. */
  function FileTable(d: Dialect): seq<TableEntry>
  {
    match d
    case Python => SharedTable + [TableEntry(["BUILD_INSTRUCTIONS.md"], ["projectName"])]
    case TypeScript => SharedTable
  }

  /** Every name a table lists is a variable. */
  predicate NamesKnown(vars: Variables, table: seq<TableEntry>)
  {
    forall k, n :: 0 <= k < |table| && n in table[k].names ==> ValueOf(vars, n).Some?
  }

  /** No path is listed twice. */
  predicate PathsDistinct(table: seq<TableEntry>)
  {
    forall j, k :: 0 <= j < k < |table| ==> table[j].path != table[k].path
  }

  /** The tables update the files in their order, each with its selection;
      the first failing update ends the run. */
  function UpdatedFrom(d: Dialect, dirs: set<Path>, files: Files, vars: Variables, table: seq<TableEntry>, i: nat): Outcome<Files>
    requires NamesKnown(vars, table) && i <= |table|
    decreases |table| - i
  {
    if i == |table| then Continue(files)
    else match UpdatedFile(d, dirs, files, table[i].path, Select(vars, table[i].names))
      case Exit(s) => Exit(s)
      case Continue(f) => UpdatedFrom(d, dirs, f, vars, table, i + 1)
  }

  method UpdateTable(d: Dialect, out: OutputDir, vars: Variables, table: seq<TableEntry>) returns (outcome: Outcome<()>)
    modifies out
    requires NamesKnown(vars, table)
    ensures out.dirs == old(out.dirs)
    ensures Reached(outcome, out.files, UpdatedFrom(d, old(out.dirs), old(out.files), vars, table, 0))
  {
    for i := 0 to |table|
      invariant out.dirs == old(out.dirs)
      invariant UpdatedFrom(d, out.dirs, out.files, vars, table, i) == UpdatedFrom(d, old(out.dirs), old(out.files), vars, table, 0)
    {
      var fileVars := SelectVariables(vars, table[i].names);
      outcome := UpdateFile(d, out, table[i].path, fileVars);
      if outcome.Exit? {
        return;
      }
    }
    return Continue(());
  }

  /** The table run fails exactly when a listed path is a directory and not
      a file. Otherwise it keeps the set of files, gives each listed file the
      substitution of its own selection, and leaves every other file as it
      was. */
  lemma {:induction false} UpdatedFromCharacterised(d: Dialect, dirs: set<Path>, files: Files, vars: Variables, table: seq<TableEntry>, i: nat)
    requires NamesKnown(vars, table) && PathsDistinct(table) && i <= |table|
    ensures UpdatedFrom(d, dirs, files, vars, table, i).Continue?
      <==> forall k :: i <= k < |table| ==> table[k].path in files || table[k].path !in dirs
    ensures UpdatedFrom(d, dirs, files, vars, table, i).Continue? ==>
      var f := UpdatedFrom(d, dirs, files, vars, table, i).value;
      f.Keys == files.Keys
      && (forall k :: i <= k < |table| && table[k].path in files ==>
            f[table[k].path] == Substitute(d, files[table[k].path], Select(vars, table[k].names)))
      && (forall q :: q in files && (forall k :: i <= k < |table| ==> table[k].path != q) ==> f[q] == files[q])
    decreases |table| - i
  {
    if i < |table| {
      var e := table[i];
      var r := UpdatedFile(d, dirs, files, e.path, Select(vars, e.names));
      if r.Continue? {
        var f1 := r.value;
        assert f1.Keys == files.Keys;
        UpdatedFromCharacterised(d, dirs, f1, vars, table, i + 1);
        var result := UpdatedFrom(d, dirs, files, vars, table, i);
        assert result == UpdatedFrom(d, dirs, f1, vars, table, i + 1);
        if result.Continue? {
          var f := result.value;
          forall k | i <= k < |table| && table[k].path in files
            ensures f[table[k].path] == Substitute(d, files[table[k].path], Select(vars, table[k].names))
          {
            if k == i {
              assert forall k' :: i + 1 <= k' < |table| ==> table[k'].path != e.path;
            } else {
              assert table[k].path != e.path;
            }
          }
        }
      }
    }
  }

  /** Both tables name only variables and list no path twice. */
  lemma TablesWellFormed(d: Dialect, config: WhitelabelConfig)
    ensures NamesKnown(AllVariables(config), FileTable(d))
    ensures PathsDistinct(FileTable(d))
  {
    TableNamesKnown(d, config);
    TablePathsDistinct(d);
  }

  lemma TablePathsDistinct(d: Dialect)
    ensures PathsDistinct(FileTable(d))
  {
  }

  lemma TableNamesKnown(d: Dialect, config: WhitelabelConfig)
    ensures NamesKnown(AllVariables(config), FileTable(d))
  {
    forall k, n | 0 <= k < |FileTable(d)| && n in FileTable(d)[k].names
      ensures ValueOf(AllVariables(config), n).Some?
    {
      AllVariablesAreFields(config, n);
    }
  }

  // ---------------------------------------------------------------------
  // The TypeScript port's second look at the renamed entitlement files

  /** Substitute into the file at `path` only when `/\$\{[^}]+\}/` finds a
      placeholder in it. */
  function Rechecked(dirs: set<Path>, files: Files, path: Path, vars: Variables): Outcome<Files>
  {
    if path in files then
      if HasPlaceholder(files[path]) then Continue(files[path := Substitute(TypeScript, files[path], vars)])
      else Continue(files)
    else if path in dirs then Exit(1)
    else Continue(files)
  }

  method Recheck(out: OutputDir, path: Path, vars: Variables) returns (outcome: Outcome<()>)
    modifies out
    ensures out.dirs == old(out.dirs)
    ensures Reached(outcome, out.files, Rechecked(old(out.dirs), old(out.files), path, vars))
  {
    if path !in out.files {
      if path in out.dirs {
        return Exit(1);
      }
      return Continue(());
    }
    var content := out.files[path];
    if HasPlaceholder(content) {
      content := ReplaceVariables(TypeScript, content, vars);
      out.files := out.files[path := content];
    }
    return Continue(());
  }

  /** The test only skips substitutions that would change nothing: for keys
      that are non-empty and free of '}', the re-check is an unconditional
      update of the file. */
  lemma RecheckIsUpdate(dirs: set<Path>, files: Files, path: Path, vars: Variables)
    requires forall i :: 0 <= i < |vars| ==> |vars[i].key| > 0 && '}' !in vars[i].key
    ensures Rechecked(dirs, files, path, vars) == UpdatedFile(TypeScript, dirs, files, path, vars)
  {
    if path in files && !HasPlaceholder(files[path]) {
      GuardedRecheckIsSubstitution(TypeScript, files[path], vars);
      assert files[path := files[path]] == files;
    }
  }

  // ---------------------------------------------------------------------
  // The whole generation after the copy

  /** The variables of MainApp.entitlements. */
  function MainEntitlementVariables(config: WhitelabelConfig): Variables
  {
    [Binding("associatedDomain", config.domains.associatedDomain)]
  }

  /** The variables of MainAppClip.entitlements. */
  function ClipEntitlementVariables(config: WhitelabelConfig): Variables
  {
    [Binding("mainBundleId", config.app.mainBundleId), Binding("associatedDomain", config.domains.associatedDomain)]
  }

  /** The TypeScript re-check of both renamed files; Python has none. */
  function Rechecks(d: Dialect, config: WhitelabelConfig, dirs: set<Path>, files: Files): Outcome<Files>
  {
    match d
    case Python => Continue(files)
    case TypeScript =>
      match Rechecked(dirs, files, EntitlementsPath(MainTarget(d, config)), MainEntitlementVariables(config))
      case Exit(s) => Exit(s)
      case Continue(f) => Rechecked(dirs, f, EntitlementsPath(ClipTarget(d, config)), ClipEntitlementVariables(config))
  }

  /** The steps in the order both implementations take them. */
  function Generated(d: Dialect, config: WhitelabelConfig, dirs: set<Path>, files: Files): Outcome<Files>
  {
    match UpdatedProjectYml(d, config, files)
    case Exit(s) => Exit(s)
    case Continue(f1) =>
      match UpdatedFile(d, dirs, f1, EntitlementsPath("MainApp"), MainEntitlementVariables(config))
      case Exit(s) => Exit(s)
      case Continue(f2) =>
        match UpdatedFile(d, dirs, f2, EntitlementsPath("MainAppClip"), ClipEntitlementVariables(config))
        case Exit(s) => Exit(s)
        case Continue(f3) => Finished(d, config, dirs, f3)
  }

  /** After the two entitlement updates: the rename, the re-check, the
      table. */
  function Finished(d: Dialect, config: WhitelabelConfig, dirs: set<Path>, files: Files): Outcome<Files>
  {
    var renamed := RenamedEntitlements(dirs, files, MainTarget(d, config), ClipTarget(d, config));
    match Rechecks(d, config, dirs, renamed)
    case Exit(s) => Exit(s)
    case Continue(f) =>
      TablesWellFormed(d, config);
      UpdatedFrom(d, dirs, f, AllVariables(config), FileTable(d), 0)
  }

  method Generate(d: Dialect, config: WhitelabelConfig, out: OutputDir) returns (outcome: Outcome<()>)
    modifies out
    ensures out.dirs == old(out.dirs)
    ensures Reached(outcome, out.files, Generated(d, config, old(out.dirs), old(out.files)))
  {
    outcome := UpdateProjectYml(d, config, out);
    if outcome.Exit? {
      return;
    }
    outcome := UpdateFile(d, out, EntitlementsPath("MainApp"), MainEntitlementVariables(config));
    if outcome.Exit? {
      return;
    }
    outcome := UpdateFile(d, out, EntitlementsPath("MainAppClip"), ClipEntitlementVariables(config));
    if outcome.Exit? {
      return;
    }
    outcome := Finish(d, config, out);
  }

  method Finish(d: Dialect, config: WhitelabelConfig, out: OutputDir) returns (outcome: Outcome<()>)
    modifies out
    ensures out.dirs == old(out.dirs)
    ensures Reached(outcome, out.files, Finished(d, config, old(out.dirs), old(out.files)))
  {
    RenameEntitlements(d, config, out);
    if d == TypeScript {
      outcome := Recheck(out, EntitlementsPath(MainTarget(d, config)), MainEntitlementVariables(config));
      if outcome.Exit? {
        return;
      }
      outcome := Recheck(out, EntitlementsPath(ClipTarget(d, config)), ClipEntitlementVariables(config));
      if outcome.Exit? {
        return;
      }
    }
    TablesWellFormed(d, config);
    outcome := UpdateTable(d, out, AllVariables(config), FileTable(d));
  }

  /** Every path the generation may write: project.yml, the entitlement
      files under both names, and the table's files. */
  function Touched(d: Dialect, config: WhitelabelConfig): set<Path>
  {
    {ProjectYmlPath, EntitlementsPath("MainApp"), EntitlementsPath("MainAppClip"),
     EntitlementsPath(MainTarget(d, config)), EntitlementsPath(ClipTarget(d, config))}
    + set k | 0 <= k < |FileTable(d)| :: FileTable(d)[k].path
  }

  /** `q` is a file of `after` exactly when it is one of `before`, with the
      same content. */
  predicate Spares(before: Files, after: Files, q: Path)
  {
    (q in after <==> q in before) && (q in after ==> after[q] == before[q])
  }

  lemma RecheckSparesOthers(d: Dialect, config: WhitelabelConfig, dirs: set<Path>, files: Files, q: Path)
    requires q != EntitlementsPath(MainTarget(d, config)) && q != EntitlementsPath(ClipTarget(d, config))
    ensures Rechecks(d, config, dirs, files).Continue? ==> Spares(files, Rechecks(d, config, dirs, files).value, q)
  {
  }

  /** A generation that completes leaves every file outside `Touched` as the
      copy wrote it, and creates no other file. */
  lemma GeneratedSparesOthers(d: Dialect, config: WhitelabelConfig, dirs: set<Path>, files: Files, q: Path)
    requires q !in Touched(d, config)
    ensures Generated(d, config, dirs, files).Continue? ==> Spares(files, Generated(d, config, dirs, files).value, q)
  {
    var r1 := UpdatedProjectYml(d, config, files);
    if r1.Continue? {
      var f1 := r1.value;
      var r2 := UpdatedFile(d, dirs, f1, EntitlementsPath("MainApp"), MainEntitlementVariables(config));
      UpdateTouchesOnlyPath(d, dirs, f1, EntitlementsPath("MainApp"), MainEntitlementVariables(config));
      if r2.Continue? {
        var f2 := r2.value;
        var r3 := UpdatedFile(d, dirs, f2, EntitlementsPath("MainAppClip"), ClipEntitlementVariables(config));
        UpdateTouchesOnlyPath(d, dirs, f2, EntitlementsPath("MainAppClip"), ClipEntitlementVariables(config));
        if r3.Continue? {
          FinishedSparesOthers(d, config, dirs, r3.value, q);
        }
      }
    }
  }

  lemma FinishedSparesOthers(d: Dialect, config: WhitelabelConfig, dirs: set<Path>, files: Files, q: Path)
    requires q !in Touched(d, config)
    ensures Finished(d, config, dirs, files).Continue? ==> Spares(files, Finished(d, config, dirs, files).value, q)
  {
    var renamed := RenamedEntitlements(dirs, files, MainTarget(d, config), ClipTarget(d, config));
    RenameTouchesNothingElse(dirs, files, MainTarget(d, config), ClipTarget(d, config), q);
    var r := Rechecks(d, config, dirs, renamed);
    RecheckSparesOthers(d, config, dirs, renamed, q);
    if r.Continue? {
      TablesWellFormed(d, config);
      UpdatedFromCharacterised(d, dirs, r.value, AllVariables(config), FileTable(d), 0);
      assert forall k :: 0 <= k < |FileTable(d)| ==> FileTable(d)[k].path != q;
    }
  }

  // ---------------------------------------------------------------------
  // The run, from the configuration to the generated project

  /** Validate, copy (or cancel), generate. The copy walks with the
      context `MakeContext` derives from the two resolved paths. An output
      that exists and is an ancestor of the template is removed together
      with the template, so listing the template fails. */
  function Run(d: Dialect, config: WhitelabelConfig, template: Path, output: Path, root: Entry,
               outputExists: bool, answer: string): Outcome<Files>
    requires root.Dir?
  {
    if Errors(d, config) != [] then Exit(1)
    else if outputExists && !Confirmed(answer) then Exit(0)
    else if outputExists && output < template then Exit(1)
    else
      var copied := CopyAll(MakeContext(d, template, output), root);
      Generated(d, config, copied.dirs, copied.files)
  }

  /** Overwriting the template or one of its ancestors ends the run with
      status 1: an ancestor takes the template with it, and the template
      itself comes back empty, without a project.yml to patch. */
  lemma OverwritingTemplateFails(d: Dialect, config: WhitelabelConfig, template: Path, output: Path, root: Entry, answer: string)
    requires root.Dir? && output <= template && Confirmed(answer)
    ensures Run(d, config, template, output, root, true, answer) == Exit(1)
  {
    if output == template {
      OutputIsTemplateCopiesNothing(d, template, root);
    }
  }

  // ---------------------------------------------------------------------
  // The default output: `template_dir / project_name` resolved, and
  // `path.join(templateDir, projectName)`

  /** The text between the '/'s of `s`, in order. */
  function Segments(s: string): (parts: seq<string>)
    ensures |parts| > 0
    ensures forall k :: 0 <= k < |parts| ==> '/' !in parts[k]
    ensures '/' !in s ==> parts == [s]
    decreases |s|
  {
    if |s| == 0 then [""]
    else
      var rest := Segments(s[1..]);
      if s[0] == '/' then [""] + rest
      else
        assert '/' !in s ==> rest == [s[1..]] && s == [s[0]] + s[1..];
        [[s[0]] + rest[0]] + rest[1..]
  }

  /** Joining the segments with '/' gives the text back. */
  lemma {:induction false} SegmentsJoinBack(s: string)
    ensures Join(Segments(s)) == s
    decreases |s|
  {
    if |s| > 0 {
      var rest := Segments(s[1..]);
      SegmentsJoinBack(s[1..]);
      assert s == [s[0]] + s[1..];
      if s[0] == '/' {
        assert Join([""] + rest) == "" + "/" + Join(rest) by {
          assert ([""] + rest)[1..] == rest;
        }
      } else {
        var parts := [[s[0]] + rest[0]] + rest[1..];
        assert parts[1..] == rest[1..];
        if |rest| == 1 {
          assert Join(parts) == [s[0]] + rest[0];
        } else {
          assert Join(parts) == [s[0]] + rest[0] + "/" + Join(rest[1..]);
        }
      }
    }
  }

  /** Resolving the segments below `base`: empty segments and `.` stay, `..`
      goes up (and stays at the root), any other segment goes down. */
  function Resolve(base: Path, parts: seq<string>): (r: Path)
    ensures (forall k :: 0 <= k < |parts| ==> parts[k] != "" && parts[k] != "." && parts[k] != "..")
      ==> r == base + parts
    decreases |parts|
  {
    if |parts| == 0 then base
    else if parts[0] == "" || parts[0] == "." then Resolve(base, parts[1..])
    else if parts[0] == ".." then Resolve(if |base| == 0 then base else base[..|base| - 1], parts[1..])
    else
      var r := Resolve(base + [parts[0]], parts[1..]);
      assert base + [parts[0]] + parts[1..] == base + parts;
      r
  }

  /** Without `--output`, the output is the project name joined to the
      template and resolved. Python's `/` restarts from the root at a name
      beginning with '/'; Node's `path.join` does not. A plain name gives the
      template's child, which the walk skips; an empty name or `.` gives the
      template itself, and `..` its parent. */
  function DefaultOutput(d: Dialect, template: Path, config: WhitelabelConfig): (output: Path)
    ensures var name := config.project.name;
      '/' !in name && name != "" && name != "." && name != ".." ==>
        output == template + [name] && MakeContext(d, template, output).outRel == Some([name])
    ensures config.project.name == "" || config.project.name == "." ==> output == template
    ensures config.project.name == ".." ==> output <= template && |output| == if |template| == 0 then 0 else |template| - 1
  {
    var name := config.project.name;
    var parts := Segments(name);
    if d == Python && |name| > 0 && name[0] == '/' then Resolve([], parts)
    else Resolve(template, parts)
  }

  /** A project name that is empty, `.` or `..` makes the default output the
      template or its parent, which exists: confirming the overwrite removes
      the template and the run ends with status 1. */
  lemma DegenerateNameOverwritesTemplate(d: Dialect, config: WhitelabelConfig, template: Path, root: Entry, answer: string)
    requires root.Dir? && Confirmed(answer)
    requires config.project.name == "" || config.project.name == "." || config.project.name == ".."
    ensures Run(d, config, template, DefaultOutput(d, template, config), root, true, answer) == Exit(1)
  {
    OverwritingTemplateFails(d, config, template, DefaultOutput(d, template, config), root, answer);
  }

  method GenerateProject(d: Dialect, config: WhitelabelConfig, template: Path, output: Path, root: Entry,
                         outputExists: bool, answer: string, out: OutputDir) returns (outcome: Outcome<()>)
    modifies out
    requires root.Dir?
    requires !outputExists ==> out.dirs == {} && out.files == map[]
    ensures Reached(outcome, out.files, Run(d, config, template, output, root, outputExists, answer))
    ensures Errors(d, config) != [] ==> out.dirs == old(out.dirs) && out.files == old(out.files)
    ensures Errors(d, config) == [] && outputExists && !Confirmed(answer) ==>
      out.dirs == old(out.dirs) && out.files == old(out.files)
    ensures Errors(d, config) == [] && outputExists && Confirmed(answer) && output < template ==>
      out.dirs == {} && out.files == map[]
    ensures outcome.Continue? ==> out.dirs == CopyAll(MakeContext(d, template, output), root).dirs
  {
    var errors := ValidateConfig(d, config);
    if |errors| > 0 {
      return Exit(1);
    }
    outcome := out.CopyTemplate(d, template, output, root, outputExists, answer);
    if outcome.Exit? {
      return;
    }
    outcome := Generate(d, config, out);
  }
}
