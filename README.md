# White-label project generator: a verified model

The repository ships an iOS WebXR app template and a generator that turns it
into a branded project. The generator exists twice: a Python script
(`generate_whitelabel.py`) and a TypeScript command-line port (`cli/src/*.ts`).
This project models the generator's core in Dafny and proves what it does.
Where the two implementations differ, each member takes a `Dialect`
(`Python` or `TypeScript`) and the differences are stated as lemmas.

The core has these parts:

- **Exclusion filter** (`exclusion.dfy`, module `Exclusion`). The two pattern
  lists and `should_exclude` / `shouldExclude`, written as a loop over the list
  with an early return.
- **Literal replacement** (`replace.dfy`, module `Replace`). This is the
  left-to-right scan that never rescans inserted text. It covers `str.replace`,
  `re.sub` on a literal pattern, a global `String.prototype.replace`, and a
  multiline `^` anchor. ECMAScript's `$` patterns in replacement strings are
  modelled too.
- **Placeholder substitution** (`substitution.dfy`, module `Substitution`). The
  `${key}` fold of `replace_variables` / `replaceVariables`, the regex escaping
  of the TypeScript port, and its `/\$\{[^}]+\}/` placeholder test.
- **Configuration and validator** (`config.dfy`, module `Config`). The
  `WhitelabelConfig` record, target-name defaulting, and `validate_config` /
  `validateConfig`.
- **project.yml patcher** (`projectyml.dfy`, module `ProjectYml`).
- **Template copy** (`copy.dfy`, module `Copy`). The template is a tree of
  entries, and the output directory is a class `OutputDir` with a set of created
  directories and a map of written files. Its methods are proved against `Visit`,
  a function that says what the walk copies. Lemmas about `CopyAll` then state
  what ends up in the output.
- **Generation steps** (`generate.dfy`, module `Generator`). These are:
  - `update_file` and the project.yml update;
  - the entitlement rename;
  - the TypeScript re-check of the renamed files;
  - the per-file variable tables (nine entries in Python, eight in TypeScript);
  - the whole run from validation to the last file.

  Every step that writes is a method that modifies the `OutputDir`,
  specified by a function on the directory contents.
- **Interactive prompts** (`prompts.dfy`, module `Prompts`). The `validate` and
  `default` callbacks of `cli/src/prompts.ts` and the record assembled from the
  answers.

Process exits are values of `Wrappers.Outcome`: `Continue` or `Exit(status)`.
Reading and writing files operates on the `OutputDir` object. Console output,
reading a line from the terminal and the JSON file are left to the caller: the
answer to the overwrite question and whether the output exists are parameters.

## Model

| member | source | states |
|---|---|---|
| Exclusion.Basename | cli/src/utils.ts:22 | The base name is a suffix of the path with no '/'. When it is shorter than the path, a '/' stands right before it. |
| Exclusion.Normalise | cli/src/utils.ts:21 | Replacing backslashes by '/' keeps the length, leaves no backslash and keeps every other character. |
| Exclusion.Excluded | generate_whitelabel.py:41-53 | The filter's definition: some pattern of the dialect's list matches. A '*' pattern matches a path ending with its rest (TypeScript also tries the base name), and a plain pattern matches a path containing it or a base name equal to it. `ExclusionIsSuffixOrSubstring` simplifies it. |
| Exclusion.AnyPatternMatches | generate_whitelabel.py:49-53 | The loop over a pattern list with early return answers true exactly when some pattern of the list matches the path string and last component, and false exactly when none does. |
| Exclusion.ShouldExclude | generate_whitelabel.py:41-53 | The dialect's filter answers true exactly when some pattern of its list matches (`Excluded`), and false exactly when none does. |
| Exclusion.PatternsHaveNoSeparator | cli/src/utils.ts:5-17 | No pattern of either list holds '/' or '\\'. |
| Exclusion.NormalisedContains | cli/src/utils.ts:20-21 | Normalising backslashes does not change whether a separator-free pattern occurs in the path. |
| Exclusion.NormalisedEndsWith | cli/src/utils.ts:20-29 | Normalising backslashes does not change whether the path ends with a separator-free suffix. |
| Exclusion.PatternMatchesSimply | cli/src/utils.ts:24-32 | One pattern matches exactly when its text after '*' ends the path, or the plain pattern occurs in the path. The base-name tests never add a match. |
| Exclusion.ExclusionIsSuffixOrSubstring | generate_whitelabel.py:46-53 | A path is excluded exactly when some '*' pattern's suffix ends it or some plain pattern occurs in it. |
| Exclusion.GitSubstringExcluded | generate_whitelabel.py:19 | In both dialects, every path containing `.git` is excluded, so `.github/...` and `.gitignore` are too. |
| Exclusion.CliSubstringExcluded | cli/src/utils.ts:14 | The TypeScript filter excludes every path containing `cli`. |
| Exclusion.DocumentationDiverges | generate_whitelabel.py:30 | `WHITELABEL.md` is excluded by Python and copied by TypeScript. |
| Exclusion.CliDirectoryDiverges | cli/src/utils.ts:14 | A top-level `cli` is copied by Python and excluded by TypeScript. |
| Replace.Expand | cli/src/utils.ts:42 | ECMAScript GetSubstitution without capture groups: `$$` gives '$', `$&` the match, `` $` `` the text before it, `$'` the text after it, and any other character stands for itself. `ExpandWithoutDollar` and `DollarPatternDiverges` state its effect. |
| Replace.ReplaceAll | generate_whitelabel.py:109 | Python's `str.replace` for a non-empty pattern: a left-to-right scan that replaces every non-overlapping occurrence and never rescans inserted text. `NoMatchLeavesUnchanged`, `ReplaceBySelf` and `RepeatedPattern` state its laws. |
| Replace.ReplaceFirst | cli/src/generator.ts:127-134 | JavaScript's `replace` with a string pattern: only the leftmost occurrence is replaced, through GetSubstitution. `ReplaceFirstAtLeftmost` and `ReplaceFirstWithoutOccurrence` characterise it. |
| Replace.ExpandWithoutDollar | cli/src/utils.ts:42 | A JavaScript replacement string without '$' inserts itself. |
| Replace.NoMatchLeavesUnchanged | generate_whitelabel.py:109 | A scan that finds no match returns the text unchanged. |
| Replace.ReplaceFirstAtLeftmost | cli/src/generator.ts:127-134 | `replace` with a string pattern rewrites only the leftmost occurrence. The text before and after it is kept. |
| Replace.ReplaceFirstWithoutOccurrence | cli/src/generator.ts:127-134 | With no occurrence, the first-only replace returns the text unchanged. |
| Replace.TemplateWithoutDollarIsLiteral | cli/src/generator.ts:122-124 | For a replacement without '$', the JavaScript scan inserts the same text as the literal scan. |
| Replace.ReplaceBySelf | generate_whitelabel.py:155-157 | Replacing a pattern by itself, anchored or not, gives the text back. |
| Replace.ReplaceFirstBySelf | cli/src/generator.ts:127-134 | The first-only replace of a pattern by itself gives the text back. |
| Replace.RepeatedPattern | generate_whitelabel.py:160-163 | On a text holding the pattern twice, replace-all rewrites both copies and replace-first only the first. |
| Replace.FirstAgreesWithAll | cli/src/generator.ts:127-134 | When the pattern occurs at most once, replace-first and replace-all agree. |
| Replace.AnchoredIsPerLine | generate_whitelabel.py:155-156 | A `^`-anchored multiline replace, for a pattern without line breaks, equals renaming the start of each line that begins with the pattern and copying every other line. |
| Substitution.Substitute | generate_whitelabel.py:106-110 | The fold over the mapping in its order: one replace-all of `${key}` by the value per key, literal in Python and through GetSubstitution in TypeScript. The substitution lemmas below state its properties. |
| Substitution.EscapeMatchesLiterally | cli/src/utils.ts:42 | The escaped placeholder is a regular expression without metacharacters, and it matches exactly the literal text `${key}`. |
| Substitution.ReplaceVariables | generate_whitelabel.py:106-110 | The loop over the mapping returns the fold `Substitute`: for each key in mapping order, one non-rescanning replace-all of `${key}`. |
| Substitution.NoPlaceholderUnchanged | generate_whitelabel.py:106-110 | When no `${key}` of the mapping occurs, the content comes back unchanged. This includes the empty mapping. |
| Substitution.SecondPassUnchanged | generate_whitelabel.py:106-110 | When the result holds no `${key}` of the mapping, a second substitution leaves it unchanged. |
| Substitution.SubstitutionNotIdempotent | generate_whitelabel.py:109 | Substitution is not idempotent in general: `${${a}}` with `a` bound to `a` gives `${a}`, and a second pass gives `a`. |
| Substitution.DialectsAgreeWithoutDollar | cli/src/utils.ts:42 | When no value holds '$', the TypeScript substitution equals the Python one. |
| Substitution.DollarPatternDiverges | cli/src/utils.ts:42 | The value `$&` is inserted as `$&` by Python, but TypeScript inserts the matched `${a}`. |
| Substitution.LaterKeysSeeEarlierValues | generate_whitelabel.py:108-109 | A later key's pass replaces tokens that an earlier value inserted, but not the other way round. So the mapping order matters. |
| Substitution.TokenIsPlaceholder | cli/src/generator.ts:221-222 | Text containing `${key}`, for a non-empty key without '}', passes the `/\$\{[^}]+\}/` test. |
| Substitution.GuardedRecheckIsSubstitution | cli/src/generator.ts:221-226 | When the placeholder test fails, substitution with such keys changes nothing. Skipping it is therefore the same as running it. |
| Config.ResolveTarget | generate_whitelabel.py:134-135 | Python falls back to the default target name only when the key is absent. TypeScript also falls back when the name is empty. |
| Config.TargetResolutionDiverges | cli/src/generator.ts:102-103 | The two resolutions differ exactly when the name is given as the empty string and the default is not empty. |
| Config.Checks | cli/src/validator.ts:30-51 | The five check outcomes in source order, one per message: main id has the prefix, clip id has the prefix, clip id ends with `.Clip`, the struct name matches the dialect's identifier regex, the URL has a web scheme. |
| Config.Errors | cli/src/validator.ts:26-54 | The messages of the failed checks, in check order. `ErrorsInCheckOrder` and `NoErrorsIffValid` characterise it. |
| Config.ValidateConfig | cli/src/validator.ts:26-54 | The method that pushes messages onto a list returns `Errors`. |
| Config.ErrorsInCheckOrder | cli/src/validator.ts:30-51 | The messages are those of the failing checks, one each, in check order: main prefix, clip prefix, `.Clip` suffix, struct name, URL scheme. Every failing check is listed. |
| Config.NoErrorsIffValid | cli/src/validator.ts:26-53 | No message exactly when both ids start with the prefix, the clip id ends with `.Clip`, the struct name matches, and the URL starts with `http://` or `https://`. |
| Config.OnlyClipSuffixFails | cli/src/validator.ts:38-40 | Failing only the suffix check yields exactly the one suffix message. |
| Config.EmptyPrefixPassesPrefixChecks | cli/src/validator.ts:30-36 | An empty prefix passes both prefix checks. |
| Config.EmptyNameAndUpperSchemeFail | cli/src/validator.ts:43-51 | The empty struct name fails, and `HTTPS://x` fails the case-sensitive scheme check. |
| Config.TrailingNewlineDiverges | generate_whitelabel.py:203 | An identifier followed by one newline passes Python's `$`-anchored struct check and fails TypeScript's. |
| Config.ValidateOrExit | generate_whitelabel.py:188-214 | Python's validator exits with status 1 exactly when some check fails, and otherwise continues. |
| ProjectYml.PatchProjectYml | generate_whitelabel.py:127-166 | The text written back: the eight values substituted, then the two header renames, the dependency rename and the two setting rewrites, in source order. `TemplateNamesOnlySubstitute` states its reduction. |
| ProjectYml.RenameHeader | generate_whitelabel.py:155-156 | A replace-all of `  <template>:` anchored at line starts, with the dialect's line breaks and replacement kind. `HeaderRenameIsPerLine` characterises it line by line. |
| ProjectYml.RenameDependency | generate_whitelabel.py:157 | A replace-all of `      - target: MainAppClip` anywhere in the text, not only at line starts. |
| ProjectYml.RewriteSetting | generate_whitelabel.py:160-163 | Python rewrites every copy of the entitlements setting, TypeScript only the first (cli/src/generator.ts:127-134). `RepeatedSettingDiverges` and `SingleSettingAgrees` state the difference. |
| ProjectYml.YmlVariables | generate_whitelabel.py:141-151 | project.yml gets eight variables, in the order of the dictionary literal, carrying the configuration's values. |
| ProjectYml.HeaderRenameIsPerLine | generate_whitelabel.py:155-156 | The header rename changes exactly the lines that begin with `  <template>:`, and copies every other line. |
| ProjectYml.MainRenameSparesClipHeader | generate_whitelabel.py:155 | The `^  MainApp:` rename leaves a line beginning with `  MainAppClip:` unchanged. |
| ProjectYml.RepeatedSettingDiverges | cli/src/generator.ts:127-134 | On a text with the setting twice, Python rewrites both copies and TypeScript only the first. |
| ProjectYml.SingleSettingAgrees | generate_whitelabel.py:160-163 | When the setting occurs at most once, both implementations rewrite it alike. |
| ProjectYml.TemplateNamesOnlySubstitute | generate_whitelabel.py:127-166 | With the template's own target names, every rename is the identity, and the patch is the substitution of the eight values. |
| Copy.InsideAsWritten | cli/src/generator.ts:14-21 | The TypeScript inside test as written: Node's relative path from the template to the output, joined with '/', does not start with `..`. |
| Copy.InsideAsWrittenCharacterised | cli/src/generator.ts:14-21 | The TypeScript inside test agrees with the component-prefix test, except when the output's first component below the template begins with `..`. |
| Copy.DotDotChildMisjudged | cli/src/generator.ts:18 | A child of the template called `..x` is inside it, but the TypeScript test says it is not. |
| Copy.MakeContext | generate_whitelabel.py:61-65 | The walk knows the output's relative path exactly when the output lies inside the template. The template path followed by that relative path is the output path. |
| Copy.Visit | generate_whitelabel.py:76-95 | What `copy_recursive` copies for one entry: nothing when it is at or under the output or excluded, the file itself, or the directory followed by its children in listing order. |
| Copy.CopyAll | generate_whitelabel.py:98-102 | What the top-level loop copies: the walk over every entry of the template directory. `CopiedFiles` and `CopiedDirs` characterise it. |
| Copy.OutputIsTemplateCopiesNothing | generate_whitelabel.py:72-74 | When the output is the template itself, nothing is copied. Removing and re-creating the output leaves an empty template to list, with the same result. |
| Copy.SkippedVisitsNothing | generate_whitelabel.py:79-88 | A source at or under the output, or one the filter excludes, contributes nothing. |
| Copy.CopiedFiles | generate_whitelabel.py:76-102 | A file is in the output exactly when it is a file of the template at that relative path and no ancestor (or itself) is excluded or under the output. It keeps the template's content. |
| Copy.CopiedDirs | generate_whitelabel.py:76-102 | A directory is created exactly when it is a directory of the template and no ancestor (or itself) is excluded or under the output. |
| Copy.NothingFromOutput | generate_whitelabel.py:79-85 | Nothing at or under the output path is copied when the output is inside the template. |
| Copy.ExcludedPrunes | generate_whitelabel.py:87-88 | Nothing below an excluded path is copied: its descendants are never visited. |
| Copy.ParentCopied | generate_whitelabel.py:90-93 | The directory of every copied file was created too. |
| Copy.ConfirmedIffY | cli/src/utils.ts:73 | The overwrite answer proceeds exactly when it is `y` or `Y`. |
| Copy.OutputDir.constructor | generate_whitelabel.py:74 | The new output directory is empty. |
| Copy.OutputDir.CopyRecursive | generate_whitelabel.py:76-95 | Called when the destination's parent exists, the walk adds exactly what `Visit` says to the directories and files, keeping what was there. |
| Copy.OutputDir.CopyKept | cli/src/generator.ts:52-61 | A kept file is copied, and a kept directory is created before its children are walked. |
| Copy.OutputDir.CopyChildren | generate_whitelabel.py:92-93 | The children are walked in order under a directory that already exists, and each child's result is added. |
| Copy.OutputDir.CopyTopEntry | generate_whitelabel.py:98-102 | A top-level entry is walked, and the output entry itself is skipped. |
| Copy.OutputDir.CopyTemplate | generate_whitelabel.py:55-104 | An existing output that is not confirmed exits with 0 and changes nothing. A confirmed output that is an ancestor of the template is emptied, and the run exits with 1 because the template is gone. Otherwise the output is emptied and ends up holding exactly `CopyAll` under the context `MakeContext` derives from the dialect and the two paths. |
| Generator.UpdatedFile | generate_whitelabel.py:112-125 | A missing path leaves the files unchanged. A directory path ends the run with 1. A file gets the substitution of its content. `UpdateTouchesOnlyPath` and `UpdateTwice` state its properties. |
| Generator.UpdateFile | generate_whitelabel.py:112-125 | A missing path is skipped. A directory path ends the run. A file gets the substitution. |
| Generator.UpdateTouchesOnlyPath | generate_whitelabel.py:115-117 | The update goes on exactly when the path is a file or is missing. A missing path leaves the tree as it is. No other file changes and no file appears or disappears. |
| Generator.UpdateTwice | generate_whitelabel.py:112-125 | When the updated file holds no `${key}` of its variables, updating it again changes nothing. |
| Generator.UpdateProjectYml | generate_whitelabel.py:127-166 | A missing project.yml ends the run. Otherwise it is rewritten to the patched text. |
| Generator.Moved | generate_whitelabel.py:177-180 | One guarded move: a file at the source moves, with its content, to a destination where nothing exists; otherwise nothing changes. `MoveTouchesNothingElse` and `MoveIdempotent` state its properties. |
| Generator.MoveIfFree | cli/src/generator.ts:147-151 | The method leaves the files as `Moved` says. |
| Generator.RenameEntitlements | generate_whitelabel.py:168-186 | Each entitlement file is moved in turn, main before clip, as `RenamedEntitlements` says. |
| Generator.MoveTouchesNothingElse | generate_whitelabel.py:177-180 | A move happens exactly when the source exists and the destination does not. The content moves with the file, and nothing else changes. |
| Generator.MoveIdempotent | cli/src/generator.ts:147-151 | Moving a second time changes nothing. |
| Generator.RenameTouchesNothingElse | generate_whitelabel.py:168-186 | No path other than the four entitlement names appears, disappears or changes. |
| Generator.RenameIdempotent | generate_whitelabel.py:177-186 | A second rename is a no-op when the main target is not named `MainAppClip` and the clip target not `MainApp`. |
| Generator.RenameNotIdempotent | generate_whitelabel.py:177-186 | With a main target called `MainAppClip`, or a clip target called `MainApp`, a second rename moves a file again. |
| Generator.AllVariablesAreFields | generate_whitelabel.py:274-287 | Each of the twelve variable names looks up its configuration field, and any other name finds nothing. |
| Generator.SelectVariables | cli/src/generator.ts:262-265 | The loop builds `Select`, the listed names bound to their values. |
| Generator.SelectedFromConfig | generate_whitelabel.py:317-319 | A file's variables are exactly its listed names, in order, each bound to its configuration value. |
| Generator.UpdateTable | generate_whitelabel.py:317-320 | The loop over the table leaves the files as `UpdatedFrom` says. |
| Generator.UpdatedFromCharacterised | generate_whitelabel.py:305-320 | The table run ends the run exactly when some listed path is a directory. Otherwise every listed file gets exactly its own variables, no other file changes, and no file appears or disappears. |
| Generator.TablesWellFormed | generate_whitelabel.py:305-315 | Both tables list distinct paths, and every listed name is a known variable. Python's table has nine entries and TypeScript's eight, without BUILD_INSTRUCTIONS.md. |
| Generator.Recheck | cli/src/generator.ts:218-228 | The method leaves the files as `Rechecked` says: a renamed file with a placeholder is substituted again. |
| Generator.Rechecked | cli/src/generator.ts:218-228 | The re-check of one renamed file: substitute only when `/\$\{[^}]+\}/` finds a placeholder, end the run on a directory, skip a missing path. |
| Generator.RecheckIsUpdate | cli/src/generator.ts:211-247 | For non-empty keys without '}', the guarded re-check equals an unguarded `updateFile`. |
| Generator.Generate | generate_whitelabel.py:290-320 | The steps after the copy run in order: project.yml, the two entitlement updates, the rename, the re-check (TypeScript only), then the table. |
| Generator.Finish | cli/src/generator.ts:205-268 | The steps after the entitlement updates leave the files as `Finished` says. |
| Generator.GeneratedSparesOthers | generate_whitelabel.py:290-320 | A file none of the steps names is neither changed nor removed. |
| Generator.Run | generate_whitelabel.py:249-320 | Validate, then copy or cancel, then generate. An invalid configuration exits with 1, an unconfirmed existing output with 0, and an existing output that is an ancestor of the template with 1. Otherwise the generation runs on the copy made with the context `MakeContext` derives from the two paths. |
| Generator.OverwritingTemplateFails | generate_whitelabel.py:72-74 | Confirming to overwrite the template or one of its ancestors ends the run with status 1, in both dialects (cli/src/generator.ts:24-33). |
| Generator.DefaultOutput | generate_whitelabel.py:255-260 | Without an output option, the output is the project name joined to the template and resolved (also cli/src/index.ts:87-92, cli/src/generator.ts:10-11). A plain name gives the template's child, whose relative path the walk's context holds in both dialects, so `Copy.NothingFromOutput` keeps it out of the copy; an empty name or `.` gives the template itself and `..` its parent. |
| Generator.Segments | generate_whitelabel.py:258 | The project name split at '/': at least one segment, none containing '/', and a name without '/' is its own single segment. |
| Generator.SegmentsJoinBack | generate_whitelabel.py:258 | Joining the segments with '/' gives the name back, so the split loses nothing. |
| Generator.Resolve | generate_whitelabel.py:57-58 | Path resolution of the joined name (also cli/src/generator.ts:10-11): segments that are none of empty, `.` and `..` are appended to the base unchanged. |
| Generator.DegenerateNameOverwritesTemplate | generate_whitelabel.py:255-260 | A project name that is empty, `.` or `..` with a confirmed overwrite ends the run with status 1 in both dialects, the template having been removed (also cli/src/index.ts:87-92). |
| Generator.GenerateProject | generate_whitelabel.py:249-320 | The run follows `Run` for the given template and output paths. An invalid configuration exits with 1. An unconfirmed existing output exits with 0 and stays unchanged. An invalid configuration leaves the output untouched, since validation comes before the copy. A confirmed output that is an ancestor of the template is left empty. A completed run leaves exactly the directories copied under `MakeContext` of the dialect and the two paths. |
| Prompts.LabelsJoinBack | cli/src/prompts.ts:43 | Splitting at dots and joining again gives the text back, and no label holds a dot. |
| Prompts.JoinSplitsBack | cli/src/prompts.ts:43 | Joining dot-free labels and splitting again gives the labels back. |
| Prompts.ValidateProjectName | cli/src/prompts.ts:15-26 | Blank gives "Project name is required", whitespace "cannot contain spaces", a non-identifier "must be a valid identifier", in that order; otherwise accepted. |
| Prompts.ValidateBundlePrefix | cli/src/prompts.ts:39-47 | Blank gives "is required", a text that is not a reverse domain gives the reverse-domain message; otherwise accepted. |
| Prompts.ValidateMainBundleId | cli/src/prompts.ts:54-63 | Blank gives "is required". A non-empty prefix the id does not start with gives "must start with <prefix>"; otherwise accepted. |
| Prompts.ValidateClipBundleId | cli/src/prompts.ts:70-82 | Blank, then the prefix test as for the main id, then the `.Clip` suffix test, each with its message; otherwise accepted. |
| Prompts.ValidateStructName | cli/src/prompts.ts:89-97 | Blank gives "is required", a non-identifier "must be a valid Swift identifier"; otherwise accepted. |
| Prompts.ValidateStartUrl | cli/src/prompts.ts:104-117 | Blank, then a missing `http://` or `https://` scheme, then a URL the parser rejects, each with its message; otherwise accepted. |
| Prompts.ValidateDomain | cli/src/prompts.ts:131-140 | Blank gives "is required"; a text whose dot-separated labels are not all one to 63 letters, digits or inner hyphens gives "Invalid domain format"; otherwise accepted. |
| Prompts.ValidateDeploymentTarget | cli/src/prompts.ts:171-179 | Blank gives "is required"; a text that is not two digit runs around one dot gives the format message; otherwise accepted. |
| Prompts.ValidateRequired | cli/src/prompts.ts:147-191 | The version, build number and Xcode version questions reject only a blank answer, with "<subject> is required". |
| Prompts.DefaultDisplayName | cli/src/prompts.ts:32 | The project name, or `My App` when it is empty. |
| Prompts.DefaultBundlePrefix | cli/src/prompts.ts:38 | `com.example.` followed by the lower-cased project name, or `myapp` when that is empty. |
| Prompts.DefaultMainBundleId | cli/src/prompts.ts:53 | The prefix, or `com.example.myapp` when it is empty. |
| Prompts.DefaultClipBundleId | cli/src/prompts.ts:69 | The first non-empty of the main id, the prefix and `com.example.myapp`, followed by `.Clip`. |
| Prompts.DefaultStructName | cli/src/prompts.ts:88 | The project name, or `MyApp` when it is empty, followed by `App`. |
| Prompts.DefaultMainTargetName | cli/src/prompts.ts:197 | The project name, or `MyApp` when it is empty. |
| Prompts.DefaultClipTargetName | cli/src/prompts.ts:203 | The project name, or `MyApp` when it is empty, followed by `Clip`. |
| Prompts.Assemble | cli/src/prompts.ts:214-240 | The record built from the answers, field by field. A target name equal to the project name (main) or to the project name followed by `Clip` (clip) is left out. `AssembledTargets` and `PromptedConfigValid` state what the record keeps. |
| Prompts.ProjectNameAcceptedIff | cli/src/prompts.ts:15-26 | A project name is accepted exactly when it is an identifier. A non-blank name with whitespace gets the "cannot contain spaces" message. |
| Prompts.ReverseDomainStartsLower | cli/src/prompts.ts:43 | A reverse domain is non-empty and begins with a lowercase letter. |
| Prompts.BundlePrefixAcceptedIff | cli/src/prompts.ts:39-47 | The prefix is accepted exactly when it matches `[a-z][a-z0-9]*(\.[a-z][a-z0-9]*)*`. |
| Prompts.ReverseDomainByChars | cli/src/prompts.ts:43 | Read label by label and read character by character, the regex accepts the same texts. |
| Prompts.MainBundleIdAcceptedIff | cli/src/prompts.ts:54-63 | The main id is accepted exactly when it is not blank and starts with the prefix. An empty prefix imposes nothing. |
| Prompts.ClipBundleIdChecks | cli/src/prompts.ts:70-82 | The clip id is accepted exactly when it is not blank, starts with the prefix and ends with `.Clip`. The prefix message comes before the suffix message. |
| Prompts.DefaultMainBundleIdAccepted | cli/src/prompts.ts:53-63 | After an accepted prefix, the suggested main id is accepted. |
| Prompts.DefaultClipBundleIdAccepted | cli/src/prompts.ts:69-82 | After an accepted main id, the suggested `<main id>.Clip` is accepted. |
| Prompts.DefaultStructNameAccepted | cli/src/prompts.ts:88-97 | After an accepted project name, the suggested `<name>App` is accepted. |
| Prompts.DefaultBundlePrefixAcceptedIff | cli/src/prompts.ts:38-47 | For an accepted project name, the suggested `com.example.<name lower-cased>` is accepted exactly when the name has no underscore. |
| Prompts.LabelsOfLower | cli/src/prompts.ts:136 | Lower-casing keeps the dots, so the labels of the lower-cased text are the lower-cased labels. |
| Prompts.DomainIgnoresCase | cli/src/prompts.ts:136 | Under the `i` flag, a domain is accepted in any case. |
| Prompts.MajorMinorSplits | cli/src/prompts.ts:175 | An accepted deployment target is two digit runs around one dot. |
| Prompts.MajorMinorOfDigits | cli/src/prompts.ts:171-179 | Any two non-empty digit runs joined by a dot are accepted. |
| Prompts.AssembledTargets | cli/src/prompts.ts:227-228 | Dropping a target name that equals its default loses nothing. Python resolves the record's target back to the answer. TypeScript resolves it to the answer, or to the default when the answer is empty. |
| Prompts.PromptedConfigValid | cli/src/prompts.ts:214-240 | Answers that the main id, clip id, struct name and start URL prompts accepted give a record that both validators accept. |

## Left out

- Reading the JSON configuration (`load_config`) is not modelled. Configuration values are strings: JSON numbers, nulls and nested values, and Python's `str(value)`, are not modelled.
- Console output, `input` / readline, and timing are not modelled. The overwrite answer and whether the output exists are parameters. The TypeScript warning about placeholders left in the clip entitlements after the re-check only prints, so it is not modelled.
- `shutil.copy2` / `fs.copy` metadata, symbolic links, file permissions and partial failures of the file system are not modelled. Reading a directory as a file is the only I/O error modelled, as an exit with status 1.
- The order of `iterdir` / `readdir` is the order of a directory's children in the template tree.
- Paths are sequences of components: Windows drive letters and absolute relative paths are not modelled, and a target name containing '/' is not modelled.
- Python's `re.sub` replacement strings are taken literally. Backslash escapes in a target name (`\1`, `\n`) are not modelled.
- `Text.Lower` maps only ASCII letters. Unicode case mapping in `str.lower` and `toLowerCase` is not modelled.
- `Prompts.ValidateStartUrl`: the `new URL(input)` check is a foreign parser. It is the parameter `urlParses`, and the associated domain's default, the parsed host name, is not modelled.
- The `iconPath` answer and the record's `iconPath` field are not modelled, because nothing in the core reads them.
- inquirer's substitution of the default for an empty answer is not modelled. The validators are applied to the answer as given.
- `Generator.RenameIdempotent`: proved only when the main target is not called `MainAppClip` and the clip target not `MainApp`. `Generator.RenameNotIdempotent` shows that a second call moves a file again otherwise.
- `Generator.MoveIfFree`: only a file is moved. An entitlement path that is a directory counts as an existing destination, but is never moved as a source.
- `Substitution.SecondPassUnchanged`: idempotence holds only when the result holds no placeholder of the mapping. `Substitution.SubstitutionNotIdempotent` shows the general case fails.
- The TypeScript skip test inside `copyRecursive` (cli/src/generator.ts:38-41) has the same `..` shape as the inside test. It cannot misjudge: the output directory is skipped before anything under it is reached. The model therefore uses the component test for it.
- The command-line arguments are not modelled. `Generator.Run` takes the resolved template and output paths as parameters. The default output, used when no output is given (generate_whitelabel.py:255-260), is `Generator.DefaultOutput`: the project name joined to the template and resolved. Neither program checks the project name, so a name containing '/' gives an output nested below the template (see the `Copy.OutputDir.CopyTemplate` line below), and Python restarts from the root at a leading '/' while Node's `path.join` does not.
- The TypeScript run is modelled with the corrected inside test (`Copy.MakeContext`, the same test as Python's), not with the test as written at cli/src/generator.ts:18. `Copy.InsideAsWritten` and the row under "## Findings" record the difference.
- `Copy.OutputDir.CopyTemplate`: an existing output that is a regular file is not modelled. Python's `shutil.rmtree` raises on it and the run exits with 1, while TypeScript's `fs.remove` deletes the file and goes on. The model has only `outputExists`, so it follows TypeScript there and does not model Python's exit.
- `Copy.OutputDir.CopyTemplate`: the template tree is a value read before the output is removed and created. An output that is an ancestor of the template or the template itself is modelled as its own case (`Generator.OverwritingTemplateFails`). Two other overlaps are not modelled. First, an output nested in the template below directories that do not exist yet: `mkdir(parents=True)` and `fs.ensureDir` create those directories inside the template, and both programs then copy them (empty) into the output, while the model's tree does not hold them. Second, overlaps through symbolic links.
- `Generator.UpdatedFile`, `Generator.UpdateFile`, `Generator.UpdatedProjectYml` and `Generator.UpdateProjectYml`: Python's text-mode `open` turns `\r\n` and a lone `\r` into `\n` on reading, so every file Python rewrites comes out with `\n` line endings, and a lone `\r` starts a line for the `^  MainApp:` rename. The model substitutes into the text as stored, and Python's line breaks are `\n` only. It therefore matches Python only for files whose lines end with `\n`. TypeScript reads and writes the text unchanged, as modelled.
- `Generator.Exists` and `Generator.Moved`: paths are compared exactly. On a case-insensitive file system a main target named `mainapp` makes the destination exist already, so `rename_entitlements` skips the move, while `Moved` performs it. Case-insensitive file systems are not modelled.
- The ARKit, WebKit, SwiftUI and VisionKit sources, the JavaScript bridge, and the CLI entry points (`cli/src/index.ts`, `cli/bin/cli.js`) are not part of this model.

## Findings

| source | as written | input that shows it | evidently intended | confidence | as-written member | corrected member |
|---|---|---|---|---|---|---|
| cli/src/generator.ts:18 | The output counts as inside the template when `path.relative(template, output)` does not start with the characters `..`. | The output is `<template>/..x`. The relative path `..x` starts with `..`, so the output counts as outside, and the walk copies the output into itself. | The output is inside exactly when the template's components begin the output's, as Python's `relative_to` decides. | not executed | Copy.DotDotChildMisjudged | Copy.MakeContext |
