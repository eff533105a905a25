/** The project.yml patcher: `update_project_yml` in generate_whitelabel.py
    and `updateProjectYml` in cli/src/generator.ts. Both substitute eight
    configuration values, rename the two target headers at line starts,
    rename the clip dependency wherever it occurs, and rewrite the two
    entitlement-file settings. */
module ProjectYml {
  import opened Text
  import opened Replace
  import opened Dialects
  import opened Substitution
  import opened Config

  /** The variables substituted into project.yml, in the order of the
      dictionary (object) literal. */
  const YmlKeys: seq<string> := [
    "projectName", "bundleIdPrefix", "mainBundleId", "clipBundleId",
    "version", "buildNumber", "deploymentTarget", "xcodeVersion"
  ]

  function YmlVariables(config: WhitelabelConfig): (vars: Variables)
    ensures |vars| == |YmlKeys|
    ensures forall i :: 0 <= i < |vars| ==> vars[i].key == YmlKeys[i]
    ensures vars[0].value == config.project.name && vars[1].value == config.project.bundleIdPrefix
    ensures vars[2].value == config.app.mainBundleId && vars[3].value == config.app.clipBundleId
    ensures vars[4].value == config.project.version && vars[5].value == config.project.buildNumber
    ensures vars[6].value == config.ios.deploymentTarget && vars[7].value == config.ios.xcodeVersion
  {
    [
      Binding("projectName", config.project.name),
      Binding("bundleIdPrefix", config.project.bundleIdPrefix),
      Binding("mainBundleId", config.app.mainBundleId),
      Binding("clipBundleId", config.app.clipBundleId),
      Binding("version", config.project.version),
      Binding("buildNumber", config.project.buildNumber),
      Binding("deploymentTarget", config.ios.deploymentTarget),
      Binding("xcodeVersion", config.ios.xcodeVersion)
    ]
  }

  /** `  <name>:`, the header of a target in the `targets:` mapping. */
  function Header(name: string): string
  {
    "  " + name + ":"
  }

  /** `      - target: <name>`, the main target's dependency on the clip. */
  function Dependency(name: string): string
  {
    "      - target: " + name
  }

  /** `CODE_SIGN_ENTITLEMENTS: "<name>.entitlements"`. */
  function EntitlementsSetting(name: string): string
  {
    "CODE_SIGN_ENTITLEMENTS: \"" + name + ".entitlements\""
  }

  /** `re.sub(r'^  <template>:', ..., flags=re.MULTILINE)` and
      `content.replace(/^  <template>:/gm, ...)`. */
  function RenameHeader(d: Dialect, content: string, template: string, target: string): string
  {
    Scan(content, Header(template), ReplacementOf(d, Header(target)), LineStart(BreaksOf(d)))
  }

  /** The dependency line is renamed wherever it occurs, not only at line
      starts. */
  function RenameDependency(d: Dialect, content: string, target: string): string
  {
    Scan(content, Dependency("MainAppClip"), ReplacementOf(d, Dependency(target)), Anywhere)
  }

  /** Python's `str.replace` rewrites every occurrence; JavaScript's
      `String.prototype.replace` with a string pattern only the first. */
  function RewriteSetting(d: Dialect, content: string, template: string, target: string): string
  {
    match d
    case Python => ReplaceAll(content, EntitlementsSetting(template), EntitlementsSetting(target))
    case TypeScript => ReplaceFirst(content, EntitlementsSetting(template), EntitlementsSetting(target))
  }

  /** The text written back to project.yml: the edits in the order both
      implementations apply them. */
  function PatchProjectYml(d: Dialect, config: WhitelabelConfig, content: string): string
  {
    var main := MainTarget(d, config);
    var clip := ClipTarget(d, config);
    var substituted := Substitute(d, content, YmlVariables(config));
    var headers := RenameHeader(d, RenameHeader(d, substituted, "MainApp", main), "MainAppClip", clip);
    var dependency := RenameDependency(d, headers, clip);
    RewriteSetting(d, RewriteSetting(d, dependency, "MainApp", main), "MainAppClip", clip)
  }

  // ---------------------------------------------------------------------
  // Header renames read line by line

  lemma NoDollarJoin(a: string, b: string, c: string)
    requires NoDollar(a) && NoDollar(b) && NoDollar(c)
    ensures NoDollar(a + b + c)
  {
    forall i | 0 <= i < |a + b + c| ensures (a + b + c)[i] != '$' {
      if i < |a| {
        assert (a + b + c)[i] == a[i];
      } else if i < |a| + |b| {
        assert (a + b + c)[i] == b[i - |a|];
      } else {
        assert (a + b + c)[i] == c[i - |a| - |b|];
      }
    }
  }

  lemma NoBreakJoin(b: LineBreaks, x: string, y: string, z: string)
    requires HasNoBreak(b, x) && HasNoBreak(b, y) && HasNoBreak(b, z)
    ensures HasNoBreak(b, x + y + z)
  {
    forall i | 0 <= i < |x + y + z| ensures !IsBreak(b, (x + y + z)[i]) {
      if i < |x| {
        assert (x + y + z)[i] == x[i];
      } else if i < |x| + |y| {
        assert (x + y + z)[i] == y[i - |x|];
      } else {
        assert (x + y + z)[i] == z[i - |x| - |y|];
      }
    }
  }

  /** The replacement of a header rename holds no '$' when the target name
      holds none. */
  lemma HeaderWithoutDollar(name: string)
    requires NoDollar(name)
    ensures NoDollar(Header(name))
  {
    NoDollarJoin("  ", name, ":");
  }

  /** A header pattern contains no line break when its name contains none. */
  lemma HeaderWithoutBreak(b: LineBreaks, name: string)
    requires HasNoBreak(b, name)
    ensures HasNoBreak(b, Header(name))
  {
    assert HasNoBreak(b, "  ") && HasNoBreak(b, ":");
    NoBreakJoin(b, "  ", name, ":");
  }

  /** The header rename changes exactly the lines that begin with the
      template header: each such line gets the target header in place of the
      template one, every other line is copied. In the TypeScript port this
      holds when the target name has no '$' (the replacement is a template
      there). */
  lemma HeaderRenameIsPerLine(d: Dialect, content: string, template: string, target: string)
    requires HasNoBreak(BreaksOf(d), template)
    requires d == TypeScript ==> NoDollar(target)
    ensures RenameHeader(d, content, template, target)
      == PerLine(content, Header(template), Header(target), BreaksOf(d))
  {
    var b := BreaksOf(d);
    var p := Header(template);
    HeaderWithoutBreak(b, template);
    if d == TypeScript {
      HeaderWithoutDollar(target);
      TemplateWithoutDollarIsLiteral(content, p, Header(target), LineStart(b), 0);
    }
    AnchoredIsPerLine(content, p, Header(target), b);
  }

  /** The `^  MainApp:` rename cannot touch a line that begins with
      `  MainAppClip:`: at index 9 one has ':' and the other 'C'. */
  lemma MainRenameSparesClipHeader(line: string, target: string)
    requires StartsWith(line, Header("MainAppClip"))
    ensures RenameLine(line, Header("MainApp"), Header(target)) == line
  {
    assert line[9] == Header("MainAppClip")[9] == 'C';
    assert Header("MainApp")[9] == ':';
  }

  // ---------------------------------------------------------------------
  // The entitlement settings

  lemma SettingWithoutDollar(name: string)
    requires NoDollar(name)
    ensures NoDollar(EntitlementsSetting(name))
  {
    NoDollarJoin("CODE_SIGN_ENTITLEMENTS: \"", name, ".entitlements\"");
  }

  /** On a text holding the template setting twice in a row, Python
      rewrites both and the TypeScript port only the first. */
  lemma RepeatedSettingDiverges(template: string, target: string)
    requires NoDollar(target)
    ensures var p, r := EntitlementsSetting(template), EntitlementsSetting(target);
      RewriteSetting(Python, p + p, template, target) == r + r
      && RewriteSetting(TypeScript, p + p, template, target) == r + p
  {
    SettingWithoutDollar(target);
    RepeatedPattern(EntitlementsSetting(template), EntitlementsSetting(target));
  }

  /** Where the template setting occurs at most once (at `m`), both
      implementations rewrite it the same way. */
  lemma SingleSettingAgrees(content: string, template: string, target: string, m: nat)
    requires NoDollar(target)
    requires forall j :: 0 <= j <= |content| && OccursAt(content, EntitlementsSetting(template), j) ==> j == m
    ensures RewriteSetting(Python, content, template, target)
      == RewriteSetting(TypeScript, content, template, target)
  {
    SettingWithoutDollar(target);
    FirstAgreesWithAll(content, EntitlementsSetting(template), EntitlementsSetting(target), m);
  }

  // ---------------------------------------------------------------------
  // Keeping the template's names

  lemma HeaderBySelf(d: Dialect, content: string, name: string)
    requires NoDollar(name)
    ensures RenameHeader(d, content, name, name) == content
  {
    var p := Header(name);
    if d == TypeScript {
      HeaderWithoutDollar(name);
      TemplateWithoutDollarIsLiteral(content, p, p, LineStart(BreaksOf(d)), 0);
    }
    ReplaceBySelf(content, p, LineStart(BreaksOf(d)));
  }

  lemma DependencyBySelf(d: Dialect, content: string)
    ensures RenameDependency(d, content, "MainAppClip") == content
  {
    var p := Dependency("MainAppClip");
    if d == TypeScript {
      assert NoDollar(p);
      TemplateWithoutDollarIsLiteral(content, p, p, Anywhere, 0);
    }
    ReplaceBySelf(content, p, Anywhere);
  }

  lemma SettingBySelf(d: Dialect, content: string, name: string)
    requires NoDollar(name)
    ensures RewriteSetting(d, content, name, name) == content
  {
    var p := EntitlementsSetting(name);
    if d == Python {
      ReplaceBySelf(content, p, Anywhere);
    } else {
      SettingWithoutDollar(name);
      ReplaceFirstBySelf(content, p, 0);
      assert content[0..] == content;
    }
  }

  /** With the template's own target names, every rename is the identity and
      the patch reduces to the substitution of the eight values. */
  lemma TemplateNamesOnlySubstitute(d: Dialect, config: WhitelabelConfig, content: string)
    requires MainTarget(d, config) == "MainApp" && ClipTarget(d, config) == "MainAppClip"
    ensures PatchProjectYml(d, config, content) == Substitute(d, content, YmlVariables(config))
  {
    var s := Substitute(d, content, YmlVariables(config));
    assert NoDollar("MainApp") && NoDollar("MainAppClip");
    HeaderBySelf(d, s, "MainApp");
    HeaderBySelf(d, s, "MainAppClip");
    DependencyBySelf(d, s);
    SettingBySelf(d, s, "MainApp");
    SettingBySelf(d, s, "MainAppClip");
  }
}
