/** The result of the build pass on a small project: one script, one
    stylesheet and one theme stylesheet at theme/<light>/css/<sheet>. */
module Scenario {
  import opened Text
  import Scanner
  import opened Manifest

  function ThemeTree(light: string, sheet: string): Scanner.Node
  {
    Scanner.Dir("theme", [Scanner.Dir(light, [Scanner.Dir("css", [Scanner.NonDir(sheet, Scanner.Regular)])])])
  }

  function ThemeSheet(light: string, sheet: string): string
  {
    "theme/" + light + "/css/" + sheet
  }

  /** On a POSIX system the scan of ./theme reports the one stylesheet. */
  lemma ThemeScanExample(light: string, sheet: string)
    requires EndsWith(sheet, ".css")
    ensures Scanner.Scan(ThemeRoot, Some(ThemeTree(light, sheet)), Sep(Posix), IsCss) ==
              Scanner.ScanResult([ThemeSheet(light, sheet)], false)
  {
    var c := Scanner.NonDir(sheet, Scanner.Regular);
    var d3 := Scanner.Dir("css", [c]);
    var d2 := Scanner.Dir(light, [d3]);
    var dir2 := Scanner.JoinPath("theme", light, '/');
    var dir3 := Scanner.JoinPath(dir2, "css", '/');
    var p := Scanner.JoinPath(dir3, sheet, '/');
    assert p == ThemeSheet(light, sheet);
    assert IsCss(p) by {
      assert p[|p| - 4..] == sheet[|sheet| - 4..];
    }
    assert Scanner.Visit(p, c, '/', IsCss) == Scanner.ScanResult([p], false);
    assert Scanner.ListPrefix(dir3, d3, 1, '/', IsCss) == Scanner.ScanResult([p], false);
    assert Scanner.ListDir(dir3, d3, '/', IsCss) == Scanner.ScanResult([p], false);
    assert Scanner.ListPrefix(dir2, d2, 1, '/', IsCss) == Scanner.ScanResult([p], false);
    assert Scanner.ListDir(dir2, d2, '/', IsCss) == Scanner.ScanResult([p], false);
    assert Scanner.ListPrefix("theme", ThemeTree(light, sheet), 1, '/', IsCss) == Scanner.ScanResult([p], false);
  }

  /** Three records in discovery order, all unhashed; the theme stylesheet
      keeps its directories in its key (build/css/theme/<light>/css/<sheet>,
      not build/css/<sheet>). */
  lemma BuildExample(script: string, style: string, light: string, sheet: string)
    requires EndsWith(sheet, ".css") && '\\' !in light && '\\' !in sheet
    ensures var b := Build(State(map[], []), Some([script]), Some([style]), Some(ThemeTree(light, sheet)), Posix);
            var p := ThemeSheet(light, sheet);
            b.completed &&
            b.state.versions == [VersionRecord("", "assets/js/" + script, "assets/js/" + script),
                                 VersionRecord("", "assets/css/" + style, "assets/css/" + style),
                                 VersionRecord("", p, "build/css/" + p)]
  {
    var p := ThemeSheet(light, sheet);
    ThemeScanExample(light, sheet);
    BuildVersions(State(map[], []), Some([script]), Some([style]), Some(ThemeTree(light, sheet)), Posix);
    assert AssetSource(Js, script) == "assets/js/" + script;
    assert AssetSource(Css, style) == "assets/css/" + style;
    assert AssetRecords(Js, [script]) == [VersionRecord("", "assets/js/" + script, "assets/js/" + script)];
    assert AssetRecords(Css, [style]) == [VersionRecord("", "assets/css/" + style, "assets/css/" + style)];
    assert '\\' !in p;
    ThemeTargetKeepsPath(p);
    SlashedWithoutBackslash(p);
    assert ThemeRecords([p]) == [VersionRecord("", p, "build/css/" + p)];
  }

  /** FILES after the same pass holds exactly three keys, the theme key with
      all its directories. */
  lemma BuildExampleFiles(script: string, style: string, light: string, sheet: string)
    requires EndsWith(sheet, ".css") && '\\' !in light && '\\' !in sheet
    ensures var b := Build(State(map[], []), Some([script]), Some([style]), Some(ThemeTree(light, sheet)), Posix);
            b.state.files.Keys ==
              {"build/js/" + script, "build/css/" + style, "build/css/" + ThemeSheet(light, sheet)}
  {
    var p := ThemeSheet(light, sheet);
    ThemeScanExample(light, sheet);
    var s0 := State(map[], []);
    var s1 := AddAssets(s0, Js, [script]);
    var s2 := AddAssets(s1, Css, [style]);
    assert [script][..0] == [] && [style][..0] == [] && [p][..0] == [];
    assert AssetTarget(Js, script) == "build/js/" + script;
    assert AssetTarget(Css, style) == "build/css/" + style;
    assert AddAssets(s0, Js, []) == s0 && AddAssets(s1, Css, []) == s1;
    assert s1 == AddAsset(s0, Js, script);
    assert s1.files.Keys == {"build/js/" + script};
    assert s2 == AddAsset(s1, Css, style);
    assert s2.files.Keys == {"build/js/" + script, "build/css/" + style};
    assert '\\' !in p;
    ThemeTargetKeepsPath(p);
    SlashedWithoutBackslash(p);
    assert AddThemes(s2, [p]).files.Keys == s2.files.Keys + {"build/css/" + p};
  }
}
