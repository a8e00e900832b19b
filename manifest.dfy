/** The session state the `dev` task of Gruntfile.js builds, as values: the
    FILES mapping (destination path to its source paths) and the VERSION
    list (the records later written to build/version.json), together with
    what the build pass and the watch handler do to them. */
module Manifest {
  import opened Text
  import Scanner

  const BuildFolder := "build"
  const AssetFolder := "assets"
  /** The theme root as `path.join('./theme', …)` prints it. */
  const ThemeRoot := "theme"

  /** The platform decides the separator `path.join` inserts. */
  datatype Platform = Posix | Windows

  function Sep(pl: Platform): char
  {
    match pl
    case Posix => '/'
    case Windows => '\\'
  }

  /** The two flat asset folders, assets/js and assets/css. */
  datatype Folder = Js | Css

  function FolderName(k: Folder): string
  {
    match k
    case Js => "js"
    case Css => "css"
  }

  /** One element of VERSION, as serialised into build/version.json. */
  datatype VersionRecord = VersionRecord(version: string, originalPath: string, versionedPath: string)

  datatype State = State(files: map<string, seq<string>>, versions: seq<VersionRecord>)

  // ---------------------------------------------------------------------
  // The flat listings: one `forEach` step per directory entry.

  function AssetSource(k: Folder, f: string): string
  {
    AssetFolder + "/" + FolderName(k) + "/" + f
  }

  function AssetTarget(k: Folder, f: string): string
  {
    BuildFolder + "/" + FolderName(k) + "/" + f
  }

  function AssetRecord(k: Folder, f: string): VersionRecord
  {
    VersionRecord("", AssetSource(k, f), AssetSource(k, f))
  }

  /** One iteration of the forEach over a flat listing. */
  function AddAsset(s: State, k: Folder, f: string): State
  {
    State(s.files[AssetTarget(k, f) := [AssetSource(k, f)]], s.versions + [AssetRecord(k, f)])
  }

  /** The whole forEach over a flat listing, entry after entry. */
  function AddAssets(s: State, k: Folder, listing: seq<string>): State
    decreases |listing|
  {
    if listing == [] then s
    else AddAsset(AddAssets(s, k, listing[..|listing| - 1]), k, listing[|listing| - 1])
  }

  /** The records a listing contributes, one per entry in listing order. */
  function AssetRecords(k: Folder, listing: seq<string>): seq<VersionRecord>
  {
    seq(|listing|, i requires 0 <= i < |listing| => AssetRecord(k, listing[i]))
  }

  function AssetTargets(k: Folder, listing: seq<string>): set<string>
  {
    set f | f in listing :: AssetTarget(k, f)
  }

  // ---------------------------------------------------------------------
  // The theme scan: one callback per matching path.

  /** The scan's filter, the regular expression /\.css$/. */
  predicate IsCss(p: string)
  {
    EndsWith(p, ".css")
  }

  /** The filename the callback stores: backslashes turned into slashes. */
  function ThemeSource(filename: string): string
  {
    Slashed(filename)
  }

  /** The key the callback computes: the last `\`-separated piece of the
      already slash-normalised filename, under build/css. */
  function ThemeTarget(filename: string): string
  {
    var parts := Split(Slashed(filename), '\\');
    BuildFolder + "/css/" + parts[|parts| - 1]
  }

  function ThemeRecord(filename: string): VersionRecord
  {
    VersionRecord("", ThemeSource(filename), ThemeTarget(filename))
  }

  /** One call of the theme callback. */
  function AddTheme(s: State, filename: string): State
  {
    State(s.files[ThemeTarget(filename) := [ThemeSource(filename)]], s.versions + [ThemeRecord(filename)])
  }

  function AddThemes(s: State, found: seq<string>): State
    decreases |found|
  {
    if found == [] then s
    else AddTheme(AddThemes(s, found[..|found| - 1]), found[|found| - 1])
  }

  function ThemeRecords(found: seq<string>): seq<VersionRecord>
  {
    seq(|found|, i requires 0 <= i < |found| => ThemeRecord(found[i]))
  }

  function ThemeTargets(found: seq<string>): set<string>
  {
    set p | p in found :: ThemeTarget(p)
  }

  // ---------------------------------------------------------------------
  // The build pass of the `dev` task.

  /** The state after the pass, and whether it ran to the point where
      VERSION is serialised (no listing threw). */
  datatype Pass = Pass(state: State, completed: bool)

  /** The js listing, then the css listing, then the theme scan; `js` or
      `css` is None when readdirSync throws on that folder, and `theme` is
      None when ./theme does not exist. */
  function Build(s: State, js: Option<seq<string>>, css: Option<seq<string>>,
                 theme: Option<Scanner.Node>, pl: Platform): Pass
  {
    if js.None? then Pass(s, false)
    else
      var s1 := AddAssets(s, Js, js.value);
      if css.None? then Pass(s1, false)
      else
        var s2 := AddAssets(s1, Css, css.value);
        var scan := Scanner.Scan(ThemeRoot, theme, Sep(pl), IsCss);
        Pass(AddThemes(s2, scan.found), !scan.failed)
  }

  /** The payload serialised into build/version.json, if the pass gets there. */
  function Written(p: Pass): Option<seq<VersionRecord>>
  {
    if p.completed then Some(p.state.versions) else None
  }

  // ---------------------------------------------------------------------
  // The watch handler.

  /** FILES after the watch event `(action, filepath)`. */
  function OnWatch(files: map<string, seq<string>>, action: string, filepath: string): map<string, seq<string>>
  {
    if action == "added" && Split(filepath, '\\')[0] == AssetFolder
    then files[ReplaceFirst(filepath, AssetFolder, BuildFolder) := [filepath]]
    else files
  }

  // ---------------------------------------------------------------------
  // Properties of the flat listings.

  lemma PrefixCancel(p: string, a: string, b: string)
    requires p + a == p + b
    ensures a == b
  {
    assert a == (p + a)[|p|..];
    assert b == (p + b)[|p|..];
  }

  /** VERSION gains one record per listing entry, in listing order, each
      with an empty version and the source path on both sides. */
  lemma {:induction false} AssetsVersions(s: State, k: Folder, listing: seq<string>)
    ensures AddAssets(s, k, listing).versions == s.versions + AssetRecords(k, listing)
    decreases |listing|
  {
    if listing != [] {
      var init := listing[..|listing| - 1];
      AssetsVersions(s, k, init);
      assert AssetRecords(k, listing) == AssetRecords(k, init) + [AssetRecord(k, listing[|listing| - 1])];
    }
  }

  /** FILES gains the key build/<folder>/f for each entry f, mapped to the
      single source assets/<folder>/f; every other key keeps its value. */
  lemma {:induction false} AssetsFiles(s: State, k: Folder, listing: seq<string>)
    ensures var r := AddAssets(s, k, listing).files;
            r.Keys == s.files.Keys + AssetTargets(k, listing) &&
            (forall f :: f in listing ==> r[AssetTarget(k, f)] == [AssetSource(k, f)]) &&
            (forall key :: key in s.files && key !in AssetTargets(k, listing) ==> r[key] == s.files[key])
    decreases |listing|
  {
    if listing != [] {
      var init, last := listing[..|listing| - 1], listing[|listing| - 1];
      AssetsFiles(s, k, init);
      assert listing == init + [last];
      assert AssetTargets(k, listing) == AssetTargets(k, init) + {AssetTarget(k, last)};
      var r := AddAssets(s, k, listing).files;
      forall f | f in listing ensures r[AssetTarget(k, f)] == [AssetSource(k, f)] {
        if AssetTarget(k, f) == AssetTarget(k, last) {
          PrefixCancel(BuildFolder + "/" + FolderName(k) + "/", f, last);
        }
      }
    }
  }

  // ---------------------------------------------------------------------
  // Properties of the theme callback.

  /** The key is NOT flattened: normalising backslashes first leaves no
      backslash to split on, so the key is build/css/ followed by the whole
      normalised path. */
  lemma ThemeTargetKeepsPath(filename: string)
    ensures ThemeTarget(filename) == "build/css/" + Slashed(filename)
  {
    SplitHead(Slashed(filename), '\\');
  }

  /** VERSION gains one record per match, in scan order: empty version, the
      normalised path as original, the computed key as versioned path. */
  lemma {:induction false} ThemesVersions(s: State, found: seq<string>)
    ensures AddThemes(s, found).versions == s.versions + ThemeRecords(found)
    decreases |found|
  {
    if found != [] {
      var init := found[..|found| - 1];
      ThemesVersions(s, init);
      assert ThemeRecords(found) == ThemeRecords(init) + [ThemeRecord(found[|found| - 1])];
    }
  }

  /** Two matches share a key only when they normalise to the same path. */
  lemma ThemeTargetInjective(p: string, q: string)
    requires ThemeTarget(p) == ThemeTarget(q)
    ensures Slashed(p) == Slashed(q)
  {
    ThemeTargetKeepsPath(p);
    ThemeTargetKeepsPath(q);
    PrefixCancel("build/css/", Slashed(p), Slashed(q));
  }

  /** FILES gains exactly the keys of the matches; every other key keeps its
      value. */
  lemma {:induction false} ThemesKeys(s: State, found: seq<string>)
    ensures var r := AddThemes(s, found).files;
            r.Keys == s.files.Keys + ThemeTargets(found) &&
            (forall key :: key in s.files && key !in ThemeTargets(found) ==> r[key] == s.files[key])
    decreases |found|
  {
    if found != [] {
      var init, last := found[..|found| - 1], found[|found| - 1];
      ThemesKeys(s, init);
      assert found == init + [last];
      assert ThemeTargets(found) == ThemeTargets(init) + {ThemeTarget(last)};
    }
  }

  /** FILES maps each match's key to the normalised path alone: when two
      matches share a key the later write wins, and it writes the same
      value. */
  lemma {:induction false} ThemesValues(s: State, found: seq<string>)
    ensures var r := AddThemes(s, found).files;
            forall p :: p in found ==> ThemeTarget(p) in r && r[ThemeTarget(p)] == [ThemeSource(p)]
    decreases |found|
  {
    if found != [] {
      var init, last := found[..|found| - 1], found[|found| - 1];
      ThemesValues(s, init);
      var r0 := AddThemes(s, init).files;
      var r := AddThemes(s, found).files;
      assert r == r0[ThemeTarget(last) := [ThemeSource(last)]];
      forall p | p in found ensures ThemeTarget(p) in r && r[ThemeTarget(p)] == [ThemeSource(p)] {
        if ThemeTarget(p) == ThemeTarget(last) {
          ThemeTargetInjective(p, last);
        } else {
          assert p in init by { assert found == init + [last]; }
        }
      }
    }
  }

  // ---------------------------------------------------------------------
  // Properties of the whole build pass.

  /** VERSION after the pass: the js records, then the css records, then the
      theme records, appended to what was there; the pass completes exactly
      when neither listing throws and the scan does not fail, and a listing
      that throws stops the pass where it is. */
  lemma BuildVersions(s: State, js: Option<seq<string>>, css: Option<seq<string>>,
                      theme: Option<Scanner.Node>, pl: Platform)
    ensures var b := Build(s, js, css, theme, pl);
            var scan := Scanner.Scan(ThemeRoot, theme, Sep(pl), IsCss);
            (b.completed <==> js.Some? && css.Some? && !scan.failed) &&
            (js.None? ==> b.state == s) &&
            (js.Some? && css.None? ==> b.state.versions == s.versions + AssetRecords(Js, js.value)) &&
            (js.Some? && css.Some? ==>
               b.state.versions == s.versions + AssetRecords(Js, js.value) + AssetRecords(Css, css.value) + ThemeRecords(scan.found) &&
               |b.state.versions| == |s.versions| + |js.value| + |css.value| + |scan.found|)
  {
    if js.Some? {
      AssetsVersions(s, Js, js.value);
      if css.Some? {
        var s1 := AddAssets(s, Js, js.value);
        AssetsVersions(s1, Css, css.value);
        ThemesVersions(AddAssets(s1, Css, css.value), Scanner.Scan(ThemeRoot, theme, Sep(pl), IsCss).found);
      }
    }
  }

  /** Every record the pass adds has an empty version. */
  lemma BuildVersionsUnhashed(s: State, js: Option<seq<string>>, css: Option<seq<string>>,
                              theme: Option<Scanner.Node>, pl: Platform)
    ensures var v := Build(s, js, css, theme, pl).state.versions;
            |s.versions| <= |v| && v[..|s.versions|] == s.versions &&
            forall i :: |s.versions| <= i < |v| ==> v[i].version == ""
  {
    BuildVersions(s, js, css, theme, pl);
  }

  /** FILES' key set after the pass: the old keys, then build/js/f for each js
      entry, then build/css/f for each css entry, then the theme keys, each
      stage present only when the listing before it did not throw; every
      other key keeps its value. */
  lemma BuildFilesKeys(s: State, js: Option<seq<string>>, css: Option<seq<string>>,
                       theme: Option<Scanner.Node>, pl: Platform)
    ensures var r := Build(s, js, css, theme, pl).state.files;
            var found := Scanner.Scan(ThemeRoot, theme, Sep(pl), IsCss).found;
            var added := if js.None? then {}
                         else if css.None? then AssetTargets(Js, js.value)
                         else AssetTargets(Js, js.value) + AssetTargets(Css, css.value) + ThemeTargets(found);
            r.Keys == s.files.Keys + added &&
            (forall key :: key in s.files && key !in added ==> r[key] == s.files[key])
  {
    if js.Some? {
      var s1 := AddAssets(s, Js, js.value);
      AssetsFiles(s, Js, js.value);
      if css.Some? {
        var s2 := AddAssets(s1, Css, css.value);
        AssetsFiles(s1, Css, css.value);
        ThemesKeys(s2, Scanner.Scan(ThemeRoot, theme, Sep(pl), IsCss).found);
      }
    }
  }

  lemma JsNotCss(f: string, g: string)
    ensures AssetTarget(Js, f) != AssetTarget(Css, g)
    ensures AssetTarget(Js, f) != "build/css/" + g
  {
    assert AssetTarget(Js, f)[6] == 'j';
    assert AssetTarget(Css, g)[6] == 'c';
    assert ("build/css/" + g)[6] == 'c';
  }

  /** Each js entry f ends up mapped from build/js/f to [assets/js/f]: the
      later css and theme writes never touch a build/js/ key. */
  lemma BuildJsFiles(s: State, js: seq<string>, css: Option<seq<string>>,
                     theme: Option<Scanner.Node>, pl: Platform)
    ensures var r := Build(s, Some(js), css, theme, pl).state.files;
            forall f :: f in js ==> AssetTarget(Js, f) in r && r[AssetTarget(Js, f)] == [AssetSource(Js, f)]
  {
    var s1 := AddAssets(s, Js, js);
    AssetsFiles(s, Js, js);
    if css.Some? {
      var s2 := AddAssets(s1, Css, css.value);
      var found := Scanner.Scan(ThemeRoot, theme, Sep(pl), IsCss).found;
      AssetsFiles(s1, Css, css.value);
      ThemesKeys(s2, found);
      forall f | f in js
        ensures AssetTarget(Js, f) !in AssetTargets(Css, css.value) && AssetTarget(Js, f) !in ThemeTargets(found)
      {
        forall g | g in css.value ensures AssetTarget(Js, f) != AssetTarget(Css, g) {
          JsNotCss(f, g);
        }
        forall p | p in found ensures AssetTarget(Js, f) != ThemeTarget(p) {
          ThemeTargetKeepsPath(p);
          JsNotCss(f, Slashed(p));
        }
      }
    }
  }

  /** Each css entry f that is a plain file name (no '/', as a directory
      listing gives) ends up mapped from build/css/f to [assets/css/f]: theme
      keys always hold the "theme/" directory, so they never collide. */
  lemma BuildCssFiles(s: State, js: seq<string>, css: seq<string>,
                      theme: Option<Scanner.Node>, pl: Platform)
    ensures var r := Build(s, Some(js), Some(css), theme, pl).state.files;
            forall f :: f in css && '/' !in f ==> AssetTarget(Css, f) in r && r[AssetTarget(Css, f)] == [AssetSource(Css, f)]
  {
    var s1 := AddAssets(s, Js, js);
    var s2 := AddAssets(s1, Css, css);
    var found := Scanner.Scan(ThemeRoot, theme, Sep(pl), IsCss).found;
    AssetsFiles(s1, Css, css);
    ThemesKeys(s2, found);
    Scanner.ScanBeneath(ThemeRoot, theme, Sep(pl), IsCss);
    forall f | f in css && '/' !in f ensures AssetTarget(Css, f) !in ThemeTargets(found) {
      forall p | p in found ensures AssetTarget(Css, f) != ThemeTarget(p) {
        PlainNameIsNoThemeTarget(f, p, pl);
      }
    }
  }

  /** A file name without '/' never collides with the key of a path found
      beneath the theme root. */
  lemma PlainNameIsNoThemeTarget(f: string, p: string, pl: Platform)
    requires '/' !in f && ThemeRoot + [Sep(pl)] <= p
    ensures AssetTarget(Css, f) != ThemeTarget(p)
  {
    ThemeTargetKeepsPath(p);
    assert p[5] == Sep(pl);
    assert Slashed(p)[5] == '/';
    if AssetTarget(Css, f) == ThemeTarget(p) {
      PrefixCancel("build/css/", f, Slashed(p));
    }
  }

  /** Each theme match p ends up mapped from build/css/q to [q], where q is
      p with backslashes turned into slashes: the theme writes come last. */
  lemma BuildThemeFiles(s: State, js: seq<string>, css: seq<string>,
                        theme: Option<Scanner.Node>, pl: Platform)
    ensures var r := Build(s, Some(js), Some(css), theme, pl).state.files;
            forall p :: p in Scanner.Scan(ThemeRoot, theme, Sep(pl), IsCss).found ==>
              "build/css/" + Slashed(p) in r && r["build/css/" + Slashed(p)] == [Slashed(p)]
  {
    var s2 := AddAssets(AddAssets(s, Js, js), Css, css);
    var found := Scanner.Scan(ThemeRoot, theme, Sep(pl), IsCss).found;
    ThemesValues(s2, found);
    forall p | p in found ensures ThemeTarget(p) == "build/css/" + Slashed(p) {
      ThemeTargetKeepsPath(p);
    }
  }

  // ---------------------------------------------------------------------
  // Properties of the watch handler.

  /** The first `\`-separated piece of a path is "assets" exactly when the
      path is "assets" or starts with "assets\". */
  lemma FirstPieceIsAssets(filepath: string)
    ensures Split(filepath, '\\')[0] == AssetFolder <==>
              filepath == AssetFolder || AssetFolder + "\\" <= filepath
  {
    var head := Split(filepath, '\\')[0];
    SplitHead(filepath, '\\');
    if '\\' in filepath {
      var i :| 0 <= i < |filepath| && filepath[i] == '\\' && head == filepath[..i] && '\\' !in filepath[..i];
      if AssetFolder + "\\" <= filepath {
        assert filepath[6] == '\\';
        assert filepath[..6] == AssetFolder;
        assert i == 6;
        assert head == AssetFolder;
      }
      if head == AssetFolder {
        assert |head| == 6;
        assert filepath[..7] == AssetFolder + "\\";
      }
    } else {
      assert head == filepath;
      assert |filepath| > 6 && filepath[6] == '\\' ==> '\\' in filepath;
    }
  }

  /** The handler's guard and effect without split/replace: FILES changes
      only for an "added" event whose path is "assets" or starts with
      "assets\", and then gains key "build" + the rest of the path. */
  lemma WatchEffect(files: map<string, seq<string>>, action: string, filepath: string)
    ensures OnWatch(files, action, filepath) ==
              if action == "added" && (filepath == AssetFolder || AssetFolder + "\\" <= filepath)
              then files[BuildFolder + filepath[|AssetFolder|..] := [filepath]]
              else files
  {
    FirstPieceIsAssets(filepath);
    if AssetFolder + "\\" <= filepath {
      assert AssetFolder <= filepath by {
        assert filepath[..6] == (AssetFolder + "\\")[..6];
      }
    }
  }

  /** A path written with forward slashes never passes the guard, so the
      event ("added", "assets/js/new-widget.js") leaves FILES as it was. */
  lemma WatchIgnoresForwardSlashes(files: map<string, seq<string>>, filepath: string)
    requires '\\' !in filepath && filepath != AssetFolder
    ensures OnWatch(files, "added", filepath) == files
  {
    WatchEffect(files, "added", filepath);
  }

  /** An "added" event for assets\X registers build\X (the key keeps the
      event's backslashes) with the single source assets\X. */
  lemma WatchAddsBackslashPath(files: map<string, seq<string>>, rest: string)
    ensures OnWatch(files, "added", AssetFolder + "\\" + rest) ==
              files[BuildFolder + "\\" + rest := [AssetFolder + "\\" + rest]]
  {
    var path := AssetFolder + "\\" + rest;
    WatchEffect(files, "added", path);
    assert AssetFolder + "\\" <= path;
    assert path[|AssetFolder|..] == "\\" + rest;
    assert BuildFolder + path[|AssetFolder|..] == BuildFolder + "\\" + rest;
  }
}
