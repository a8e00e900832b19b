/** The `dev` task and the watch handler of Gruntfile.js as methods on the
    state they share: FILES and VERSION, which live in the closure of the
    exported function for as long as the process runs. */
module Session {
  import opened Text
  import Scanner
  import opened Manifest

  class DevSession {
    /** FILES: destination path to the source paths it is built from. */
    var files: map<string, seq<string>>
    /** VERSION: the records serialised into build/version.json. */
    var versions: seq<VersionRecord>

    function Current(): State
      reads this
    {
      State(files, versions)
    }

    /** `const FILES = {}; const VERSION = [];` */
    constructor ()
      ensures files == map[] && versions == []
    {
      files := map[];
      versions := [];
    }

    /** The body of the forEach over assets/js or assets/css. */
    method RegisterAsset(k: Folder, f: string)
      modifies this
      ensures Current() == AddAsset(old(Current()), k, f)
    {
      var source := AssetFolder + "/" + FolderName(k) + "/" + f;
      files := files[BuildFolder + "/" + FolderName(k) + "/" + f := [source]];
      versions := versions + [VersionRecord("", source, source)];
    }

    /** The forEach over one flat listing. */
    method RegisterListing(k: Folder, listing: seq<string>)
      modifies this
      ensures Current() == AddAssets(old(Current()), k, listing)
    {
      var i := 0;
      while i < |listing|
        invariant i <= |listing|
        invariant Current() == AddAssets(old(Current()), k, listing[..i])
      {
        assert listing[..i + 1][..i] == listing[..i];
        RegisterAsset(k, listing[i]);
        i := i + 1;
      }
      assert listing[..i] == listing;
    }

    /** The callback handed to fileByType for the theme folder. */
    method RegisterTheme(filename: string)
      modifies this
      ensures Current() == AddTheme(old(Current()), filename)
    {
      var normalised := Slashed(filename);
      var split := Split(normalised, '\\');
      var key := BuildFolder + "/css/" + split[|split| - 1];
      files := files[key := [normalised]];
      versions := versions + [VersionRecord("", normalised, key)];
    }

    /** The build pass of the `dev` task: the js listing, the css listing,
        the theme scan, then the payload of build/version.json. A listing or
        scan that throws ends the task there, with no payload. */
    method Dev(js: Option<seq<string>>, css: Option<seq<string>>, theme: Option<Scanner.Node>, pl: Platform)
      returns (written: Option<seq<VersionRecord>>)
      modifies this
      ensures Current() == Build(old(Current()), js, css, theme, pl).state
      ensures written == Written(Build(old(Current()), js, css, theme, pl))
    {
      if js.None? {
        return None;
      }
      RegisterListing(Js, js.value);
      if css.None? {
        return None;
      }
      RegisterListing(Css, css.value);
      ghost var beforeThemes := Current();
      var found, failed := Scanner.FileByType(ThemeRoot, theme, Sep(pl), IsCss);
      var i := 0;
      while i < |found|
        invariant i <= |found|
        invariant Current() == AddThemes(beforeThemes, found[..i])
      {
        assert found[..i + 1][..i] == found[..i];
        RegisterTheme(found[i]);
        i := i + 1;
      }
      assert found[..i] == found;
      if failed {
        return None;
      }
      written := Some(versions);
    }

    /** The handler registered with grunt.event.on('watch', …); the target
        name is not used. VERSION is never touched. */
    method Watch(action: string, filepath: string, target: string)
      modifies this
      ensures files == OnWatch(old(files), action, filepath)
      ensures versions == old(versions)
    {
      if action == "added" {
        var split := Split(filepath, '\\');
        if split[0] == AssetFolder {
          var destination := ReplaceFirst(filepath, AssetFolder, BuildFolder);
          files := files[destination := [filepath]];
        }
      }
    }
  }
}
