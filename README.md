# GruntConfig dev session, modelled in Dafny

This project models the part of `Gruntfile.js` that is logic of its own rather
than plugin configuration. That part is the `dev` task's build of the two
session tables and the watch handler that extends one of them:

- **`fileByType`**, the recursive scanner. It lists a directory and `lstat`s
  each entry. It recurses into directories and hands every other entry whose
  joined path passes a filter to a callback. A missing start path produces no
  calls. Symbolic links among the entries are never followed, because `lstat`
  reports them as links. The start path itself is resolved through links,
  because `existsSync` and `readdirSync` follow them; a start path that is a
  link to a directory is therefore given to the model as that directory.
- **The build pass of the `dev` task.** It fills `FILES`, a map from a
  destination path to its source paths, and `VERSION`, an ordered list of
  `{version, originalPath, versionedPath}` records. It reads the flat listing of
  `assets/js`, then the flat listing of `assets/css`, then scans `./theme` for
  `.css` files. `VERSION` is the payload serialised into `build/version.json`.
- **The watch handler.** On an `added` event it splits the path at `\`. When
  the first piece is `assets`, that is when the path is `assets` or starts
  with `assets\`, it adds one key to `FILES`. A path written with `/`, such
  as `assets/js/a.js`, leaves `FILES` unchanged.

The file system is input data. A directory tree is a `Scanner.Node`: a
directory with its entries in listing order, a directory whose listing fails,
or a non-directory entry (regular file, symbolic link, other). A flat listing
is `Option<seq<string>>`, where `None` means that `readdirSync` throws. The
platform (`Posix` or `Windows`) supplies the separator that `path.join`
inserts.

Modules:

- `Text` (text.dfy) holds the JavaScript string operations the code uses:
  `split` on one character, `replace` of the first occurrence of a string,
  `replace(/\\/gi, '/')` and a suffix test.
- `Scanner` (scanner.dfy) holds `fileByType`. It is a recursive method with a
  loop, proved equal to the specification function `Scan`. `Scan` is proved
  against `Under`, an independent definition of every non-directory path
  beneath a tree in depth-first listing order.
- `Manifest` (manifest.dfy) gives the session state as a value. It defines the
  build pass (`Build`) and the watch update (`OnWatch`) as functions, with
  their properties.
- `Session` (session.dfy) defines the class `DevSession`, whose fields are
  `FILES` and `VERSION`. Its methods update the fields in place, and each
  method is proved against the `Manifest` function it implements.
- `Scenario` (scenario.dfy) states the result of the build pass on a three-file project.

Where the code and the intent visible in its own configuration disagree, the
model follows the code. The configuration flattens theme CSS (`flatten: true`
at Gruntfile.js:78 and :111) and writes its watch globs with `/`
(Gruntfile.js:124-133):

- **Theme files are not flattened.** The callback turns backslashes into `/`
  and only then splits on `\`, which leaves one piece: the whole path. So
  `theme/light/css/c.css` is keyed `build/css/theme/light/css/c.css`, not
  `build/css/c.css` (`ThemeTargetKeepsPath`, `Scenario.BuildExample`).
- **The watch guard only passes backslash paths.** It splits on `\`. So
  `("added", "assets/js/new-widget.js")` leaves `FILES` unchanged
  (`WatchIgnoresForwardSlashes`). The backslash form `assets\js\new-widget.js`
  registers the key `build\js\new-widget.js`, which keeps its backslashes
  (`WatchAddsBackslashPath`).
- **The flat listings are not filtered.** Every entry of `assets/js` and
  `assets/css` is registered, including subdirectories and `.min` files.
- **An error aborts the pass.** A listing that throws (a missing `assets/js`
  or `assets/css`, or an unreadable directory under `theme`) ends the task
  where it is. What was registered before the error stays registered, and no
  `version.json` payload is produced.

## Model

| member | source | states |
|---|---|---|
| Text.Split | Gruntfile.js:169 | `split` on one character: at least one piece, and no piece contains the separator |
| Text.SplitJoin | Gruntfile.js:169 | joining the pieces of a split with the separator gives back the input |
| Text.SplitHead | Gruntfile.js:193 | the first piece is the text before the first separator, or the whole text when there is no separator |
| Text.ReplaceFirst | Gruntfile.js:195 | when the leftmost occurrence is at k, the result is the text before k, the replacement, then the text after the occurrence; a text starting with the pattern becomes the replacement followed by the rest; a text with no occurrence is unchanged |
| Text.Slashed | Gruntfile.js:168 | same length; each backslash becomes `/` and every other character is kept; the result holds no backslash |
| Scanner.JoinPath | Gruntfile.js:18 | definition: `path.join(dir, name)` as directory, platform separator, name; properties in `UnderBeneath` and `ScanBeneath` |
| Scanner.Visit | Gruntfile.js:18-23 | definition: one loop iteration, which recurses into a directory or tests any other entry against the filter; properties in `VisitAgrees` |
| Scanner.ListPrefix | Gruntfile.js:17-24 | definition: the loop after `i` iterations, which stops at the first failure; properties in `ListPrefixAgrees` and `FailureStops` |
| Scanner.ListDir | Gruntfile.js:16-24 | definition: listing an existing path, which throws for a non-directory or an unreadable directory; properties in `ListDirAgrees` |
| Scanner.Scan | Gruntfile.js:10-25 | definition: the whole of `fileByType`, where a missing root makes no calls; properties in `ScanExact`, `ScanMembers`, `DepthFirst` and `ScanBeneath` |
| Scanner.FileByType | Gruntfile.js:10-25 | returns exactly the callback's arguments in call order, plus whether an exception ended the scan, as `Scan` specifies; a missing root gives no calls and no failure |
| Scanner.ListDirectory | Gruntfile.js:16-24 | the listing loop with recursion into directories equals `ListDir`; the first listing that throws stops the scan |
| Scanner.FailureStops | Gruntfile.js:16-24 | once an iteration has thrown, no later entry changes the outcome |
| Scanner.VisitAgrees | Gruntfile.js:18-23 | one entry gives a prefix of its filtered subtree paths, the whole of them unless it fails, and fails exactly when the entry is or holds an unreadable directory |
| Scanner.ListPrefixAgrees | Gruntfile.js:17-24 | after `i` iterations the found paths are the filtered non-directory paths beneath the first `i` entries, in order, or a prefix of them; the scan fails exactly when one of those entries is unreadable |
| Scanner.ListDirAgrees | Gruntfile.js:16-24 | listing an entry gives its filtered `Under` paths, or a prefix of them; it fails exactly when the entry is not a directory or holds an unreadable one |
| Scanner.ScanExact | Gruntfile.js:10-25 | a missing root gives zero calls and no failure; a readable root directory gives exactly `Filter(Under(...))` with no failure; any other root fails |
| Scanner.ScanMembers | Gruntfile.js:19-23 | the callback receives a path if and only if it is a non-directory path beneath the root that passes the filter |
| Scanner.DepthFirst | Gruntfile.js:17-23 | the matches beneath the j-th entry form one block, after all matches of earlier siblings and before all matches of later ones |
| Scanner.UnderBeneath | Gruntfile.js:18 | every path beneath a directory starts with the directory's path and the separator |
| Scanner.ScanBeneath | Gruntfile.js:18-23 | every path the callback receives starts with the start path and the separator |
| Manifest.AddAsset | Gruntfile.js:158-159 | definition: one forEach step, which writes the key and pushes the record; properties in `AssetsVersions` and `AssetsFiles` |
| Manifest.AddAssets | Gruntfile.js:157-165 | definition: the forEach over one flat listing; properties in `AssetsVersions` and `AssetsFiles` |
| Manifest.IsCss | Gruntfile.js:167 | definition: the filter `/\.css$/` as a suffix test; used by `Build` and `Scenario.ThemeScanExample` |
| Manifest.ThemeTarget | Gruntfile.js:168-171 | definition: the key the theme callback computes; properties in `ThemeTargetKeepsPath` and `ThemeTargetInjective` |
| Manifest.AddTheme | Gruntfile.js:168-172 | definition: one theme callback; properties in `ThemesVersions`, `ThemesKeys` and `ThemesValues` |
| Manifest.AddThemes | Gruntfile.js:167-173 | definition: every theme callback, in scan order; properties in `ThemesVersions`, `ThemesKeys` and `ThemesValues` |
| Manifest.Build | Gruntfile.js:157-173 | definition: the js listing, the css listing, then the theme scan, stopping at a listing that throws; properties in `BuildVersions`, `BuildVersionsUnhashed`, `BuildJsFiles`, `BuildCssFiles` and `BuildThemeFiles` |
| Manifest.Written | Gruntfile.js:181 | definition: the payload serialised into version.json, which is VERSION when the pass completes; used by `Session.DevSession.Dev` |
| Manifest.AssetsVersions | Gruntfile.js:157-165 | a flat listing appends one record per entry, in listing order, with an empty version and `assets/<folder>/f` as both original and versioned path |
| Manifest.AssetsFiles | Gruntfile.js:157-165 | a flat listing adds exactly the keys `build/<folder>/f`, each mapped to `[assets/<folder>/f]`; every other key keeps its value |
| Manifest.ThemeTargetKeepsPath | Gruntfile.js:168-171 | the theme key is `build/css/` followed by the whole slash-normalised path, with no flattening |
| Manifest.ThemeTargetInjective | Gruntfile.js:168-171 | two matches share a key only when they normalise to the same path |
| Manifest.ThemesVersions | Gruntfile.js:167-173 | the theme callback appends one record per match, in scan order: empty version, the normalised path, and the computed key |
| Manifest.ThemesKeys | Gruntfile.js:171 | the theme callback adds exactly the match keys; every other key keeps its value |
| Manifest.ThemesValues | Gruntfile.js:171 | each match key maps to the normalised path alone; when keys repeat, the last write wins and writes the same value |
| Manifest.BuildVersions | Gruntfile.js:157-173 | the new VERSION is the js records, then the css records, then the theme records; its length is the sum of the counts; the pass completes if and only if no listing throws; a throw stops it where it is |
| Manifest.BuildVersionsUnhashed | Gruntfile.js:159 | the old records are kept as a prefix, and every record the pass adds has an empty version |
| Manifest.BuildFilesKeys | Gruntfile.js:157-173 | FILES' key set after the pass is the old keys plus the js targets, then the css targets, then the theme targets, as far as the pass got; every other key keeps its value |
| Manifest.BuildJsFiles | Gruntfile.js:157-173 | after the pass, each js entry f maps `build/js/f` to `[assets/js/f]`, untouched by the css and theme writes |
| Manifest.BuildCssFiles | Gruntfile.js:162-173 | after the pass, each css entry f without `/` maps `build/css/f` to `[assets/css/f]` |
| Manifest.PlainNameIsNoThemeTarget | Gruntfile.js:163-171 | a css key from a name without `/` never equals a theme key |
| Manifest.BuildThemeFiles | Gruntfile.js:167-173 | after the pass, each theme match p maps `build/css/q` to `[q]`, where q is p with backslashes turned into `/` |
| Manifest.OnWatch | Gruntfile.js:191-201 | definition: FILES after a watch event; properties in `WatchEffect`, `FirstPieceIsAssets`, `WatchIgnoresForwardSlashes` and `WatchAddsBackslashPath` |
| Manifest.FirstPieceIsAssets | Gruntfile.js:193-194 | the guard holds if and only if the path is `assets` or starts with `assets\` |
| Manifest.WatchEffect | Gruntfile.js:191-201 | FILES changes only on an `added` event that passes the guard, and then gains the key `build` + the rest of the path, mapped to `[filepath]`; every other key is unchanged |
| Manifest.WatchIgnoresForwardSlashes | Gruntfile.js:193-194 | an `added` path without backslashes (other than `assets` itself) leaves FILES unchanged |
| Manifest.WatchAddsBackslashPath | Gruntfile.js:192-196 | `added` for `assets\X` registers `build\X` mapped to `[assets\X]` |
| Session.DevSession.constructor | Gruntfile.js:31-32 | FILES and VERSION start empty |
| Session.DevSession.RegisterAsset | Gruntfile.js:158-159 | one forEach step: the new state is `AddAsset` of the old |
| Session.DevSession.RegisterListing | Gruntfile.js:157-165 | the forEach over a listing: the new state is `AddAssets` of the old |
| Session.DevSession.RegisterTheme | Gruntfile.js:167-173 | one theme callback: the new state is `AddTheme` of the old |
| Session.DevSession.Dev | Gruntfile.js:146-189 | the new state is `Build` of the old; the returned `version.json` payload is VERSION when the pass completes, and none otherwise |
| Session.DevSession.Watch | Gruntfile.js:191-201 | FILES becomes `OnWatch` of the old FILES; VERSION is untouched |
| Scenario.ThemeScanExample | Gruntfile.js:10-25 | scanning `./theme` with one stylesheet at `theme/<light>/css/<sheet>` reports exactly that path |
| Scenario.BuildExample | Gruntfile.js:157-173 | one script, one stylesheet and one theme stylesheet give three unhashed records in discovery order; the theme record keeps its directories in its key |
| Scenario.BuildExampleFiles | Gruntfile.js:158-171 | the same pass leaves exactly the keys `build/js/<script>`, `build/css/<style>` and `build/css/theme/<light>/css/<sheet>` in FILES |

## Left out

- `grunt.initConfig` (Gruntfile.js:39-136) is left out. It is declarative configuration that only the external uglify, cssmin, copy, watch and assets_versioning plugins interpret.
- `grunt.loadNpmTasks`, `grunt.registerTask` and `grunt.task.run('copy')`/`('watch')` are left out. This is task-runner wiring into libraries that are not part of this model.
- The `grunt clean` child process and the task's `done` callback (Gruntfile.js:149-153) are left out. They are concurrency and I/O, and the pass does not wait for them.
- Deleting and writing `build/version.json` (Gruntfile.js:176-185) is left out as file I/O. The model keeps only the serialised payload, which `Dev` returns as VERSION.
- Console logging is left out.
- `path.join` normalisation of `.` and `..` segments and of repeated separators is not modelled. A join is directory, separator, name. The theme root is `theme`, which is how `path.join` prints `./theme`.
- File-system failures other than a failing directory listing are not modelled. Examples are `lstat` errors and entries that vanish during the scan.
- The scan hands its callback's arguments back as a sequence, and the build pass applies them afterwards in the same order. This matches the source because the callback only appends to FILES and VERSION and reads nothing the scan depends on.
- FILES is a Dafny `map`, so the insertion order of the JavaScript object's keys is not kept. Nothing in the code reads that order.
- Manifest.BuildCssFiles: states the css result only for listing names without `/`. A real directory listing never yields such a name. For a name containing `/`, a later theme write could share its key.
- Text.ReplaceFirst: does not expand the `$&`, `$$`, `` $` `` and `$'` patterns that JavaScript interprets in the replacement. The only replacement the code passes is `"build"`, which contains none of them.
