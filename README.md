# vite-mpa build-time page handling, modelled in Dafny

vite-mpa is a Vite setup for multi-page sites. This project models the three parts of it that decide which pages exist and where they end up:

- **Page discovery and entry-point assembly** (`vite/config/pages.ts`).
  - It walks up from a start directory to the nearest `package.json`, which marks the project root.
  - It resolves the pages directory, or auto-detects it from a fixed, ordered list of candidates.
  - It builds the map of bundler inputs: `index` and one key per `*.html` page file.
- **The development-server plugin** (`vite/plugins/multiPagePlugin.ts`).
  - At configure time it checks that the pages directory exists.
  - Its middleware answers a request for `/<name>.html` with the page file from the pages directory and passes every other request to `next()`.
- **The post-build flattening plugin** (`vite/plugins/flattenHtmlPlugin.ts`).
  - After the bundle is written, it moves every `.html` entry of `<dist>/<pagesPath>` to `<dist>`.
  - It then removes the emptied directories bottom-up, making one attempt per segment of `pagesPath` and stopping at the first failure.

The files are:

- `paths.dfy` (module `Paths`): the POSIX path arithmetic the plugins use from Node's `path` module.
  - An absolute path is its list of segments and `[]` is `/`.
  - It holds JavaScript's `split` and `join`, the normalisation `resolve` and `join` apply, `dirname`, and the leading-slash strip.
  - A path value carries no trailing `/`. Where `path.join` keeps one, the flag goes with the path into the existence check (`Fs.PresentAs`).
- `fs.dfy` (module `Fs`): the filesystem.
  - `Tree` is a snapshot value: a set of directory paths and a map from file paths to opaque bytes.
  - The class `FileSystem` holds the same two fields, which the plugins change in place.
  - Its methods `Exists`, `ListChildren`, `Rename` and `RmdirIfEmpty` stand for `existsSync`, `readdirSync`, `renameSync` and `rmdirSync`. A call that throws returns a failure flag.
- `pages.dfy` (module `Pages`): `findProjectRoot`, `getProjectPath`, `getPagesDir`, `detectPagesDir`, `buildPagesConfig` and `buildPagesConfigAuto`. Thrown errors become an `Error` value.
- `dev_server.dfy` (module `DevServer`): `configureServer` of both dev plugins. The middleware is a function from the filesystem and a URL to a `Reply`: `Serve`, `Next`, or `ReadFailed` when the path is a directory.
- `flatten.dfy` (module `Flatten`): `writeBundle` of both flattening plugins.
  - The function `FlattenOutcome` and the ghost function `FlattenResult` specify one run.
  - The methods run the source's loops against the `FileSystem`.
  - The lemmas state what a run guarantees.

Every loop of the source is a method whose contract ties its result, or the new filesystem state, to a specification function. The lemmas then prove the promised properties about those functions:

- ancestor search;
- first-match priority;
- key-set equality of the entry map;
- "moved, not copied";
- a bounded cleanup that removes only empty directories;
- a second run that does nothing.

## Model

| member | source | states |
|---|---|---|
| Paths.Split | vite/plugins/flattenHtmlPlugin.ts:33 | `split('/')` yields at least one piece and no piece holds the separator |
| Paths.JoinSplit | vite/plugins/flattenHtmlPlugin.ts:33 | `split` loses nothing: joining the pieces with the separator gives the string back |
| Paths.SplitJoin | vite/plugins/flattenHtmlPlugin.ts:33 | splitting separator-free pieces joined with the separator gives the pieces back |
| Paths.SplitCount | vite/plugins/flattenHtmlPlugin.ts:33 | `pagesPath.split('/').length` is one more than the number of `/` in `pagesPath`, which bounds the cleanup attempts |
| Paths.StripLeadingSlash | vite/plugins/multiPagePlugin.ts:20 | `replace(/^\//, "")` removes exactly one leading `/` and nothing else |
| Paths.UpIsPrefix | vite/plugins/flattenHtmlPlugin.ts:43 | `k` steps of `dirname` from a deep enough path cut off exactly its last `k` segments |
| Paths.UpLength | vite/plugins/flattenHtmlPlugin.ts:43 | `k` steps of `dirname` shorten a path by `k` segments and stop at the root |
| Paths.NormalizeNames | vite/config/pages.ts:41 | resolving a relative path made of plain names appends those names to the base |
| Paths.NormalizeLength | vite/config/pages.ts:41 | normalisation adds at most one segment per input segment |
| Paths.NormalizeKeepsNames | vite/config/pages.ts:41 | a normalised path holds only plain names, never `""`, `.` or `..` |
| Paths.ResolveName | vite/config/pages.ts:15 | `resolve(dir, name)` and `join(dir, name)` of a plain name give the child `dir/name` |
| Paths.SplitTrailing | vite/plugins/flattenHtmlPlugin.ts:33 | a trailing separator adds exactly one empty piece to `split` |
| Paths.NormalizeTrailingEmpty | vite/plugins/flattenHtmlPlugin.ts:15 | a trailing empty segment does not change the normalised path |
| Paths.JoinTrailingSlash | vite/plugins/flattenHtmlPlugin.ts:15 | `path.join(dist, rel)` lands on the same path whether or not `rel` ends in `/` |
| Paths.ResolveJoinAgree | vite/plugins/flattenHtmlPlugin.ts:15 | `path.join` and `path.resolve` agree on a relative second argument |
| Fs.Children | vite/plugins/flattenHtmlPlugin.ts:18 | the entry names of a directory are exactly the names `n` for which `dir/n` exists |
| Fs.FileSystem.Exists | vite/plugins/flattenHtmlPlugin.ts:17 | `existsSync` is true exactly when a file or a directory is at the path; for a path written with a trailing `/`, only when a directory is there |
| Fs.FileSystem.ListChildren | vite/plugins/flattenHtmlPlugin.ts:18 | `readdirSync` fails exactly on a non-directory; otherwise it lists every entry name once, each a plain name in a well-formed tree |
| Fs.FileSystem.Rename | vite/plugins/flattenHtmlPlugin.ts:27 | `renameSync` succeeds exactly when the source is a file, the target's directory exists and the target is not a directory; a file already at the target is replaced; the tree stays well formed |
| Fs.FileSystem.RmdirIfEmpty | vite/plugins/flattenHtmlPlugin.ts:39 | `rmdirSync` succeeds exactly on an empty directory other than the root, removes only it, and keeps the tree well formed |
| Pages.ManifestAt | vite/config/pages.ts:15 | the manifest looked up in `dir` is `dir/package.json` |
| Pages.ProjectRootNearest | vite/config/pages.ts:11-22 | the root found is the nearest ancestor of the start (the start first) holding `package.json`, the filesystem root excluded; the search fails with "project root not found" exactly when no such ancestor exists |
| Pages.FindProjectRoot | vite/config/pages.ts:11-23 | the walk up while `dirname` changes the path returns the root that `ProjectRootNearest` characterises |
| Pages.ProjectPathOfNames | vite/config/pages.ts:39-42 | a relative path of plain names lands below the project root, segment by segment; the lookup fails only when there is no root |
| Pages.GetProjectPath | vite/config/pages.ts:29-42 | `getProjectPath` returns `rel` resolved against the project root, or the root search's error |
| Pages.PagesDir | vite/config/pages.ts:49-59 | `getPagesDir` returns the resolved pages directory exactly when it exists, and otherwise an error naming both the relative and the resolved path |
| Pages.FirstExistingFromSpec | vite/config/pages.ts:75-82 | the search from position `i` yields nothing exactly when no later candidate exists, and otherwise the earliest existing one |
| Pages.FirstExistingIsFirst | vite/config/pages.ts:65-83 | detection returns null exactly when no candidate exists, and otherwise the existing candidate of lowest index |
| Pages.EarlierCandidateWins | vite/config/pages.ts:66-80 | when a candidate exists, no later candidate is ever chosen |
| Pages.CandidatesDistinct | vite/config/pages.ts:66-73 | the six candidates are distinct |
| Pages.DetectAmong | vite/config/pages.ts:75-82 | the loop returns the first candidate whose resolved path exists, and null when there is none; a failed root search ends it with that error |
| Pages.DetectPagesDir | vite/config/pages.ts:65-83 | `detectPagesDir` returns the relative candidate that detection picks, not its resolved path |
| Pages.StemDistinct | vite/config/pages.ts:117 | `basename(file, ".html")` is injective on `.html` names, so two page files never share a key |
| Pages.StemIndex | vite/config/pages.ts:111-118 | the only page file whose key is `index` is `index.html` |
| Pages.PageFilesListed | vite/config/pages.ts:114 | the glob over a listing finds exactly the page files of the directory, and none when it is not a directory |
| Pages.AddPageStep | vite/config/pages.ts:116-119 | each `forEach` step keeps the map the entry map of the names seen so far |
| Pages.AddPageNew | vite/config/pages.ts:117-118 | writing the key of a new page file adds its entry and leaves every other entry alone |
| Pages.AddPages | vite/config/pages.ts:104-119 | starting from `index`, the loop builds the entry map of the globbed names: keys `index` plus each page's stem, each page key mapping to `pagesDirectory/file` |
| Pages.EntryMapUnique | vite/config/pages.ts:114-119 | the entry map does not depend on the order in which the glob lists the files |
| Pages.EntryMapsAgreeAt | vite/config/pages.ts:111-119 | two entry maps of the same page files agree on every key |
| Pages.PagesIndexWins | vite/config/pages.ts:111-119 | a page file `index.html` overrides the root index file under the key `index` |
| Pages.BuildPagesConfig | vite/config/pages.ts:91-122 | the errors come in the source's order (root, then pages directory, then index file); on success the result is the entry map of the pages directory's page files |
| Pages.BuildPagesConfigAuto | vite/config/pages.ts:130-149 | a non-empty `pagesPath` behaves as `buildPagesConfig`; an absent or empty one is replaced by the detected candidate, and detecting none is an error listing the candidates |
| DevServer.Handle | vite/plugins/multiPagePlugin.ts:18-29 | a request goes to `next()` exactly when it has no URL, the URL does not end in `.html`, or nothing exists at the looked-up path. It is served exactly when a file is there, with `text/html` and that file's contents. A directory there makes the handler throw, and the reply names that looked-up path |
| DevServer.Configure | vite/plugins/multiPagePlugin.ts:14-30 | the middleware is installed exactly when `getPagesDir` succeeds, over the existing resolved pages directory; otherwise configuration fails with `getPagesDir`'s error |
| DevServer.ConfigureAuto | vite/plugins/multiPagePlugin.ts:38-69 | detecting nothing fails configuration; otherwise the middleware serves from the detected candidate resolved against the root, which exists |
| DevServer.ServesPageByName | vite/plugins/multiPagePlugin.ts:19-25 | a request for `/<name>.html` with that page file in the pages directory is answered with the file's contents as HTML |
| DevServer.MissingPageFallsThrough | vite/plugins/multiPagePlugin.ts:22-28 | a request for `/<name>.html` with nothing of that name in the pages directory goes to `next()` |
| DevServer.QueryStringFallsThrough | vite/plugins/multiPagePlugin.ts:19 | `/a.html?x=1` does not end in `.html` and always goes to `next()` |
| DevServer.LookupBelowPagesDir | vite/plugins/multiPagePlugin.ts:20 | a URL of plain names after its leading `/` is looked up below the pages directory |
| DevServer.DoubleSlashLooksUpAtRoot | vite/plugins/multiPagePlugin.ts:20 | only one `/` is stripped, so `//x.html` is looked up at `/x.html`, outside the pages directory |
| DevServer.DotDotLeavesPagesDir | vite/plugins/multiPagePlugin.ts:20 | a `..` segment in the URL climbs out of the pages directory |
| Flatten.OutputDir | vite/plugins/flattenHtmlPlugin.ts:14 | an unset or empty `options.dir` selects `dist` in the working directory |
| Flatten.MovedAllAt | vite/plugins/flattenHtmlPlugin.ts:22-29 | after the moves, a path holds a file exactly when it held one that was not moved away or is a move's target; a target holds the moved file's contents |
| Flatten.MovedAllSpec | vite/plugins/flattenHtmlPlugin.ts:22-29 | the same, for all paths at once; directories are untouched |
| Flatten.HtmlInListing | vite/plugins/flattenHtmlPlugin.ts:18-20 | the filter over a full listing keeps exactly the `.html` entries of the directory |
| Flatten.MoveStep | vite/plugins/flattenHtmlPlugin.ts:22-27 | one more rename succeeds exactly when that move could be made on the original tree, and then yields the tree of all moves so far |
| Flatten.MoveHtmlFiles | vite/plugins/flattenHtmlPlugin.ts:18-29 | the move loop succeeds exactly when every `.html` entry can be moved, and then all are moved. When a rename throws, the loop stops there: exactly the `.html` entries listed before that entry have moved, and that entry could not be moved |
| Flatten.CleanUp | vite/plugins/flattenHtmlPlugin.ts:31-53 | the cleanup loop leaves exactly the tree of the bottom-up cleanup: at most one attempt per segment of `pagesPath`, from the pages directory up, stopping at the first failure, which is swallowed |
| Flatten.FlattenPages | vite/plugins/flattenHtmlPlugin.ts:17-53 | once the pages directory is found, a run lists it (failing if it is not a directory), moves its `.html` entries and cleans up. It never ends as "no pages directory"; it ends as `FlattenOutcome` says, with `FlattenResult`'s tree or with a partial move |
| Flatten.FlattenHtml | vite/plugins/flattenHtmlPlugin.ts:13-59 | `writeBundle` of the explicit plugin: a missing pages directory changes nothing; otherwise as `FlattenPages` |
| Flatten.FindBuiltPagesDir | vite/plugins/flattenHtmlPlugin.ts:81-89 | the search returns the first candidate that exists under the output directory, not under the project root |
| Flatten.FlattenHtmlAuto | vite/plugins/flattenHtmlPlugin.ts:70-135 | finding no candidate changes nothing; otherwise the run is the explicit plugin's run on the found candidate |
| Flatten.CandidateRelative | vite/plugins/flattenHtmlPlugin.ts:72-79 | every candidate is a relative path |
| Flatten.CleanupShape | vite/plugins/flattenHtmlPlugin.ts:33-48 | the cleanup never touches files and removes only the pages directory and its ancestors, at most one per attempt |
| Flatten.NonEmptyDirStopsCleanup | vite/plugins/flattenHtmlPlugin.ts:38-47 | a directory on the way up that still holds another entry is not removed, and it shields every ancestor the cleanup would try next |
| Flatten.CleanupStaysInOutputDir | vite/plugins/flattenHtmlPlugin.ts:33-43 | with a `pagesPath` of plain names, nothing at or above the output directory is ever removed |
| Flatten.MovedPlace | vite/plugins/flattenHtmlPlugin.ts:23-27 | a moved entry arrives at `dist/<name>` with its contents and is gone from the pages directory |
| Flatten.MovedAllPlacesFiles | vite/plugins/flattenHtmlPlugin.ts:22-27 | the moves put each entry at `dist/<name>`, empty its old place and leave every other file alone |
| Flatten.FlattenedTree | vite/plugins/flattenHtmlPlugin.ts:17-48 | a complete run is the moves followed by the cleanup |
| Flatten.FlattenMovesPages | vite/plugins/flattenHtmlPlugin.ts:18-29 | after a complete run, each `.html` entry is at `dist/<name>` with its contents, replacing any file already there, and is gone from the pages directory; every other file keeps its place and contents; no other file appears |
| Flatten.FlattenKeepsOtherEntries | vite/plugins/flattenHtmlPlugin.ts:18-20 | a non-`.html` file of the pages directory stays where it is with its contents |
| Flatten.HtmlEntriesSpec | vite/plugins/flattenHtmlPlugin.ts:18-20 | the filtered entries are exactly the existing entries whose name ends in `.html`, dot-files included |
| Flatten.EmptiedEntry | vite/plugins/flattenHtmlPlugin.ts:22-29 | when every entry of the pages directory is `.html`, after the moves no entry of that name remains |
| Flatten.EmptiedPagesDir | vite/plugins/flattenHtmlPlugin.ts:22-29 | when every entry of the pages directory is `.html`, the moves leave it empty |
| Flatten.CleanupUnfold | vite/plugins/flattenHtmlPlugin.ts:37-47 | one cleanup attempt: on success the cleanup continues from the parent with one attempt fewer, on failure it stops |
| Flatten.CleanupRemovesEmptyStart | vite/plugins/flattenHtmlPlugin.ts:39 | the first attempt on an empty pages directory removes it |
| Flatten.MovesAvoidDirs | vite/plugins/flattenHtmlPlugin.ts:27 | no move turns a directory into a file |
| Flatten.SecondRunIsNoOp | vite/plugins/flattenHtmlPlugin.ts:17-58 | when the pages directory held only `.html` entries, a complete run removes it, so a second run finds no pages directory and changes nothing |
| Flatten.TrailingSlashFindsOnlyDirs | vite/plugins/flattenHtmlPlugin.ts:15-17 | with a trailing `/` on `pagesPath`, a regular file at the pages path is not found, so the run ends as "no pages directory" and changes nothing; without the `/` the same file makes the listing fail |

## Left out

- Console output is not modelled, including the cleanup message built with `slice` and `join`. It is diagnostic only.
- The Vite `Plugin` objects are not modelled, and neither are Node's `req`, `res` and `next`. The middleware is a function returning a `Reply`, and `writeBundle` is a method returning an `Outcome`.
- `getProjectRoot` reads the start directory from `import.meta.url`. Here the start directory is a parameter, and `getProjectRoot` is folded into `FindProjectRoot`.
- `writeBundle` resolves a relative output directory against the working directory, which here is a parameter.
  - As a result, `dirname` of a relative path stopping at `.` is not modelled.
  - A `pagesPath` with more segments than directories below the output directory can make the cleanup reach the output directory and go beyond it. A `..` segment or a trailing `/` is enough. There, the model may remove a directory where Node would attempt `rmdirSync(".")` and fail.
  - `CleanupStaysInOutputDir` therefore requires a `pagesPath` of plain names.
- Only POSIX paths are modelled; Windows separators and drive letters are not.
- Glob matching is modelled only as "immediate entries ending in `.html`, except names starting with a dot". Everything else `globSync` can do is not.
- `renameSync` is modelled for regular files only. A directory named `*.html` in the pages directory counts as a failed move, whereas Node would move the directory.
- Flatten.FlattenPages: after a failed move, the state is stated only as "some subset of the `.html` entries moved". Which entries moved depends on the order in which `readdirSync` lists them, and that order is the platform's. `Flatten.MoveHtmlFiles`, which is given the listing, states the exact prefix. The `MoveFailed` outcome does not record which file's move failed.
- `buildPagesConfig` and `buildPagesConfigAuto` default `indexFile` to `"index.html"`. Here `indexFile` is always passed: `Pages.BuildPagesConfig` and `Pages.BuildPagesConfigAuto` take it as a parameter, and a caller relying on the default passes `"index.html"`.
- `Flatten.OutputDir`'s contract states only the default `dist`. A non-empty `options.dir` is resolved against the working directory.
- The entry map is a Dafny `map`, so the JavaScript object quirks of keys such as `__proto__` are not modelled.
- File contents are opaque bytes.
- Concurrent requests and concurrent builds are not modelled.
- `vite.config.ts` only wires the three parts together with `"src/pages"`, and is not part of this model.
