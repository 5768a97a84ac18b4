/** Page discovery and entry-point assembly (`vite/config/pages.ts`): finding
    the project root, resolving and auto-detecting the pages directory, and
    building the name-to-path map handed to the bundler as its inputs. The
    starting directory, which the source derives from its own module URL, is
    a parameter. */
module Pages {
  import opened Paths
  import opened Fs

  datatype Error =
    | ProjectRootNotFound
      /** `buildPagesConfig`: the pages directory is missing. */
    | PagesDirMissing(relative: string)
      /** `getPagesDir`: the pages directory is missing; names both paths. */
    | PagesDirMissingAt(relative: string, resolved: Path)
    | IndexFileMissing(indexFile: string)
      /** Auto-detection found none of the candidates it lists. */
    | AutoDetectFailed(searched: seq<string>)

  datatype Result<T> = Ok(value: T) | Err(error: Error)

  /** The file whose presence marks the project root. */
  const Manifest := "package.json"

  /** The pages directories auto-detection tries, in priority order. */
  const PageDirCandidates: seq<string> :=
    ["src/pages", "src/views", "app/pages", "pages", "views", "templates"]

  /** The extension of page files. */
  const HtmlExt := ".html"

  // ---------------------------------------------------------------------------
  // Project root

  /** What `findProjectRoot` returns: the first directory on the way up from
      `start` that holds the manifest. The root itself is never examined.
      `resolve(dir, "package.json")` appends the name (see `ManifestAt`). */
  function ProjectRoot(t: Tree, start: Path): Result<Path>
    decreases |start|
  {
    if start == Parent(start) then Err(ProjectRootNotFound)
    else if Present(t, start + [Manifest]) then Ok(start)
    else ProjectRoot(t, Parent(start))
  }

  /** The manifest path inside the directory `p`. */
  lemma ManifestAt(p: Path)
    ensures Resolve(p, Manifest) == p + [Manifest]
  {
    ResolveName(p, Manifest);
  }

  /** The project root is the nearest ancestor of `start` (or `start` itself)
      other than the filesystem root that holds the manifest, and the search
      fails exactly when no such ancestor exists. */
  lemma {:induction false} ProjectRootNearest(t: Tree, start: Path)
    ensures ProjectRoot(t, start).Ok? ==>
      var root := ProjectRoot(t, start).value;
      && 0 < |root| <= |start| && root == start[..|root|]
      && Present(t, root + [Manifest])
      && forall k :: |root| < k <= |start| ==> !Present(t, start[..k] + [Manifest])
    ensures ProjectRoot(t, start).Err? <==>
      forall k :: 0 < k <= |start| ==> !Present(t, start[..k] + [Manifest])
    ensures ProjectRoot(t, start).Err? ==> ProjectRoot(t, start).error == ProjectRootNotFound
    decreases |start|
  {
    if start != [] {
      assert start[..|start|] == start;
      if !Present(t, start + [Manifest]) {
        var up := Parent(start);
        ProjectRootNearest(t, up);
        forall k | 0 < k <= |up| ensures start[..k] == up[..k] { }
      }
    }
  }

  /** `findProjectRoot`: walks up from `start` while the current directory is
      not its own parent. */
  method FindProjectRoot(fs: FileSystem, start: Path) returns (r: Result<Path>)
    ensures r == ProjectRoot(fs.State(), start)
  {
    var current := start;
    while current != Parent(current)
      invariant ProjectRoot(fs.State(), current) == ProjectRoot(fs.State(), start)
      decreases |current|
    {
      var found := fs.Exists(current + [Manifest], false);
      if found {
        return Ok(current);
      }
      current := Parent(current);
    }
    return Err(ProjectRootNotFound);
  }

  // ---------------------------------------------------------------------------
  // Paths relative to the project root

  /** `getProjectPath`: `rel` resolved against the project root. */
  function ProjectPath(t: Tree, start: Path, rel: string): Result<Path>
  {
    match ProjectRoot(t, start)
    case Err(e) => Err(e)
    case Ok(root) => Ok(Resolve(root, rel))
  }

  /** A relative path of plain names lands below the project root, segment by
      segment; the lookup fails only when there is no project root. */
  lemma ProjectPathOfNames(t: Tree, start: Path, rel: string)
    requires forall i :: 0 <= i < |Split(rel, '/')| ==> IsName(Split(rel, '/')[i])
    ensures ProjectPath(t, start, rel).Err? <==> ProjectRoot(t, start).Err?
    ensures ProjectPath(t, start, rel).Ok? ==>
      ProjectPath(t, start, rel).value == ProjectRoot(t, start).value + Split(rel, '/')
  {
    if ProjectRoot(t, start).Ok? {
      var root := ProjectRoot(t, start).value;
      NormalizeNames(root, Split(rel, '/'));
    }
  }

  /** `getProjectPath` as the source runs it, looking the root up again. */
  method GetProjectPath(fs: FileSystem, start: Path, rel: string) returns (r: Result<Path>)
    ensures r == ProjectPath(fs.State(), start, rel)
  {
    var root := FindProjectRoot(fs, start);
    if root.Err? {
      return Err(root.error);
    }
    return Ok(Resolve(root.value, rel));
  }

  /** `getPagesDir`: the resolved pages directory when it exists; otherwise an
      error naming both the relative and the resolved path. */
  function PagesDir(t: Tree, start: Path, pagesPath: string): (r: Result<Path>)
    ensures ProjectRoot(t, start).Err? ==> r == Err(ProjectRootNotFound)
    ensures ProjectRoot(t, start).Ok? ==>
      var full := Resolve(ProjectRoot(t, start).value, pagesPath);
      && (r.Ok? <==> Present(t, full))
      && (r.Ok? ==> r.value == full)
      && (r.Err? ==> r.error == PagesDirMissingAt(pagesPath, full))
  {
    ProjectRootNearest(t, start);
    match ProjectPath(t, start, pagesPath)
    case Err(e) => Err(e)
    case Ok(fullPath) =>
      if !Present(t, fullPath) then Err(PagesDirMissingAt(pagesPath, fullPath))
      else Ok(fullPath)
  }

  // ---------------------------------------------------------------------------
  // Auto-detection

  /** The first of `cands`, from index `i` on, that exists below `base`. */
  function FirstExistingFrom(t: Tree, base: Path, cands: seq<string>, i: nat): Option<string>
    decreases |cands| - i
  {
    if i >= |cands| then None
    else if Present(t, Resolve(base, cands[i])) then Some(cands[i])
    else FirstExistingFrom(t, base, cands, i + 1)
  }

  /** The first candidate pages directory that exists below `base`. */
  function FirstExisting(t: Tree, base: Path): Option<string>
  {
    FirstExistingFrom(t, base, PageDirCandidates, 0)
  }

  lemma {:induction false} FirstExistingFromSpec(t: Tree, base: Path, cands: seq<string>, i: nat)
    requires i <= |cands|
    ensures FirstExistingFrom(t, base, cands, i).None? <==>
      forall j :: i <= j < |cands| ==> !Present(t, Resolve(base, cands[j]))
    ensures FirstExistingFrom(t, base, cands, i).Some? ==>
      exists k :: i <= k < |cands|
        && FirstExistingFrom(t, base, cands, i).value == cands[k]
        && Present(t, Resolve(base, cands[k]))
        && forall j :: i <= j < k ==> !Present(t, Resolve(base, cands[j]))
    decreases |cands| - i
  {
    if i < |cands| {
      var r := FirstExistingFrom(t, base, cands, i);
      if Present(t, Resolve(base, cands[i])) {
        assert r == Some(cands[i]);
      } else {
        FirstExistingFromSpec(t, base, cands, i + 1);
        assert r == FirstExistingFrom(t, base, cands, i + 1);
        if r.Some? {
          var k :| i + 1 <= k < |cands|
            && r.value == cands[k]
            && Present(t, Resolve(base, cands[k]))
            && forall j :: i + 1 <= j < k ==> !Present(t, Resolve(base, cands[j]));
          assert forall j :: i <= j < k ==> !Present(t, Resolve(base, cands[j]));
        }
      }
    }
  }

  /** Auto-detection yields nothing exactly when no candidate exists, and
      otherwise the candidate of lowest index that exists. */
  lemma FirstExistingIsFirst(t: Tree, base: Path, cands: seq<string>)
    ensures FirstExistingFrom(t, base, cands, 0).None? <==>
      forall j :: 0 <= j < |cands| ==> !Present(t, Resolve(base, cands[j]))
    ensures FirstExistingFrom(t, base, cands, 0).Some? ==>
      exists k :: 0 <= k < |cands|
        && FirstExistingFrom(t, base, cands, 0).value == cands[k]
        && Present(t, Resolve(base, cands[k]))
        && forall j :: 0 <= j < k ==> !Present(t, Resolve(base, cands[j]))
  {
    FirstExistingFromSpec(t, base, cands, 0);
  }

  /** Of two existing candidates, the one listed earlier is chosen. */
  lemma EarlierCandidateWins(t: Tree, base: Path, cands: seq<string>, i: nat, j: nat)
    requires forall a, b :: 0 <= a < b < |cands| ==> cands[a] != cands[b]
    requires i < j < |cands|
    requires Present(t, Resolve(base, cands[i]))
    ensures FirstExistingFrom(t, base, cands, 0).Some?
    ensures FirstExistingFrom(t, base, cands, 0).value != cands[j]
  {
    FirstExistingIsFirst(t, base, cands);
    var k :| 0 <= k < |cands|
        && FirstExistingFrom(t, base, cands, 0).value == cands[k]
        && Present(t, Resolve(base, cands[k]))
        && forall j :: 0 <= j < k ==> !Present(t, Resolve(base, cands[j]));
    assert k <= i;
  }

  /** The candidate list names each directory once. */
  lemma CandidatesDistinct()
    ensures forall i, j :: 0 <= i < j < |PageDirCandidates| ==> PageDirCandidates[i] != PageDirCandidates[j]
  {
  }

  /** What `detectPagesDir` returns: the relative candidate, not its resolved path. */
  function DetectedPagesDir(t: Tree, start: Path): Result<Option<string>>
  {
    match ProjectRoot(t, start)
    case Err(e) => Err(e)
    case Ok(root) => Ok(FirstExisting(t, root))
  }

  /** `detectPagesDir`: tries the candidates in order and returns the first
      that exists. */
  method DetectPagesDir(fs: FileSystem, start: Path) returns (r: Result<Option<string>>)
    ensures r == DetectedPagesDir(fs.State(), start)
  {
    r := DetectAmong(fs, start, PageDirCandidates);
  }

  /** The loop of `detectPagesDir` over the candidate list `cands`; each
      candidate is resolved through `getProjectPath`, which looks the project
      root up afresh. */
  method DetectAmong(fs: FileSystem, start: Path, cands: seq<string>) returns (r: Result<Option<string>>)
    ensures cands == [] ==> r == Ok(None)
    ensures cands != [] && ProjectRoot(fs.State(), start).Err? ==>
      r == Err(ProjectRoot(fs.State(), start).error)
    ensures cands != [] && ProjectRoot(fs.State(), start).Ok? ==>
      r == Ok(FirstExistingFrom(fs.State(), ProjectRoot(fs.State(), start).value, cands, 0))
  {
    for i := 0 to |cands|
      invariant i > 0 ==> ProjectRoot(fs.State(), start).Ok?
      invariant ProjectRoot(fs.State(), start).Ok? ==>
        var root := ProjectRoot(fs.State(), start).value;
        FirstExistingFrom(fs.State(), root, cands, i) == FirstExistingFrom(fs.State(), root, cands, 0)
    {
      var path := cands[i];
      var fullPath := GetProjectPath(fs, start, path);
      if fullPath.Err? {
        return Err(fullPath.error);
      }
      var found := fs.Exists(fullPath.value, false);
      if found {
        return Ok(Some(path));
      }
    }
    return Ok(None);
  }

  // ---------------------------------------------------------------------------
  // Entry points

  /** `basename(file, ".html")` on a bare file name. */
  function Stem(name: string): string
  {
    if EndsWith(name, HtmlExt) then name[..|name| - |HtmlExt|] else name
  }

  /** The names `globSync("*.html")` matches: `*` never matches a leading dot. */
  predicate GlobHtml(name: string)
  {
    EndsWith(name, HtmlExt) && name[0] != '.'
  }

  /** The page files the glob finds in `dir`; none when `dir` is not a directory. */
  function PageFiles(t: Tree, dir: Path): set<string>
  {
    if dir in t.dirs then set n | n in Children(t, dir) && GlobHtml(n) else {}
  }

  /** Distinct page files have distinct keys. */
  lemma StemDistinct(a: string, b: string)
    requires EndsWith(a, HtmlExt) && EndsWith(b, HtmlExt)
    requires a != b
    ensures Stem(a) != Stem(b)
  {
    assert a == Stem(a) + HtmlExt;
    assert b == Stem(b) + HtmlExt;
  }

  /** The only page file whose key is `index` is `index.html`. */
  lemma StemIndex(a: string)
    requires EndsWith(a, HtmlExt)
    ensures Stem(a) == "index" <==> a == "index.html"
  {
    assert a == Stem(a) + HtmlExt;
  }

  /** The entry map of `buildPagesConfig`: the key `index` and one key per
      page file, each page key mapping to the file in `dir`; `index` maps to
      the root index file unless a page file `index.html` replaced it. */
  ghost predicate IsEntryMap(m: map<string, Path>, indexPath: Path, dir: Path, pages: set<string>)
  {
    && m.Keys == {"index"} + (set n | n in pages :: Stem(n))
    && (forall n :: n in pages ==> m[Stem(n)] == dir + [n])
    && ("index.html" !in pages ==> m["index"] == indexPath)
  }

  /** The entry map does not depend on the order the glob lists files in: at
      most one map fits the description. */
  lemma EntryMapUnique(m1: map<string, Path>, m2: map<string, Path>, indexPath: Path, dir: Path, pages: set<string>)
    requires forall n :: n in pages ==> GlobHtml(n)
    requires IsEntryMap(m1, indexPath, dir, pages)
    requires IsEntryMap(m2, indexPath, dir, pages)
    ensures m1 == m2
  {
    assert m1.Keys == m2.Keys;
    forall k | k in m1.Keys ensures m1[k] == m2[k] {
      EntryMapsAgreeAt(m1, m2, indexPath, dir, pages, k);
    }
  }

  /** Two entry maps of the same page files agree on the key `k`. */
  lemma EntryMapsAgreeAt(m1: map<string, Path>, m2: map<string, Path>, indexPath: Path, dir: Path,
                         pages: set<string>, k: string)
    requires forall n :: n in pages ==> GlobHtml(n)
    requires IsEntryMap(m1, indexPath, dir, pages)
    requires IsEntryMap(m2, indexPath, dir, pages)
    requires k in m1.Keys
    ensures k in m2.Keys && m1[k] == m2[k]
  {
    if k == "index" && "index.html" in pages {
      StemIndex("index.html");
      assert m1[k] == dir + ["index.html"] == m2[k];
    } else if k != "index" {
      var n :| n in pages && Stem(n) == k;
      assert m1[k] == dir + [n] == m2[k];
    }
  }

  /** A page file called `index.html` takes the `index` key from the root index file. */
  lemma PagesIndexWins(m: map<string, Path>, indexPath: Path, dir: Path, pages: set<string>)
    requires IsEntryMap(m, indexPath, dir, pages)
    requires "index.html" in pages
    ensures m["index"] == dir + ["index.html"]
  {
    StemIndex("index.html");
  }

  /** Everything `buildPagesConfig(pagesPath, indexFile)` promises: the errors
      in the order the source checks them, and the entry map. */
  ghost predicate PagesConfigResult(t: Tree, start: Path, pagesPath: string, indexFile: string,
                                    r: Result<map<string, Path>>)
  {
    match ProjectRoot(t, start)
    case Err(e) => r == Err(e)
    case Ok(root) =>
      var dir := Resolve(root, pagesPath);
      var indexPath := Resolve(root, indexFile);
      if !Present(t, dir) then r == Err(PagesDirMissing(pagesPath))
      else if !Present(t, indexPath) then r == Err(IndexFileMissing(indexFile))
      else r.Ok? && IsEntryMap(r.value, indexPath, dir, PageFiles(t, dir))
  }

  /** `buildPagesConfig`: checks the pages directory, then the index file,
      then adds one entry per page file the glob lists. */
  method BuildPagesConfig(fs: FileSystem, start: Path, pagesPath: string, indexFile: string)
    returns (r: Result<map<string, Path>>)
    requires fs.Valid()
    ensures PagesConfigResult(fs.State(), start, pagesPath, indexFile, r)
  {
    var rootDir := FindProjectRoot(fs, start);
    if rootDir.Err? {
      return Err(rootDir.error);
    }
    var pagesDirectory := Resolve(rootDir.value, pagesPath);
    var dirExists := fs.Exists(pagesDirectory, false);
    if !dirExists {
      return Err(PagesDirMissing(pagesPath));
    }
    var indexPath := Resolve(rootDir.value, indexFile);
    var indexExists := fs.Exists(indexPath, false);
    if !indexExists {
      return Err(IndexFileMissing(indexFile));
    }
    var listing := fs.ListChildren(pagesDirectory);
    var htmlPages := if listing.Some? then listing.value else [];
    var pages := AddPages(indexPath, pagesDirectory, htmlPages);
    PageFilesListed(fs.State(), pagesDirectory, htmlPages);
    return Ok(pages);
  }

  /** The glob over a directory listing finds exactly the page files. */
  lemma PageFilesListed(t: Tree, dir: Path, entries: seq<string>)
    requires dir in t.dirs ==> forall n :: n in entries <==> Present(t, dir + [n])
    requires dir !in t.dirs ==> entries == []
    ensures PageFiles(t, dir) == GlobbedIn(entries)
  {
  }

  /** The names of `seen` the glob matches. */
  function GlobbedIn(seen: seq<string>): set<string>
  {
    set n | n in seen && GlobHtml(n)
  }

  /** One step of the `forEach`: writing the entry for a new name keeps the
      map an entry map of the names seen so far. */
  lemma AddPageStep(pages: map<string, Path>, indexPath: Path, dir: Path, seen: seq<string>, file: string)
    requires file !in seen
    requires IsEntryMap(pages, indexPath, dir, GlobbedIn(seen))
    ensures IsEntryMap(if GlobHtml(file) then pages[Stem(file) := dir + [file]] else pages,
                       indexPath, dir, GlobbedIn(seen + [file]))
  {
    if GlobHtml(file) {
      assert GlobbedIn(seen + [file]) == GlobbedIn(seen) + {file};
      AddPageNew(pages, indexPath, dir, GlobbedIn(seen), file);
    } else {
      assert GlobbedIn(seen + [file]) == GlobbedIn(seen);
    }
  }

  /** Writing the entry for a page file not seen before adds its key and
      leaves every other entry alone. */
  lemma AddPageNew(pages: map<string, Path>, indexPath: Path, dir: Path, before: set<string>, file: string)
    requires file !in before && GlobHtml(file)
    requires forall n :: n in before ==> GlobHtml(n)
    requires IsEntryMap(pages, indexPath, dir, before)
    ensures IsEntryMap(pages[Stem(file) := dir + [file]], indexPath, dir, before + {file})
  {
    var after := pages[Stem(file) := dir + [file]];
    assert after.Keys == {"index"} + (set n | n in before + {file} :: Stem(n));
    forall n | n in before + {file} ensures after[Stem(n)] == dir + [n] {
      if n != file {
        StemDistinct(n, file);
      }
    }
    StemIndex(file);
  }

  /** The `forEach` of `buildPagesConfig`: seeds `index`, then writes one
      entry per listed name the glob matches, later writes replacing earlier
      ones. */
  method AddPages(indexPath: Path, dir: Path, entries: seq<string>) returns (pages: map<string, Path>)
    requires forall i, j :: 0 <= i < j < |entries| ==> entries[i] != entries[j]
    requires forall i :: 0 <= i < |entries| ==> IsName(entries[i])
    ensures IsEntryMap(pages, indexPath, dir, GlobbedIn(entries))
  {
    pages := map["index" := indexPath];
    assert GlobbedIn(entries[..0]) == {};
    for i := 0 to |entries|
      invariant IsEntryMap(pages, indexPath, dir, GlobbedIn(entries[..i]))
    {
      var file := entries[i];
      assert entries[..i + 1] == entries[..i] + [file];
      AddPageStep(pages, indexPath, dir, entries[..i], file);
      if GlobHtml(file) {
        var entryPath := Resolve(dir, file);
        ResolveName(dir, file);
        pages := pages[Stem(file) := entryPath];
      }
    }
    assert entries[..|entries|] == entries;
  }

  /** `buildPagesConfigAuto`: an absent or empty `pagesPath` is replaced by
      the detected one before delegating to `buildPagesConfig`. */
  method BuildPagesConfigAuto(fs: FileSystem, start: Path, pagesPath: Option<string>, indexFile: string)
    returns (r: Result<map<string, Path>>)
    requires fs.Valid()
    ensures pagesPath.Some? && pagesPath.value != "" ==>
      PagesConfigResult(fs.State(), start, pagesPath.value, indexFile, r)
    ensures pagesPath.None? || pagesPath.value == "" ==>
      match DetectedPagesDir(fs.State(), start)
      case Err(e) => r == Err(e)
      case Ok(None) => r == Err(AutoDetectFailed(PageDirCandidates))
      case Ok(Some(found)) => PagesConfigResult(fs.State(), start, found, indexFile, r)
  {
    var actualPagesPath: string;
    if pagesPath.None? || pagesPath.value == "" {
      var detected := DetectPagesDir(fs, start);
      if detected.Err? {
        return Err(detected.error);
      }
      if detected.value.None? {
        return Err(AutoDetectFailed(PageDirCandidates));
      }
      actualPagesPath := detected.value.value;
    } else {
      actualPagesPath := pagesPath.value;
    }
    r := BuildPagesConfig(fs, start, actualPagesPath, indexFile);
  }
}
