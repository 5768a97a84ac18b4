/** The post-build plugin (`vite/plugins/flattenHtmlPlugin.ts`): after the
    bundle is written, every `.html` entry of `<dist>/<pagesPath>` is moved to
    `<dist>`, then the emptied directories are removed bottom-up, one attempt
    per segment of `pagesPath`, stopping at the first that cannot be removed. */
module Flatten {
  import opened Paths
  import opened Fs
  import opened Pages

  /** How one run of `writeBundle` ends. */
  datatype Outcome =
      /** `<dist>/<pagesPath>` does not exist: logged, nothing changes. */
    | NoPagesDir
      /** It exists but is not a directory: `readdirSync` throws out of `writeBundle`. */
    | ListFailed
      /** A `renameSync` throws out of `writeBundle`; the moves before it stay done. */
    | MoveFailed
      /** Every move succeeded and the cleanup ran; cleanup failures are swallowed. */
    | Flattened

  /** `options.dir || 'dist'`, as the working directory `cwd` resolves it. */
  function OutputDir(cwd: Path, dir: Option<string>): (r: Path)
    ensures dir.None? || dir.value == "" ==> r == cwd + ["dist"]
  {
    ResolveName(cwd, "dist");
    Resolve(cwd, if dir.None? || dir.value == "" then "dist" else dir.value)
  }

  // ---------------------------------------------------------------------------
  // Specification of one run

  /** The entries of `src` the filter keeps: every name ending in `.html`,
      whether a file or a directory, dot-files included. */
  function HtmlEntries(t: Tree, src: Path): set<string>
  {
    set n | n in Children(t, src) && EndsWith(n, HtmlExt)
  }

  /** The move of `src/<n>` to `dist/<n>` succeeds. */
  predicate CanMove(t: Tree, src: Path, dist: Path, n: string)
  {
    CanRename(t, src + [n], dist + [n])
  }

  predicate CanMoveAll(t: Tree, src: Path, dist: Path, names: set<string>)
  {
    forall n :: n in names ==> CanMove(t, src, dist, n)
  }

  /** `p` is the entry of `dir` named by one of `names`. */
  predicate EntryOf(p: Path, dir: Path, names: set<string>)
  {
    ChildOf(p, dir) && p[|p| - 1] in names
  }

  /** A file of the tree after the moves: one not moved away, or a moved one. */
  predicate MovedKey(t: Tree, src: Path, dist: Path, names: set<string>, p: Path)
  {
    (p in t.files && !EntryOf(p, src, names)) || EntryOf(p, dist, names)
  }

  /** The tree after moving `src/<n>` to `dist/<n>` for every `n` in `names`. */
  function MovedAll(t: Tree, src: Path, dist: Path, names: set<string>): Tree
    requires forall n :: n in names ==> src + [n] in t.files
  {
    var files := map p | p in t.files.Keys + Arrived(dist, names) && MovedKey(t, src, dist, names, p) ::
      if EntryOf(p, dist, names) then t.files[src + [p[|p| - 1]]] else t.files[p];
    Tree(t.dirs, files)
  }

  /** The paths the moves write to. */
  function Arrived(dist: Path, names: set<string>): set<Path>
  {
    set n | n in names :: dist + [n]
  }

  /** What `MovedAll` holds at the path `p`. */
  lemma MovedAllAt(t: Tree, src: Path, dist: Path, names: set<string>, p: Path)
    requires forall n :: n in names ==> src + [n] in t.files
    ensures p in MovedAll(t, src, dist, names).files <==> MovedKey(t, src, dist, names, p)
    ensures p in MovedAll(t, src, dist, names).files && EntryOf(p, dist, names) ==>
      MovedAll(t, src, dist, names).files[p] == t.files[src + [p[|p| - 1]]]
    ensures p in MovedAll(t, src, dist, names).files && !EntryOf(p, dist, names) ==>
      MovedAll(t, src, dist, names).files[p] == t.files[p]
  {
    if EntryOf(p, dist, names) {
      assert p == dist + [p[|p| - 1]];
      assert p in Arrived(dist, names);
    }
  }

  /** What `MovedAll` holds, path by path. */
  lemma MovedAllSpec(t: Tree, src: Path, dist: Path, names: set<string>)
    requires forall n :: n in names ==> src + [n] in t.files
    ensures MovedAll(t, src, dist, names).dirs == t.dirs
    ensures forall p :: p in MovedAll(t, src, dist, names).files <==> MovedKey(t, src, dist, names, p)
    ensures forall p :: p in MovedAll(t, src, dist, names).files && EntryOf(p, dist, names) ==>
      MovedAll(t, src, dist, names).files[p] == t.files[src + [p[|p| - 1]]]
    ensures forall p :: p in MovedAll(t, src, dist, names).files && !EntryOf(p, dist, names) ==>
      MovedAll(t, src, dist, names).files[p] == t.files[p]
  {
    var m := MovedAll(t, src, dist, names);
    forall p
      ensures p in m.files <==> MovedKey(t, src, dist, names, p)
      ensures p in m.files && EntryOf(p, dist, names) ==> m.files[p] == t.files[src + [p[|p| - 1]]]
      ensures p in m.files && !EntryOf(p, dist, names) ==> m.files[p] == t.files[p]
    {
      MovedAllAt(t, src, dist, names, p);
    }
  }

  /** The bottom-up cleanup: try to remove `current`, and after each success
      its parent, making at most `attempts` attempts. */
  ghost function Cleanup(t: Tree, current: Path, attempts: nat): Tree
    decreases attempts
  {
    if attempts == 0 || !CanRmdir(t, current) then t
    else Cleanup(Rmdir(t, current), Parent(current), attempts - 1)
  }

  /** The existence check of `writeBundle`. `path.join` keeps a trailing
      '/' of `pagesPath`, and with it only a directory is found. */
  predicate PagesDirFound(t: Tree, dist: Path, pagesPath: string)
  {
    PresentAs(t, Join(dist, pagesPath), EndsWith(pagesPath, "/"))
  }

  /** How a run with pages path `pagesPath` under `dist` ends. */
  function FlattenOutcome(t: Tree, dist: Path, pagesPath: string): Outcome
  {
    var src := Join(dist, pagesPath);
    if !PagesDirFound(t, dist, pagesPath) then NoPagesDir
    else if src !in t.dirs then ListFailed
    else if !CanMoveAll(t, src, dist, HtmlEntries(t, src)) then MoveFailed
    else Flattened
  }

  /** The filesystem after a run that did not stop at a failed move. */
  ghost function FlattenResult(t: Tree, dist: Path, pagesPath: string): Tree
    requires FlattenOutcome(t, dist, pagesPath) != MoveFailed
  {
    if FlattenOutcome(t, dist, pagesPath) != Flattened then t
    else
      var src := Join(dist, pagesPath);
      Cleanup(MovedAll(t, src, dist, HtmlEntries(t, src)), src, |Split(pagesPath, '/')|)
  }

  /** `t1` is `t0` after some of the moves out of `src`, each of which could be made. */
  ghost predicate PartlyMoved(t0: Tree, t1: Tree, src: Path, dist: Path)
  {
    exists s: set<string> ::
      && s <= HtmlEntries(t0, src)
      && CanMoveAll(t0, src, dist, s)
      && t1 == MovedAll(t0, src, dist, s)
  }

  /** What a run does to the filesystem `t0`, leaving `t1` and ending in `r`. */
  ghost predicate FlattenedAs(t0: Tree, t1: Tree, r: Outcome, dist: Path, pagesPath: string)
  {
    && r == FlattenOutcome(t0, dist, pagesPath)
    && (r != MoveFailed ==> t1 == FlattenResult(t0, dist, pagesPath))
    && (r == MoveFailed ==> PartlyMoved(t0, t1, Join(dist, pagesPath), dist))
  }

  // ---------------------------------------------------------------------------
  // The plugin

  /** Naming one more entry of `dir` adds exactly `dir/<n>`. */
  lemma EntryOfInsert(p: Path, dir: Path, names: set<string>, n: string)
    ensures EntryOf(p, dir, names + {n}) <==> EntryOf(p, dir, names) || p == dir + [n]
  {
    if p == dir + [n] {
      assert p[..|p| - 1] == dir;
    }
    if EntryOf(p, dir, names + {n}) && p[|p| - 1] == n {
      assert p == p[..|p| - 1] + [n];
    }
  }

  /** The moves of `seen` leave `src/<n>` alone when `n` is not among them. */
  lemma MoveStepSource(t: Tree, src: Path, dist: Path, seen: set<string>, n: string)
    requires CanMoveAll(t, src, dist, seen)
    requires n !in seen
    ensures src + [n] in MovedAll(t, src, dist, seen).files <==> src + [n] in t.files
    ensures src + [n] in t.files ==> MovedAll(t, src, dist, seen).files[src + [n]] == t.files[src + [n]]
  {
    var from := src + [n];
    MovedAllAt(t, src, dist, seen, from);
    assert from[..|from| - 1] == src;
    assert !EntryOf(from, src, seen) && !EntryOf(from, dist, seen);
  }

  /** At each path, moving `n` after the moves of `seen` gives what the
      moves of `seen` and `n` together give. */
  lemma MoveStepAt(t: Tree, src: Path, dist: Path, seen: set<string>, n: string, p: Path)
    requires CanMoveAll(t, src, dist, seen + {n})
    requires n !in seen
    ensures p in Renamed(MovedAll(t, src, dist, seen), src + [n], dist + [n]).files
       <==> p in MovedAll(t, src, dist, seen + {n}).files
    ensures p in MovedAll(t, src, dist, seen + {n}).files ==>
      Renamed(MovedAll(t, src, dist, seen), src + [n], dist + [n]).files[p]
        == MovedAll(t, src, dist, seen + {n}).files[p]
  {
    var from := src + [n];
    var to := dist + [n];
    MoveStepSource(t, src, dist, seen, n);
    MovedAllAt(t, src, dist, seen, p);
    MovedAllAt(t, src, dist, seen + {n}, p);
    EntryOfInsert(p, src, seen, n);
    EntryOfInsert(p, dist, seen, n);
    if p == to {
      assert to[..|to| - 1] == dist;
      assert EntryOf(p, dist, seen + {n});
    } else if p == from {
      assert !EntryOf(p, dist, seen + {n});
    }
  }

  /** Moving `n` after the moves of `seen` gives the tree the moves of
      `seen` and `n` together give. */
  lemma MoveStepTree(t: Tree, src: Path, dist: Path, seen: set<string>, n: string)
    requires CanMoveAll(t, src, dist, seen + {n})
    requires n !in seen
    ensures Renamed(MovedAll(t, src, dist, seen), src + [n], dist + [n]) == MovedAll(t, src, dist, seen + {n})
  {
    var moved := Renamed(MovedAll(t, src, dist, seen), src + [n], dist + [n]);
    var after := MovedAll(t, src, dist, seen + {n});
    forall p
      ensures p in moved.files <==> p in after.files
      ensures p in after.files ==> moved.files[p] == after.files[p]
    {
      MoveStepAt(t, src, dist, seen, n, p);
    }
    assert moved.files == after.files;
  }

  /** One step of the move loop: moving one more name keeps the tree the
      result of moving the names seen so far. */
  lemma MoveStep(t: Tree, src: Path, dist: Path, seen: set<string>, n: string)
    requires CanMoveAll(t, src, dist, seen)
    requires n !in seen
    ensures CanRename(MovedAll(t, src, dist, seen), src + [n], dist + [n]) == CanMove(t, src, dist, n)
    ensures CanMove(t, src, dist, n) ==>
      Renamed(MovedAll(t, src, dist, seen), src + [n], dist + [n]) == MovedAll(t, src, dist, seen + {n})
  {
    MoveStepSource(t, src, dist, seen, n);
    if CanMove(t, src, dist, n) {
      MoveStepTree(t, src, dist, seen, n);
    }
  }

  /** The names of `listing` the filter keeps. */
  function HtmlIn(listing: seq<string>): set<string>
  {
    set n | n in listing && EndsWith(n, HtmlExt)
  }

  /** Keeping the names of a whole listing of `src` keeps its `.html` entries. */
  lemma HtmlInListing(t: Tree, src: Path, listing: seq<string>)
    requires forall n :: n in listing <==> Present(t, src + [n])
    ensures HtmlIn(listing) == HtmlEntries(t, src)
  {
  }

  /** One more name of the listing. */
  lemma HtmlInStep(listing: seq<string>, i: nat)
    requires i < |listing|
    ensures EndsWith(listing[i], HtmlExt) ==> HtmlIn(listing[..i + 1]) == HtmlIn(listing[..i]) + {listing[i]}
    ensures !EndsWith(listing[i], HtmlExt) ==> HtmlIn(listing[..i + 1]) == HtmlIn(listing[..i])
  {
    assert listing[..i + 1] == listing[..i] + [listing[i]];
  }

  /** `t1` is `t0` after the moves of `s`, all of which could be made. */
  lemma PartlyMovedBy(t0: Tree, t1: Tree, src: Path, dist: Path, s: set<string>)
    requires s <= HtmlEntries(t0, src)
    requires CanMoveAll(t0, src, dist, s)
    requires t1 == MovedAll(t0, src, dist, s)
    ensures PartlyMoved(t0, t1, src, dist)
  {
  }

  /** The move loop of `writeBundle`: renames each listed `.html` entry of
      `src` into `dist`, in listing order, and stops at the first rename
      that throws. */
  method MoveHtmlFiles(fs: FileSystem, src: Path, dist: Path, entries: seq<string>)
    returns (ok: bool, ghost moved: set<string>)
    requires fs.Valid()
    requires forall i, j :: 0 <= i < j < |entries| ==> entries[i] != entries[j]
    requires forall n :: n in entries <==> Present(fs.State(), src + [n])
    requires forall n :: n in entries ==> IsName(n)
    modifies fs
    ensures fs.Valid()
    ensures ok == CanMoveAll(old(fs.State()), src, dist, HtmlEntries(old(fs.State()), src))
    ensures moved <= HtmlEntries(old(fs.State()), src)
    ensures ok ==> moved == HtmlEntries(old(fs.State()), src)
    ensures CanMoveAll(old(fs.State()), src, dist, moved)
    ensures fs.State() == MovedAll(old(fs.State()), src, dist, moved)
    ensures !ok ==> exists k :: (0 <= k < |entries|
      && moved == HtmlIn(entries[..k])
      && EndsWith(entries[k], HtmlExt)
      && !CanMove(old(fs.State()), src, dist, entries[k]))
  {
    ghost var t0 := fs.State();
    HtmlInListing(t0, src, entries);
    assert entries[..0] == [];
    assert fs.State() == MovedAll(t0, src, dist, {});
    moved := {};
    for i := 0 to |entries|
      invariant fs.Valid()
      invariant moved == HtmlIn(entries[..i])
      invariant moved <= HtmlEntries(t0, src)
      invariant CanMoveAll(t0, src, dist, moved)
      invariant fs.State() == MovedAll(t0, src, dist, moved)
    {
      var file := entries[i];
      HtmlInStep(entries, i);
      if EndsWith(file, HtmlExt) {
        assert file !in moved;
        MoveStep(t0, src, dist, moved, file);
        var renamed := fs.Rename(src + [file], dist + [file]);
        if !renamed {
          assert file in HtmlEntries(t0, src);
          assert !CanMove(t0, src, dist, entries[i]);
          return false, moved;
        }
        moved := moved + {file};
      }
    }
    assert entries[..|entries|] == entries;
    return true, moved;
  }

  /** One cleanup attempt: after a success the cleanup goes on from the
      parent, after a failure it stops. */
  lemma CleanupUnfold(t: Tree, current: Path, attempts: nat)
    requires attempts > 0
    ensures CanRmdir(t, current) ==> Cleanup(t, current, attempts) == Cleanup(Rmdir(t, current), Parent(current), attempts - 1)
    ensures !CanRmdir(t, current) ==> Cleanup(t, current, attempts) == t
  {
  }

  /** The cleanup loop of `writeBundle`: one removal attempt per segment of
      `pagesPath`, from `srcPagesDir` upwards, stopping at the first failure. */
  method CleanUp(fs: FileSystem, srcPagesDir: Path, pagesPath: string)
    requires fs.Valid()
    modifies fs
    ensures fs.Valid()
    ensures fs.State() == Cleanup(old(fs.State()), srcPagesDir, |Split(pagesPath, '/')|)
  {
    var pathSegments := Split(pagesPath, '/');
    var currentDir := srcPagesDir;
    var i := |pathSegments| - 1;
    ghost var goal := Cleanup(fs.State(), srcPagesDir, |pathSegments|);
    while i >= 0
      invariant -1 <= i < |pathSegments|
      invariant fs.Valid()
      invariant Cleanup(fs.State(), currentDir, i + 1) == goal
    {
      ghost var before := fs.State();
      var removed := fs.RmdirIfEmpty(currentDir);
      if !removed {
        assert Cleanup(before, currentDir, i + 1) == before;
        break;
      }
      assert Cleanup(before, currentDir, i + 1) == Cleanup(fs.State(), Parent(currentDir), i);
      currentDir := Parent(currentDir);
      i := i - 1;
    }
  }

  /** The part of `writeBundle` both plugins share, once the pages directory
      is known to exist: list it, move its `.html` entries, clean up. */
  method FlattenPages(fs: FileSystem, distDir: Path, pagesPath: string) returns (r: Outcome)
    requires fs.Valid()
    requires PagesDirFound(fs.State(), distDir, pagesPath)
    modifies fs
    ensures fs.Valid()
    ensures r != NoPagesDir
    ensures FlattenedAs(old(fs.State()), fs.State(), r, distDir, pagesPath)
  {
    var srcPagesDir := Join(distDir, pagesPath);
    var htmlFiles := fs.ListChildren(srcPagesDir);
    if htmlFiles.None? {
      return ListFailed;
    }
    ghost var t0 := fs.State();
    var moved, movedNames := MoveHtmlFiles(fs, srcPagesDir, distDir, htmlFiles.value);
    if !moved {
      PartlyMovedBy(t0, fs.State(), srcPagesDir, distDir, movedNames);
      return MoveFailed;
    }
    CleanUp(fs, srcPagesDir, pagesPath);
    return Flattened;
  }

  /** `writeBundle` of `flattenHtmlPlugin(pagesPath)`. */
  method FlattenHtml(fs: FileSystem, cwd: Path, outDir: Option<string>, pagesPath: string) returns (r: Outcome)
    requires fs.Valid()
    modifies fs
    ensures fs.Valid()
    ensures FlattenedAs(old(fs.State()), fs.State(), r, OutputDir(cwd, outDir), pagesPath)
  {
    var distDir := OutputDir(cwd, outDir);
    var srcPagesDir := Join(distDir, pagesPath);
    var pagesDirExists := fs.Exists(srcPagesDir, EndsWith(pagesPath, "/"));
    if !pagesDirExists {
      return NoPagesDir;
    }
    r := FlattenPages(fs, distDir, pagesPath);
  }

  /** Every candidate is relative and has no trailing '/'. */
  lemma CandidateRelative(i: nat)
    requires i < |PageDirCandidates|
    ensures |PageDirCandidates[i]| > 0 && PageDirCandidates[i][0] != '/'
    ensures !EndsWith(PageDirCandidates[i], "/")
  {
  }

  /** `writeBundle` of `flattenHtmlPluginAuto`: the first candidate that
      exists under the output directory (not the project root) is flattened
      as the explicit plugin would; finding none changes nothing. */
  method FlattenHtmlAuto(fs: FileSystem, cwd: Path, outDir: Option<string>) returns (r: Outcome)
    requires fs.Valid()
    modifies fs
    ensures fs.Valid()
    ensures FirstExisting(old(fs.State()), OutputDir(cwd, outDir)).None? ==>
      r == NoPagesDir && fs.State() == old(fs.State())
    ensures FirstExisting(old(fs.State()), OutputDir(cwd, outDir)).Some? ==>
      var found := FirstExisting(old(fs.State()), OutputDir(cwd, outDir)).value;
      && r != NoPagesDir
      && FlattenedAs(old(fs.State()), fs.State(), r, OutputDir(cwd, outDir), found)
  {
    var distDir := OutputDir(cwd, outDir);
    var foundPath := FindBuiltPagesDir(fs, distDir);
    if foundPath.None? {
      return NoPagesDir;
    }
    r := FlattenPages(fs, distDir, foundPath.value);
  }

  /** The candidate search of `flattenHtmlPluginAuto`, below the output directory. */
  method FindBuiltPagesDir(fs: FileSystem, distDir: Path) returns (foundPath: Option<string>)
    ensures foundPath == FirstExisting(fs.State(), distDir)
    ensures foundPath.Some? ==> PagesDirFound(fs.State(), distDir, foundPath.value)
  {
    for i := 0 to |PageDirCandidates|
      invariant FirstExistingFrom(fs.State(), distDir, PageDirCandidates, i) == FirstExisting(fs.State(), distDir)
    {
      var pagesPath := PageDirCandidates[i];
      var srcPagesDir := Join(distDir, pagesPath);
      CandidateRelative(i);
      ResolveJoinAgree(distDir, pagesPath);
      var pagesDirExists := fs.Exists(srcPagesDir, EndsWith(pagesPath, "/"));
      if pagesDirExists {
        return Some(pagesPath);
      }
    }
    return None;
  }

  // ---------------------------------------------------------------------------
  // Lemmas

  /** The cleanup removes directories only, and only `current` and its
      ancestors, one per attempt. */
  lemma {:induction false} CleanupShape(t: Tree, current: Path, attempts: nat)
    ensures Cleanup(t, current, attempts).files == t.files
    ensures Cleanup(t, current, attempts).dirs <= t.dirs
    ensures forall d :: d in t.dirs && d !in Cleanup(t, current, attempts).dirs ==>
      exists j :: 0 <= j < attempts && d == Up(current, j)
    decreases attempts
  {
    if attempts > 0 && CanRmdir(t, current) {
      var rest := Cleanup(Rmdir(t, current), Parent(current), attempts - 1);
      CleanupShape(Rmdir(t, current), Parent(current), attempts - 1);
      assert Cleanup(t, current, attempts) == rest;
      forall d | d in t.dirs && d !in Cleanup(t, current, attempts).dirs
        ensures exists j :: 0 <= j < attempts && d == Up(current, j)
      {
        if d == current {
          assert d == Up(current, 0);
        } else {
          var j :| 0 <= j < attempts - 1 && d == Up(Parent(current), j);
          assert d == Up(current, j + 1);
        }
      }
      assert forall d :: d in t.dirs && d !in Cleanup(t, current, attempts).dirs ==>
        exists j :: 0 <= j < attempts && d == Up(current, j);
    }
  }

  /** A directory on the cleanup's way that still holds an entry `n` (other
      than the directory the cleanup came up from) stops the cleanup: it and
      every ancestor the cleanup would try next survive. */
  lemma {:induction false} NonEmptyDirStopsCleanup(t: Tree, current: Path, attempts: nat, j: nat, n: string)
    requires j < attempts && j <= |current|
    requires Present(t, Up(current, j) + [n])
    requires j == 0 || Up(current, j) + [n] != Up(current, j - 1)
    ensures forall k :: j <= k < attempts && Up(current, k) in t.dirs ==>
      Up(current, k) in Cleanup(t, current, attempts).dirs
    decreases attempts
  {
    if j == 0 {
      assert n in Children(t, current);
    } else if CanRmdir(t, current) {
      var t1 := Rmdir(t, current);
      var parent := Parent(current);
      UpLength(current, j);
      assert Up(current, j) + [n] != current;
      assert Up(parent, j - 1) == Up(current, j);
      assert j - 1 > 0 ==> Up(parent, j - 2) == Up(current, j - 1);
      NonEmptyDirStopsCleanup(t1, parent, attempts - 1, j - 1, n);
      forall k | j <= k < attempts && Up(current, k) in t.dirs
        ensures Up(current, k) in Cleanup(t, current, attempts).dirs
      {
        UpLength(current, k);
        assert Up(current, k) == Up(parent, k - 1);
      }
    }
  }

  /** With a pages path of plain names, the cleanup removes only directories
      strictly inside the output directory. */
  lemma CleanupStaysInOutputDir(t: Tree, dist: Path, pagesPath: string)
    requires forall i :: 0 <= i < |Split(pagesPath, '/')| ==> IsName(Split(pagesPath, '/')[i])
    requires FlattenOutcome(t, dist, pagesPath) != MoveFailed
    ensures forall d :: d in t.dirs && d !in FlattenResult(t, dist, pagesPath).dirs ==>
      |d| > |dist| && d[..|dist|] == dist
  {
    var segments := Split(pagesPath, '/');
    var src := Join(dist, pagesPath);
    NormalizeNames(dist, segments);
    if FlattenOutcome(t, dist, pagesPath) == Flattened {
      var names := HtmlEntries(t, src);
      var moved := MovedAll(t, src, dist, names);
      MovedAllSpec(t, src, dist, names);
      CleanupShape(moved, src, |segments|);
      forall d | d in t.dirs && d !in FlattenResult(t, dist, pagesPath).dirs
        ensures |d| > |dist| && d[..|dist|] == dist
      {
        var j :| 0 <= j < |segments| && d == Up(src, j);
        UpIsPrefix(src, j);
      }
    }
  }

  /** The moves put each named file at the top of `dist` with its contents,
      empty its old place, and leave every other file alone. */
  lemma MovedAllPlacesFiles(t: Tree, src: Path, dist: Path, names: set<string>)
    requires CanMoveAll(t, src, dist, names)
    requires src != dist
    ensures forall n :: n in names ==>
      && dist + [n] in MovedAll(t, src, dist, names).files
      && MovedAll(t, src, dist, names).files[dist + [n]] == t.files[src + [n]]
      && src + [n] !in MovedAll(t, src, dist, names).files
    ensures forall p :: p in t.files && !EntryOf(p, src, names) && !EntryOf(p, dist, names) ==>
      p in MovedAll(t, src, dist, names).files && MovedAll(t, src, dist, names).files[p] == t.files[p]
    ensures forall p :: p in MovedAll(t, src, dist, names).files ==> p in t.files || EntryOf(p, dist, names)
  {
    MovedAllSpec(t, src, dist, names);
    forall n | n in names
      ensures dist + [n] in MovedAll(t, src, dist, names).files
      ensures MovedAll(t, src, dist, names).files[dist + [n]] == t.files[src + [n]]
      ensures src + [n] !in MovedAll(t, src, dist, names).files
    {
      MovedPlace(t, src, dist, names, n);
    }
  }

  /** The move of `n` puts its file at `dist/<n>` and empties `src/<n>`. */
  lemma MovedPlace(t: Tree, src: Path, dist: Path, names: set<string>, n: string)
    requires CanMoveAll(t, src, dist, names)
    requires src != dist
    requires n in names
    ensures dist + [n] in MovedAll(t, src, dist, names).files
    ensures MovedAll(t, src, dist, names).files[dist + [n]] == t.files[src + [n]]
    ensures src + [n] !in MovedAll(t, src, dist, names).files
  {
    var to := dist + [n];
    var from := src + [n];
    MovedAllAt(t, src, dist, names, to);
    MovedAllAt(t, src, dist, names, from);
    assert to[..|to| - 1] == dist && from[..|from| - 1] == src;
  }

  /** A run that gets past the moves ends with the moved files and the
      cleanup. */
  lemma FlattenedTree(t: Tree, dist: Path, pagesPath: string)
    requires FlattenOutcome(t, dist, pagesPath) == Flattened
    ensures var src := Join(dist, pagesPath);
      FlattenResult(t, dist, pagesPath)
        == Cleanup(MovedAll(t, src, dist, HtmlEntries(t, src)), src, |Split(pagesPath, '/')|)
  {
  }

  /** After a run that moved everything, each page sits at the top of the
      output directory with its contents, its old place is empty, and every
      other file keeps its place and contents. */
  lemma FlattenMovesPages(t: Tree, dist: Path, pagesPath: string)
    requires FlattenOutcome(t, dist, pagesPath) == Flattened
    requires Join(dist, pagesPath) != dist
    ensures var src := Join(dist, pagesPath);
      forall n :: n in HtmlEntries(t, src) ==>
        && dist + [n] in FlattenResult(t, dist, pagesPath).files
        && FlattenResult(t, dist, pagesPath).files[dist + [n]] == t.files[src + [n]]
        && src + [n] !in FlattenResult(t, dist, pagesPath).files
    ensures var src := Join(dist, pagesPath);
      forall p :: p in t.files && !EntryOf(p, src, HtmlEntries(t, src)) && !EntryOf(p, dist, HtmlEntries(t, src)) ==>
        p in FlattenResult(t, dist, pagesPath).files && FlattenResult(t, dist, pagesPath).files[p] == t.files[p]
    ensures var src := Join(dist, pagesPath);
      forall p :: p in FlattenResult(t, dist, pagesPath).files ==>
        p in t.files || EntryOf(p, dist, HtmlEntries(t, src))
  {
    var src := Join(dist, pagesPath);
    var names := HtmlEntries(t, src);
    var moved := MovedAll(t, src, dist, names);
    FlattenedTree(t, dist, pagesPath);
    CleanupShape(moved, src, |Split(pagesPath, '/')|);
    MovedAllPlacesFiles(t, src, dist, names);
    assert FlattenResult(t, dist, pagesPath).files == moved.files;
  }

  /** A non-`.html` entry of the pages directory stays where it is. */
  lemma FlattenKeepsOtherEntries(t: Tree, dist: Path, pagesPath: string, m: string)
    requires FlattenOutcome(t, dist, pagesPath) == Flattened
    requires Join(dist, pagesPath) != dist
    requires Join(dist, pagesPath) + [m] in t.files
    requires !EndsWith(m, HtmlExt)
    ensures Join(dist, pagesPath) + [m] in FlattenResult(t, dist, pagesPath).files
    ensures FlattenResult(t, dist, pagesPath).files[Join(dist, pagesPath) + [m]]
         == t.files[Join(dist, pagesPath) + [m]]
  {
    var src := Join(dist, pagesPath);
    var p := src + [m];
    FlattenMovesPages(t, dist, pagesPath);
    assert p[..|p| - 1] == src;
    assert !EntryOf(p, src, HtmlEntries(t, src));
  }

  /** The `.html` entries of `src`, name by name. */
  lemma HtmlEntriesSpec(t: Tree, src: Path, n: string)
    ensures n in HtmlEntries(t, src) <==> Present(t, src + [n]) && EndsWith(n, HtmlExt)
  {
  }

  /** Once every entry of the pages directory has been moved, `src/<n>` is
      gone. */
  lemma EmptiedEntry(t: Tree, src: Path, dist: Path, n: string)
    requires WellFormed(t)
    requires src != dist
    requires Present(t, src + [n]) ==> EndsWith(n, HtmlExt)
    requires CanMoveAll(t, src, dist, HtmlEntries(t, src))
    ensures !Present(MovedAll(t, src, dist, HtmlEntries(t, src)), src + [n])
  {
    var names := HtmlEntries(t, src);
    var p := src + [n];
    MovedAllSpec(t, src, dist, names);
    HtmlEntriesSpec(t, src, n);
    assert p[..|p| - 1] == src;
    assert !EntryOf(p, dist, names);
    if n in names {
      assert p in t.files;
    }
  }

  /** Once every entry of the pages directory has been moved, nothing is
      left in it. */
  lemma EmptiedPagesDir(t: Tree, src: Path, dist: Path)
    requires WellFormed(t)
    requires src != dist
    requires forall n :: Present(t, src + [n]) ==> EndsWith(n, HtmlExt)
    requires CanMoveAll(t, src, dist, HtmlEntries(t, src))
    ensures forall n :: !Present(MovedAll(t, src, dist, HtmlEntries(t, src)), src + [n])
  {
    forall n
      ensures !Present(MovedAll(t, src, dist, HtmlEntries(t, src)), src + [n])
    {
      EmptiedEntry(t, src, dist, n);
    }
  }

  /** The first cleanup attempt on an empty directory removes it. */
  lemma CleanupRemovesEmptyStart(t: Tree, current: Path, attempts: nat)
    requires attempts > 0 && CanRmdir(t, current)
    ensures current !in Cleanup(t, current, attempts).dirs
    ensures Cleanup(t, current, attempts).files == t.files
  {
    CleanupUnfold(t, current, attempts);
    CleanupShape(Rmdir(t, current), Parent(current), attempts - 1);
  }

  /** No move lands on a directory, so the pages directory does not become a file. */
  lemma MovesAvoidDirs(t: Tree, src: Path, dist: Path, names: set<string>, d: Path)
    requires WellFormed(t)
    requires CanMoveAll(t, src, dist, names)
    requires d in t.dirs
    ensures d !in MovedAll(t, src, dist, names).files
  {
    MovedAllSpec(t, src, dist, names);
    if ChildOf(d, dist) {
      assert d == dist + [d[|d| - 1]];
    }
  }

  /** A `pagesPath` with a trailing '/' names the same path as without it,
      but a regular file there is not found: the run ends as if there were
      no pages directory, where without the '/' listing it fails. */
  lemma TrailingSlashFindsOnlyDirs(t: Tree, dist: Path, pagesPath: string)
    requires EndsWith(pagesPath, "/")
    requires Join(dist, pagesPath) in t.files && Join(dist, pagesPath) !in t.dirs
    ensures Join(dist, pagesPath) == Join(dist, pagesPath[..|pagesPath| - 1])
    ensures FlattenOutcome(t, dist, pagesPath) == NoPagesDir
    ensures FlattenResult(t, dist, pagesPath) == t
    ensures !EndsWith(pagesPath[..|pagesPath| - 1], "/") ==>
      FlattenOutcome(t, dist, pagesPath[..|pagesPath| - 1]) == ListFailed
  {
    JoinTrailingSlash(dist, pagesPath);
  }

  /** When the pages directory held only `.html` files, a run removes it,
      and a second run finds nothing to do. */
  lemma SecondRunIsNoOp(t: Tree, dist: Path, pagesPath: string)
    requires WellFormed(t)
    requires FlattenOutcome(t, dist, pagesPath) == Flattened
    requires Join(dist, pagesPath) != dist && Join(dist, pagesPath) != []
    requires forall n :: Present(t, Join(dist, pagesPath) + [n]) ==> EndsWith(n, HtmlExt)
    ensures !Present(FlattenResult(t, dist, pagesPath), Join(dist, pagesPath))
    ensures FlattenOutcome(FlattenResult(t, dist, pagesPath), dist, pagesPath) == NoPagesDir
    ensures FlattenResult(FlattenResult(t, dist, pagesPath), dist, pagesPath) == FlattenResult(t, dist, pagesPath)
  {
    var src := Join(dist, pagesPath);
    var names := HtmlEntries(t, src);
    var moved := MovedAll(t, src, dist, names);
    FlattenedTree(t, dist, pagesPath);
    EmptiedPagesDir(t, src, dist);
    MovedAllSpec(t, src, dist, names);
    CleanupRemovesEmptyStart(moved, src, |Split(pagesPath, '/')|);
    MovesAvoidDirs(t, src, dist, names, src);
  }
}
