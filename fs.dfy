/** The part of Node's `fs` module the build plugins use, over an abstract
    filesystem: a set of directory paths and a map from file paths to their
    contents. */
module Fs {
  import opened Paths

  /** File contents are opaque bytes. */
  type Bytes = seq<bv8>

  /** A snapshot of the filesystem. */
  datatype Tree = Tree(dirs: set<Path>, files: map<Path, Bytes>)

  /** `existsSync`: a file or a directory is at `p`. */
  predicate Present(t: Tree, p: Path)
  {
    p in t.dirs || p in t.files
  }

  /** `existsSync` of `p` written with a trailing '/' when `trailingSlash`
      holds: then only a directory is found, a file giving ENOTDIR. */
  predicate PresentAs(t: Tree, p: Path, trailingSlash: bool)
  {
    if trailingSlash then p in t.dirs else Present(t, p)
  }

  /** `q` is an immediate entry of the directory `p`. */
  predicate ChildOf(q: Path, p: Path)
  {
    |q| > 0 && q[..|q| - 1] == p
  }

  /** The names of the immediate entries of `p`. */
  function Children(t: Tree, p: Path): (r: set<string>)
    ensures forall n :: n in r <==> Present(t, p + [n])
  {
    var r := set q | q in t.dirs + t.files.Keys && ChildOf(q, p) :: q[|q| - 1];
    assert forall n :: Present(t, p + [n]) ==> n in r by {
      forall n | Present(t, p + [n]) ensures n in r {
        var q := p + [n];
        assert ChildOf(q, p) && q[|q| - 1] == n;
      }
    }
    assert forall n :: n in r ==> Present(t, p + [n]) by {
      forall n | n in r ensures Present(t, p + [n]) {
        var q :| q in t.dirs + t.files.Keys && ChildOf(q, p) && q[|q| - 1] == n;
        assert q == p + [n];
      }
    }
    r
  }

  /** A real directory tree: the root is a directory, nothing is both a file
      and a directory, everything but the root sits in a directory, and every
      entry has a plain name. */
  ghost predicate WellFormed(t: Tree)
  {
    && [] in t.dirs
    && (forall p :: p in t.dirs ==> p !in t.files)
    && (forall p :: p in t.dirs && p != [] ==> Parent(p) in t.dirs && IsName(p[|p| - 1]))
    && (forall p :: p in t.files ==> p != [] && Parent(p) in t.dirs && IsName(p[|p| - 1]))
  }

  /** When `renameSync(src, dst)` moves the regular file `src`: the target's
      directory exists and the target is not a directory. An existing file at
      `dst` does not stop it. */
  predicate CanRename(t: Tree, src: Path, dst: Path)
  {
    src in t.files && dst != [] && dst !in t.dirs && Parent(dst) in t.dirs
  }

  /** The tree after moving the file `src` to `dst`, replacing any file there. */
  function Renamed(t: Tree, src: Path, dst: Path): Tree
    requires src in t.files
  {
    Tree(t.dirs, (t.files - {src})[dst := t.files[src]])
  }

  /** When `rmdirSync(p)` succeeds: `p` is an empty directory other than the root. */
  ghost predicate CanRmdir(t: Tree, p: Path)
  {
    p != [] && p in t.dirs && forall n :: !Present(t, p + [n])
  }

  /** The tree after removing the directory `p`. */
  function Rmdir(t: Tree, p: Path): Tree
  {
    Tree(t.dirs - {p}, t.files)
  }

  /** The filesystem, which the plugins change in place. */
  class FileSystem {
    var dirs: set<Path>
    var files: map<Path, Bytes>

    function State(): Tree
      reads this
    {
      Tree(dirs, files)
    }

    ghost predicate Valid()
      reads this
    {
      WellFormed(State())
    }

    constructor (t: Tree)
      requires WellFormed(t)
      ensures Valid() && State() == t
    {
      dirs := t.dirs;
      files := t.files;
    }

    /** `existsSync(p)`, where `trailingSlash` says whether the path string
        ends in '/'. */
    method Exists(p: Path, trailingSlash: bool) returns (b: bool)
      ensures b == PresentAs(State(), p, trailingSlash)
      ensures b ==> Present(State(), p)
    {
      b := p in dirs || (!trailingSlash && p in files);
    }

    /** `readdirSync(p)`: the entry names of a directory, each once, in an
        order the platform chooses; `None` when `p` is not a directory (the
        call throws). */
    method ListChildren(p: Path) returns (r: Option<seq<string>>)
      ensures r.None? <==> p !in dirs
      ensures r.Some? ==> forall i, j :: 0 <= i < j < |r.value| ==> r.value[i] != r.value[j]
      ensures r.Some? ==> forall n :: n in r.value <==> Present(State(), p + [n])
      ensures r.Some? && Valid() ==> forall n :: n in r.value ==> IsName(n)
    {
      if p !in dirs {
        return None;
      }
      var left := Children(State(), p);
      var names: seq<string> := [];
      while left != {}
        invariant forall i, j :: 0 <= i < j < |names| ==> names[i] != names[j]
        invariant forall n :: n in names ==> n !in left
        invariant forall n :: n in names || n in left <==> n in Children(State(), p)
        decreases left
      {
        var n :| n in left;
        names := names + [n];
        left := left - {n};
      }
      r := Some(names);
    }

    /** `renameSync(src, dst)` on a regular file; `ok` is false where the call throws. */
    method Rename(src: Path, dst: Path) returns (ok: bool)
      requires Valid()
      requires |dst| > 0 ==> IsName(dst[|dst| - 1])
      modifies this
      ensures Valid()
      ensures ok == CanRename(old(State()), src, dst)
      ensures State() == if ok then Renamed(old(State()), src, dst) else old(State())
    {
      ok := CanRename(State(), src, dst);
      if ok {
        files := (files - {src})[dst := files[src]];
      }
    }

    /** `rmdirSync(p)`; `ok` is false where the call throws. */
    method RmdirIfEmpty(p: Path) returns (ok: bool)
      requires Valid()
      modifies this
      ensures Valid()
      ensures ok == CanRmdir(old(State()), p)
      ensures State() == if ok then Rmdir(old(State()), p) else old(State())
    {
      ok := p != [] && p in dirs && Children(State(), p) == {};
      if ok {
        dirs := dirs - {p};
        forall q | q in old(dirs) + old(files.Keys) && q != []
          ensures Parent(q) != p
        {
          assert q == Parent(q) + [q[|q| - 1]];
          assert q[|q| - 1] !in Children(old(State()), p);
        }
      }
    }
  }
}
