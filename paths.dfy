/** POSIX path arithmetic as Node's `path` module performs it, over absolute
    paths written as their list of segments. The root "/" is the empty list. */
module Paths {

  datatype Option<T> = None | Some(value: T)

  /** An absolute path; `[]` is the filesystem root. */
  type Path = seq<string>

  /** `path.dirname` on an absolute path: the root is its own parent. */
  function Parent(p: Path): Path
  {
    if p == [] then [] else p[..|p| - 1]
  }

  /** `k` applications of `Parent`. */
  function Up(p: Path, k: nat): Path
  {
    if k == 0 then p else Up(Parent(p), k - 1)
  }

  /** A segment that a normalised path can hold. */
  predicate IsName(s: string)
  {
    s != "" && s != "." && s != ".." && '/' !in s
  }

  predicate EndsWith(s: string, suffix: string)
  {
    |suffix| <= |s| && s[|s| - |suffix|..] == suffix
  }

  /** JavaScript's `String.prototype.split` with a one-character separator. */
  function Split(s: string, sep: char): (r: seq<string>)
    ensures |r| >= 1
    ensures forall i :: 0 <= i < |r| ==> sep !in r[i]
  {
    if s == [] then [""]
    else
      var rest := Split(s[1..], sep);
      if s[0] == sep then [""] + rest
      else [[s[0]] + rest[0]] + rest[1..]
  }

  /** `Array.prototype.join`: the inverse of `Split`. */
  function JoinWith(parts: seq<string>, sep: char): string
    requires |parts| >= 1
  {
    if |parts| == 1 then parts[0] else parts[0] + [sep] + JoinWith(parts[1..], sep)
  }

  /** One segment of path normalisation. */
  function Step(p: Path, seg: string): Path
  {
    if seg == "" || seg == "." then p
    else if seg == ".." then Parent(p)
    else p + [seg]
  }

  /** Appends `segs` to `base` left to right, dropping empty and "." segments
      and stepping up for "..", as `path.normalize` does. */
  function Normalize(base: Path, segs: seq<string>): Path
    decreases |segs|
  {
    if segs == [] then base else Normalize(Step(base, segs[0]), segs[1..])
  }

  /** `path.resolve(base, rel)`: an absolute `rel` starts again at the root. */
  function Resolve(base: Path, rel: string): Path
  {
    if |rel| > 0 && rel[0] == '/' then Normalize([], Split(rel, '/'))
    else Normalize(base, Split(rel, '/'))
  }

  /** `path.join(base, rel)`: `rel` is appended even when it starts with '/'. */
  function Join(base: Path, rel: string): Path
  {
    Normalize(base, Split(rel, '/'))
  }

  /** Drops one leading '/', as `replace(/^\//, "")` does. */
  function StripLeadingSlash(s: string): (r: string)
    ensures s == r || s == "/" + r
    ensures |s| > 0 && s[0] == '/' ==> s == "/" + r
  {
    if |s| > 0 && s[0] == '/' then s[1..] else s
  }

  // ---------------------------------------------------------------------------
  // Lemmas

  /** `Split` and `JoinWith` are inverse: joining the pieces gives the string back. */
  lemma {:induction false} JoinSplit(s: string, sep: char)
    ensures JoinWith(Split(s, sep), sep) == s
  {
    if s != [] {
      var rest := Split(s[1..], sep);
      JoinSplit(s[1..], sep);
      if s[0] == sep {
        assert Split(s, sep)[1..] == rest;
      } else {
        var r := Split(s, sep);
        if |rest| == 1 {
          assert r == [[s[0]] + rest[0]];
        } else {
          assert r[1..] == rest[1..];
          assert JoinWith(rest, sep) == rest[0] + [sep] + JoinWith(rest[1..], sep);
        }
      }
    }
  }

  /** Splitting joined separator-free pieces gives the pieces back. */
  lemma {:induction false} SplitJoin(parts: seq<string>, sep: char)
    requires |parts| >= 1
    requires forall i :: 0 <= i < |parts| ==> sep !in parts[i]
    ensures Split(JoinWith(parts, sep), sep) == parts
  {
    if |parts| == 1 {
      SplitNoSep(parts[0], sep);
    } else {
      SplitJoin(parts[1..], sep);
      SplitPrefix(parts[0], sep, JoinWith(parts[1..], sep));
      assert parts == [parts[0]] + parts[1..];
    }
  }

  /** A string without the separator splits into itself. */
  lemma {:induction false} SplitNoSep(s: string, sep: char)
    requires sep !in s
    ensures Split(s, sep) == [s]
  {
    if s != [] {
      SplitNoSep(s[1..], sep);
      assert [s[0]] + s[1..] == s;
    }
  }

  /** A separator-free head followed by a separator starts a new piece. */
  lemma {:induction false} SplitPrefix(w: string, sep: char, tail: string)
    requires sep !in w
    ensures Split(w + [sep] + tail, sep) == [w] + Split(tail, sep)
  {
    if w == [] {
      assert [sep] + tail == w + [sep] + tail;
      assert ([sep] + tail)[1..] == tail;
    } else {
      assert (w + [sep] + tail)[1..] == w[1..] + [sep] + tail;
      SplitPrefix(w[1..], sep, tail);
      assert [w[0]] + w[1..] == w;
    }
  }

  /** `Split` yields one more piece than there are separators. */
  lemma {:induction false} SplitCount(s: string, sep: char)
    ensures |Split(s, sep)| == multiset(s)[sep] + 1
  {
    if s != [] {
      SplitCount(s[1..], sep);
      assert s == [s[0]] + s[1..];
      assert multiset(s) == multiset([s[0]]) + multiset(s[1..]);
    }
  }

  /** `Up` cuts `k` segments off the end. */
  lemma {:induction false} UpIsPrefix(p: Path, k: nat)
    requires k <= |p|
    ensures Up(p, k) == p[..|p| - k]
  {
    if k > 0 {
      UpIsPrefix(Parent(p), k - 1);
      assert Parent(p)[..|Parent(p)| - (k - 1)] == p[..|p| - k];
    }
  }

  /** `Up` cuts `k` segments off the end, and stops at the root. */
  lemma {:induction false} UpLength(p: Path, k: nat)
    ensures |Up(p, k)| == if k <= |p| then |p| - k else 0
  {
    if k > 0 {
      UpLength(Parent(p), k - 1);
    }
  }

  /** Normalising separator-free, ordinary segments just appends them. */
  lemma {:induction false} NormalizeNames(base: Path, segs: seq<string>)
    requires forall i :: 0 <= i < |segs| ==> IsName(segs[i])
    ensures Normalize(base, segs) == base + segs
    decreases |segs|
  {
    if segs != [] {
      NormalizeNames(base + [segs[0]], segs[1..]);
      assert base + [segs[0]] + segs[1..] == base + segs;
    }
  }

  /** A trailing separator adds one empty piece. */
  lemma {:induction false} SplitTrailing(w: string, sep: char)
    ensures Split(w + [sep], sep) == Split(w, sep) + [""]
  {
    if w == [] {
      assert ([] + [sep])[1..] == [];
    } else {
      SplitTrailing(w[1..], sep);
      assert (w + [sep])[1..] == w[1..] + [sep];
    }
  }

  /** A trailing empty segment does not change a normalised path. */
  lemma {:induction false} NormalizeTrailingEmpty(base: Path, segs: seq<string>)
    ensures Normalize(base, segs + [""]) == Normalize(base, segs)
    decreases |segs|
  {
    if segs == [] {
      assert ([] + [""])[1..] == [];
    } else {
      assert (segs + [""])[1..] == segs[1..] + [""];
      NormalizeTrailingEmpty(Step(base, segs[0]), segs[1..]);
    }
  }

  /** `path.join` lands on the same path whether or not `rel` ends in '/'
      (the string it returns keeps the '/'). */
  lemma JoinTrailingSlash(base: Path, rel: string)
    requires EndsWith(rel, "/")
    ensures Join(base, rel) == Join(base, rel[..|rel| - 1])
  {
    var w := rel[..|rel| - 1];
    assert rel == w + ['/'];
    SplitTrailing(w, '/');
    NormalizeTrailingEmpty(base, Split(w, '/'));
  }

  /** Normalising adds at most one segment per input segment. */
  lemma {:induction false} NormalizeLength(base: Path, segs: seq<string>)
    ensures |Normalize(base, segs)| <= |base| + |segs|
    decreases |segs|
  {
    if segs != [] {
      NormalizeLength(Step(base, segs[0]), segs[1..]);
    }
  }

  /** Normalising keeps every segment a plain name. */
  lemma {:induction false} NormalizeKeepsNames(base: Path, segs: seq<string>)
    requires forall i :: 0 <= i < |base| ==> IsName(base[i])
    requires forall i :: 0 <= i < |segs| ==> '/' !in segs[i]
    ensures forall i :: 0 <= i < |Normalize(base, segs)| ==> IsName(Normalize(base, segs)[i])
    decreases |segs|
  {
    if segs != [] {
      NormalizeKeepsNames(Step(base, segs[0]), segs[1..]);
    }
  }

  /** A single plain name resolves and joins to the child of that name. */
  lemma ResolveName(base: Path, n: string)
    requires IsName(n)
    ensures Resolve(base, n) == base + [n]
    ensures Join(base, n) == base + [n]
  {
    SplitNoSep(n, '/');
    assert Normalize(base, [n]) == Normalize(base + [n], []);
  }

  /** `Resolve` and `Join` agree on relative paths. */
  lemma ResolveJoinAgree(base: Path, rel: string)
    requires |rel| == 0 || rel[0] != '/'
    ensures Resolve(base, rel) == Join(base, rel)
  {
  }
}
