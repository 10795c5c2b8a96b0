/** A small option type shared by the other modules. */
module Wrappers {
  datatype Option<+T> = None | Some(value: T)
}

/**
 * POSIX paths as sequences of components.
 *
 * A path string is split on '/', and `path.join`/`path.resolve` normalisation
 * is applied component by component: empty and "." components vanish, ".."
 * drops the last component (never going above the root), anything else is
 * appended. Every path the model works with is absolute and normalised
 * (predicate `Normal`), so "resolving" such a path is the identity.
 */
module Paths {

  type Path = seq<string>

  /** A component that survives normalisation unchanged. */
  predicate IsComponent(c: string) {
    c != "" && c != "." && c != ".." && '/' !in c
  }

  predicate Normal(p: Path) {
    forall i :: 0 <= i < |p| ==> IsComponent(p[i])
  }

  /** `dirname`: the parent directory; the root is its own parent. */
  function Parent(p: Path): (r: Path)
    ensures |p| > 0 ==> p == r + [p[|p| - 1]]
    ensures |p| == 0 ==> r == []
  {
    if |p| == 0 then [] else p[..|p| - 1]
  }

  predicate IsPrefix(p: Path, q: Path) {
    |p| <= |q| && q[..|p|] == p
  }

  /** Two paths are related when one lies on the other's way to the root. */
  predicate Related(p: Path, q: Path) {
    IsPrefix(p, q) || IsPrefix(q, p)
  }

  lemma PrefixTrans(a: Path, b: Path, c: Path)
    ensures IsPrefix(a, b) && IsPrefix(b, c) ==> IsPrefix(a, c)
  {
    if IsPrefix(a, b) && IsPrefix(b, c) {
      assert c[..|a|] == c[..|b|][..|a|];
    }
  }

  /** Two ancestors of one path lie on one line. */
  lemma CommonDescendant(a: Path, b: Path, c: Path)
    ensures IsPrefix(a, c) && IsPrefix(b, c) ==> Related(a, b)
  {
    if IsPrefix(a, c) && IsPrefix(b, c) {
      if |a| <= |b| {
        assert b[..|a|] == c[..|b|][..|a|];
      } else {
        assert a[..|b|] == c[..|a|][..|b|];
      }
    }
  }

  lemma ParentIsPrefix(p: Path)
    ensures IsPrefix(Parent(p), p)
  {}

  /** A proper ancestor of `q` is an ancestor of `q`'s parent. */
  lemma PrefixOfParent(p: Path, q: Path)
    ensures IsPrefix(p, q) && p != q ==> IsPrefix(p, Parent(q))
  {
    if IsPrefix(p, q) && p != q {
      assert Parent(q)[..|p|] == q[..|p|];
    }
  }

  lemma NormalConcat(p: Path, q: Path)
    requires Normal(p) && Normal(q)
    ensures Normal(p + q)
  {
    forall i | 0 <= i < |p + q| ensures IsComponent((p + q)[i]) {
      if i < |p| {
        assert (p + q)[i] == p[i];
      } else {
        assert (p + q)[i] == q[i - |p|];
      }
    }
  }

  /** Splits a path string at every '/', keeping empty pieces. */
  function Split(s: string): (r: seq<string>)
    ensures |r| >= 1
  {
    if s == [] then [""]
    else
      var rest := Split(s[1..]);
      if s[0] == '/' then [""] + rest
      else [[s[0]] + rest[0]] + rest[1..]
  }

  /** One step of normalisation. */
  function Step(base: Path, c: string): Path {
    if c == "" || c == "." then base
    else if c == ".." then Parent(base)
    else base + [c]
  }

  /** Applies the components `parts` to `base`, left to right. */
  function Normalize(base: Path, parts: seq<string>): Path
    decreases |parts|
  {
    if parts == [] then base else Normalize(Step(base, parts[0]), parts[1..])
  }

  /** `path.join(base, s)` for a normalised `base`. */
  function Join(base: Path, s: string): Path {
    Normalize(base, Split(s))
  }

  /** `path.resolve(cwd, s)`: an absolute string ignores `cwd`. */
  function Resolve(cwd: Path, s: string): Path {
    Join(if |s| > 0 && s[0] == '/' then [] else cwd, s)
  }

  function CommonPrefixLength(a: Path, b: Path): (k: nat)
    ensures k <= |a| && k <= |b| && a[..k] == b[..k]
    decreases |a|
  {
    if |a| == 0 || |b| == 0 || a[0] != b[0] then 0
    else 1 + CommonPrefixLength(a[1..], b[1..])
  }

  /** `n` steps up. */
  function Ups(n: nat): (r: seq<string>)
    ensures |r| == n && forall i :: 0 <= i < n ==> r[i] == ".."
  {
    seq(n, _ => "..")
  }

  /** `path.relative(from, to)`, as components: climb to the common prefix, then descend. */
  function Relative(from: Path, to: Path): seq<string> {
    var k := CommonPrefixLength(from, to);
    Ups(|from| - k) + to[k..]
  }

  lemma {:induction false} SplitSingle(s: string)
    requires '/' !in s
    ensures Split(s) == [s]
    decreases |s|
  {
    if s != [] {
      SplitSingle(s[1..]);
      assert [s[0]] + s[1..] == s;
    }
  }

  lemma {:induction false} NormalizeAppend(base: Path, parts: seq<string>)
    requires Normal(parts)
    ensures Normalize(base, parts) == base + parts
    decreases |parts|
  {
    if parts != [] {
      NormalizeAppend(base + [parts[0]], parts[1..]);
      assert base + [parts[0]] + parts[1..] == base + parts;
    }
  }

  lemma {:induction false} NormalizeClimb(base: Path, n: nat, rest: seq<string>)
    requires n <= |base|
    ensures Normalize(base, Ups(n) + rest) == Normalize(base[..|base| - n], rest)
    decreases n
  {
    if n == 0 {
      assert Ups(n) + rest == rest;
      assert base[..|base|] == base;
    } else {
      var parts := Ups(n) + rest;
      assert parts[0] == "..";
      assert parts[1..] == Ups(n - 1) + rest;
      assert Normalize(base, parts) == Normalize(Parent(base), Ups(n - 1) + rest);
      NormalizeClimb(Parent(base), n - 1, rest);
      assert Parent(base)[..|Parent(base)| - (n - 1)] == base[..|base| - n];
    }
  }

  /** Joining a single safe component moves exactly one level down. */
  lemma JoinComponent(base: Path, name: string)
    requires IsComponent(name)
    ensures Join(base, name) == base + [name]
  {
    SplitSingle(name);
    NormalizeAppend(base, [name]);
  }

  /**
   * `path.resolve(dirname(link), path.relative(dirname(link), target)) == target`:
   * the relative link text that the symlink manager writes leads back to its target.
   */
  lemma RelativeRoundTrip(from: Path, to: Path)
    requires Normal(to)
    ensures Normalize(from, Relative(from, to)) == to
  {
    var k := CommonPrefixLength(from, to);
    var rest := to[k..];
    NormalizeClimb(from, |from| - k, rest);
    assert from[..|from| - (|from| - k)] == from[..k] == to[..k];
    NormalSuffix(to, k);
    NormalizeAppend(to[..k], rest);
    assert to[..k] + rest == to;
  }

  lemma {:induction false} CommonPrefixSelf(p: Path)
    ensures CommonPrefixLength(p, p) == |p|
    decreases |p|
  {
    if |p| > 0 {
      CommonPrefixSelf(p[1..]);
    }
  }

  /** The relative text is empty exactly when the two paths coincide. */
  lemma RelativeEmpty(from: Path, to: Path)
    ensures Relative(from, to) == [] <==> from == to
  {
    if from == to {
      CommonPrefixSelf(from);
    }
  }

  lemma NormalSuffix(p: Path, k: nat)
    requires Normal(p) && k <= |p|
    ensures Normal(p[k..])
  {
    forall i | 0 <= i < |p[k..]| ensures IsComponent(p[k..][i]) {
      assert p[k..][i] == p[k + i];
    }
  }

  /** Normalisation never produces a component that would be normalised again. */
  lemma {:induction false} NormalizeNormal(base: Path, parts: seq<string>)
    requires Normal(base)
    requires forall i :: 0 <= i < |parts| ==> '/' !in parts[i]
    ensures Normal(Normalize(base, parts))
    decreases |parts|
  {
    if parts != [] {
      var b := Step(base, parts[0]);
      assert Normal(b);
      NormalizeNormal(b, parts[1..]);
    }
  }

  lemma {:induction false} SplitNoSlash(s: string)
    ensures forall i :: 0 <= i < |Split(s)| ==> '/' !in Split(s)[i]
    decreases |s|
  {
    if s != [] {
      SplitNoSlash(s[1..]);
    }
  }

  /** Joining any string onto a normalised path yields a normalised path. */
  lemma JoinNormal(base: Path, s: string)
    requires Normal(base)
    ensures Normal(Join(base, s))
  {
    SplitNoSlash(s);
    NormalizeNormal(base, Split(s));
  }

  lemma ResolveNormal(cwd: Path, s: string)
    requires Normal(cwd)
    ensures Normal(Resolve(cwd, s))
  {
    JoinNormal(if |s| > 0 && s[0] == '/' then [] else cwd, s);
  }
}
