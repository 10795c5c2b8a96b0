/**
 * The directory copier of the installer: `copyDirectory(src, dest)` ensures
 * `dest`, then mirrors every entry of `src` into it, recursing into
 * directories and skipping housekeeping names at every depth.
 */
module Copier {
  import opened Wrappers
  import opened Paths
  import opened Fs

  /** Skipped whatever the entry type. */
  const EXCLUDE_FILES: set<string> := {"README.md", "metadata.json", ".DS_Store"}
  /** Skipped only when the entry is a directory. */
  const EXCLUDE_DIRS: set<string> := {".git", "node_modules"}

  predicate Skipped(name: string, isDir: bool) {
    name in EXCLUDE_FILES || (isDir && name in EXCLUDE_DIRS)
  }

  predicate IsDirNode(m: Entries, q: Path) {
    q in m && m[q] == Dir
  }

  /** `q` lies strictly below `src` and no entry on the way down from `src` is skipped. */
  ghost predicate Reached(m: Entries, src: Path, q: Path) {
    && |src| < |q| && q[..|src|] == src
    && forall j :: |src| <= j < |q| ==> !Skipped(q[j], IsDirNode(m, q[..j + 1]))
  }

  /** The source entry that a target below `dest` is copied from. */
  function Origin(src: Path, dest: Path, t: Path): Path
    requires |dest| <= |t|
  {
    src + t[|dest|..]
  }

  /** The entries that `copyDirectory` targets, described from the target side. */
  ghost predicate MirrorsAt(m: Entries, src: Path, dest: Path, t: Path) {
    && |dest| < |t| && t[..|dest|] == dest
    && Origin(src, dest, t) in m && Reached(m, src, Origin(src, dest, t))
  }

  /** The paths `copyDirectory(src, dest)` writes: each reached entry, re-rooted at `dest`. */
  ghost function Targets(m: Entries, src: Path, dest: Path): set<Path> {
    set q | q in m && Reached(m, src, q) :: dest + q[|src|..]
  }

  /** What copying the children named in `names` of `src` into `dest` produces. */
  ghost function MirrorOf(m: Entries, src: Path, dest: Path, names: set<string>): Entries {
    map t | t in Targets(m, src, dest) && MirrorsAt(m, src, dest, t) && t[|dest|] in names
      :: m[Origin(src, dest, t)]
  }

  /** What `copyDirectory(src, dest)` writes below `dest`: every reached entry, at the same relative path. */
  ghost function Mirror(m: Entries, src: Path, dest: Path): Entries {
    map t | t in Targets(m, src, dest) && MirrorsAt(m, src, dest, t) :: m[Origin(src, dest, t)]
  }

  lemma OriginOf(src: Path, dest: Path, q: Path)
    requires |src| <= |q| && q[..|src|] == src
    ensures Origin(src, dest, dest + q[|src|..]) == q
  {
    assert (dest + q[|src|..])[|dest|..] == q[|src|..];
    assert q == q[..|src|] + q[|src|..];
  }

  lemma MirrorAt(m: Entries, src: Path, dest: Path, t: Path)
    ensures t in Mirror(m, src, dest) <==> MirrorsAt(m, src, dest, t)
    ensures t in Mirror(m, src, dest) ==> Mirror(m, src, dest)[t] == m[Origin(src, dest, t)]
  {
    if MirrorsAt(m, src, dest, t) {
      var q := Origin(src, dest, t);
      assert q[|src|..] == t[|dest|..];
      assert dest + q[|src|..] == t;
      assert t in Targets(m, src, dest);
    }
  }

  lemma MirrorOfAt(m: Entries, src: Path, dest: Path, names: set<string>, t: Path)
    ensures t in MirrorOf(m, src, dest, names) <==> MirrorsAt(m, src, dest, t) && t[|dest|] in names
    ensures t in MirrorOf(m, src, dest, names) ==> MirrorOf(m, src, dest, names)[t] == m[Origin(src, dest, t)]
  {
    MirrorAt(m, src, dest, t);
  }

  /** Reaching an entry below the child `n` of `src` means passing `n` and then reaching it from there. */
  lemma ReachedThroughChild(m: Entries, src: Path, n: string, q: Path)
    requires |src| + 1 < |q| && q[..|src| + 1] == src + [n]
    ensures Reached(m, src, q) <==> !Skipped(n, IsDirNode(m, src + [n])) && Reached(m, src + [n], q)
  {
    assert q[..|src|] == src by { assert q[..|src|] == q[..|src| + 1][..|src|]; }
    assert q[|src|] == n;
    assert q[..|src| + 1] == src + [n];
  }

  lemma ReachedChild(m: Entries, src: Path, n: string)
    ensures Reached(m, src, src + [n]) <==> !Skipped(n, IsDirNode(m, src + [n]))
  {
    var q := src + [n];
    assert q[..|src|] == src;
    assert q[..|src| + 1] == q;
    assert q[|src|] == n;
  }

  /** Both maps hold the same entries at and below `p`. */
  ghost predicate AgreeBelow(m0: Entries, m1: Entries, p: Path) {
    forall q :: IsPrefix(p, q) ==> (q in m0 <==> q in m1) && (q in m0 ==> m0[q] == m1[q])
  }

  /** A frame for `dest` leaves every subtree unrelated to `dest` alone. */
  lemma FrameKeepsSubtree(m0: Entries, m1: Entries, src: Path, dest: Path)
    requires AgreeOutside(m0, m1, dest) && !Related(src, dest)
    ensures AgreeBelow(m0, m1, src)
  {
    forall q | IsPrefix(src, q) ensures !Related(dest, q) {
      CommonDescendant(src, dest, q);
      PrefixTrans(src, q, dest);
    }
  }

  lemma AgreeBelowChild(m0: Entries, m1: Entries, p: Path, n: string)
    requires AgreeBelow(m0, m1, p)
    ensures AgreeBelow(m0, m1, p + [n])
  {
    forall q | IsPrefix(p + [n], q) ensures IsPrefix(p, q) {
      PrefixTrans(p, p + [n], q);
    }
  }

  /** The mirror of `src` depends only on what lies below `src`. */
  lemma MirrorLocal(m0: Entries, m1: Entries, src: Path, dest: Path)
    requires AgreeBelow(m0, m1, src)
    ensures Mirror(m0, src, dest) == Mirror(m1, src, dest)
  {
    forall t ensures (t in Mirror(m0, src, dest) <==> t in Mirror(m1, src, dest))
      && (t in Mirror(m0, src, dest) ==> Mirror(m0, src, dest)[t] == Mirror(m1, src, dest)[t])
    {
      MirrorAt(m0, src, dest, t);
      MirrorAt(m1, src, dest, t);
      if |dest| < |t| && t[..|dest|] == dest {
        var q := Origin(src, dest, t);
        assert q[..|src|] == src;
        forall i | |src| < i <= |q| ensures IsDirNode(m0, q[..i]) == IsDirNode(m1, q[..i]) {
          assert q[..i][..|src|] == src;
        }
      }
    }
  }

  lemma ChildNamesLocal(m0: Entries, m1: Entries, p: Path)
    requires AgreeBelow(m0, m1, p)
    ensures ChildNames(m0, p) == ChildNames(m1, p)
  {
    forall n | n in ChildNames(m0, p) ensures n in ChildNames(m1, p) {
      var q :| q in m0 && |q| == |p| + 1 && IsPrefix(p, q) && n == q[|p|];
    }
    forall n | n in ChildNames(m1, p) ensures n in ChildNames(m0, p) {
      var q :| q in m1 && |q| == |p| + 1 && IsPrefix(p, q) && n == q[|p|];
    }
  }

  lemma ChildNamed(m: Entries, p: Path, n: string)
    requires n in ChildNames(m, p)
    ensures p + [n] in m
  {
    var q :| q in m && |q| == |p| + 1 && IsPrefix(p, q) && n == q[|p|];
    assert q == q[..|p|] + [q[|p|]];
  }

  /** In a tree-shaped map every non-root ancestor of a stored entry is stored. */
  lemma {:induction false} AncestorStored(m: Entries, a: Path, q: Path)
    requires TreeShaped(m) && q in m && IsPrefix(a, q) && a != []
    ensures a in m
    decreases |q|
  {
    if a != q {
      assert Stored(m, q);
      PrefixOfParent(a, q);
      AncestorStored(m, a, Parent(q));
    }
  }

  /** ... and every proper non-root ancestor is a directory. */
  lemma {:induction false} AncestorIsDir(m: Entries, a: Path, q: Path)
    requires TreeShaped(m) && q in m && IsPrefix(a, q) && a != [] && a != q
    ensures IsDirNode(m, a)
    decreases |q|
  {
    assert Stored(m, q);
    PrefixOfParent(a, q);
    if a != Parent(q) {
      AncestorIsDir(m, a, Parent(q));
    }
  }

  /** Copying every child of `src` is copying `src`. */
  /** Before the loop has copied any child, nothing has been written. */
  lemma MirrorOfNone(m: Entries, src: Path, dest: Path)
    ensures MirrorOf(m, src, dest, {}) == map[]
  {
  }

  lemma MirrorOfAllChildren(m: Entries, src: Path, dest: Path)
    requires TreeShaped(m)
    ensures MirrorOf(m, src, dest, ChildNames(m, src)) == Mirror(m, src, dest)
  {
    var names := ChildNames(m, src);
    forall t ensures (t in MirrorOf(m, src, dest, names) <==> t in Mirror(m, src, dest))
      && (t in Mirror(m, src, dest) ==> MirrorOf(m, src, dest, names)[t] == Mirror(m, src, dest)[t])
    {
      MirrorOfAt(m, src, dest, names, t);
      MirrorAt(m, src, dest, t);
      if MirrorsAt(m, src, dest, t) {
        var q := Origin(src, dest, t);
        var a := q[..|src| + 1];
        assert IsPrefix(a, q);
        AncestorStored(m, a, q);
        assert a[..|src|] == src && a[|src|] == q[|src|] == t[|dest|];
        assert t[|dest|] in names;
      }
    }
  }

  /** Targets away from `dest + [n]` are unaffected by copying child `n`. */
  lemma StepAway(m: Entries, src: Path, dest: Path, done: set<string>, n: string, t: Path)
    requires n !in done && !IsPrefix(dest + [n], t)
    ensures t in MirrorOf(m, src, dest, done + {n}) <==> t in MirrorOf(m, src, dest, done)
    ensures t in MirrorOf(m, src, dest, done) ==> MirrorOf(m, src, dest, done + {n})[t] == MirrorOf(m, src, dest, done)[t]
  {
    MirrorOfAt(m, src, dest, done, t);
    MirrorOfAt(m, src, dest, done + {n}, t);
    PrefixExtend(dest, n, t);
  }

  /** A path that continues `dest` with `n` lies below `dest + [n]`. */
  lemma PrefixExtend(dest: Path, n: string, t: Path)
    ensures (|dest| < |t| && t[..|dest|] == dest && t[|dest|] == n) ==> IsPrefix(dest + [n], t)
  {
    if |dest| < |t| && t[..|dest|] == dest && t[|dest|] == n {
      assert t[..|dest| + 1] == dest + [n];
    }
  }

  /** Copying child `n` creates `dest + [n]` unless `n` is skipped. */
  lemma StepAt(m: Entries, src: Path, dest: Path, done: set<string>, n: string)
    requires src + [n] in m && n !in done
    ensures dest + [n] !in MirrorOf(m, src, dest, done)
    ensures dest + [n] in MirrorOf(m, src, dest, done + {n}) <==> !Skipped(n, IsDirNode(m, src + [n]))
    ensures dest + [n] in MirrorOf(m, src, dest, done + {n}) ==> MirrorOf(m, src, dest, done + {n})[dest + [n]] == m[src + [n]]
  {
    var t := dest + [n];
    MirrorOfAt(m, src, dest, done, t);
    MirrorOfAt(m, src, dest, done + {n}, t);
    ReachedChild(m, src, n);
    assert t[..|dest|] == dest && t[|dest|] == n;
    assert Origin(src, dest, t) == src + [n];
  }

  /** Below `dest + [n]` the copy of child `n` is the mirror of `src + [n]`. */
  lemma StepBelow(m: Entries, src: Path, dest: Path, done: set<string>, n: string, t: Path)
    requires n !in done && IsPrefix(dest + [n], t) && t != dest + [n]
    ensures t !in MirrorOf(m, src, dest, done)
    ensures t in MirrorOf(m, src, dest, done + {n})
      <==> !Skipped(n, IsDirNode(m, src + [n])) && t in Mirror(m, src + [n], dest + [n])
    ensures t in MirrorOf(m, src, dest, done + {n})
      ==> MirrorOf(m, src, dest, done + {n})[t] == Mirror(m, src + [n], dest + [n])[t]
  {
    var child := src + [n];
    MirrorOfAt(m, src, dest, done, t);
    MirrorOfAt(m, src, dest, done + {n}, t);
    MirrorAt(m, child, dest + [n], t);
    assert t[..|dest|] == dest by { assert t[..|dest|] == t[..|dest| + 1][..|dest|]; }
    assert t[|dest|] == n by { assert t[|dest|] == t[..|dest| + 1][|dest|]; }
    var q := Origin(src, dest, t);
    assert Origin(child, dest + [n], t) == q by {
      assert t[|dest|..] == [n] + t[|dest| + 1..];
    }
    assert q[..|src| + 1] == child;
    ReachedThroughChild(m, src, n, q);
  }

  /**
   * Copying one more child: a skipped child adds nothing, any other child adds
   * itself and the mirror of what lies below it.
   */
  lemma MirrorOfStep(m: Entries, src: Path, dest: Path, done: set<string>, n: string)
    requires src + [n] in m && n !in done
    ensures MirrorOf(m, src, dest, done + {n})
      == if Skipped(n, IsDirNode(m, src + [n])) then MirrorOf(m, src, dest, done)
         else MirrorOf(m, src, dest, done)[dest + [n] := m[src + [n]]] + Mirror(m, src + [n], dest + [n])
  {
    var child := src + [n];
    var before := MirrorOf(m, src, dest, done);
    var after := MirrorOf(m, src, dest, done + {n});
    StepAt(m, src, dest, done, n);
    MirrorBelow(m, child, dest + [n]);
    if Skipped(n, IsDirNode(m, child)) {
      forall t ensures (t in after <==> t in before) && (t in after ==> after[t] == before[t]) {
        if IsPrefix(dest + [n], t) && t != dest + [n] {
          StepBelow(m, src, dest, done, n, t);
        } else if t != dest + [n] {
          StepAway(m, src, dest, done, n, t);
        }
      }
      assert after == before;
    } else {
      var expected := before[dest + [n] := m[child]] + Mirror(m, child, dest + [n]);
      forall t ensures (t in after <==> t in expected) && (t in after ==> after[t] == expected[t]) {
        if IsPrefix(dest + [n], t) && t != dest + [n] {
          StepBelow(m, src, dest, done, n, t);
        } else if t != dest + [n] {
          StepAway(m, src, dest, done, n, t);
          assert t !in Mirror(m, child, dest + [n]);
        } else {
          assert t !in Mirror(m, child, dest + [n]);
        }
      }
      assert after == expected;
    }
  }

  /** A file has nothing below it, so its mirror is empty. */
  lemma MirrorOfFile(m: Entries, src: Path, dest: Path)
    requires TreeShaped(m) && src != [] && !IsDirNode(m, src)
    ensures Mirror(m, src, dest) == map[]
  {
    forall t | t in Mirror(m, src, dest) ensures false {
      MirrorAt(m, src, dest, t);
      var q := Origin(src, dest, t);
      AncestorIsDir(m, src, q);
    }
  }

  /** Every key of a mirror lies strictly below `dest`. */
  lemma MirrorBelow(m: Entries, src: Path, dest: Path)
    ensures forall t :: t in Mirror(m, src, dest) ==> |dest| < |t| && t[..|dest|] == dest
  {
    forall t | t in Mirror(m, src, dest) ensures |dest| < |t| && t[..|dest|] == dest {
      MirrorAt(m, src, dest, t);
    }
  }

  /** Laying the copies over `m1` changes nothing outside `dest`. */
  lemma MirrorOfOutside(m0: Entries, m1: Entries, src: Path, dest: Path, names: set<string>)
    requires AgreeOutside(m0, m1, dest)
    ensures AgreeOutside(m0, m1 + MirrorOf(m0, src, dest, names), dest)
  {
    MirrorOfBelow(m0, src, dest, names);
    forall q | q in MirrorOf(m0, src, dest, names) ensures IsPrefix(dest, q) {}
  }

  lemma MirrorOfBelow(m: Entries, src: Path, dest: Path, names: set<string>)
    ensures forall t :: t in MirrorOf(m, src, dest, names) ==> |dest| < |t| && t[..|dest|] == dest
  {
    forall t | t in MirrorOf(m, src, dest, names) ensures |dest| < |t| && t[..|dest|] == dest {
      MirrorOfAt(m, src, dest, names, t);
    }
  }

  /**
   * No copied entry carries an excluded file name, and no copied directory an
   * excluded directory name.
   */
  lemma MirrorSkipsExcluded(m: Entries, src: Path, dest: Path, t: Path)
    requires t in Mirror(m, src, dest)
    ensures |t| > |dest| && t[|t| - 1] !in EXCLUDE_FILES
    ensures Mirror(m, src, dest)[t] == Dir ==> t[|t| - 1] !in EXCLUDE_DIRS
  {
    MirrorAt(m, src, dest, t);
    var q := Origin(src, dest, t);
    assert q[..|q|] == q;
    assert q[|q| - 1] == t[|t| - 1];
  }

  /** Every entry reached below `src` is copied to the same relative place below `dest`, node for node. */
  lemma MirrorCopiesReached(m: Entries, src: Path, dest: Path, q: Path)
    requires q in m && Reached(m, src, q)
    ensures dest + q[|src|..] in Mirror(m, src, dest)
    ensures Mirror(m, src, dest)[dest + q[|src|..]] == m[q]
  {
    OriginOf(src, dest, q);
    MirrorAt(m, src, dest, dest + q[|src|..]);
    assert (dest + q[|src|..])[..|dest|] == dest;
  }

  /** Everything copied comes from a reached entry of `src`. */
  lemma MirrorFromReached(m: Entries, src: Path, dest: Path, t: Path)
    requires t in Mirror(m, src, dest)
    ensures |dest| < |t| && t[..|dest|] == dest
    ensures Origin(src, dest, t) in m && Reached(m, src, Origin(src, dest, t))
    ensures Mirror(m, src, dest)[t] == m[Origin(src, dest, t)]
  {
    MirrorAt(m, src, dest, t);
  }

  lemma MergeUpdate<K, V>(a: map<K, V>, b: map<K, V>, c: map<K, V>, k: K, v: V)
    ensures (a + b)[k := v] + c == a + (b[k := v] + c)
  {
  }

  /** After copying a non-excluded directory child, the copy covers one more name. */
  lemma DirStep(m0: Entries, m1: Entries, prev: Entries, readOnly: set<Path>,
                src: Path, dest: Path, done: set<string>, n: string)
    requires TreeShaped(prev) && IsDirAt(prev, dest)
    requires prev == m1 + MirrorOf(m0, src, dest, done) && n !in done
    requires src + [n] in m0 && IsDirNode(m0, src + [n]) && !Skipped(n, true)
    requires AgreeBelow(m0, prev, src + [n])
    requires EnsureDirSpec(prev, readOnly, dest + [n]).Ok?
    ensures EnsureDirSpec(prev, readOnly, dest + [n]).entries + Mirror(prev, src + [n], dest + [n])
         == m1 + MirrorOf(m0, src, dest, done + {n})
  {
    var k := dest + [n];
    EnsureDirChild(prev, readOnly, dest, n);
    MirrorLocal(m0, prev, src + [n], dest + [n]);
    MirrorOfStep(m0, src, dest, done, n);
    MergeUpdate(m1, MirrorOf(m0, src, dest, done), Mirror(m0, src + [n], k), k, Dir);
  }

  /** After copying a non-excluded file child, the copy covers one more name. */
  lemma FileStep(m0: Entries, m1: Entries, prev: Entries, src: Path, dest: Path, done: set<string>, n: string)
    requires TreeShaped(m0)
    requires prev == m1 + MirrorOf(m0, src, dest, done) && n !in done
    requires src + [n] in m0 && !IsDirNode(m0, src + [n]) && !Skipped(n, false)
    ensures prev[dest + [n] := m0[src + [n]]] == m1 + MirrorOf(m0, src, dest, done + {n})
  {
    var k := dest + [n];
    MirrorOfStep(m0, src, dest, done, n);
    MirrorOfFile(m0, src + [n], k);
    MergeUpdate(m1, MirrorOf(m0, src, dest, done), map[], k, m0[src + [n]]);
  }

  // ---------------------------------------------------------------------
  // When `copyDirectory` runs to completion.

  /**
   * Copying an entry to `t` does not fail on disk `m`: a directory lands on a
   * directory, or on a free path outside the read-only subtrees; anything
   * else lands on a non-directory or a free path, outside the read-only
   * subtrees.
   */
  predicate StepOk(m: Entries, readOnly: set<Path>, isDir: bool, t: Path) {
    if isDir then (t in m ==> m[t] == Dir) && (t !in m ==> !Locked(readOnly, t))
    else (t in m ==> m[t] != Dir) && !Locked(readOnly, t)
  }

  /** Every entry `copyDirectory(src, dest)` reaches can be copied to its target. */
  ghost predicate StepsOk(m: Entries, readOnly: set<Path>, src: Path, dest: Path) {
    forall q :: q in m && Reached(m, src, q) ==> StepOk(m, readOnly, m[q] == Dir, dest + q[|src|..])
  }

  /** `copyDirectory(src, dest)` runs to completion on disk `m`. */
  ghost predicate CopyOk(m: Entries, readOnly: set<Path>, src: Path, dest: Path) {
    && !Related(src, dest) && IsDirAt(m, src)
    && EnsureDirSpec(m, readOnly, dest).Ok? && StepsOk(m, readOnly, src, dest)
  }

  /** The child `n` of `src`, and everything below it, can be copied into `dest`. */
  ghost predicate ChildOk(m: Entries, readOnly: set<Path>, src: Path, dest: Path, n: string) {
    var isDir := IsDirNode(m, src + [n]);
    Skipped(n, isDir)
    || (StepOk(m, readOnly, isDir, dest + [n]) && (isDir ==> StepsOk(m, readOnly, src + [n], dest + [n])))
  }

  /** Every child of `src` named in `names` copies cleanly. */
  ghost predicate ChildrenOk(m: Entries, readOnly: set<Path>, src: Path, dest: Path, names: set<string>) {
    forall n :: n in names ==> ChildOk(m, readOnly, src, dest, n)
  }

  lemma ChildrenOkAdd(m: Entries, readOnly: set<Path>, src: Path, dest: Path, done: set<string>, n: string)
    requires ChildrenOk(m, readOnly, src, dest, done) && ChildOk(m, readOnly, src, dest, n)
    ensures ChildrenOk(m, readOnly, src, dest, done + {n})
  {
  }

  /** The whole copy below `src` goes through exactly when each child's copy does. */
  lemma StepsOkByChildren(m: Entries, readOnly: set<Path>, src: Path, dest: Path)
    requires TreeShaped(m)
    ensures StepsOk(m, readOnly, src, dest) <==> ChildrenOk(m, readOnly, src, dest, ChildNames(m, src))
  {
    forall n | n in ChildNames(m, src)
      ensures StepsOk(m, readOnly, src, dest) ==> ChildOk(m, readOnly, src, dest, n)
    {
      ChildNamed(m, src, n);
      StepsOkToChild(m, readOnly, src, dest, n);
    }
    if ChildrenOk(m, readOnly, src, dest, ChildNames(m, src)) {
      StepsOkFromChildren(m, readOnly, src, dest);
    }
  }

  /** Both maps hold the same entries strictly below `p`. */
  ghost predicate AgreeUnder(m0: Entries, m1: Entries, p: Path) {
    forall q :: IsPrefix(p, q) && q != p ==> (q in m0 <==> q in m1) && (q in m0 ==> m0[q] == m1[q])
  }

  /** `ensureDir(p)` changes nothing strictly below `p`. */
  lemma EnsureDirUnder(m: Entries, readOnly: set<Path>, p: Path)
    requires TreeShaped(m) && EnsureDirSpec(m, readOnly, p).Ok?
    ensures AgreeUnder(m, EnsureDirSpec(m, readOnly, p).entries, p)
  {
    EnsureDirEffect(m, readOnly, p);
  }

  /** Whether an entry is reached from `src` depends only on what lies below `src`. */
  lemma ReachedLocal(m0: Entries, m1: Entries, src: Path, q: Path)
    requires AgreeBelow(m0, m1, src)
    ensures Reached(m0, src, q) <==> Reached(m1, src, q)
  {
    if |src| < |q| && q[..|src|] == src {
      forall i | |src| < i <= |q| ensures IsDirNode(m0, q[..i]) == IsDirNode(m1, q[..i]) {
        assert q[..i][..|src|] == src;
      }
    }
  }

  /** `StepsOk` reads the disk only below the source and below the destination. */
  lemma StepsOkLocal(m0: Entries, m1: Entries, readOnly: set<Path>, src: Path, dest: Path)
    requires AgreeBelow(m0, m1, src) && AgreeBelow(m0, m1, dest)
    ensures StepsOk(m0, readOnly, src, dest) <==> StepsOk(m1, readOnly, src, dest)
  {
    forall q ensures (q in m0 && Reached(m0, src, q)) <==> (q in m1 && Reached(m1, src, q)) {
      ReachedLocal(m0, m1, src, q);
      if |src| < |q| && q[..|src|] == src {
        var t := dest + q[|src|..];
        assert IsPrefix(src, q) && IsPrefix(dest, t);
      }
    }
  }

  /** A reached grandchild is reached from its child, and its target lies below the child's target. */
  lemma ThroughChild(m: Entries, src: Path, dest: Path, n: string, q: Path)
    requires |src| + 1 < |q| && q[..|src| + 1] == src + [n]
    ensures Reached(m, src, q) <==> !Skipped(n, IsDirNode(m, src + [n])) && Reached(m, src + [n], q)
    ensures dest + q[|src|..] == (dest + [n]) + q[|src + [n]|..]
  {
    ReachedThroughChild(m, src, n, q);
    assert q[|src|..] == [n] + q[|src| + 1..];
  }

  /** Every reached child step, and everything below it, follows from `StepsOk` of the parent. */
  lemma StepsOkToChild(m: Entries, readOnly: set<Path>, src: Path, dest: Path, n: string)
    requires src + [n] in m
    ensures StepsOk(m, readOnly, src, dest) ==> ChildOk(m, readOnly, src, dest, n)
  {
    var child := src + [n];
    ReachedChild(m, src, n);
    assert child[|src|..] == [n];
    if StepsOk(m, readOnly, src, dest) && !Skipped(n, IsDirNode(m, child)) && IsDirNode(m, child) {
      forall q | q in m && Reached(m, child, q)
        ensures StepOk(m, readOnly, m[q] == Dir, dest + [n] + q[|child|..])
      {
        ThroughChild(m, src, dest, n, q);
      }
    }
  }

  /** Conversely, `ChildOk` of every child gives `StepsOk` of the parent. */
  lemma StepsOkFromChildren(m: Entries, readOnly: set<Path>, src: Path, dest: Path)
    requires TreeShaped(m)
    requires ChildrenOk(m, readOnly, src, dest, ChildNames(m, src))
    ensures StepsOk(m, readOnly, src, dest)
  {
    forall q | q in m && Reached(m, src, q)
      ensures StepOk(m, readOnly, m[q] == Dir, dest + q[|src|..])
    {
      StepOkAt(m, readOnly, src, dest, q);
    }
  }

  lemma StepOkAt(m: Entries, readOnly: set<Path>, src: Path, dest: Path, q: Path)
    requires TreeShaped(m) && q in m && Reached(m, src, q)
    requires forall n :: n in ChildNames(m, src) ==> ChildOk(m, readOnly, src, dest, n)
    ensures StepOk(m, readOnly, m[q] == Dir, dest + q[|src|..])
  {
    var n := q[|src|];
    var a := q[..|src| + 1];
    assert a == src + [n];
    assert IsPrefix(a, q);
    AncestorStored(m, a, q);
    assert n in ChildNames(m, src) by {
      assert a in m && |a| == |src| + 1 && IsPrefix(src, a) && a[|src|] == n;
    }
    assert !Skipped(n, IsDirNode(m, a));
    if q == a {
      assert q[|src|..] == [n];
    } else {
      AncestorIsDir(m, a, q);
      ThroughChild(m, src, dest, n, q);
    }
  }

  /** Copying children of an unrelated source into an unrelated destination keeps them unrelated. */
  lemma ChildrenUnrelated(src: Path, dest: Path, n: string)
    requires !Related(src, dest)
    ensures !Related(src + [n], dest + [n])
  {
    PrefixDropLast(src, dest, n);
    PrefixDropLast(dest, src, n);
  }

  lemma PrefixDropLast(a: Path, b: Path, n: string)
    ensures IsPrefix(a + [n], b + [n]) ==> IsPrefix(a, b)
  {
    if IsPrefix(a + [n], b + [n]) {
      assert b[..|a|] == (b + [n])[..|a| + 1][..|a|];
    }
  }

  /** `ensureDir` of a child of an existing directory succeeds exactly when the step is allowed. */
  lemma EnsureDirChildSucceeds(m: Entries, readOnly: set<Path>, dir: Path, n: string)
    requires TreeShaped(m) && IsDirAt(m, dir)
    ensures EnsureDirSpec(m, readOnly, dir + [n]).Ok? <==> StepOk(m, readOnly, true, dir + [n])
  {
    EnsureDirExisting(m, readOnly, dir);
    assert Parent(dir + [n]) == dir;
  }

  /** The disk before copying child `n` agrees with the original below `dest + [n]`. */
  lemma NextTargetUntouched(m0: Entries, m1: Entries, src: Path, dest: Path, done: set<string>, n: string)
    requires AgreeUnder(m0, m1, dest) && n !in done
    ensures AgreeBelow(m0, m1 + MirrorOf(m0, src, dest, done), dest + [n])
  {
    forall q | IsPrefix(dest + [n], q)
      ensures q !in MirrorOf(m0, src, dest, done) && IsPrefix(dest, q) && q != dest
    {
      MirrorOfAt(m0, src, dest, done, q);
      PrefixTrans(dest, dest + [n], q);
      assert q[|dest|] == (dest + [n])[|dest|];
    }
  }

  /** The recursive call for a directory child succeeds exactly when that child can be copied. */
  lemma ChildDirOk(m0: Entries, prev: Entries, readOnly: set<Path>, src: Path, dest: Path, n: string)
    requires TreeShaped(prev) && IsDirAt(prev, dest) && !Related(src, dest)
    requires IsDirNode(m0, src + [n])
    requires AgreeBelow(m0, prev, src + [n]) && AgreeBelow(m0, prev, dest + [n])
    ensures CopyOk(prev, readOnly, src + [n], dest + [n])
        <==> StepOk(m0, readOnly, true, dest + [n]) && StepsOk(m0, readOnly, src + [n], dest + [n])
  {
    ChildrenUnrelated(src, dest, n);
    EnsureDirChildSucceeds(prev, readOnly, dest, n);
    StepsOkLocal(m0, prev, readOnly, src + [n], dest + [n]);
    assert IsPrefix(src + [n], src + [n]) && IsPrefix(dest + [n], dest + [n]);
  }

  /** The copy of a non-directory child succeeds exactly when that child can be copied. */
  lemma ChildFileOk(m0: Entries, prev: Entries, readOnly: set<Path>, src: Path, dest: Path, n: string)
    requires IsDirAt(prev, dest) && src + [n] in prev
    requires AgreeBelow(m0, prev, dest + [n])
    ensures CopyEntrySpec(prev, readOnly, src + [n], dest + [n]).Ok? <==> StepOk(m0, readOnly, false, dest + [n])
  {
    assert IsPrefix(dest + [n], dest + [n]);
    assert Parent(dest + [n]) == dest;
  }

  /** Copying into a new destination on a writable line, from an existing directory, runs to completion. */
  lemma CopyIntoFresh(m: Entries, readOnly: set<Path>, src: Path, dest: Path)
    requires TreeShaped(m) && IsDirAt(m, src) && !Related(src, dest)
    requires DirsAlong(m, dest) && NothingBelow(m, dest) && WritableLine(readOnly, dest)
    ensures CopyOk(m, readOnly, src, dest)
  {
    assert IsPrefix(dest, dest);
    WritableBelow(readOnly, dest, dest);
    EnsureDirSucceeds(m, readOnly, dest);
    forall q | q in m && Reached(m, src, q)
      ensures StepOk(m, readOnly, m[q] == Dir, dest + q[|src|..])
    {
      var t := dest + q[|src|..];
      assert IsPrefix(dest, t) && t != dest;
      WritableBelow(readOnly, dest, t);
    }
  }

  /** The disk a completed `copyDirectory(src, dest)` leaves: `dest` ensured, the mirror laid over it. */
  ghost function CopyInto(m: Entries, readOnly: set<Path>, src: Path, dest: Path): Entries
    requires EnsureDirSpec(m, readOnly, dest).Ok?
  {
    EnsureDirSpec(m, readOnly, dest).entries + Mirror(m, src, dest)
  }

  /** A mirrored entry more than one level below `dest` sits in a mirrored directory. */
  lemma MirrorParentDir(m: Entries, src: Path, dest: Path, t: Path)
    requires TreeShaped(m) && t in Mirror(m, src, dest) && |t| > |dest| + 1
    ensures Parent(t) in Mirror(m, src, dest) && Mirror(m, src, dest)[Parent(t)] == Dir
  {
    MirrorAt(m, src, dest, t);
    var q := Origin(src, dest, t);
    var pt := Parent(t);
    var pq := Parent(q);
    assert Stored(m, q);
    assert pq == Origin(src, dest, pt);
    assert pq != [] && pq in m && m[pq] == Dir;
    forall j | |src| <= j < |pq| ensures pq[j] == q[j] && pq[..j + 1] == q[..j + 1] {}
    assert Reached(m, src, pq);
    MirrorAt(m, src, dest, pt);
  }

  /** A directory kept below `dest` is never overwritten by a mirrored non-directory. */
  lemma MirrorKeepsDirs(m: Entries, readOnly: set<Path>, src: Path, dest: Path, t: Path)
    requires TreeShaped(m) && CopyOk(m, readOnly, src, dest)
    requires t in Mirror(m, src, dest) && t in m && m[t] == Dir
    ensures Mirror(m, src, dest)[t] == Dir
  {
    MirrorAt(m, src, dest, t);
    var q := Origin(src, dest, t);
    assert dest + q[|src|..] == t;
    assert StepOk(m, readOnly, m[q] == Dir, t);
  }

  /** A completed copy keeps the disk tree-shaped and changes nothing off `dest`'s line. */
  lemma CopyIntoShaped(m: Entries, readOnly: set<Path>, src: Path, dest: Path)
    requires TreeShaped(m) && CopyOk(m, readOnly, src, dest)
    ensures TreeShaped(CopyInto(m, readOnly, src, dest))
    ensures AgreeOutside(m, CopyInto(m, readOnly, src, dest), dest)
  {
    var e := EnsureDirSpec(m, readOnly, dest).entries;
    var mi := Mirror(m, src, dest);
    var c := e + mi;
    EnsureDirEffect(m, readOnly, dest);
    EnsureDirFrame(m, readOnly, dest);
    MirrorBelow(m, src, dest);
    forall k | Stored(c, k) ensures |k| > 0 && IsDirAt(c, Parent(k)) {
      if k in mi {
        if |k| > |dest| + 1 {
          MirrorParentDir(m, src, dest, k);
        } else {
          assert Parent(k) == dest by { assert k[..|dest|] == dest; }
        }
      } else {
        assert Stored(e, k);
        var pk := Parent(k);
        if pk in mi {
          assert pk in e && !IsPrefix(pk, dest);
          MirrorKeepsDirs(m, readOnly, src, dest, pk);
        }
      }
    }
    forall q | q in mi ensures IsPrefix(dest, q) {}
  }

  /** A child's subtree is strictly smaller than its parent's: the recursion terminates. */
  lemma SubtreeShrinks(m0: Entries, m: Entries, src: Path, n: string)
    requires src in m0 && AgreeBelow(m0, m, src + [n])
    ensures |Subtree(m, src + [n])| < |Subtree(m0, src)|
  {
    var child := src + [n];
    var small, big := Subtree(m, child), Subtree(m0, src);
    forall q | q in small ensures q in big {
      PrefixTrans(src, child, q);
    }
    assert src in big - small;
    assert big == small + (big - small - {src}) + {src};
  }

  /**
   * `copyDirectory(src, dest)`: ensure `dest`, then copy every child of `src`
   * that is not excluded — files (and links) as they are, directories
   * recursively. The first failing step aborts the copy. A destination on the
   * same line as the source is refused with `ELOOP` (see the README).
   */
  method CopyDirectory(fs: FileSystem, src: Path, dest: Path) returns (err: Option<FsError>)
    requires fs.Valid()
    modifies fs
    ensures fs.Valid()
    ensures AgreeOutside(old(fs.entries), fs.entries, dest)
    ensures Related(src, dest) ==> err == Some(ELOOP) && fs.entries == old(fs.entries)
    ensures err.None? <==> CopyOk(old(fs.entries), fs.readOnly, src, dest)
    ensures err.None? ==>
      && IsDirAt(old(fs.entries), src)
      && EnsureDirSpec(old(fs.entries), fs.readOnly, dest).Ok?
      && fs.entries == EnsureDirSpec(old(fs.entries), fs.readOnly, dest).entries + Mirror(old(fs.entries), src, dest)
    decreases |Subtree(fs.entries, src)|, 2
  {
    ghost var m0 := fs.entries;
    if Related(src, dest) {
      AgreeOutsideRefl(m0, dest);
      return Some(ELOOP);
    }
    EnsureDirFrame(m0, fs.readOnly, dest);
    EnsureDirEffect(m0, fs.readOnly, dest);
    err := fs.EnsureDir(dest);
    if err.Some? {
      return;
    }
    FrameKeepsSubtree(m0, fs.entries, src, dest);
    var listing := fs.ReadDir(src);
    if listing.None? {
      assert IsPrefix(src, src);
      return Some(if fs.Lstat(src).Some? then ENOTDIR else ENOENT);
    }
    ChildNamesLocal(m0, fs.entries, src);
    EnsureDirUnder(m0, fs.readOnly, dest);
    StepsOkByChildren(m0, fs.readOnly, src, dest);
    err := CopyChildren(fs, src, dest, listing.value, m0);
  }

  /** The loop of `copyDirectory` over the names `readdir(src)` returned. */
  method CopyChildren(fs: FileSystem, src: Path, dest: Path, names: set<string>, ghost m0: Entries)
    returns (err: Option<FsError>)
    requires fs.Valid() && TreeShaped(m0) && !Related(src, dest) && src in m0
    requires names == ChildNames(m0, src)
    requires IsDirAt(fs.entries, dest) && AgreeOutside(m0, fs.entries, dest) && AgreeUnder(m0, fs.entries, dest)
    modifies fs
    ensures fs.Valid()
    ensures AgreeOutside(m0, fs.entries, dest)
    ensures err.None? ==> fs.entries == old(fs.entries) + Mirror(m0, src, dest)
    ensures err.None? <==> ChildrenOk(m0, fs.readOnly, src, dest, names)
    decreases |Subtree(m0, src)|, 1
  {
    ghost var m1 := fs.entries;
    var todo := names;
    ghost var done: set<string> := {};
    MirrorOfNone(m0, src, dest);
    while todo != {}
      invariant fs.Valid()
      invariant todo <= names && done == names - todo
      invariant fs.entries == m1 + MirrorOf(m0, src, dest, done)
      invariant ChildrenOk(m0, fs.readOnly, src, dest, done)
      decreases todo
    {
      var name :| name in todo;
      err := CopyChild(fs, src, dest, name, m0, m1, done);
      if err.Some? {
        return;
      }
      todo := todo - {name};
      done := done + {name};
    }
    assert done == names;
    MirrorOfOutside(m0, m1, src, dest, done);
    MirrorOfAllChildren(m0, src, dest);
    err := None;
  }

  /** One iteration of `copyDirectory`'s loop: the child `name` of `src`, copied into `dest`. */
  method CopyChild(fs: FileSystem, src: Path, dest: Path, name: string,
                   ghost m0: Entries, ghost m1: Entries, ghost done: set<string>)
    returns (err: Option<FsError>)
    requires fs.Valid() && TreeShaped(m0) && !Related(src, dest) && src in m0
    requires name in ChildNames(m0, src) && name !in done
    requires IsDirAt(m1, dest) && AgreeUnder(m0, m1, dest)
    requires fs.entries == m1 + MirrorOf(m0, src, dest, done)
    requires AgreeOutside(m0, m1, dest)
    modifies fs
    ensures fs.Valid()
    ensures AgreeOutside(m0, fs.entries, dest)
    ensures err.None? ==> fs.entries == m1 + MirrorOf(m0, src, dest, done + {name})
    ensures err.None? <==> ChildOk(m0, fs.readOnly, src, dest, name)
    decreases |Subtree(m0, src)|, 0
  {
    var child := src + [name];
    ghost var prev := fs.entries;
    MirrorOfOutside(m0, m1, src, dest, done);
    ChildNamed(m0, src, name);
    FrameKeepsSubtree(m0, prev, src, dest);
    MirrorOfBelow(m0, src, dest, done);
    assert IsDirAt(prev, dest);
    var isDir := fs.Lstat(child) == Some(Dir);
    assert isDir == IsDirNode(m0, child);
    if Skipped(name, isDir) {
      MirrorOfStep(m0, src, dest, done, name);
      return None;
    }
    NextTargetUntouched(m0, m1, src, dest, done, name);
    AgreeBelowChild(m0, prev, src, name);
    if isDir {
      ChildDirOk(m0, prev, fs.readOnly, src, dest, name);
      SubtreeShrinks(m0, prev, src, name);
      err := CopyDirectory(fs, child, dest + [name]);
      AgreeOutsideWiden(prev, fs.entries, dest, dest + [name]);
      AgreeOutsideTrans(m0, prev, fs.entries, dest);
      if err.None? {
        DirStep(m0, m1, prev, fs.readOnly, src, dest, done, name);
      }
    } else {
      assert IsPrefix(child, child);
      ChildFileOk(m0, prev, fs.readOnly, src, dest, name);
      CopyEntryEffect(prev, fs.readOnly, child, dest + [name]);
      err := fs.CopyEntry(child, dest + [name]);
      if err.None? {
        AgreeOutsideWiden(prev, fs.entries, dest, dest + [name]);
        AgreeOutsideTrans(m0, prev, fs.entries, dest);
        FileStep(m0, m1, prev, src, dest, done, name);
      }
    }
  }
}
