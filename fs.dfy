/**
 * An abstract filesystem: a map from absolute paths to nodes, with the
 * primitives the installer uses (fs-extra's ensureDir, writeFile, remove,
 * copy, lstat, readlink, access; fs' symlink and readdir).
 *
 * Each primitive is first a pure function from the old map to an `Outcome`
 * (the new map or the error it throws); the class `FileSystem` then holds the
 * map as a field and applies those functions in methods. Two oracles stand for
 * what the environment decides: `readOnly` (subtrees where every change fails
 * with EACCES) and `symlinksSupported` (whether the platform lets the process
 * create a link at all).
 */
module Fs {
  import opened Wrappers
  import opened Paths

  /** A link remembers its text: absolute or relative, as components. */
  datatype Node = Dir | File(content: string) | Link(absolute: bool, parts: seq<string>)

  type Entries = map<Path, Node>

  datatype FsError = EACCES | EEXIST | EISDIR | ELOOP | ENOENT | ENOTDIR | EPERM

  /** The `message` of the error object a failing primitive rejects with. */
  function ErrorMessage(e: FsError): string {
    match e
    case EACCES => "EACCES: permission denied"
    case EEXIST => "EEXIST: file already exists"
    case EISDIR => "EISDIR: illegal operation on a directory"
    case ELOOP => "ELOOP: too many levels of nesting"
    case ENOENT => "ENOENT: no such file or directory"
    case ENOTDIR => "ENOTDIR: not a directory"
    case EPERM => "EPERM: operation not permitted"
  }

  datatype Outcome = Ok(entries: Entries) | Fail(error: FsError)

  /** The root always exists as a directory and is not stored in the map. */
  predicate IsDirAt(m: Entries, p: Path) {
    p == [] || (p in m && m[p] == Dir)
  }

  predicate ExistsAt(m: Entries, p: Path) {
    p == [] || p in m
  }

  /** `q` is stored in `m`; a separate name so that `TreeShaped` does not feed itself. */
  predicate Stored(m: Entries, q: Path) {
    q in m
  }

  /** Every stored entry hangs below a stored directory (or the root). */
  ghost predicate TreeShaped(m: Entries) {
    forall q {:trigger Stored(m, q)} :: Stored(m, q) ==> |q| > 0 && IsDirAt(m, Parent(q))
  }

  /** `p` lies inside one of the read-only subtrees. */
  predicate Locked(readOnly: set<Path>, p: Path) {
    exists r :: r in readOnly && IsPrefix(r, p)
  }

  /** Nothing at or below `p`'s ancestors-or-descendants line changed: the frame of an operation on `p`. */
  ghost predicate AgreeOutside(m0: Entries, m1: Entries, p: Path) {
    forall q :: !Related(p, q) ==> (q in m0 <==> q in m1) && (q in m0 ==> m0[q] == m1[q])
  }

  /** `m0` is kept in `m1`: no entry removed or changed. */
  predicate Grows(m0: Entries, m1: Entries) {
    forall q :: q in m0 ==> q in m1 && m1[q] == m0[q]
  }

  /** The path a link stored at `p` resolves to (`path.resolve(dirname(p), readlink(p))`). */
  function LinkTarget(p: Path, n: Node): Path
    requires n.Link?
  {
    Normalize(if n.absolute then [] else Parent(p), n.parts)
  }

  /** `fs.access(p)`: the entry exists, and a link at `p` leads to something. */
  predicate Accessible(m: Entries, p: Path) {
    ExistsAt(m, p) && (p in m && m[p].Link? ==> ExistsAt(m, LinkTarget(p, m[p])))
  }

  /** `p` is a link resolving to `target` (or `p` is `target` itself). */
  predicate LinksTo(m: Entries, p: Path, target: Path) {
    p == target || (p in m && m[p].Link? && LinkTarget(p, m[p]) == target)
  }

  // ---------------------------------------------------------------------
  // The primitives, as functions of the old map.

  /** `ensureDir(p)` (mkdir -p): create every missing ancestor and `p` itself. */
  function EnsureDirSpec(m: Entries, readOnly: set<Path>, p: Path): Outcome
    decreases |p|
  {
    if p == [] then Ok(m)
    else
      match EnsureDirSpec(m, readOnly, Parent(p))
      case Fail(e) => Fail(e)
      case Ok(m1) =>
        if p in m1 then (if m1[p] == Dir then Ok(m1) else Fail(ENOTDIR))
        else if Locked(readOnly, p) then Fail(EACCES)
        else Ok(m1[p := Dir])
  }

  /** `writeFile(p, content)`: create or overwrite a regular file. */
  function WriteFileSpec(m: Entries, readOnly: set<Path>, p: Path, content: string): Outcome {
    if p == [] then Fail(EISDIR)
    else if !IsDirAt(m, Parent(p)) then Fail(if Parent(p) in m then ENOTDIR else ENOENT)
    else if p in m && m[p] == Dir then Fail(EISDIR)
    else if p in m && m[p].Link? then Fail(ELOOP)
    else if Locked(readOnly, p) then Fail(EACCES)
    else Ok(m[p := File(content)])
  }

  /** The entries at or below `p`. */
  function Subtree(m: Entries, p: Path): set<Path> {
    set q | q in m && IsPrefix(p, q)
  }

  /** `remove(p)` (rm -rf): a missing path is not an error. */
  function RemoveSpec(m: Entries, readOnly: set<Path>, p: Path): Outcome {
    if exists q :: q in Subtree(m, p) && Locked(readOnly, q) then Fail(EACCES)
    else Ok(map q | q in m && !IsPrefix(p, q) :: m[q])
  }

  /** `symlink(parts, p)`: a relative link; refused when links are unsupported, and empty link text is ENOENT. */
  function SymlinkSpec(m: Entries, readOnly: set<Path>, supported: bool, parts: seq<string>, p: Path): Outcome {
    if !supported then Fail(EPERM)
    else if parts == [] then Fail(ENOENT)
    else if p == [] || p in m then Fail(EEXIST)
    else if !IsDirAt(m, Parent(p)) then Fail(if Parent(p) in m then ENOTDIR else ENOENT)
    else if Locked(readOnly, p) then Fail(EACCES)
    else Ok(m[p := Link(false, parts)])
  }

  /** `copy(src, dest)` for a non-directory entry: the node is copied as it is. */
  function CopyEntrySpec(m: Entries, readOnly: set<Path>, src: Path, dest: Path): Outcome {
    if src !in m then Fail(ENOENT)
    else if dest == [] || (dest in m && m[dest] == Dir) then Fail(EISDIR)
    else if !IsDirAt(m, Parent(dest)) then Fail(ENOENT)
    else if Locked(readOnly, dest) then Fail(EACCES)
    else Ok(m[dest := m[src]])
  }

  /** The names `readdir(p)` lists. */
  function ChildNames(m: Entries, p: Path): set<string> {
    set q | q in m && |q| == |p| + 1 && IsPrefix(p, q) :: q[|p|]
  }

  // ---------------------------------------------------------------------
  // What the primitives guarantee.

  lemma AgreeOutsideRefl(m: Entries, p: Path)
    ensures AgreeOutside(m, m, p)
  {}

  lemma AgreeOutsideTrans(m0: Entries, m1: Entries, m2: Entries, p: Path)
    requires AgreeOutside(m0, m1, p) && AgreeOutside(m1, m2, p)
    ensures AgreeOutside(m0, m2, p)
  {}

  /** A frame for a path is also a frame for any of its ancestors or descendants' common line. */
  lemma AgreeOutsideWiden(m0: Entries, m1: Entries, p: Path, q: Path)
    requires AgreeOutside(m0, m1, q)
    requires IsPrefix(p, q)
    ensures AgreeOutside(m0, m1, p)
  {
    forall x | Related(q, x) ensures Related(p, x) {
      if IsPrefix(x, q) {
        CommonDescendant(p, x, q);
      } else {
        PrefixTrans(p, q, x);
      }
    }
  }

  /** Changing one entry keeps everything unrelated to it. */
  lemma AgreeOutsideUpdate(m: Entries, p: Path, n: Node)
    ensures AgreeOutside(m, m[p := n], p)
  {}

  /** Storing a node below an existing directory keeps the tree shape. */
  lemma TreeShapedUpdate(m: Entries, p: Path, n: Node)
    requires TreeShaped(m) && |p| > 0 && IsDirAt(m, Parent(p))
    requires p in m && m[p] == Dir ==> n == Dir
    ensures TreeShaped(m[p := n])
  {
    var m1 := m[p := n];
    forall q | Stored(m1, q) ensures |q| > 0 && IsDirAt(m1, Parent(q)) {
      if q != p {
        assert Stored(m, q);
        if Parent(q) == p {
          assert m[p] == Dir;
        }
      } else {
        assert |Parent(p)| < |p|;
      }
    }
  }

  /**
   * On success `ensureDir` leaves `p` and every ancestor a directory, keeps
   * every old entry, and adds only directories on `p`'s way to the root.
   */
  lemma {:induction false} EnsureDirEffect(m: Entries, readOnly: set<Path>, p: Path)
    requires TreeShaped(m)
    ensures var o := EnsureDirSpec(m, readOnly, p);
      o.Ok? ==> && IsDirAt(o.entries, p) && TreeShaped(o.entries) && Grows(m, o.entries)
                && (forall q :: q in o.entries && q !in m ==> IsPrefix(q, p) && o.entries[q] == Dir)
    decreases |p|
  {
    if p != [] {
      EnsureDirEffect(m, readOnly, Parent(p));
      var o := EnsureDirSpec(m, readOnly, Parent(p));
      if o.Ok? {
        var m1 := o.entries;
        forall q | q in m1 && q !in m ensures IsPrefix(q, p) {
          ParentIsPrefix(p);
          PrefixTrans(q, Parent(p), p);
        }
        if p !in m1 && !Locked(readOnly, p) {
          TreeShapedUpdate(m1, p, Dir);
        }
      }
    }
  }

  /** Everything `ensureDir` adds is on `p`'s line, so the rest agrees. */
  lemma EnsureDirFrame(m: Entries, readOnly: set<Path>, p: Path)
    requires TreeShaped(m)
    ensures var o := EnsureDirSpec(m, readOnly, p);
      o.Ok? ==> AgreeOutside(m, o.entries, p)
  {
    EnsureDirEffect(m, readOnly, p);
  }

  /** `ensureDir` on an existing directory is a no-op. */
  lemma {:induction false} EnsureDirExisting(m: Entries, readOnly: set<Path>, p: Path)
    requires TreeShaped(m) && IsDirAt(m, p)
    ensures EnsureDirSpec(m, readOnly, p) == Ok(m)
    decreases |p|
  {
    if p != [] {
      assert Stored(m, p);
      EnsureDirExisting(m, readOnly, Parent(p));
    }
  }

  /** `ensureDir` of a child of an existing directory adds at most that child. */
  lemma EnsureDirChild(m: Entries, readOnly: set<Path>, dir: Path, name: string)
    requires TreeShaped(m) && IsDirAt(m, dir)
    requires EnsureDirSpec(m, readOnly, dir + [name]).Ok?
    ensures EnsureDirSpec(m, readOnly, dir + [name]).entries == m[dir + [name] := Dir]
  {
    EnsureDirExisting(m, readOnly, dir);
    var p := dir + [name];
    assert Parent(p) == dir;
    if p in m {
      assert m[p] == Dir;
      assert m[p := Dir] == m;
    }
  }

  /** Every stored entry on the way from the root to `p`, `p` included, is a directory. */
  predicate DirsAlong(m: Entries, p: Path) {
    forall i :: 0 < i <= |p| && p[..i] in m ==> m[p[..i]] == Dir
  }

  /** Nothing is stored strictly below `p`. */
  predicate NothingBelow(m: Entries, p: Path) {
    forall q :: q in m && IsPrefix(p, q) ==> q == p
  }

  /** No read-only subtree lies on `p`'s line. */
  predicate WritableLine(readOnly: set<Path>, p: Path) {
    forall r :: r in readOnly ==> !Related(r, p)
  }

  /** A read-only subtree holding `p` holds everything below `p`. */
  lemma LockedBelow(readOnly: set<Path>, p: Path, q: Path)
    requires Locked(readOnly, p) && IsPrefix(p, q)
    ensures Locked(readOnly, q)
  {
    var r :| r in readOnly && IsPrefix(r, p);
    PrefixTrans(r, p, q);
  }

  /** On a writable line nothing at or below `p` is read-only. */
  lemma WritableBelow(readOnly: set<Path>, p: Path, q: Path)
    requires WritableLine(readOnly, p) && IsPrefix(p, q)
    ensures !Locked(readOnly, q)
  {
    if Locked(readOnly, q) {
      var r :| r in readOnly && IsPrefix(r, q);
      CommonDescendant(r, p, q);
    }
  }

  /** `DirsAlong` of a path is that of its parent plus the path itself. */
  lemma DirsAlongParent(m: Entries, p: Path)
    requires p != []
    ensures DirsAlong(m, p) <==> DirsAlong(m, Parent(p)) && (p in m ==> m[p] == Dir)
  {
    var q := Parent(p);
    assert forall i :: 0 < i <= |q| ==> q[..i] == p[..i];
    assert p[..|p|] == p;
  }

  /**
   * `ensureDir(p)` succeeds exactly when nothing on the way to `p` is stored
   * as a non-directory and, if `p` is missing, `p` lies outside the
   * read-only subtrees.
   */
  lemma {:induction false} EnsureDirSucceeds(m: Entries, readOnly: set<Path>, p: Path)
    requires TreeShaped(m)
    ensures EnsureDirSpec(m, readOnly, p).Ok? <==> DirsAlong(m, p) && (ExistsAt(m, p) || !Locked(readOnly, p))
    decreases |p|
  {
    if p != [] {
      var q := Parent(p);
      EnsureDirSucceeds(m, readOnly, q);
      EnsureDirEffect(m, readOnly, q);
      DirsAlongParent(m, p);
      ParentIsPrefix(p);
      if p in m {
        assert Stored(m, p);
      }
      if Locked(readOnly, q) {
        LockedBelow(readOnly, q, p);
      }
    }
  }

  /** A successful `ensureDir` adds only directories, so directories on any way stay directories. */
  lemma DirsAlongAfterEnsure(m: Entries, readOnly: set<Path>, p: Path, a: Path)
    requires TreeShaped(m) && EnsureDirSpec(m, readOnly, p).Ok? && DirsAlong(m, a)
    ensures DirsAlong(EnsureDirSpec(m, readOnly, p).entries, a)
  {
    EnsureDirEffect(m, readOnly, p);
  }

  lemma WriteFileEffect(m: Entries, readOnly: set<Path>, p: Path, content: string)
    requires TreeShaped(m)
    ensures var o := WriteFileSpec(m, readOnly, p, content);
      o.Ok? ==> && o.entries == m[p := File(content)] && TreeShaped(o.entries)
                && AgreeOutside(m, o.entries, p)
  {
    if WriteFileSpec(m, readOnly, p, content).Ok? {
      TreeShapedUpdate(m, p, File(content));
      AgreeOutsideUpdate(m, p, File(content));
    }
  }

  /** `remove` drops exactly the subtree at `p`, or fails inside a read-only subtree. */
  lemma RemoveEffect(m: Entries, readOnly: set<Path>, p: Path)
    requires TreeShaped(m)
    ensures var o := RemoveSpec(m, readOnly, p);
      && (o.Ok? <==> forall q :: q in m && IsPrefix(p, q) ==> !Locked(readOnly, q))
      && (o.Ok? ==> && TreeShaped(o.entries)
                    && (forall q :: q in o.entries <==> q in m && !IsPrefix(p, q))
                    && AgreeOutside(m, o.entries, p))
  {
    var o := RemoveSpec(m, readOnly, p);
    if o.Ok? {
      var m1 := o.entries;
      forall q | Stored(m1, q) ensures |q| > 0 && IsDirAt(m1, Parent(q)) {
        assert Stored(m, q);
        ParentIsPrefix(q);
        PrefixTrans(p, Parent(q), q);
      }
    }
    forall q | q in m && IsPrefix(p, q) ensures q in Subtree(m, p) {}
  }

  lemma SymlinkEffect(m: Entries, readOnly: set<Path>, supported: bool, parts: seq<string>, p: Path)
    requires TreeShaped(m)
    ensures var o := SymlinkSpec(m, readOnly, supported, parts, p);
      && (!supported ==> o.Fail?)
      && (parts == [] ==> o.Fail?)
      && (o.Ok? ==> && o.entries == m[p := Link(false, parts)] && p !in m && TreeShaped(o.entries)
                    && AgreeOutside(m, o.entries, p))
  {
    if SymlinkSpec(m, readOnly, supported, parts, p).Ok? {
      TreeShapedUpdate(m, p, Link(false, parts));
      AgreeOutsideUpdate(m, p, Link(false, parts));
    }
  }

  lemma CopyEntryEffect(m: Entries, readOnly: set<Path>, src: Path, dest: Path)
    requires TreeShaped(m)
    ensures var o := CopyEntrySpec(m, readOnly, src, dest);
      o.Ok? ==> && src in m && o.entries == m[dest := m[src]] && TreeShaped(o.entries)
                && AgreeOutside(m, o.entries, dest)
  {
    if CopyEntrySpec(m, readOnly, src, dest).Ok? {
      TreeShapedUpdate(m, dest, m[src]);
      AgreeOutsideUpdate(m, dest, m[src]);
    }
  }

  /** An entry created by `symlink` resolves back to the target it was made from. */
  lemma RelativeLinkResolves(m: Entries, readOnly: set<Path>, target: Path, p: Path)
    requires TreeShaped(m) && Normal(target)
    requires SymlinkSpec(m, readOnly, true, Relative(Parent(p), target), p).Ok?
    ensures LinksTo(SymlinkSpec(m, readOnly, true, Relative(Parent(p), target), p).entries, p, target)
  {
    RelativeRoundTrip(Parent(p), target);
  }

  // ---------------------------------------------------------------------

  /** The disk: the map the primitives change in place, plus the two oracles. */
  class FileSystem {
    var entries: Entries
    const readOnly: set<Path>
    const symlinksSupported: bool

    ghost predicate Valid()
      reads this
    {
      TreeShaped(entries)
    }

    constructor (initial: Entries, readOnly: set<Path>, symlinksSupported: bool)
      requires TreeShaped(initial)
      ensures Valid()
      ensures entries == initial && this.readOnly == readOnly && this.symlinksSupported == symlinksSupported
    {
      entries := initial;
      this.readOnly := readOnly;
      this.symlinksSupported := symlinksSupported;
    }

    /** Applies an outcome: the new map on success, the old map and the error otherwise. */
    method Apply(o: Outcome) returns (err: Option<FsError>)
      requires o.Ok? ==> TreeShaped(o.entries)
      requires Valid()
      modifies this
      ensures Valid()
      ensures o.Ok? ==> err == None && entries == o.entries
      ensures o.Fail? ==> err == Some(o.error) && entries == old(entries)
    {
      match o
      case Ok(m) =>
        entries := m;
        err := None;
      case Fail(e) =>
        err := Some(e);
    }

    method EnsureDir(p: Path) returns (err: Option<FsError>)
      requires Valid()
      modifies this
      ensures Valid()
      ensures var o := EnsureDirSpec(old(entries), readOnly, p);
        (o.Ok? ==> err == None && entries == o.entries) && (o.Fail? ==> err == Some(o.error) && entries == old(entries))
    {
      EnsureDirEffect(entries, readOnly, p);
      EnsureDirFrame(entries, readOnly, p);
      err := Apply(EnsureDirSpec(entries, readOnly, p));
    }

    method WriteFile(p: Path, content: string) returns (err: Option<FsError>)
      requires Valid()
      modifies this
      ensures Valid()
      ensures var o := WriteFileSpec(old(entries), readOnly, p, content);
        (o.Ok? ==> err == None && entries == o.entries) && (o.Fail? ==> err == Some(o.error) && entries == old(entries))
    {
      WriteFileEffect(entries, readOnly, p, content);
      err := Apply(WriteFileSpec(entries, readOnly, p, content));
    }

    method Remove(p: Path) returns (err: Option<FsError>)
      requires Valid()
      modifies this
      ensures Valid()
      ensures var o := RemoveSpec(old(entries), readOnly, p);
        (o.Ok? ==> err == None && entries == o.entries) && (o.Fail? ==> err == Some(o.error) && entries == old(entries))
    {
      RemoveEffect(entries, readOnly, p);
      err := Apply(RemoveSpec(entries, readOnly, p));
    }

    method Symlink(parts: seq<string>, p: Path) returns (err: Option<FsError>)
      requires Valid()
      modifies this
      ensures Valid()
      ensures var o := SymlinkSpec(old(entries), readOnly, symlinksSupported, parts, p);
        (o.Ok? ==> err == None && entries == o.entries) && (o.Fail? ==> err == Some(o.error) && entries == old(entries))
    {
      SymlinkEffect(entries, readOnly, symlinksSupported, parts, p);
      err := Apply(SymlinkSpec(entries, readOnly, symlinksSupported, parts, p));
    }

    method CopyEntry(src: Path, dest: Path) returns (err: Option<FsError>)
      requires Valid()
      modifies this
      ensures Valid()
      ensures var o := CopyEntrySpec(old(entries), readOnly, src, dest);
        (o.Ok? ==> err == None && entries == o.entries) && (o.Fail? ==> err == Some(o.error) && entries == old(entries))
    {
      CopyEntryEffect(entries, readOnly, src, dest);
      err := Apply(CopyEntrySpec(entries, readOnly, src, dest));
    }

    /** `lstat(p)`: the entry itself, links not followed; None when missing. */
    function Lstat(p: Path): (r: Option<Node>)
      reads this
      ensures r.Some? <==> p in entries
    {
      if p in entries then Some(entries[p]) else None
    }

    /** `access(p)` with the default existence check. */
    function Access(p: Path): (ok: bool)
      reads this
      ensures ok ==> ExistsAt(entries, p)
    {
      Accessible(entries, p)
    }

    /** `readdir(p)`: the names below a directory, or the error for anything else. */
    function ReadDir(p: Path): (r: Option<set<string>>)
      reads this
      ensures r.Some? <==> IsDirAt(entries, p)
      ensures r.Some? ==> forall n :: n in r.value <==> p + [n] in entries
    {
      forall n ensures n in ChildNames(entries, p) <==> p + [n] in entries {
        if p + [n] in entries {
          assert (p + [n])[|p|] == n && IsPrefix(p, p + [n]);
        }
        if n in ChildNames(entries, p) {
          var q :| q in entries && |q| == |p| + 1 && IsPrefix(p, q) && q[|p|] == n;
          assert q == p + [n];
        }
      }
      if IsDirAt(entries, p) then Some(ChildNames(entries, p)) else None
    }
  }
}
