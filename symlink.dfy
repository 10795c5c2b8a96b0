/**
 * The symlink manager: `createSymlink(target, linkPath)` makes `linkPath` a
 * relative link to `target`, idempotently, and reports failure as `false`
 * instead of throwing.
 */
module SymlinkManager {
  import opened Wrappers
  import opened Paths
  import opened Fs

  /** What `createSymlink` reports, with the disk it leaves behind. */
  datatype LinkOutcome = LinkOutcome(created: bool, entries: Entries)

  /** An existing link at `link` already resolves to `target`. */
  predicate AlreadyLinked(m: Entries, target: Path, link: Path) {
    link in m && m[link].Link? && LinkTarget(link, m[link]) == target
  }

  /** The disk after the `lstat`/`remove` step: a failed removal is swallowed. */
  function Cleared(m: Entries, readOnly: set<Path>, link: Path): Entries {
    if link in m then (match RemoveSpec(m, readOnly, link) case Ok(r) => r case Fail(_) => m)
    else m
  }

  /** Clearing the link path keeps the tree shape and changes nothing off the link's line. */
  lemma ClearedFrame(m: Entries, readOnly: set<Path>, link: Path)
    requires TreeShaped(m)
    ensures TreeShaped(Cleared(m, readOnly, link)) && AgreeOutside(m, Cleared(m, readOnly, link), link)
  {
    RemoveEffect(m, readOnly, link);
    if Cleared(m, readOnly, link) == m {
      AgreeOutsideRefl(m, link);
    }
  }

  /** Ensuring the link's parent keeps the tree shape and changes nothing off the link's line. */
  lemma ParentFrame(m1: Entries, readOnly: set<Path>, link: Path)
    requires TreeShaped(m1) && EnsureDirSpec(m1, readOnly, Parent(link)).Ok?
    ensures var m2 := EnsureDirSpec(m1, readOnly, Parent(link)).entries;
      TreeShaped(m2) && AgreeOutside(m1, m2, link)
  {
    EnsureDirEffect(m1, readOnly, Parent(link));
    EnsureDirFrame(m1, readOnly, Parent(link));
    ParentIsPrefix(link);
    AgreeOutsideWiden(m1, EnsureDirSpec(m1, readOnly, Parent(link)).entries, Parent(link), link);
  }

  /**
   * The decision tree of `createSymlink` on a disk `m`:
   * identical paths, or a link already pointing at `target`, succeed without a
   * change; otherwise an existing entry is removed (a failed removal is
   * swallowed), the parent directory is ensured and the relative link created;
   * a failure of either of those two steps yields `false`.
   */
  function CreateSymlinkSpec(m: Entries, readOnly: set<Path>, supported: bool, target: Path, link: Path): LinkOutcome {
    if target == link then LinkOutcome(true, m)
    else if AlreadyLinked(m, target, link) then LinkOutcome(true, m)
    else
      var m1 := Cleared(m, readOnly, link);
      match EnsureDirSpec(m1, readOnly, Parent(link))
      case Fail(_) => LinkOutcome(false, m1)
      case Ok(m2) =>
        match SymlinkSpec(m2, readOnly, supported, Relative(Parent(link), target), link)
        case Fail(_) => LinkOutcome(false, m2)
        case Ok(m3) => LinkOutcome(true, m3)
  }

  /** Every path `createSymlink` touches lies on `link`'s line, and the tree shape survives. */
  lemma CreateSymlinkFrame(m: Entries, readOnly: set<Path>, supported: bool, target: Path, link: Path)
    requires TreeShaped(m)
    ensures var r := CreateSymlinkSpec(m, readOnly, supported, target, link);
      TreeShaped(r.entries) && AgreeOutside(m, r.entries, link)
  {
    if target == link || AlreadyLinked(m, target, link) {
      AgreeOutsideRefl(m, link);
      return;
    }
    var m1 := Cleared(m, readOnly, link);
    ClearedFrame(m, readOnly, link);
    var o2 := EnsureDirSpec(m1, readOnly, Parent(link));
    if o2.Fail? {
      return;
    }
    var m2 := o2.entries;
    ParentFrame(m1, readOnly, link);
    AgreeOutsideTrans(m, m1, m2, link);
    var parts := Relative(Parent(link), target);
    SymlinkEffect(m2, readOnly, supported, parts, link);
    var o3 := SymlinkSpec(m2, readOnly, supported, parts, link);
    if o3.Ok? {
      AgreeOutsideTrans(m, m2, o3.entries, link);
    }
  }

  /** A reported success means `link` now resolves to `target`. */
  lemma CreateSymlinkLinks(m: Entries, readOnly: set<Path>, supported: bool, target: Path, link: Path)
    requires TreeShaped(m) && Normal(target)
    ensures var r := CreateSymlinkSpec(m, readOnly, supported, target, link);
      r.created ==> LinksTo(r.entries, link, target)
  {
    if target != link && !AlreadyLinked(m, target, link) {
      var m1 := Cleared(m, readOnly, link);
      var o2 := EnsureDirSpec(m1, readOnly, Parent(link));
      if o2.Ok? {
        var parts := Relative(Parent(link), target);
        var o3 := SymlinkSpec(o2.entries, readOnly, supported, parts, link);
        if o3.Ok? {
          RelativeRoundTrip(Parent(link), target);
          assert o3.entries[link] == Link(false, parts);
        }
      }
    }
  }

  /** When the link is already in place, `createSymlink` succeeds and changes nothing. */
  lemma CreateSymlinkSatisfied(m: Entries, readOnly: set<Path>, supported: bool, target: Path, link: Path)
    requires LinksTo(m, link, target)
    ensures CreateSymlinkSpec(m, readOnly, supported, target, link) == LinkOutcome(true, m)
  {}

  /**
   * Idempotence: a second call right after a successful one succeeds and
   * leaves the disk as the first call left it.
   */
  lemma CreateSymlinkIdempotent(m: Entries, readOnly: set<Path>, supported: bool, target: Path, link: Path)
    requires TreeShaped(m) && Normal(target)
    requires CreateSymlinkSpec(m, readOnly, supported, target, link).created
    ensures var once := CreateSymlinkSpec(m, readOnly, supported, target, link).entries;
      CreateSymlinkSpec(once, readOnly, supported, target, link) == LinkOutcome(true, once)
  {
    CreateSymlinkLinks(m, readOnly, supported, target, link);
    CreateSymlinkSatisfied(CreateSymlinkSpec(m, readOnly, supported, target, link).entries, readOnly, supported, target, link);
  }

  /** Without platform support the call can only succeed when nothing has to be created. */
  lemma CreateSymlinkUnsupported(m: Entries, readOnly: set<Path>, target: Path, link: Path)
    ensures CreateSymlinkSpec(m, readOnly, false, target, link).created <==> LinksTo(m, link, target)
  {
  }

  /**
   * A link into its own parent directory has empty link text, which `symlink`
   * refuses: unless such a link is already in place, the call reports `false`.
   */
  lemma CreateSymlinkIntoParent(m: Entries, readOnly: set<Path>, supported: bool, link: Path)
    requires link != [] && !AlreadyLinked(m, Parent(link), link)
    ensures !CreateSymlinkSpec(m, readOnly, supported, Parent(link), link).created
  {
    RelativeEmpty(Parent(link), Parent(link));
    assert Parent(link) != link;
  }

  /** `createSymlink(target, linkPath)`: every failure becomes `false`. */
  method CreateSymlink(fs: FileSystem, target: Path, link: Path) returns (created: bool)
    requires fs.Valid()
    modifies fs
    ensures fs.Valid()
    ensures LinkOutcome(created, fs.entries)
         == CreateSymlinkSpec(old(fs.entries), fs.readOnly, fs.symlinksSupported, target, link)
  {
    if target == link {
      return true;
    }
    var existing := fs.Lstat(link);
    if existing.Some? {
      if existing.value.Link? && LinkTarget(link, existing.value) == target {
        return true;
      }
      // a failed removal is swallowed together with "does not exist"
      var _ := fs.Remove(link);
    }
    var err := fs.EnsureDir(Parent(link));
    if err.Some? {
      return false;
    }
    err := fs.Symlink(Relative(Parent(link), target), link);
    created := err.None?;
  }
}
