/**
 * The exported installer operations. Each resolves the agent, the sanitised
 * skill directory name and the two locations involved — the canonical copy in
 * the central store and the agent-facing path — and then runs one sequential
 * branch of filesystem steps. Every thrown error is caught and turned into
 * the returned value.
 */
module Installer {
  import opened Wrappers
  import opened Paths
  import opened Fs
  import opened Sanitizer
  import opened Agents
  import opened SymlinkManager
  import opened Copier

  /** `'symlink' | 'copy'`. */
  datatype InstallMode = SymlinkMode | CopyMode

  /**
   * `InstallResult`. `path == None` stands for the empty string reported for
   * an unknown agent; an absent `symlinkFailed` is `false`.
   */
  datatype InstallResult = InstallResult(
    success: bool,
    path: Option<Path>,
    canonicalPath: Option<Path>,
    mode: InstallMode,
    symlinkFailed: bool,
    error: Option<string>
  )

  /** The options object; `None` is an omitted property. */
  datatype InstallOptions = InstallOptions(global: Option<bool>, cwd: Option<string>, mode: Option<InstallMode>)

  const SKILL_FILE: string := "SKILL.md"

  /** The process environment is absolute and normalised. */
  predicate EnvValid(env: Env) {
    Normal(env.home) && Normal(env.cwd)
  }

  /** `options.global ?? false`. */
  function IsGlobal(o: InstallOptions): bool {
    o.global == Some(true)
  }

  /** `options.mode ?? 'symlink'` (for these two values the same as `options.mode || 'symlink'`). */
  function RequestedMode(o: InstallOptions): InstallMode {
    if o.mode.Some? then o.mode.value else SymlinkMode
  }

  /** `path.join(getCentralSkillsDir(isGlobal, cwd), sanitizeName(slug))`. */
  function CanonicalSkillPath(env: Env, slug: string, o: InstallOptions): (r: Path)
    ensures r == CentralSkillsDir(env, Some(IsGlobal(o)), o.cwd) + [SanitizeName(slug)]
  {
    SanitizedJoinStaysBelow(CentralSkillsDir(env, Some(IsGlobal(o)), o.cwd), slug);
    Join(CentralSkillsDir(env, Some(IsGlobal(o)), o.cwd), SanitizeName(slug))
  }

  /** `path.join(getAgentSkillsDir(agent, isGlobal, cwd), sanitizeName(slug))`. */
  function AgentSkillPath(env: Env, agent: Agent, slug: string, o: InstallOptions): (r: Path)
    ensures r == AgentSkillsDir(env, agent, IsGlobal(o), o.cwd) + [SanitizeName(slug)]
  {
    SanitizedJoinStaysBelow(AgentSkillsDir(env, agent, IsGlobal(o), o.cwd), slug);
    Join(AgentSkillsDir(env, agent, IsGlobal(o), o.cwd), SanitizeName(slug))
  }

  /** The canonical path is absolute and normalised, like the environment it is built from. */
  lemma CanonicalSkillPathNormal(env: Env, slug: string, o: InstallOptions)
    requires EnvValid(env)
    ensures Normal(CanonicalSkillPath(env, slug, o))
  {
    var central := CentralSkillsDir(env, Some(IsGlobal(o)), o.cwd);
    CentralSkillsDirNormal(env, Some(IsGlobal(o)), o.cwd);
    SanitizedJoinStaysBelow([], slug);
    var name := SanitizeName(slug);
    assert Normal([name]);
    NormalConcat(central, [name]);
  }

  /** What an unknown agent id yields. */
  function UnknownAgent(agentId: string, o: InstallOptions): InstallResult {
    InstallResult(false, None, None, RequestedMode(o), false, Some("Unknown agent: " + agentId))
  }

  /** What a caught filesystem error yields. */
  function Failed(path: Path, mode: InstallMode, e: FsError): InstallResult {
    InstallResult(false, Some(path), None, mode, false, Some(ErrorMessage(e)))
  }

  /** `dir` is a directory holding `SKILL.md` with `content`. */
  predicate HasSkillFile(m: Entries, dir: Path, content: string) {
    IsDirAt(m, dir) && dir + [SKILL_FILE] in m && m[dir + [SKILL_FILE]] == File(content)
  }

  /** Nothing changed away from the lines of `p` and of `q`. */
  ghost predicate AgreeOutsideBoth(m0: Entries, m1: Entries, p: Path, q: Path) {
    forall x :: !Related(p, x) && !Related(q, x) ==> (x in m0 <==> x in m1) && (x in m0 ==> m0[x] == m1[x])
  }

  lemma BothFromOne(m0: Entries, m1: Entries, p: Path, q: Path)
    ensures AgreeOutside(m0, m1, p) ==> AgreeOutsideBoth(m0, m1, p, q) && AgreeOutsideBoth(m0, m1, q, p)
  {
  }

  lemma BothTrans(m0: Entries, m1: Entries, m2: Entries, p: Path, q: Path)
    requires AgreeOutsideBoth(m0, m1, p, q) && AgreeOutsideBoth(m1, m2, p, q)
    ensures AgreeOutsideBoth(m0, m2, p, q)
  {
  }

  /** A skill file at a path off `p`'s line survives any change confined to that line. */
  lemma SkillFileKept(m0: Entries, m1: Entries, dir: Path, p: Path, content: string)
    requires HasSkillFile(m0, dir, content) && AgreeOutside(m0, m1, p) && !Related(dir, p)
    ensures HasSkillFile(m1, dir, content)
  {
    FrameKeepsSubtree(m0, m1, dir, p);
    assert IsPrefix(dir, dir) && IsPrefix(dir, dir + [SKILL_FILE]);
  }

  /** Whether `link` already resolves to `target` is decided on `link`'s own line. */
  lemma LinksToKept(m0: Entries, m1: Entries, target: Path, link: Path)
    requires AgreeOutside(m0, m1, target)
    ensures !Related(target, link) ==> (LinksTo(m0, link, target) <==> LinksTo(m1, link, target))
  {
  }

  /** Joining `SKILL.md` onto a directory appends one component. */
  lemma SkillFileJoin(dir: Path)
    ensures Join(dir, SKILL_FILE) == dir + [SKILL_FILE]
  {
    JoinComponent(dir, SKILL_FILE);
  }

  /** What a successful `writeFile` of `SKILL.md` into an ensured directory leaves. */
  lemma SkillFileWritten(m0: Entries, m1: Entries, readOnly: set<Path>, dir: Path, content: string)
    requires TreeShaped(m0) && EnsureDirSpec(m0, readOnly, dir) == Ok(m1)
    requires WriteFileSpec(m1, readOnly, dir + [SKILL_FILE], content).Ok?
    ensures var m2 := WriteFileSpec(m1, readOnly, dir + [SKILL_FILE], content).entries;
      && m2 == m1[dir + [SKILL_FILE] := File(content)]
      && TreeShaped(m2) && HasSkillFile(m2, dir, content) && AgreeOutside(m0, m2, dir)
  {
    EnsureDirEffect(m0, readOnly, dir);
    EnsureDirFrame(m0, readOnly, dir);
    WriteFileEffect(m1, readOnly, dir + [SKILL_FILE], content);
    var m2 := WriteFileSpec(m1, readOnly, dir + [SKILL_FILE], content).entries;
    AgreeOutsideWiden(m1, m2, dir, dir + [SKILL_FILE]);
    AgreeOutsideTrans(m0, m1, m2, dir);
    assert dir != dir + [SKILL_FILE];
  }

  // ---------------------------------------------------------------------
  // The installer's step sequences, as functions of the old disk.

  /** The first error of a sequence of steps, if any, with the disk the sequence leaves. */
  datatype Run = Run(err: Option<FsError>, entries: Entries)

  /** `ensureDir(dir)` then `writeFile(dir/SKILL.md, content)`; the first failure stops the sequence. */
  function PlaceSpec(m: Entries, readOnly: set<Path>, dir: Path, content: string): Run {
    match EnsureDirSpec(m, readOnly, dir)
    case Fail(e) => Run(Some(e), m)
    case Ok(m1) =>
      match WriteFileSpec(m1, readOnly, dir + [SKILL_FILE], content)
      case Fail(e) => Run(Some(e), m1)
      case Ok(m2) => Run(None, m2)
  }

  /**
   * The disk admits `dir/SKILL.md`: nothing on the way to `dir` is stored as a
   * non-directory, and `SKILL.md` is missing or a regular file, outside the
   * read-only subtrees.
   */
  predicate PlaceReady(m: Entries, readOnly: set<Path>, dir: Path) {
    var f := dir + [SKILL_FILE];
    DirsAlong(m, dir) && (f in m ==> m[f].File?) && !Locked(readOnly, f)
  }

  /** Writing the skill file succeeds exactly on a disk that admits it. */
  lemma PlaceSucceeds(m: Entries, readOnly: set<Path>, dir: Path, content: string)
    requires TreeShaped(m)
    ensures PlaceSpec(m, readOnly, dir, content).err.None? <==> PlaceReady(m, readOnly, dir)
  {
    var f := dir + [SKILL_FILE];
    assert IsPrefix(dir, f) && !IsPrefix(f, dir) && Parent(f) == dir;
    EnsureDirSucceeds(m, readOnly, dir);
    EnsureDirEffect(m, readOnly, dir);
    if Locked(readOnly, dir) {
      LockedBelow(readOnly, dir, f);
    }
  }

  /** Writing the skill file keeps the tree shape and changes nothing off `dir`'s line. */
  lemma PlaceFrame(m: Entries, readOnly: set<Path>, dir: Path, content: string)
    requires TreeShaped(m)
    ensures var r := PlaceSpec(m, readOnly, dir, content);
      TreeShaped(r.entries) && AgreeOutside(m, r.entries, dir)
      && (r.err.None? ==> HasSkillFile(r.entries, dir, content))
  {
    EnsureDirEffect(m, readOnly, dir);
    EnsureDirFrame(m, readOnly, dir);
    var o := EnsureDirSpec(m, readOnly, dir);
    if o.Fail? {
      AgreeOutsideRefl(m, dir);
    } else if WriteFileSpec(o.entries, readOnly, dir + [SKILL_FILE], content).Ok? {
      SkillFileWritten(m, o.entries, readOnly, dir, content);
    }
  }

  /** `try { remove(p) } catch {}`: a failed removal leaves the disk as it was. */
  function Swept(m: Entries, readOnly: set<Path>, p: Path): Entries {
    match RemoveSpec(m, readOnly, p)
    case Ok(r) => r
    case Fail(_) => m
  }

  /** What an install reports, with the disk it leaves behind. */
  datatype Installed = Installed(result: InstallResult, entries: Entries)

  /** The copy-mode branch of `installSkillForAgent`. */
  function FileCopiedSpec(m: Entries, readOnly: set<Path>, agentPath: Path, content: string): Installed {
    var r := PlaceSpec(m, readOnly, agentPath, content);
    if r.err.Some? then Installed(Failed(agentPath, CopyMode, r.err.value), r.entries)
    else Installed(InstallResult(true, Some(agentPath), None, CopyMode, false, None), r.entries)
  }

  /**
   * The symlink-mode branch of `installSkillForAgent`: the canonical file,
   * then the link, then — when the link is not made — the swept agent path
   * and a second copy of the file there.
   */
  function FileLinkedSpec(m: Entries, readOnly: set<Path>, supported: bool,
                          canonical: Path, agentPath: Path, content: string): Installed
  {
    var r := PlaceSpec(m, readOnly, canonical, content);
    if r.err.Some? then Installed(Failed(agentPath, SymlinkMode, r.err.value), r.entries)
    else
      var l := CreateSymlinkSpec(r.entries, readOnly, supported, canonical, agentPath);
      if l.created then
        Installed(InstallResult(true, Some(agentPath), Some(canonical), SymlinkMode, false, None), l.entries)
      else
        var f := PlaceSpec(Swept(l.entries, readOnly, agentPath), readOnly, agentPath, content);
        if f.err.Some? then Installed(Failed(agentPath, SymlinkMode, f.err.value), f.entries)
        else Installed(InstallResult(true, Some(agentPath), Some(canonical), SymlinkMode, true, None), f.entries)
  }

  /** `installSkillForAgent` once the agent is known. */
  function InstallFileSpec(m: Entries, readOnly: set<Path>, supported: bool, mode: InstallMode,
                           canonical: Path, agentPath: Path, content: string): Installed
  {
    if mode == CopyMode then FileCopiedSpec(m, readOnly, agentPath, content)
    else FileLinkedSpec(m, readOnly, supported, canonical, agentPath, content)
  }

  /**
   * How a directory install ends when every step succeeds. Which step fails
   * first, and what it leaves, depends on the order `readdir` lists names in,
   * so a failure is only framed, not pinned down.
   */
  datatype Finish = Success(result: InstallResult, entries: Entries) | Failure

  /** `res` and the disk `m` are what `s` describes: the same verdict, and on success the same result and disk. */
  predicate Reports(s: Finish, res: InstallResult, m: Entries) {
    (res.success <==> s.Success?) && (s.Success? ==> res == s.result && m == s.entries)
  }

  /** The copy-mode branch of `installSkillDirForAgent`. */
  ghost function DirCopiedSpec(m: Entries, readOnly: set<Path>, src: Path, agentPath: Path): Finish {
    if CopyOk(m, readOnly, src, agentPath)
    then Success(InstallResult(true, Some(agentPath), None, CopyMode, false, None), CopyInto(m, readOnly, src, agentPath))
    else Failure
  }

  /** A failed link falls back to sweeping the agent path and copying the source there. */
  ghost function DirFallback(m: Entries, readOnly: set<Path>, src: Path, canonical: Path, agentPath: Path): Finish {
    var swept := Swept(m, readOnly, agentPath);
    if CopyOk(swept, readOnly, src, agentPath)
    then Success(InstallResult(true, Some(agentPath), Some(canonical), SymlinkMode, true, None),
                 CopyInto(swept, readOnly, src, agentPath))
    else Failure
  }

  /** The symlink-mode branch of `installSkillDirForAgent`. */
  ghost function DirLinkedSpec(m: Entries, readOnly: set<Path>, supported: bool,
                               src: Path, canonical: Path, agentPath: Path): Finish
  {
    match EnsureDirSpec(m, readOnly, canonical)
    case Fail(_) => Failure
    case Ok(m1) =>
      if !CopyOk(m1, readOnly, src, canonical) then Failure
      else
        var l := CreateSymlinkSpec(CopyInto(m1, readOnly, src, canonical), readOnly, supported, canonical, agentPath);
        if l.created then Success(InstallResult(true, Some(agentPath), Some(canonical), SymlinkMode, false, None), l.entries)
        else DirFallback(l.entries, readOnly, src, canonical, agentPath)
  }

  /** `installSkillDirForAgent` once the agent is known. */
  ghost function InstallDirSpec(m: Entries, readOnly: set<Path>, supported: bool, mode: InstallMode,
                                src: Path, canonical: Path, agentPath: Path): Finish
  {
    if mode == CopyMode then DirCopiedSpec(m, readOnly, src, agentPath)
    else DirLinkedSpec(m, readOnly, supported, src, canonical, agentPath)
  }

  /** `createSymlinkToAgent`: the link, or the swept agent path filled with a copy of the central directory. */
  ghost function LinkToAgentSpec(m: Entries, readOnly: set<Path>, supported: bool, central: Path, agentPath: Path): Finish {
    var l := CreateSymlinkSpec(m, readOnly, supported, central, agentPath);
    if l.created then Success(InstallResult(true, Some(agentPath), Some(central), SymlinkMode, false, None), l.entries)
    else DirFallback(l.entries, readOnly, central, central, agentPath)
  }

  // ---------------------------------------------------------------------
  // When an install succeeds.

  /** The copy-mode file install succeeds exactly on a disk that admits the file at the agent path. */
  lemma FileCopiedSucceeds(m: Entries, readOnly: set<Path>, agentPath: Path, content: string)
    requires TreeShaped(m)
    ensures FileCopiedSpec(m, readOnly, agentPath, content).result.success <==> PlaceReady(m, readOnly, agentPath)
  {
    PlaceSucceeds(m, readOnly, agentPath, content);
  }

  /** On an empty, writable disk a file install succeeds in either mode, given separate paths in symlink mode. */
  lemma EmptyDiskInstalls(supported: bool, mode: InstallMode, canonical: Path, agentPath: Path, content: string)
    requires mode == CopyMode || Separate(canonical, agentPath)
    ensures InstallFileSpec(map[], {}, supported, mode, canonical, agentPath, content).result.success
  {
    if mode == CopyMode {
      FileCopiedSucceeds(map[], {}, agentPath, content);
    } else {
      FileLinkedSucceeds(map[], {}, supported, canonical, agentPath, content);
    }
  }

  /** Dropping entries keeps the directories on `a`'s way. */
  lemma DirsAlongShrink(m: Entries, m1: Entries, a: Path)
    requires DirsAlong(m, a) && Grows(m1, m)
    ensures DirsAlong(m1, a)
  {
  }

  /** Adding entries off `a`'s way to the root keeps the directories on it. */
  lemma DirsAlongAdd(m: Entries, extra: Entries, a: Path)
    requires DirsAlong(m, a) && forall k :: k in extra ==> !IsPrefix(k, a)
    ensures DirsAlong(m + extra, a)
  {
    forall i | 0 < i <= |a| && a[..i] in m + extra ensures (m + extra)[a[..i]] == Dir {
      assert IsPrefix(a[..i], a);
    }
  }

  /** Entries below `c` are off the way to any path off `c`'s line. */
  lemma BelowOffLine(extra: Entries, c: Path, a: Path)
    requires !Related(c, a) && forall k :: k in extra ==> IsPrefix(c, k)
    ensures forall k :: k in extra ==> !IsPrefix(k, a)
  {
    forall k | k in extra ensures !IsPrefix(k, a) {
      PrefixTrans(c, k, a);
    }
  }

  /** A removal only drops entries. */
  lemma SweptShrinks(m: Entries, readOnly: set<Path>, p: Path)
    requires TreeShaped(m)
    ensures Grows(Swept(m, readOnly, p), m) && Grows(Cleared(m, readOnly, p), m)
  {
    RemoveEffect(m, readOnly, p);
  }

  /** Writing a skill file into `dir` keeps the directories on the way to a path `dir` is not above. */
  lemma PlaceKeepsDirs(m: Entries, readOnly: set<Path>, dir: Path, a: Path, content: string)
    requires TreeShaped(m) && DirsAlong(m, a) && !IsPrefix(dir, a)
    requires PlaceSpec(m, readOnly, dir, content).err.None?
    ensures DirsAlong(PlaceSpec(m, readOnly, dir, content).entries, a)
  {
    var m1 := EnsureDirSpec(m, readOnly, dir).entries;
    DirsAlongAfterEnsure(m, readOnly, dir, a);
    var f := dir + [SKILL_FILE];
    assert IsPrefix(dir, f);
    PrefixTrans(dir, f, a);
    assert m1[f := File(content)] == m1 + map[f := File(content)];
    DirsAlongAdd(m1, map[f := File(content)], a);
  }

  /** A failed `createSymlink` leaves the directories on the link path's way in place. */
  lemma LinkFailKeepsDirs(m: Entries, readOnly: set<Path>, supported: bool, target: Path, a: Path)
    requires TreeShaped(m) && DirsAlong(m, a)
    requires !CreateSymlinkSpec(m, readOnly, supported, target, a).created
    ensures DirsAlong(CreateSymlinkSpec(m, readOnly, supported, target, a).entries, a)
  {
    var m1 := Cleared(m, readOnly, a);
    ClearedFrame(m, readOnly, a);
    SweptShrinks(m, readOnly, a);
    DirsAlongShrink(m, m1, a);
    if EnsureDirSpec(m1, readOnly, Parent(a)).Ok? {
      DirsAlongAfterEnsure(m1, readOnly, Parent(a), a);
    }
  }

  /**
   * After a failed link, sweeping a writable agent path leaves nothing at or
   * below it, keeps the directories on its way and changes nothing off its line.
   */
  lemma FallbackClears(m: Entries, readOnly: set<Path>, supported: bool, target: Path, a: Path)
    requires TreeShaped(m) && DirsAlong(m, a) && WritableLine(readOnly, a)
    requires !CreateSymlinkSpec(m, readOnly, supported, target, a).created
    ensures var swept := Swept(CreateSymlinkSpec(m, readOnly, supported, target, a).entries, readOnly, a);
      && TreeShaped(swept) && DirsAlong(swept, a) && AgreeOutside(m, swept, a)
      && forall q :: q in swept ==> !IsPrefix(a, q)
  {
    var l := CreateSymlinkSpec(m, readOnly, supported, target, a).entries;
    CreateSymlinkFrame(m, readOnly, supported, target, a);
    LinkFailKeepsDirs(m, readOnly, supported, target, a);
    RemoveEffect(l, readOnly, a);
    forall q | q in l && IsPrefix(a, q) ensures !Locked(readOnly, q) {
      WritableBelow(readOnly, a, q);
    }
    SweptShrinks(l, readOnly, a);
    DirsAlongShrink(l, Swept(l, readOnly, a), a);
    AgreeOutsideTrans(m, l, Swept(l, readOnly, a), a);
  }

  /**
   * The symlink-mode file install. A success means the canonical directory
   * admitted the file. Conversely, when it does, the agent path lies off the
   * canonical path's line, the directories on the agent path's way are in
   * place and that line is writable, the install succeeds: by the link, or
   * by the fallback copy.
   */
  lemma FileLinkedSucceeds(m: Entries, readOnly: set<Path>, supported: bool,
                           canonical: Path, agentPath: Path, content: string)
    requires TreeShaped(m)
    ensures FileLinkedSpec(m, readOnly, supported, canonical, agentPath, content).result.success
            ==> PlaceReady(m, readOnly, canonical)
    ensures PlaceReady(m, readOnly, canonical) && Separate(canonical, agentPath)
            && DirsAlong(m, agentPath) && WritableLine(readOnly, agentPath)
            ==> FileLinkedSpec(m, readOnly, supported, canonical, agentPath, content).result.success
  {
    PlaceSucceeds(m, readOnly, canonical, content);
    if PlaceReady(m, readOnly, canonical) && Separate(canonical, agentPath)
       && DirsAlong(m, agentPath) && WritableLine(readOnly, agentPath)
    {
      var r := PlaceSpec(m, readOnly, canonical, content).entries;
      PlaceFrame(m, readOnly, canonical, content);
      PlaceKeepsDirs(m, readOnly, canonical, agentPath, content);
      var l := CreateSymlinkSpec(r, readOnly, supported, canonical, agentPath);
      if !l.created {
        FallbackClears(r, readOnly, supported, canonical, agentPath);
        var swept := Swept(l.entries, readOnly, agentPath);
        var f := agentPath + [SKILL_FILE];
        assert IsPrefix(agentPath, f);
        WritableBelow(readOnly, agentPath, f);
        PlaceSucceeds(swept, readOnly, agentPath, content);
      }
    }
  }

  /** After a failed link, the fallback copy of a directory off the agent path's line runs to completion. */
  lemma FallbackCopies(m: Entries, readOnly: set<Path>, supported: bool, src: Path, target: Path, a: Path)
    requires TreeShaped(m) && IsDirAt(m, src) && !Related(src, a)
    requires DirsAlong(m, a) && WritableLine(readOnly, a)
    requires !CreateSymlinkSpec(m, readOnly, supported, target, a).created
    ensures CopyOk(Swept(CreateSymlinkSpec(m, readOnly, supported, target, a).entries, readOnly, a), readOnly, src, a)
  {
    FallbackClears(m, readOnly, supported, target, a);
    var swept := Swept(CreateSymlinkSpec(m, readOnly, supported, target, a).entries, readOnly, a);
    FrameKeepsSubtree(m, swept, src, a);
    assert IsPrefix(src, src);
    CopyIntoFresh(swept, readOnly, src, a);
  }

  /**
   * Filling a fresh canonical directory runs to completion, keeps the tree
   * shape, the directories on the agent path's way and everything off the
   * canonical path's line.
   */
  lemma CanonicalFilled(m: Entries, readOnly: set<Path>, src: Path, canonical: Path, agentPath: Path)
    requires TreeShaped(m) && IsDirAt(m, src) && !Related(src, canonical) && Separate(canonical, agentPath)
    requires DirsAlong(m, canonical) && NothingBelow(m, canonical) && WritableLine(readOnly, canonical)
    requires DirsAlong(m, agentPath)
    ensures EnsureDirSpec(m, readOnly, canonical).Ok?
    ensures var m1 := EnsureDirSpec(m, readOnly, canonical).entries;
      && CopyOk(m1, readOnly, src, canonical)
      && TreeShaped(CopyInto(m1, readOnly, src, canonical))
      && DirsAlong(CopyInto(m1, readOnly, src, canonical), agentPath)
      && AgreeOutside(m, CopyInto(m1, readOnly, src, canonical), canonical)
  {
    assert IsPrefix(canonical, canonical);
    WritableBelow(readOnly, canonical, canonical);
    EnsureDirSucceeds(m, readOnly, canonical);
    var m1 := EnsureDirSpec(m, readOnly, canonical).entries;
    EnsureDirEffect(m, readOnly, canonical);
    EnsureDirFrame(m, readOnly, canonical);
    DirsAlongAfterEnsure(m, readOnly, canonical, canonical);
    DirsAlongAfterEnsure(m, readOnly, canonical, agentPath);
    forall q | q in m1 && IsPrefix(canonical, q) ensures q == canonical {
      if q !in m {
        assert IsPrefix(q, canonical);
      }
    }
    CopyIntoFresh(m1, readOnly, src, canonical);
    CopyIntoShaped(m1, readOnly, src, canonical);
    EnsureDirExisting(m1, readOnly, canonical);
    MirrorBelow(m1, src, canonical);
    BelowOffLine(Mirror(m1, src, canonical), canonical, agentPath);
    DirsAlongAdd(m1, Mirror(m1, src, canonical), agentPath);
    AgreeOutsideTrans(m, m1, CopyInto(m1, readOnly, src, canonical), canonical);
  }

  /**
   * The symlink-mode directory install succeeds when the source is a
   * directory off both lines, the canonical directory is missing or empty on
   * a writable line, and the agent path's way holds directories on a
   * writable line: by the link, or by the fallback copy.
   */
  lemma DirLinkedSucceeds(m: Entries, readOnly: set<Path>, supported: bool, src: Path, canonical: Path, agentPath: Path)
    requires TreeShaped(m) && IsDirAt(m, src)
    requires !Related(src, canonical) && !Related(src, agentPath) && Separate(canonical, agentPath)
    requires DirsAlong(m, canonical) && NothingBelow(m, canonical) && WritableLine(readOnly, canonical)
    requires DirsAlong(m, agentPath) && WritableLine(readOnly, agentPath)
    ensures DirLinkedSpec(m, readOnly, supported, src, canonical, agentPath).Success?
  {
    CanonicalFilled(m, readOnly, src, canonical, agentPath);
    var m1 := EnsureDirSpec(m, readOnly, canonical).entries;
    var m2 := CopyInto(m1, readOnly, src, canonical);
    if !CreateSymlinkSpec(m2, readOnly, supported, canonical, agentPath).created {
      FrameKeepsSubtree(m, m2, src, canonical);
      assert IsPrefix(src, src);
      FallbackCopies(m2, readOnly, supported, src, canonical, agentPath);
    }
  }

  /**
   * `createSymlinkToAgent` succeeds when the central directory exists off the
   * agent path's line and the agent path's way holds directories on a
   * writable line: by the link, or by the fallback copy.
   */
  lemma LinkToAgentSucceeds(m: Entries, readOnly: set<Path>, supported: bool, central: Path, agentPath: Path)
    requires TreeShaped(m) && IsDirAt(m, central) && !Related(central, agentPath)
    requires DirsAlong(m, agentPath) && WritableLine(readOnly, agentPath)
    ensures LinkToAgentSpec(m, readOnly, supported, central, agentPath).Success?
  {
    if !CreateSymlinkSpec(m, readOnly, supported, central, agentPath).created {
      FallbackCopies(m, readOnly, supported, central, central, agentPath);
    }
  }

  /** `ensureDir(dir)` then `writeFile(path.join(dir, 'SKILL.md'), content)`. */
  method PlaceSkillFile(fs: FileSystem, dir: Path, content: string) returns (err: Option<FsError>)
    requires fs.Valid()
    modifies fs
    ensures fs.Valid()
    ensures Run(err, fs.entries) == PlaceSpec(old(fs.entries), fs.readOnly, dir, content)
    ensures AgreeOutside(old(fs.entries), fs.entries, dir)
    ensures err.None? ==>
      && EnsureDirSpec(old(fs.entries), fs.readOnly, dir).Ok?
      && fs.entries == EnsureDirSpec(old(fs.entries), fs.readOnly, dir).entries[dir + [SKILL_FILE] := File(content)]
    ensures err.None? ==> HasSkillFile(fs.entries, dir, content)
  {
    ghost var m0 := fs.entries;
    EnsureDirFrame(m0, fs.readOnly, dir);
    err := fs.EnsureDir(dir);
    if err.Some? {
      AgreeOutsideRefl(m0, dir);
      return;
    }
    ghost var m1 := fs.entries;
    var skillMd := dir + [SKILL_FILE];  // path.join(dir, 'SKILL.md'), see SkillFileJoin
    err := fs.WriteFile(skillMd, content);
    if err.Some? {
      return;
    }
    SkillFileWritten(m0, m1, fs.readOnly, dir, content);
  }

  /** `isSkillInstalledForAgent(slug, agentId, options)`: the agent path is accessible. */
  function IsSkillInstalledForAgent(fs: FileSystem, reg: AgentRegistry, env: Env, slug: string, agentId: string, o: InstallOptions): (r: bool)
    reads fs, reg
    ensures r ==> agentId in reg.agents
    ensures r ==> AgentSkillPath(env, reg.agents[agentId], slug, o) in fs.entries
    ensures agentId in reg.agents ==> (r <==> Accessible(fs.entries, AgentSkillPath(env, reg.agents[agentId], slug, o)))
  {
    match reg.Get(agentId)
    case None => false
    case Some(agent) => fs.Access(AgentSkillPath(env, agent, slug, o))
  }

  /** Copy and symlink paths do not lie on one line, so neither step can clobber the other. */
  predicate Separate(canonical: Path, agentPath: Path) {
    !Related(canonical, agentPath)
  }

  /** The copy-mode branch of `installSkillForAgent`: write `SKILL.md` directly below the agent path. */
  method InstallFileCopied(fs: FileSystem, agentPath: Path, content: string) returns (res: InstallResult)
    requires fs.Valid()
    modifies fs
    ensures fs.Valid()
    ensures Installed(res, fs.entries) == FileCopiedSpec(old(fs.entries), fs.readOnly, agentPath, content)
    ensures AgreeOutside(old(fs.entries), fs.entries, agentPath)
    ensures res.path == Some(agentPath) && res.mode == CopyMode
    ensures !res.success ==> res.error.Some? && res.canonicalPath.None? && !res.symlinkFailed
    ensures res.success ==> res == InstallResult(true, Some(agentPath), None, CopyMode, false, None)
    ensures res.success ==> HasSkillFile(fs.entries, agentPath, content)
    ensures res.success && agentPath != [] ==> Accessible(fs.entries, agentPath)
  {
    var err := PlaceSkillFile(fs, agentPath, content);
    if err.Some? {
      return Failed(agentPath, CopyMode, err.value);
    }
    res := InstallResult(true, Some(agentPath), None, CopyMode, false, None);
  }

  /**
   * The symlink-mode branch of `installSkillForAgent`: write the canonical
   * `SKILL.md`, link the agent path to it, and on a failed link replace the
   * agent path by an independent copy of the file.
   */
  method InstallFileLinked(fs: FileSystem, canonical: Path, agentPath: Path, content: string)
    returns (res: InstallResult)
    requires fs.Valid() && Normal(canonical)
    modifies fs
    ensures fs.Valid()
    ensures Installed(res, fs.entries)
         == FileLinkedSpec(old(fs.entries), fs.readOnly, fs.symlinksSupported, canonical, agentPath, content)
    ensures AgreeOutsideBoth(old(fs.entries), fs.entries, canonical, agentPath)
    ensures res.path == Some(agentPath) && res.mode == SymlinkMode
    ensures !res.success ==> res.error.Some? && res.canonicalPath.None? && !res.symlinkFailed
    ensures res.success ==> res.canonicalPath == Some(canonical) && res.error.None?
    ensures res.success && Separate(canonical, agentPath) ==> HasSkillFile(fs.entries, canonical, content)
    ensures res.success && res.symlinkFailed ==> HasSkillFile(fs.entries, agentPath, content)
    ensures res.success && !res.symlinkFailed ==> LinksTo(fs.entries, agentPath, canonical)
    ensures res.success && Separate(canonical, agentPath) ==> Accessible(fs.entries, agentPath)
    ensures (res.success && !fs.symlinksSupported && Separate(canonical, agentPath)
             && !LinksTo(old(fs.entries), agentPath, canonical)) ==> res.symlinkFailed
  {
    ghost var m0 := fs.entries;
    var err := PlaceSkillFile(fs, canonical, content);
    BothFromOne(m0, fs.entries, canonical, agentPath);
    if err.Some? {
      return Failed(agentPath, SymlinkMode, err.value);
    }
    ghost var m1 := fs.entries;
    LinksToKept(m0, m1, canonical, agentPath);
    CreateSymlinkUnsupported(m1, fs.readOnly, canonical, agentPath);
    CreateSymlinkFrame(m1, fs.readOnly, fs.symlinksSupported, canonical, agentPath);
    CreateSymlinkLinks(m1, fs.readOnly, fs.symlinksSupported, canonical, agentPath);
    var created := CreateSymlink(fs, canonical, agentPath);
    ghost var m2 := fs.entries;
    BothFromOne(m1, m2, canonical, agentPath);
    BothTrans(m0, m1, m2, canonical, agentPath);
    if created {
      res := InstallResult(true, Some(agentPath), Some(canonical), SymlinkMode, false, None);
      if Separate(canonical, agentPath) {
        SkillFileKept(m1, m2, canonical, agentPath, content);
        assert canonical != [];
      }
      return;
    }
    // symlink failed: fall back to a copy; a failed cleanup is ignored
    RemoveEffect(m2, fs.readOnly, agentPath);
    var _ := fs.Remove(agentPath);
    ghost var m3 := fs.entries;
    if m3 == m2 {
      AgreeOutsideRefl(m2, agentPath);
    }
    err := PlaceSkillFile(fs, agentPath, content);
    ghost var m4 := fs.entries;
    AgreeOutsideTrans(m2, m3, m4, agentPath);
    AgreeOutsideTrans(m1, m2, m4, agentPath);
    BothFromOne(m2, m4, canonical, agentPath);
    BothTrans(m0, m2, m4, canonical, agentPath);
    if err.Some? {
      return Failed(agentPath, SymlinkMode, err.value);
    }
    if Separate(canonical, agentPath) {
      SkillFileKept(m1, m4, canonical, agentPath, content);
    }
    assert agentPath != [] ==> IsDirAt(m4, agentPath);
    res := InstallResult(true, Some(agentPath), Some(canonical), SymlinkMode, true, None);
  }

  /**
   * `installSkillForAgent(slug, content, agentId, options)`.
   * Copy mode writes `SKILL.md` directly below the agent path and touches
   * nothing else; symlink mode fills the canonical directory and links the
   * agent path to it, falling back to a copy. Errors become `success: false`.
   */
  method InstallSkillForAgent(fs: FileSystem, reg: AgentRegistry, env: Env,
                              slug: string, content: string, agentId: string, o: InstallOptions)
    returns (res: InstallResult)
    requires fs.Valid() && reg.Valid() && EnvValid(env)
    modifies fs
    ensures fs.Valid()
    ensures agentId !in reg.agents ==> res == UnknownAgent(agentId, o) && fs.entries == old(fs.entries)
    ensures agentId in reg.agents ==>
      Installed(res, fs.entries)
      == InstallFileSpec(old(fs.entries), fs.readOnly, fs.symlinksSupported, RequestedMode(o),
                         CanonicalSkillPath(env, slug, o), AgentSkillPath(env, reg.agents[agentId], slug, o), content)
    ensures agentId in reg.agents ==>
      var agentPath := AgentSkillPath(env, reg.agents[agentId], slug, o);
      var canonical := CanonicalSkillPath(env, slug, o);
      && res.path == Some(agentPath)
      && (!res.success ==> res.mode == RequestedMode(o) && res.error.Some? && res.canonicalPath.None?)
      && (RequestedMode(o) == CopyMode ==>
            && AgreeOutside(old(fs.entries), fs.entries, agentPath)
            && (res.success ==> res == InstallResult(true, Some(agentPath), None, CopyMode, false, None)
                                && HasSkillFile(fs.entries, agentPath, content)))
      && (RequestedMode(o) == SymlinkMode ==>
            && AgreeOutsideBoth(old(fs.entries), fs.entries, canonical, agentPath)
            && (res.success ==> res == InstallResult(true, Some(agentPath), Some(canonical), SymlinkMode, res.symlinkFailed, None))
            && (res.success && Separate(canonical, agentPath) ==> HasSkillFile(fs.entries, canonical, content))
            && (res.success && res.symlinkFailed ==> HasSkillFile(fs.entries, agentPath, content))
            && (res.success && !res.symlinkFailed ==> LinksTo(fs.entries, agentPath, canonical))
            && ((res.success && !fs.symlinksSupported && Separate(canonical, agentPath)
                 && !LinksTo(old(fs.entries), agentPath, canonical)) ==> res.symlinkFailed))
    ensures res.success && (RequestedMode(o) == CopyMode || Separate(CanonicalSkillPath(env, slug, o), res.path.value))
      ==> IsSkillInstalledForAgent(fs, reg, env, slug, agentId, o)
  {
    var found := reg.Get(agentId);
    if found.None? {
      return UnknownAgent(agentId, o);
    }
    var agent := found.value;
    var mode := RequestedMode(o);
    var canonical := CanonicalSkillPath(env, slug, o);
    var agentPath := AgentSkillPath(env, agent, slug, o);
    assert agentPath != [];
    if mode == CopyMode {
      res := InstallFileCopied(fs, agentPath, content);
    } else {
      CanonicalSkillPathNormal(env, slug, o);
      res := InstallFileLinked(fs, canonical, agentPath, content);
    }
    assert res.success && (mode == CopyMode || Separate(canonical, agentPath)) ==> Accessible(fs.entries, agentPath);
  }

  /** Entries off `p`'s line that `sub` holds below `dir` survive any change confined to `p`'s line. */
  lemma CopyKept(m0: Entries, m1: Entries, sub: Entries, dir: Path, p: Path)
    requires Grows(sub, m0) && IsDirAt(m0, dir) && AgreeOutside(m0, m1, p) && !Related(dir, p)
    requires forall t :: t in sub ==> IsPrefix(dir, t)
    ensures Grows(sub, m1) && IsDirAt(m1, dir)
  {
    FrameKeepsSubtree(m0, m1, dir, p);
    assert IsPrefix(dir, dir);
  }

  /** A subtree off both lines is untouched by a change confined to those lines. */
  lemma BothKeepsSubtree(m0: Entries, m1: Entries, src: Path, p: Path, q: Path)
    requires AgreeOutsideBoth(m0, m1, p, q) && !Related(src, p) && !Related(src, q)
    ensures AgreeBelow(m0, m1, src)
  {
    forall x | IsPrefix(src, x) ensures !Related(p, x) && !Related(q, x) {
      CommonDescendant(src, p, x);
      PrefixTrans(src, x, p);
      CommonDescendant(src, q, x);
      PrefixTrans(src, x, q);
    }
  }

  /** What a successful `copyDirectory(src, dest)` leaves: `dest` is a directory holding the mirror of `src`. */
  lemma CopyResult(m0: Entries, m: Entries, readOnly: set<Path>, src: Path, dest: Path)
    requires TreeShaped(m0) && EnsureDirSpec(m0, readOnly, dest).Ok?
    requires m == EnsureDirSpec(m0, readOnly, dest).entries + Mirror(m0, src, dest)
    ensures IsDirAt(m, dest) && Grows(Mirror(m0, src, dest), m)
    ensures forall t :: t in Mirror(m0, src, dest) ==> IsPrefix(dest, t)
  {
    EnsureDirEffect(m0, readOnly, dest);
    MirrorBelow(m0, src, dest);
  }

  /**
   * The symlink-mode branch of `installSkillDirForAgent`: fill the canonical
   * directory with a copy of the source, link the agent path to it, and on a
   * failed link copy the source to the agent path as well.
   */
  method InstallDirLinked(fs: FileSystem, src: Path, canonical: Path, agentPath: Path)
    returns (res: InstallResult)
    requires fs.Valid() && Normal(canonical)
    modifies fs
    ensures fs.Valid()
    ensures Reports(DirLinkedSpec(old(fs.entries), fs.readOnly, fs.symlinksSupported, src, canonical, agentPath),
                    res, fs.entries)
    ensures AgreeOutsideBoth(old(fs.entries), fs.entries, canonical, agentPath)
    ensures res.path == Some(agentPath) && res.mode == SymlinkMode
    ensures !res.success ==> res.error.Some? && res.canonicalPath.None? && !res.symlinkFailed
    ensures res.success ==> res.canonicalPath == Some(canonical) && res.error.None?
    ensures res.success && Separate(canonical, agentPath) ==>
      IsDirAt(fs.entries, canonical) && Grows(Mirror(old(fs.entries), src, canonical), fs.entries)
    ensures res.success && res.symlinkFailed ==>
      IsDirAt(fs.entries, agentPath) && Grows(Mirror(old(fs.entries), src, agentPath), fs.entries)
    ensures res.success && !res.symlinkFailed ==> LinksTo(fs.entries, agentPath, canonical)
    ensures (res.success && !fs.symlinksSupported && Separate(canonical, agentPath)
             && !LinksTo(old(fs.entries), agentPath, canonical)) ==> res.symlinkFailed
  {
    ghost var m0 := fs.entries;
    EnsureDirFrame(m0, fs.readOnly, canonical);
    var err := fs.EnsureDir(canonical);
    BothFromOne(m0, fs.entries, canonical, agentPath);
    if err.Some? {
      return Failed(agentPath, SymlinkMode, err.value);
    }
    ghost var m1 := fs.entries;
    err := CopyDirectory(fs, src, canonical);
    ghost var m2 := fs.entries;
    AgreeOutsideTrans(m0, m1, m2, canonical);
    BothFromOne(m0, m2, canonical, agentPath);
    if err.Some? {
      return Failed(agentPath, SymlinkMode, err.value);
    }
    FrameKeepsSubtree(m0, m1, src, canonical);
    MirrorLocal(m0, m1, src, canonical);
    CopyResult(m1, m2, fs.readOnly, src, canonical);
    LinksToKept(m0, m2, canonical, agentPath);
    CreateSymlinkUnsupported(m2, fs.readOnly, canonical, agentPath);
    CreateSymlinkFrame(m2, fs.readOnly, fs.symlinksSupported, canonical, agentPath);
    CreateSymlinkLinks(m2, fs.readOnly, fs.symlinksSupported, canonical, agentPath);
    var created := CreateSymlink(fs, canonical, agentPath);
    ghost var m3 := fs.entries;
    BothFromOne(m2, m3, canonical, agentPath);
    BothTrans(m0, m2, m3, canonical, agentPath);
    if created {
      if Separate(canonical, agentPath) {
        CopyKept(m2, m3, Mirror(m0, src, canonical), canonical, agentPath);
      }
      return InstallResult(true, Some(agentPath), Some(canonical), SymlinkMode, false, None);
    }
    // symlink failed: fall back to a copy; a failed cleanup is ignored
    RemoveEffect(m3, fs.readOnly, agentPath);
    var _ := fs.Remove(agentPath);
    ghost var m4 := fs.entries;
    if m4 == m3 {
      AgreeOutsideRefl(m3, agentPath);
    }
    BothFromOne(m3, m4, canonical, agentPath);
    BothTrans(m0, m3, m4, canonical, agentPath);
    err := CopyDirectory(fs, src, agentPath);
    ghost var m5 := fs.entries;
    BothFromOne(m4, m5, canonical, agentPath);
    BothTrans(m0, m4, m5, canonical, agentPath);
    if err.Some? {
      return Failed(agentPath, SymlinkMode, err.value);
    }
    BothKeepsSubtree(m0, m4, src, canonical, agentPath);
    MirrorLocal(m0, m4, src, agentPath);
    CopyResult(m4, m5, fs.readOnly, src, agentPath);
    if Separate(canonical, agentPath) {
      AgreeOutsideTrans(m3, m4, m5, agentPath);
      AgreeOutsideTrans(m2, m3, m5, agentPath);
      CopyKept(m2, m5, Mirror(m0, src, canonical), canonical, agentPath);
    }
    res := InstallResult(true, Some(agentPath), Some(canonical), SymlinkMode, true, None);
  }

  /**
   * `installSkillDirForAgent(slug, sourceDir, agentId, options)`: as
   * `installSkillForAgent`, with `copyDirectory(sourceDir, ...)` in place of
   * writing one `SKILL.md`.
   */
  method InstallSkillDirForAgent(fs: FileSystem, reg: AgentRegistry, env: Env,
                                 slug: string, sourceDir: string, agentId: string, o: InstallOptions)
    returns (res: InstallResult)
    requires fs.Valid() && reg.Valid() && EnvValid(env)
    modifies fs
    ensures fs.Valid()
    ensures agentId !in reg.agents ==> res == UnknownAgent(agentId, o) && fs.entries == old(fs.entries)
    ensures agentId in reg.agents ==>
      Reports(InstallDirSpec(old(fs.entries), fs.readOnly, fs.symlinksSupported, RequestedMode(o), Resolve(env.cwd, sourceDir),
                             CanonicalSkillPath(env, slug, o), AgentSkillPath(env, reg.agents[agentId], slug, o)),
              res, fs.entries)
    ensures agentId in reg.agents ==>
      var agentPath := AgentSkillPath(env, reg.agents[agentId], slug, o);
      var canonical := CanonicalSkillPath(env, slug, o);
      var src := Resolve(env.cwd, sourceDir);
      && res.path == Some(agentPath)
      && (!res.success ==> res.mode == RequestedMode(o) && res.error.Some? && res.canonicalPath.None?)
      && (RequestedMode(o) == CopyMode ==>
            && AgreeOutside(old(fs.entries), fs.entries, agentPath)
            && (res.success ==>
                  && res == InstallResult(true, Some(agentPath), None, CopyMode, false, None)
                  && EnsureDirSpec(old(fs.entries), fs.readOnly, agentPath).Ok?
                  && fs.entries == EnsureDirSpec(old(fs.entries), fs.readOnly, agentPath).entries
                                   + Mirror(old(fs.entries), src, agentPath)))
      && (RequestedMode(o) == SymlinkMode ==>
            && AgreeOutsideBoth(old(fs.entries), fs.entries, canonical, agentPath)
            && (res.success ==> res == InstallResult(true, Some(agentPath), Some(canonical), SymlinkMode, res.symlinkFailed, None))
            && (res.success && Separate(canonical, agentPath) ==>
                  IsDirAt(fs.entries, canonical) && Grows(Mirror(old(fs.entries), src, canonical), fs.entries))
            && (res.success && res.symlinkFailed ==>
                  IsDirAt(fs.entries, agentPath) && Grows(Mirror(old(fs.entries), src, agentPath), fs.entries))
            && (res.success && !res.symlinkFailed ==> LinksTo(fs.entries, agentPath, canonical))
            && ((res.success && !fs.symlinksSupported && Separate(canonical, agentPath)
                 && !LinksTo(old(fs.entries), agentPath, canonical)) ==> res.symlinkFailed))
  {
    var found := reg.Get(agentId);
    if found.None? {
      return UnknownAgent(agentId, o);
    }
    var agent := found.value;
    var mode := RequestedMode(o);
    var canonical := CanonicalSkillPath(env, slug, o);
    var agentPath := AgentSkillPath(env, agent, slug, o);
    var src := Resolve(env.cwd, sourceDir);
    if mode == CopyMode {
      var err := CopyDirectory(fs, src, agentPath);
      if err.Some? {
        return Failed(agentPath, mode, err.value);
      }
      return InstallResult(true, Some(agentPath), None, CopyMode, false, None);
    }
    CanonicalSkillPathNormal(env, slug, o);
    res := InstallDirLinked(fs, src, canonical, agentPath);
  }

  /**
   * `createSymlinkToAgent(centralSkillDir, agentSkillPath)`: link an already
   * filled central directory into an agent, falling back to a copy of it.
   * Every step stays on the agent path's line.
   */
  method CreateSymlinkToAgent(fs: FileSystem, env: Env, centralSkillDir: string, agentSkillPath: string)
    returns (res: InstallResult)
    requires fs.Valid() && EnvValid(env)
    modifies fs
    ensures fs.Valid()
    ensures Reports(LinkToAgentSpec(old(fs.entries), fs.readOnly, fs.symlinksSupported,
                                    Resolve(env.cwd, centralSkillDir), Resolve(env.cwd, agentSkillPath)),
                    res, fs.entries)
    ensures var central := Resolve(env.cwd, centralSkillDir);
      var agentPath := Resolve(env.cwd, agentSkillPath);
      && AgreeOutside(old(fs.entries), fs.entries, agentPath)
      && res.path == Some(agentPath) && res.mode == SymlinkMode
      && (!res.success ==> res.error.Some? && res.canonicalPath.None? && !res.symlinkFailed)
      && (res.success ==> res.canonicalPath == Some(central) && res.error.None?)
      && (res.success && !res.symlinkFailed ==> LinksTo(fs.entries, agentPath, central))
      && (res.success && res.symlinkFailed ==>
            && !Related(central, agentPath)
            && IsDirAt(fs.entries, agentPath)
            && Grows(Mirror(old(fs.entries), central, agentPath), fs.entries))
      && ((res.success && !fs.symlinksSupported && !LinksTo(old(fs.entries), agentPath, central))
          ==> res.symlinkFailed)
  {
    ghost var m0 := fs.entries;
    var central := Resolve(env.cwd, centralSkillDir);
    var agentPath := Resolve(env.cwd, agentSkillPath);
    ResolveNormal(env.cwd, centralSkillDir);
    CreateSymlinkFrame(m0, fs.readOnly, fs.symlinksSupported, central, agentPath);
    CreateSymlinkLinks(m0, fs.readOnly, fs.symlinksSupported, central, agentPath);
    CreateSymlinkUnsupported(m0, fs.readOnly, central, agentPath);
    var created := CreateSymlink(fs, central, agentPath);
    if created {
      return InstallResult(true, Some(agentPath), Some(central), SymlinkMode, false, None);
    }
    ghost var m1 := fs.entries;
    RemoveEffect(m1, fs.readOnly, agentPath);
    var _ := fs.Remove(agentPath);
    ghost var m2 := fs.entries;
    if m2 == m1 {
      AgreeOutsideRefl(m1, agentPath);
    }
    AgreeOutsideTrans(m0, m1, m2, agentPath);
    var err := CopyDirectory(fs, central, agentPath);
    AgreeOutsideTrans(m0, m2, fs.entries, agentPath);
    if err.Some? {
      return InstallResult(false, Some(agentPath), None, SymlinkMode, false, Some(ErrorMessage(err.value)));
    }
    FrameKeepsSubtree(m0, m2, central, agentPath);
    MirrorLocal(m0, m2, central, agentPath);
    CopyResult(m2, fs.entries, fs.readOnly, central, agentPath);
    res := InstallResult(true, Some(agentPath), Some(central), SymlinkMode, true, None);
  }

  /** The `remove(agentSkillPath)` step of `uninstallSkillForAgent`, with its error caught. */
  method RemoveAgentPath(fs: FileSystem, agentPath: Path, ghost canonical: Path) returns (removed: bool)
    requires fs.Valid() && agentPath != []
    modifies fs
    ensures fs.Valid()
    ensures removed <==> forall q :: q in old(fs.entries) && IsPrefix(agentPath, q) ==> !Locked(fs.readOnly, q)
    ensures !removed ==> fs.entries == old(fs.entries)
    ensures removed ==> forall q :: q in fs.entries <==> q in old(fs.entries) && !IsPrefix(agentPath, q)
    ensures AgreeOutside(old(fs.entries), fs.entries, agentPath)
    ensures Separate(canonical, agentPath) ==> AgreeBelow(old(fs.entries), fs.entries, canonical)
    ensures removed ==> !Accessible(fs.entries, agentPath)
  {
    ghost var m0 := fs.entries;
    RemoveEffect(m0, fs.readOnly, agentPath);
    var err := fs.Remove(agentPath);
    removed := err.None?;
    if !removed {
      AgreeOutsideRefl(m0, agentPath);
    } else {
      assert IsPrefix(agentPath, agentPath);
      assert agentPath !in fs.entries;
    }
    if Separate(canonical, agentPath) {
      FrameKeepsSubtree(m0, fs.entries, canonical, agentPath);
    }
  }

  /**
   * `uninstallSkillForAgent(slug, agentId, options)`: remove the agent path
   * (a link is removed, not followed); the canonical copy stays.
   */
  method UninstallSkillForAgent(fs: FileSystem, reg: AgentRegistry, env: Env,
                                slug: string, agentId: string, o: InstallOptions)
    returns (removed: bool)
    requires fs.Valid() && reg.Valid()
    modifies fs
    ensures fs.Valid()
    ensures agentId !in reg.agents ==> !removed && fs.entries == old(fs.entries)
    ensures agentId in reg.agents ==>
      var agentPath := AgentSkillPath(env, reg.agents[agentId], slug, o);
      && (removed <==> forall q :: q in old(fs.entries) && IsPrefix(agentPath, q) ==> !Locked(fs.readOnly, q))
      && (!removed ==> fs.entries == old(fs.entries))
      && (removed ==> forall q :: q in fs.entries <==> q in old(fs.entries) && !IsPrefix(agentPath, q))
      && AgreeOutside(old(fs.entries), fs.entries, agentPath)
      && (Separate(CanonicalSkillPath(env, slug, o), agentPath) ==>
            AgreeBelow(old(fs.entries), fs.entries, CanonicalSkillPath(env, slug, o)))
    ensures removed ==> !IsSkillInstalledForAgent(fs, reg, env, slug, agentId, o)
  {
    var found := reg.Get(agentId);
    if found.None? {
      return false;
    }
    var agentPath := AgentSkillPath(env, found.value, slug, o);
    removed := RemoveAgentPath(fs, agentPath, CanonicalSkillPath(env, slug, o));
  }
}
