# Installation core of the skillhub CLI, in Dafny

This project models the part of the skillhub command-line tool that installs
"skills" (a `SKILL.md` manifest plus supporting files) into the private skill
directories of several AI coding tools ("agents"). It covers:

- the agent registry (`AGENT_REGISTRY`, `registerAgent`, `getAgent`,
  `getAllAgents`, `getAgentIds`), batch detection (`detectInstalledAgents`) and
  the path resolvers (`getCentralSkillsDir`, `getSkillCanonicalPath`,
  `getAgentSkillsDir`) of `src/agents/types.ts`;
- the installer of `src/lib/installer.ts`: the name sanitiser `sanitizeName`,
  the link manager `createSymlink`, the recursive copier `copyDirectory` with its
  exclusion sets, and the five exported operations `installSkillForAgent`,
  `installSkillDirForAgent`, `uninstallSkillForAgent`,
  `isSkillInstalledForAgent` and `createSymlinkToAgent`, with `InstallResult`
  and `InstallMode`.

Files and modules:

- `paths.dfy` — `Wrappers` (an `Option` type) and `Paths`: POSIX paths as
  sequences of components; `path.join`, `path.resolve`, `path.dirname` and
  `path.relative` as total functions on them.
- `sanitizer.dfy` — `Sanitizer`: `sanitizeName` as a chain of pure functions.
- `fs.dfy` — `Fs`: the disk as a map from absolute paths to
  `Dir | File(content) | Link(absolute, parts)`, a link holding its text as an absolute flag and components. Each fs-extra primitive the installer
  calls (ensureDir, writeFile, remove, copy, symlink, lstat, readdir, access)
  is a function from the old map to the new map or the error it throws. The
  class `FileSystem` holds the map as a field, and its methods apply those
  functions in place. Two oracles stand for the environment: `readOnly`, a set
  of subtrees where every change fails with EACCES, and `symlinksSupported`,
  whether the platform lets the process create a link at all.
- `symlink.dfy` — `SymlinkManager`: `createSymlink`, as a method proved
  against a specification function of the old disk.
- `copier.dfy` — `Copier`: `copyDirectory`, as a recursive method with a loop
  over the directory listing. It is proved against `Mirror`, the set of entries
  reached below the source without passing an excluded name, re-rooted at the
  destination.
- `agents.dfy` — `Agents`: the registry as a class whose fields the
  registration method updates, the detection loop, and the resolvers.
- `installer.dfy` — `Installer`: the five entry points as methods over a
  `FileSystem` and an `AgentRegistry`.

`os.homedir()` and `process.cwd()` are the two fields of an `Env` parameter.
Every `await` is one sequential step. Every thrown error becomes an `FsError`
value that the caller either propagates or catches, as the source does.

Three behaviours of the code that are easy to miss, each modelled as written:

- `sanitizeName` is not idempotent once the 255-unit cut fires. The cut comes
  after trimming, so it can leave a trailing space or dot that a second pass
  removes (`SanitizeNameNotIdempotentWhenCut`, `AstralNotIdempotentWhenCut`).
  Without a cut, a second pass changes nothing (`SanitizeNameIdempotent`).
- `createSymlink` swallows a failed removal of the old entry in the same
  `catch` that handles "does not exist", and goes on to create the link.
- After a failed link, a failure of the fallback copy reaches the outer
  `catch` of the entry point, which returns `success: false` with the
  requested mode.

## Model

| member | source | states |
|---|---|---|
| Paths.RelativeRoundTrip | src/lib/installer.ts:70-74 | resolving the link text `relative(dirname(link), target)` against `dirname(link)` gives back `target` |
| Sanitizer.StripForbidden | src/lib/installer.ts:24 | the result holds no `/`, `\`, `:` or NUL and is no longer than the input |
| Sanitizer.TrimStart | src/lib/installer.ts:25 | the result is a suffix of the input that does not start with whitespace or a dot |
| Sanitizer.TrimEnd | src/lib/installer.ts:25 | the result is a prefix of the input that does not end with whitespace or a dot |
| Sanitizer.StripLeadingDots | src/lib/installer.ts:26 | the result is a suffix of the input that does not start with a dot |
| Sanitizer.Untruncated | src/lib/installer.ts:24-30 | definition of steps 1 to 4: strip `/`, `\`, `:` and NUL, trim whitespace and dots at both ends, strip leading dots, fall back to `unnamed-skill`; its contract is stated by `UntruncatedShape` |
| Sanitizer.UntruncatedShape | src/lib/installer.ts:24-30 | `Untruncated`, the name before the length cut, is non-empty, has no forbidden character, and neither starts nor ends with whitespace or a dot |
| Sanitizer.SanitizeName | src/lib/installer.ts:23-37 | definition of the whole function: `Untruncated`, then the cut to the longest prefix of at most 255 UTF-16 code units; its contract is stated by `SanitizeNameIsSafe`, `SanitizeNameIdempotent` and the counterexample lemmas below |
| Sanitizer.SanitizeNameIsSafe | src/lib/installer.ts:23-37 | `SanitizeName` of any input is non-empty, at most 255 UTF-16 code units long, has no `/`, `\`, `:` or NUL, and does not start with a dot or whitespace |
| Sanitizer.SanitizedJoinStaysBelow | src/lib/installer.ts:129-137 | the sanitised name is never `.` or `..`, and joining it onto a directory lands exactly one level below that directory |
| Sanitizer.SanitizeNameIdempotent | src/lib/installer.ts:23-37 | sanitising twice equals sanitising once whenever the name before the cut fits in 255 UTF-16 code units |
| Sanitizer.SanitizeNameNotIdempotentWhenCut | src/lib/installer.ts:32-34 | 254 letters, a space and a letter: the cut leaves a trailing space, so a second pass gives a different name |
| Sanitizer.AstralNotIdempotentWhenCut | src/lib/installer.ts:32-34 | the same with 127 characters outside the Basic Multilingual Plane: the length is counted in code units, 2 per such character |
| Sanitizer.RepeatCutsPair | src/lib/installer.ts:32-34 | more than 127 clean characters of 2 code units each are cut to the first 127 and half a pair, modelled as U+FFFD |
| Sanitizer.SanitizeNameSplitsPair | src/lib/installer.ts:32-34 | an instance: 200 such characters keep 127 and end in U+FFFD |
| Fs.EnsureDirEffect | src/lib/installer.ts:88 | a successful ensureDir leaves the path and its ancestors directories, keeps every old entry, and adds only directories on the path's way to the root |
| Fs.EnsureDirExisting | src/lib/installer.ts:154 | ensureDir on an existing directory changes nothing |
| Fs.WriteFileEffect | src/lib/installer.ts:144 | a successful writeFile stores exactly the file at the path and changes nothing off its line |
| Fs.RemoveEffect | src/lib/installer.ts:294 | remove succeeds exactly when nothing in the subtree is read-only, and then drops exactly that subtree |
| Fs.SymlinkEffect | src/lib/installer.ts:74 | creating a link fails when links are unsupported; on success it adds only the link, at a path that was free |
| Fs.CopyEntryEffect | src/lib/installer.ts:102 | copying a non-directory entry stores the source node at the destination and changes nothing else |
| Fs.RelativeLinkResolves | src/lib/installer.ts:70-74 | a link created from the relative text resolves to its target |
| Fs.FileSystem.Access | src/lib/installer.ts:320 | a path that access accepts exists on the disk |
| Fs.FileSystem.Lstat | src/lib/installer.ts:53 | lstat finds an entry exactly when one is stored at the path |
| Fs.EnsureDirSucceeds | src/lib/installer.ts:88 | ensureDir succeeds exactly when every stored entry on the way to the path is a directory and, if the path is missing, it lies outside the read-only subtrees |
| Fs.FileSystem.ReadDir | src/lib/installer.ts:90 | readdir lists a path exactly when it is a directory, and then lists exactly the names stored one level below it |
| SymlinkManager.CreateSymlinkSpec | src/lib/installer.ts:42-79 | definition of the decision tree as a function of the old disk, returning the flag and the new disk; `CreateSymlink` is proved equal to it, and its properties are stated by the `CreateSymlink*` lemmas below |
| SymlinkManager.CreateSymlink | src/lib/installer.ts:42-79 | the returned flag and the new disk are those of `CreateSymlinkSpec`: equal paths or a link already resolving to the target succeed unchanged; otherwise the old entry is removed (a failed removal ignored), the parent ensured and the relative link created; any failure gives `false` |
| SymlinkManager.CreateSymlinkIntoParent | src/lib/installer.ts:70-77 | a link onto the link path's own parent has empty relative text, so it is never created |
| SymlinkManager.CreateSymlinkFrame | src/lib/installer.ts:51-74 | the call changes nothing off the link path's line and keeps the disk tree-shaped |
| SymlinkManager.CreateSymlinkLinks | src/lib/installer.ts:42-79 | a reported success means the link path now resolves to the target |
| SymlinkManager.CreateSymlinkSatisfied | src/lib/installer.ts:47-58 | when the resolved paths are equal, or an existing link already resolves to the target, the call returns true and changes nothing |
| SymlinkManager.CreateSymlinkIdempotent | src/lib/installer.ts:42-79 | a second call right after a successful one succeeds and leaves the disk as the first call left it |
| SymlinkManager.CreateSymlinkUnsupported | src/lib/installer.ts:72-77 | when links cannot be created, the call succeeds exactly when the link is already in place |
| Copier.Mirror | src/lib/installer.ts:84-105 | definition of what the walk writes: every entry reached below the source without passing an excluded name, re-rooted at the destination; its properties are stated by the three lemmas below and it is the success outcome of `CopyDirectory` |
| Copier.MirrorSkipsExcluded | src/lib/installer.ts:84-94 | no entry of `Mirror` carries a name from `EXCLUDE_FILES`, and no copied directory a name from `EXCLUDE_DIRS` |
| Copier.MirrorCopiesReached | src/lib/installer.ts:92-104 | every entry reached below the source without passing an excluded name is copied, node for node, to the same relative place below the destination |
| Copier.MirrorFromReached | src/lib/installer.ts:92-104 | everything `Mirror` holds comes from such a reached entry of the source |
| Copier.CopyIntoShaped | src/lib/installer.ts:87-105 | a completed copy keeps the disk tree-shaped and changes nothing off the destination's line |
| Copier.CopyIntoFresh | src/lib/installer.ts:87-105 | copying a source directory off the destination's line into a missing or empty destination on a writable line, with the directories on its way in place, runs to completion |
| Copier.MirrorOfStep | src/lib/installer.ts:93-103 | handling one more child adds nothing for a skipped name, the child itself and the copy of its subtree otherwise |
| Copier.CopyDirectory | src/lib/installer.ts:87-105 | succeeds exactly when `CopyOk` holds of the old disk (every ensureDir and copy step of the walk succeeds), and then the disk is the old disk with the destination ensured plus `Mirror` of the source; changes stay on the destination's line |
| Copier.CopyChildren | src/lib/installer.ts:92-104 | the loop over the listing succeeds exactly when every child's step can succeed, and then has added `Mirror` of the source below the destination |
| Copier.CopyChild | src/lib/installer.ts:93-103 | one iteration succeeds exactly when its step can: an excluded entry is skipped, a directory recursed into, anything else copied; on success the child's part of `Mirror` is added |
| Agents.InsertOrder | src/agents/types.ts:47-49 | a new id goes last, an existing id keeps its place, and the ids stay distinct |
| Agents.ValuesInOrder | src/agents/types.ts:55-57 | the values are listed position by position along the key order |
| Agents.AgentRegistry.Register | src/agents/types.ts:47-49 | the agent is filed under its id, replacing any earlier one there; `Get(a.id)` returns it and every other id is unaffected |
| Agents.AgentRegistry.Clear | src/agents/types.ts:45 | after `clear` both listings are empty and no id is found |
| Agents.AgentRegistry.Get | src/agents/types.ts:51-53 | `undefined` exactly for an unregistered id, otherwise the agent registered under it |
| Agents.AgentRegistry.AllAgents | src/agents/types.ts:55-57 | one agent per registered id, in insertion order, each under its own id |
| Agents.AgentRegistry.AgentIds | src/agents/types.ts:59-61 | every registered id exactly once, in insertion order: position by position the ids of `AllAgents` |
| Agents.ListingsAgree | src/agents/types.ts:55-61 | the two listings have equal length and agree position by position |
| Agents.Detected | src/agents/types.ts:66-78 | definition of the report: the ids, in registry order, whose detector resolved to true; `DetectInstalledAgents` is proved to return it, and `DetectedMembers` and `DetectedInOrder` state what it holds |
| Agents.DetectInstalledAgents | src/agents/types.ts:66-78 | the loop returns the registry-order report of the ids whose detector resolved to true |
| Agents.DetectedMembers | src/agents/types.ts:66-78 | in `Detected`, an id is reported exactly when it is registered and its detector resolved to true; a rejected detector only drops its own id |
| Agents.DetectedInOrder | src/agents/types.ts:66-78 | the report is a subsequence of the registry order and lists no id twice |
| Agents.CentralSkillsDir | src/agents/types.ts:83-86 | the store is `.skillhub/skills` below the base directory |
| Agents.CentralSkillsDirGlobal | src/agents/types.ts:83-85 | in global mode, explicit or by default, the store is below the home directory, whatever `cwd` says |
| Agents.CentralSkillsDirProject | src/agents/types.ts:83-85 | in project mode the store is below `cwd`, or below the process directory when `cwd` is missing or empty |
| Agents.CentralSkillsDirNormal | src/agents/types.ts:83-86 | the store of an absolute, normalised environment is absolute and normalised |
| Agents.SkillCanonicalPath | src/agents/types.ts:88-90 | definition: `path.join` of the central store and the unsanitised slug; stated by `CanonicalPathOfComponent` and `CanonicalPathEscapes` |
| Agents.CanonicalPathOfComponent | src/agents/types.ts:88-90 | in `SkillCanonicalPath`, a slug that is one plain component lands one level below the store |
| Agents.CanonicalPathEscapes | src/agents/types.ts:88-90 | the slug is not sanitised there: `..` resolves to the parent of the store |
| Agents.AgentSkillsDir | src/agents/types.ts:92-97 | definition: the agent's global directory resolved, or its project directory joined onto the project root; stated by `AgentSkillsDirInProject` and `AgentSkillsDirGlobal` |
| Agents.AgentSkillsDirInProject | src/agents/types.ts:92-97 | `AgentSkillsDir`: in project mode an agent directory without `..` lies inside the project root |
| Agents.AgentSkillsDirGlobal | src/agents/types.ts:92-95 | in global mode the agent's absolute directory is used as it is, independent of `cwd` and the process directory |
| Installer.CanonicalSkillPath | src/lib/installer.ts:132-133 | the canonical path is the store of the requested scope plus the sanitised name |
| Installer.AgentSkillPath | src/lib/installer.ts:136-137 | the agent path is the agent's skills directory plus the sanitised name |
| Installer.CanonicalSkillPathNormal | src/lib/installer.ts:132-133 | the canonical path is absolute and normalised |
| Installer.PlaceSucceeds | src/lib/installer.ts:141-143 | ensureDir then writeFile of `SKILL.md` succeeds exactly when the directories on the way are in place and `SKILL.md` is missing or a regular file outside the read-only subtrees |
| Installer.PlaceFrame | src/lib/installer.ts:141-143 | the two steps keep the disk tree-shaped, change nothing off the directory's line, and on success leave `SKILL.md` with the content |
| Installer.PlaceSkillFile | src/lib/installer.ts:141-143 | the error and the new disk are those of `PlaceSpec`, the two steps stopping at the first failure; on success the directory holds `SKILL.md` with the content |
| Installer.FileCopiedSucceeds | src/lib/installer.ts:140-150 | the copy-mode install succeeds exactly when the disk admits `SKILL.md` at the agent path |
| Installer.EmptyDiskInstalls | src/lib/installer.ts:140-185 | on an empty disk with nothing read-only, a file install succeeds in copy mode, and in symlink mode whenever the canonical and agent paths are separate |
| Installer.FallbackClears | src/lib/installer.ts:159-165 | after a failed link, sweeping an agent path on a writable line whose way holds directories leaves nothing at or below it, keeps those directories and changes nothing off its line |
| Installer.FileLinkedSucceeds | src/lib/installer.ts:153-185 | a symlink-mode success means the canonical directory admitted `SKILL.md`; conversely, with the agent path off the canonical line, its way in place and writable, the install succeeds by the link or the fallback copy |
| Installer.FallbackCopies | src/lib/installer.ts:243-249 | after a failed link, the fallback copy of a source directory off the agent path's line runs to completion, when that line is writable and its way holds directories |
| Installer.CanonicalFilled | src/lib/installer.ts:237-238 | with a source directory off the canonical line, the agent path off it too, and the directories on both ways in place, filling a missing or empty canonical directory on a writable line runs to completion and changes nothing off its line |
| Installer.DirLinkedSucceeds | src/lib/installer.ts:236-264 | the symlink-mode directory install succeeds when the source is a directory off both lines, the canonical and agent paths are off each other's line, the canonical directory is missing or empty, and both lines are writable with the directories on their ways in place |
| Installer.LinkToAgentSucceeds | src/lib/installer.ts:331-362 | `createSymlinkToAgent` succeeds when the central directory exists off the agent path's line and that line is writable with its way in place |
| Installer.IsSkillInstalledForAgent | src/lib/installer.ts:304-325 | false for an unknown agent; otherwise true exactly when the agent path is accessible |
| Installer.InstallFileCopied | src/lib/installer.ts:140-151 | the result and the new disk are those of `FileCopiedSpec`; changes stay on the agent path's line; success means `SKILL.md` with the content sits at the agent path, no canonical path is reported and the result is the fixed copy-mode success; a failure reports the error with the agent path and copy mode |
| Installer.InstallFileLinked | src/lib/installer.ts:153-185 | the result and the new disk are those of `FileLinkedSpec` (canonical file, link, swept agent path and second file); on success, with the canonical and agent paths off each other's line, the canonical directory holds `SKILL.md`; success means a link to it, or after a failed link an independent copy with `symlinkFailed`; on success without link support, with separate paths and no link already in place, the fallback was taken |
| Installer.InstallSkillForAgent | src/lib/installer.ts:110-194 | unknown agent: the fixed failure result and no change; a known agent gets the result and disk of `InstallFileSpec`; copy mode writes only on the agent path's line and returns no canonical path; symlink mode as `InstallFileLinked`; any other error gives `success: false`, the agent path and the requested mode |
| Installer.InstallDirLinked | src/lib/installer.ts:236-264 | success and, on success, the result and disk are those of `DirLinkedSpec`; on success, with the canonical and agent paths off each other's line, the canonical directory holds the mirror of the source; success means a link to it, or after a failed link a mirror at the agent path with `symlinkFailed`; on success without link support, with separate paths and no link already in place, the fallback was taken |
| Installer.InstallSkillDirForAgent | src/lib/installer.ts:199-273 | success and, on success, the result and disk are those of `InstallDirSpec`; otherwise as `InstallSkillForAgent`, with the mirror of the source directory in place of one `SKILL.md` |
| Installer.CreateSymlinkToAgent | src/lib/installer.ts:331-370 | success and, on success, the result and disk are those of `LinkToAgentSpec`; changes stay on the agent path's line; success always reports the central directory as canonical path, with a link to it or a mirror of it |
| Installer.RemoveAgentPath | src/lib/installer.ts:293-298 | removal succeeds exactly when nothing in the agent path's subtree is read-only; it then drops exactly that subtree, and otherwise changes nothing |
| Installer.UninstallSkillForAgent | src/lib/installer.ts:278-299 | false and no change for an unknown agent; otherwise false exactly when removal fails, and on success only the agent path's subtree is gone and the skill is no longer installed; when the canonical and agent paths are off each other's line, the canonical copy is untouched |

## Left out

- The legacy per-agent `install`, `uninstall` and `isInstalled` hooks and the concrete agent descriptors are not part of this model. An agent's `detectInstalled` is an oracle parameter of `DetectInstalledAgents` that resolves to a boolean or rejects.
- The `win32` junction branch is not distinguished: whether link creation works at all is the single flag `symlinksSupported`.
- The model does not follow symbolic links in the middle of a path, and `ensureDir` and `writeFile` do not follow a link at the path itself. They report ENOTDIR or ELOOP where Node would write through the link. `access` follows one link hop.
- Installer.IsSkillInstalledForAgent: a link to a link counts as accessible when the first target exists, without following further hops.
- Copier.CopyDirectory: a source and destination on one line are refused with ELOOP and no change. This is narrower than the code for two of the three cases. A destination strictly inside the source would recurse into its own output. But the code accepts the other two. With equal paths it walks the tree, fails on the first file that is not excluded (fs-extra refuses to copy a file onto itself), and succeeds when there is none. A source inside the destination (`copyDirectory('/a/b', '/a')`) is copied normally. The refusal is what makes the model's recursion terminate.
- Copier.CopyDirectory: the order of `readdir` is not modelled; children are taken in any order. On failure the contract states only that changes stay on the destination's line, not which partial copies remain.
- Installer.InstallSkillDirForAgent: for the same reason a failed directory install is only framed (changes stay on the two lines), not pinned to one disk; a success is pinned exactly.
- Fs.FileSystem.ReadDir: a link to a directory is not listed (the model reports ENOTDIR), while Node's `readdir` follows the link.
- Fs.FileSystem.EnsureDir: all or nothing. A failure leaves the disk unchanged, while `mkdir -p` keeps the directories it made before the failing one.
- Fs.FileSystem.Remove: all or nothing. A failure leaves the disk unchanged, while `rm -rf` keeps the deletions it made before the failing entry.
- Installer.UninstallSkillForAgent: its promise that a failed removal changes nothing rests on that all-or-nothing removal; in Node a failed removal may have deleted part of the subtree.
- Installer.InstallFileCopied: `ensureDir` and `writeFile` refuse a link at or above the agent path (ENOTDIR or ELOOP), while Node writes through it, so a copy-mode install onto a stale link fails in the model.
- Installer.InstallSkillForAgent: the same refusal applies to the copy-mode branch and to the fallback after a failed link.
- Installer.InstallSkillDirForAgent: the same refusal applies to the copy walk, at the agent path and at the canonical path. A `sourceDir` that is a link to a directory is refused as well (see `Fs.FileSystem.ReadDir`), where the code copies the linked directory.
- Installer.CreateSymlinkToAgent: paths are the resolved component paths, not the strings the code returns. The code reports `centralSkillDir` and `agentSkillPath` exactly as given, so a relative argument comes back relative; the model reports them resolved against `cwd`.
- Agents.CentralSkillsDir and Agents.AgentSkillsDir: they return absolute component paths, a relative `cwd` argument resolved against the process directory, while `getCentralSkillsDir` and `getAgentSkillsDir` return `path.join` strings that stay relative for a relative `cwd`.
- Installer.InstallSkillForAgent: the reported `path` and `canonicalPath` are absolute component paths, a relative `cwd` option resolved against the process directory. The code's strings come from `path.join` and stay relative when the `cwd` option is relative. The same holds for `Installer.InstallSkillDirForAgent` and its `sourceDir`.
- Sanitizer.SanitizeName: a cut inside a surrogate pair keeps the lone high surrogate in JavaScript; the model's characters are code points, so that half pair is written as U+FFFD. The length in UTF-16 code units is the same.
- Installer.InstallSkillForAgent: the canonical content and the accessibility of the agent path are stated only when the canonical path and the agent path are not on one line, that is when neither is an ancestor of the other.
- Installer.InstallSkillDirForAgent: the canonical mirror is stated only when the canonical path and the agent path are not on one line.
- Error messages are one fixed string per error code. Node's messages also name the system call and the path.
- Paths are POSIX only: Windows separators and drive letters are not modelled. `path.resolve` uses the `cwd` field of `Env`, and `os.homedir()` is its `home` field.
- File contents are strings. The UTF-8 encoding that `writeFile` applies is not modelled.
- The empty `path: ''` reported for an unknown agent is `None`.
- `AGENT_REGISTRY` is a registry object passed to the operations, not a module-level global.
- The HTTP client, the command layer, the local manifest of installed skills and archive extraction are outside the installation core.
