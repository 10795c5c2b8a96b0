/**
 * Agent descriptors, the process-wide agent registry, batch detection, and the
 * resolvers for the central skill store and the per-agent skill directories.
 */
module Agents {
  import opened Wrappers
  import opened Paths

  datatype ConfigScope = Global | Project
  datatype ConfigPath = ConfigPath(scope: ConfigScope, path: string, filename: string)
  datatype Format = Markdown | Yaml | Json | Custom

  /**
   * An agent descriptor. Its behaviour (`detectInstalled` and the legacy
   * install hooks) is not data: detection is passed to
   * `DetectInstalledAgents` as an oracle.
   */
  datatype Agent = Agent(
    name: string,
    id: string,
    configPaths: seq<ConfigPath>,
    format: Format,
    skillsDir: string,       // relative to the project root
    globalSkillsDir: string  // used verbatim in global mode
  )

  /** What awaiting `agent.detectInstalled()` gives: a boolean, or a rejection. */
  datatype Detection = Resolved(installed: bool) | Rejected

  predicate Distinct(s: seq<string>) {
    forall i, j :: 0 <= i < j < |s| ==> s[i] != s[j]
  }

  /**
   * The key order of a JavaScript `Map` after `set(id, _)`: a new key goes
   * last, an existing key keeps its place.
   */
  function InsertOrder(s: seq<string>, id: string): (r: seq<string>)
    ensures forall x :: x in r <==> x in s || x == id
    ensures |s| <= |r| && r[..|s|] == s
    ensures Distinct(s) ==> Distinct(r)
    ensures id in s ==> r == s
  {
    if id in s then s else s + [id]
  }

  /** The values of a map listed along its key order. */
  function ValuesInOrder(ids: seq<string>, agents: map<string, Agent>): (r: seq<Agent>)
    requires forall k :: k in ids ==> k in agents
    ensures |r| == |ids|
    ensures forall i :: 0 <= i < |ids| ==> r[i] == agents[ids[i]]
  {
    if ids == [] then []
    else ValuesInOrder(ids[..|ids| - 1], agents) + [agents[ids[|ids| - 1]]]
  }

  /** `AGENT_REGISTRY`: a `Map` from id to agent, which remembers insertion order. */
  class AgentRegistry {
    /** The keys, in insertion order. */
    var order: seq<string>
    var agents: map<string, Agent>

    /** Every key is listed once, and each agent is filed under its own id. */
    predicate Valid()
      reads this
    {
      && Distinct(order)
      && (forall k :: k in agents ==> k in order)
      && (forall k :: k in order ==> k in agents)
      && (forall k :: k in agents ==> agents[k].id == k)
    }

    constructor ()
      ensures Valid()
      ensures order == [] && agents == map[]
    {
      order := [];
      agents := map[];
    }

    /** `registerAgent(agent)`: insert, or overwrite in place, under `agent.id`. */
    method Register(a: Agent)
      requires Valid()
      modifies this
      ensures Valid()
      ensures agents == old(agents)[a.id := a]
      ensures order == InsertOrder(old(order), a.id)
      ensures Get(a.id) == Some(a)
      ensures forall id :: id != a.id ==> Get(id) == old(Get(id))
    {
      order := InsertOrder(order, a.id);
      agents := agents[a.id := a];
    }

    /** `AGENT_REGISTRY.clear()`. */
    method Clear()
      modifies this
      ensures Valid()
      ensures AllAgents() == [] && AgentIds() == []
      ensures forall id :: Get(id) == None
    {
      order := [];
      agents := map[];
    }

    /** `getAgent(id)`: `None` stands for `undefined`. */
    function Get(id: string): (r: Option<Agent>)
      reads this
      ensures r.None? <==> id !in agents
      ensures r.Some? ==> r.value == agents[id]
    {
      if id in agents then Some(agents[id]) else None
    }

    /** `getAllAgents()`: the agents in insertion order. */
    function AllAgents(): (r: seq<Agent>)
      requires Valid()
      reads this
      ensures |r| == |order|
      ensures forall i :: 0 <= i < |r| ==> r[i] == agents[order[i]] && r[i].id == order[i]
    {
      ValuesInOrder(order, agents)
    }

    /** `getAgentIds()`: the ids in insertion order, each exactly once. */
    function AgentIds(): (r: seq<string>)
      requires Valid()
      reads this
      ensures Distinct(r)
      ensures forall k :: k in r <==> k in agents
      ensures |r| == |AllAgents()| && forall i :: 0 <= i < |r| ==> r[i] == AllAgents()[i].id
    {
      order
    }
  }

  /** The two listings have equal length and agree position by position. */
  lemma ListingsAgree(reg: AgentRegistry)
    requires reg.Valid()
    ensures |reg.AllAgents()| == |reg.AgentIds()|
    ensures forall i :: 0 <= i < |reg.AgentIds()| ==> reg.AllAgents()[i].id == reg.AgentIds()[i]
  {
  }

  /** Ids among `ids` whose detector resolved to `true`, in the order of `ids`. */
  function Detected(ids: seq<string>, agents: map<string, Agent>, probe: Agent -> Detection): seq<string>
    requires forall k :: k in ids ==> k in agents
  {
    if ids == [] then []
    else
      var last := ids[|ids| - 1];
      Detected(ids[..|ids| - 1], agents, probe) + (if probe(agents[last]) == Resolved(true) then [last] else [])
  }

  /**
   * `detectInstalledAgents()`: probe every registered agent in order; a
   * rejected probe is ignored and does not stop the others.
   */
  method DetectInstalledAgents(reg: AgentRegistry, probe: Agent -> Detection) returns (detected: seq<string>)
    requires reg.Valid()
    ensures detected == Detected(reg.order, reg.agents, probe)
  {
    detected := [];
    var i := 0;
    while i < |reg.order|
      invariant 0 <= i <= |reg.order|
      invariant detected == Detected(reg.order[..i], reg.agents, probe)
    {
      var id := reg.order[i];
      assert reg.order[..i + 1][..i] == reg.order[..i];
      if probe(reg.agents[id]) == Resolved(true) {
        detected := detected + [id];
      }
      i := i + 1;
    }
    assert reg.order[..i] == reg.order;
  }

  /** Exactly the ids whose detector resolved to `true` are reported. */
  lemma {:induction false} DetectedMembers(ids: seq<string>, agents: map<string, Agent>, probe: Agent -> Detection, x: string)
    requires forall k :: k in ids ==> k in agents
    ensures x in Detected(ids, agents, probe) <==> x in ids && probe(agents[x]) == Resolved(true)
    decreases |ids|
  {
    if ids != [] {
      var init := ids[..|ids| - 1];
      DetectedMembers(init, agents, probe, x);
      assert ids == init + [ids[|ids| - 1]];
    }
  }

  /** `a` can be obtained from `b` by deleting elements. */
  predicate SubsequenceOf(a: seq<string>, b: seq<string>)
    decreases |b|
  {
    if a == [] then true
    else if b == [] then false
    else if a[|a| - 1] == b[|b| - 1] then SubsequenceOf(a[..|a| - 1], b[..|b| - 1])
    else SubsequenceOf(a, b[..|b| - 1])
  }

  /** The report lists its ids in registry order, each once. */
  lemma {:induction false} DetectedInOrder(ids: seq<string>, agents: map<string, Agent>, probe: Agent -> Detection)
    requires forall k :: k in ids ==> k in agents
    requires Distinct(ids)
    ensures SubsequenceOf(Detected(ids, agents, probe), ids)
    ensures Distinct(Detected(ids, agents, probe))
    decreases |ids|
  {
    if ids != [] {
      var init := ids[..|ids| - 1];
      var last := ids[|ids| - 1];
      var d := Detected(init, agents, probe);
      DetectedInOrder(init, agents, probe);
      assert last !in init;
      DetectedMembers(init, agents, probe, last);
      if probe(agents[last]) == Resolved(true) {
        assert (d + [last])[..|d|] == d;
        forall i, j | 0 <= i < j < |d + [last]| ensures (d + [last])[i] != (d + [last])[j] {
          if j == |d| {
            assert (d + [last])[i] == d[i];
          }
        }
      } else {
        assert Detected(ids, agents, probe) == d;
        if d != [] {
          DetectedMembers(init, agents, probe, d[|d| - 1]);
        }
      }
    }
  }

  // ---------------------------------------------------------------------
  // Path resolvers.

  /** The process environment the resolvers consult: `os.homedir()` and `process.cwd()`. */
  datatype Env = Env(home: Path, cwd: Path)

  const SKILLHUB_DIR: string := ".skillhub"
  const SKILLS_SUBDIR: string := "skills"

  /** `cwd || process.cwd()`: a missing or empty `cwd` falls back to the process directory. */
  function ProjectRoot(env: Env, cwd: Option<string>): Path {
    if cwd.Some? && cwd.value != "" then Resolve(env.cwd, cwd.value) else env.cwd
  }

  /** `global ? os.homedir() : cwd || process.cwd()`, with `global` defaulting to `true`. */
  function CentralBase(env: Env, global: Option<bool>, cwd: Option<string>): Path {
    if global.None? || global.value then env.home else ProjectRoot(env, cwd)
  }

  /** `getCentralSkillsDir(global = true, cwd)`: `.skillhub/skills` below the base directory. */
  function CentralSkillsDir(env: Env, global: Option<bool>, cwd: Option<string>): (r: Path)
    ensures r == CentralBase(env, global, cwd) + [SKILLHUB_DIR, SKILLS_SUBDIR]
  {
    var base := CentralBase(env, global, cwd);
    JoinComponent(base, SKILLHUB_DIR);
    JoinComponent(base + [SKILLHUB_DIR], SKILLS_SUBDIR);
    Join(Join(base, SKILLHUB_DIR), SKILLS_SUBDIR)
  }

  /** The central store of a normalised environment is normalised. */
  lemma CentralSkillsDirNormal(env: Env, global: Option<bool>, cwd: Option<string>)
    requires Normal(env.home) && Normal(env.cwd)
    ensures Normal(CentralSkillsDir(env, global, cwd))
  {
    var base := CentralBase(env, global, cwd);
    if cwd.Some? && cwd.value != "" {
      ResolveNormal(env.cwd, cwd.value);
    }
    var tail := [SKILLHUB_DIR, SKILLS_SUBDIR];
    assert Normal(tail) by {
      assert tail[0] == SKILLHUB_DIR && tail[1] == SKILLS_SUBDIR;
    }
    NormalConcat(base, tail);
  }

  /** Global mode, explicit or by default, is `<home>/.skillhub/skills`, whatever `cwd` says. */
  lemma CentralSkillsDirGlobal(env: Env, global: Option<bool>, cwd: Option<string>)
    requires global.None? || global.value
    ensures CentralSkillsDir(env, global, cwd) == env.home + [SKILLHUB_DIR, SKILLS_SUBDIR]
  {
  }

  /** Project mode is `<cwd || process.cwd()>/.skillhub/skills`. */
  lemma CentralSkillsDirProject(env: Env, cwd: Option<string>)
    ensures CentralSkillsDir(env, Some(false), cwd) == ProjectRoot(env, cwd) + [SKILLHUB_DIR, SKILLS_SUBDIR]
    ensures cwd.None? || cwd == Some("") ==> CentralSkillsDir(env, Some(false), cwd) == env.cwd + [SKILLHUB_DIR, SKILLS_SUBDIR]
  {
  }

  /** `getSkillCanonicalPath(slug, global, cwd)`: the slug is joined as given, without sanitising. */
  function SkillCanonicalPath(env: Env, slug: string, global: Option<bool>, cwd: Option<string>): Path {
    Join(CentralSkillsDir(env, global, cwd), slug)
  }

  /** A slug that is a single safe component lands one level below the central store. */
  lemma CanonicalPathOfComponent(env: Env, slug: string, global: Option<bool>, cwd: Option<string>)
    requires IsComponent(slug)
    ensures SkillCanonicalPath(env, slug, global, cwd) == CentralSkillsDir(env, global, cwd) + [slug]
  {
    JoinComponent(CentralSkillsDir(env, global, cwd), slug);
  }

  /** Joining ".." onto a directory climbs to its parent, which is not below it. */
  lemma JoinParentDir(dir: Path)
    requires dir != []
    ensures Join(dir, "..") == dir[..|dir| - 1] && !IsPrefix(dir, Join(dir, ".."))
  {
    SplitSingle("..");
    assert Normalize(dir, [".."]) == Normalize(Parent(dir), [".."][1..]);
    assert [".."][1..] == [];
  }

  /** Because the slug is not sanitised here, a slug of ".." escapes the store to `.skillhub`. */
  lemma CanonicalPathEscapes(env: Env, global: Option<bool>, cwd: Option<string>)
    ensures var central := CentralSkillsDir(env, global, cwd);
      SkillCanonicalPath(env, "..", global, cwd) == central[..|central| - 1]
      && !IsPrefix(central, SkillCanonicalPath(env, "..", global, cwd))
  {
    JoinParentDir(CentralSkillsDir(env, global, cwd));
  }

  /** `getAgentSkillsDir(agent, global, cwd)`. */
  function AgentSkillsDir(env: Env, agent: Agent, global: bool, cwd: Option<string>): Path {
    if global then Resolve(env.cwd, agent.globalSkillsDir)
    else Join(ProjectRoot(env, cwd), agent.skillsDir)
  }

  /** Normalising components without ".." never climbs above the base. */
  lemma {:induction false} NormalizeStaysBelow(base: Path, parts: seq<string>)
    requires forall i :: 0 <= i < |parts| ==> parts[i] != ".."
    ensures IsPrefix(base, Normalize(base, parts))
    decreases |parts|
  {
    if parts != [] {
      var next := Step(base, parts[0]);
      assert IsPrefix(base, next);
      NormalizeStaysBelow(next, parts[1..]);
      PrefixTrans(base, next, Normalize(next, parts[1..]));
    }
  }

  /** In project mode an agent directory without ".." lies inside the project root. */
  lemma AgentSkillsDirInProject(env: Env, agent: Agent, cwd: Option<string>)
    requires forall i :: 0 <= i < |Split(agent.skillsDir)| ==> Split(agent.skillsDir)[i] != ".."
    ensures IsPrefix(ProjectRoot(env, cwd), AgentSkillsDir(env, agent, false, cwd))
  {
    NormalizeStaysBelow(ProjectRoot(env, cwd), Split(agent.skillsDir));
  }

  /** In global mode the agent's absolute directory is used as it is: neither `cwd` nor the process directory matter. */
  lemma AgentSkillsDirGlobal(env: Env, agent: Agent, cwd: Option<string>, other: Env)
    requires |agent.globalSkillsDir| > 0 && agent.globalSkillsDir[0] == '/'
    ensures AgentSkillsDir(env, agent, true, cwd) == AgentSkillsDir(other, agent, true, None)
    ensures AgentSkillsDir(env, agent, true, cwd) == Join([], agent.globalSkillsDir)
  {
  }
}
