/** The six capability pools ("agents") and the table describing them: either built
    from the configured `available_agents` entries or, when none is usable, the built-in
    six-entry table. */
module Agents {
  import opened Common

  datatype AgentType =
    | LeadArchitect
    | BackendMaster
    | CliArtisan
    | PlatformBuilder
    | IntegrationSpecialist
    | QaSentinel

  /** The enum member's string value. */
  function Value(a: AgentType): string
  {
    match a
    case LeadArchitect => "lead-architect"
    case BackendMaster => "backend-master"
    case CliArtisan => "cli-artisan"
    case PlatformBuilder => "platform-builder"
    case IntegrationSpecialist => "integration-specialist"
    case QaSentinel => "qa-sentinel"
  }

  /** `AgentType(name)`: the member whose value is `name`; Python raises ValueError
      (here: None) for any other string. */
  function FromValue(name: string): (r: Option<AgentType>)
    ensures r.Some? ==> Value(r.value) == name
  {
    if name == "lead-architect" then Some(LeadArchitect)
    else if name == "backend-master" then Some(BackendMaster)
    else if name == "cli-artisan" then Some(CliArtisan)
    else if name == "platform-builder" then Some(PlatformBuilder)
    else if name == "integration-specialist" then Some(IntegrationSpecialist)
    else if name == "qa-sentinel" then Some(QaSentinel)
    else None
  }

  /** Every member is recovered from its value, so the values are pairwise distinct. */
  lemma FromValueInvertsValue(a: AgentType)
    ensures FromValue(Value(a)) == Some(a)
  {
  }

  /** What the orchestrator knows about one pool. */
  datatype AgentInfo = AgentInfo(name: string, expertise: seq<string>, skillFile: string)

  /** One already-parsed entry of the configured `available_agents` list; a key that is
      absent from the entry is None. A `name` that is not a string is None as well, since
      it is rejected exactly like a missing name. The other three keys are taken to hold
      a string, a list of strings and a string when present. */
  datatype AgentEntry = AgentEntry(
    name: Option<string>,
    role: Option<string>,
    capabilities: Option<seq<string>>,
    skillFile: Option<string>)

  /** `agent_name.replace("-", " ").title()` for the six valid names. */
  function TitledName(a: AgentType): string
  {
    match a
    case LeadArchitect => "Lead Architect"
    case BackendMaster => "Backend Master"
    case CliArtisan => "Cli Artisan"
    case PlatformBuilder => "Platform Builder"
    case IntegrationSpecialist => "Integration Specialist"
    case QaSentinel => "Qa Sentinel"
  }

  /** The pool an entry names, or None when the entry is skipped. */
  function EntryAgent(e: AgentEntry): Option<AgentType>
  {
    FromValue(if e.name.Some? then e.name.value else "")
  }

  /** The table entry built from a configured entry naming pool `a`, with the defaults
      for a missing role, capability list or skill file. */
  function InfoFromEntry(e: AgentEntry, a: AgentType): AgentInfo
  {
    AgentInfo(
      if e.role.Some? then e.role.value else TitledName(a),
      if e.capabilities.Some? then e.capabilities.value else [],
      if e.skillFile.Some? then e.skillFile.value else DefaultSkillFile(a))
  }

  /** `f".claude/skills/agents/{agent_name}.md"`. */
  function DefaultSkillFile(a: AgentType): string
  {
    ".claude/skills/agents/" + Value(a) + ".md"
  }

  /** The built-in table used when no configured entry is usable. */
  function FallbackAgents(): (r: map<AgentType, AgentInfo>)
    ensures |r| == 6
  {
    var r := map[
      LeadArchitect := AgentInfo("Lead Architect", ["architecture", "design", "patterns"],
                                 DefaultSkillFile(LeadArchitect)),
      BackendMaster := AgentInfo("Backend Master", ["api", "database", "business-logic"],
                                 DefaultSkillFile(BackendMaster)),
      CliArtisan := AgentInfo("CLI Artisan", ["cli", "commands", "ux"],
                                 DefaultSkillFile(CliArtisan)),
      PlatformBuilder := AgentInfo("Platform Builder", ["infrastructure", "deployment", "cicd"],
                                 DefaultSkillFile(PlatformBuilder)),
      IntegrationSpecialist := AgentInfo("Integration Specialist", ["apis", "mcp", "webhooks"],
                                 DefaultSkillFile(IntegrationSpecialist)),
      QaSentinel := AgentInfo("QA Sentinel", ["testing", "quality", "review"],
                                 DefaultSkillFile(QaSentinel))
    ];
    assert r.Keys == {LeadArchitect, BackendMaster, CliArtisan, PlatformBuilder,
                      IntegrationSpecialist, QaSentinel};
    r
  }

  /** The built-in table describes every pool, and each pool's skill file is the one a
      configured entry without `skill_file` would get. */
  lemma FallbackCoversEveryPool(a: AgentType)
    ensures a in FallbackAgents()
    ensures FallbackAgents()[a].skillFile == DefaultSkillFile(a)
  {
    match a
    case LeadArchitect =>
    case BackendMaster =>
    case CliArtisan =>
    case PlatformBuilder =>
    case IntegrationSpecialist =>
    case QaSentinel =>
  }

  /** Entry `i` is the last one among the first `k` naming the pool it names. */
  ghost predicate LastNamingBefore(entries: seq<AgentEntry>, i: int, k: int)
    requires 0 <= i < k <= |entries|
  {
    forall j :: i < j < k ==> EntryAgent(entries[j]) != EntryAgent(entries[i])
  }

  /** Some entry among the first `k` names pool `a`. */
  ghost predicate NamedBefore(entries: seq<AgentEntry>, a: AgentType, k: int)
    requires 0 <= k <= |entries|
  {
    exists i :: 0 <= i < k && EntryAgent(entries[i]) == Some(a)
  }

  /** Some entry names pool `a` and yields exactly `info`. */
  ghost predicate ProvidedBy(entries: seq<AgentEntry>, a: AgentType, info: AgentInfo)
  {
    exists i :: 0 <= i < |entries| && EntryAgent(entries[i]) == Some(a) && info == InfoFromEntry(entries[i], a)
  }

  /** What a prefix of the entries provides, the whole list provides. */
  lemma ProvidedByExtends(init: seq<AgentEntry>, entries: seq<AgentEntry>)
    requires init <= entries
    ensures forall a, info :: ProvidedBy(init, a, info) ==> ProvidedBy(entries, a, info)
  {
    forall a, info | ProvidedBy(init, a, info) ensures ProvidedBy(entries, a, info) {
      var i :| 0 <= i < |init| && EntryAgent(init[i]) == Some(a) && info == InfoFromEntry(init[i], a);
      assert entries[i] == init[i];
    }
  }

  /** The map the configured entries build, one entry after the other. */
  function ConfiguredTable(entries: seq<AgentEntry>): (r: map<AgentType, AgentInfo>)
    ensures forall a :: a in r ==> ProvidedBy(entries, a, r[a])
  {
    if entries == [] then map[]
    else
      var init := entries[..|entries| - 1];
      var before := ConfiguredTable(init);
      var e := entries[|entries| - 1];
      ProvidedByExtends(init, entries);
      if EntryAgent(e).Some? then before[EntryAgent(e).value := InfoFromEntry(e, EntryAgent(e).value)]
      else before
  }

  /** The configured table holds exactly the pools some entry names. */
  lemma ConfiguredTableKeys(entries: seq<AgentEntry>)
    ensures forall a :: a in ConfiguredTable(entries) <==> NamedBefore(entries, a, |entries|)
  {
    forall a ensures a in ConfiguredTable(entries) <==> NamedBefore(entries, a, |entries|) {
      ConfiguredTableHas(entries, a);
    }
  }

  /** One pool at a time: it is in the table iff some entry names it. */
  lemma {:induction false} ConfiguredTableHas(entries: seq<AgentEntry>, a: AgentType)
    ensures a in ConfiguredTable(entries) <==> NamedBefore(entries, a, |entries|)
  {
    if entries != [] {
      var n := |entries| - 1;
      var init := entries[..n];
      ConfiguredTableHas(init, a);
      if NamedBefore(init, a, n) {
        var i :| 0 <= i < n && EntryAgent(init[i]) == Some(a);
        assert EntryAgent(entries[i]) == Some(a);
      }
      if NamedBefore(entries, a, |entries|) {
        var i :| 0 <= i < |entries| && EntryAgent(entries[i]) == Some(a);
        if i < n {
          assert EntryAgent(init[i]) == Some(a);
        }
      }
    }
  }

  /** Each pool in the configured table is described by the last entry naming it. */
  lemma {:induction false} ConfiguredTableLastWins(entries: seq<AgentEntry>, i: int)
    requires 0 <= i < |entries| && EntryAgent(entries[i]).Some?
    requires LastNamingBefore(entries, i, |entries|)
    ensures EntryAgent(entries[i]).value in ConfiguredTable(entries)
    ensures ConfiguredTable(entries)[EntryAgent(entries[i]).value]
         == InfoFromEntry(entries[i], EntryAgent(entries[i]).value)
  {
    var n := |entries| - 1;
    if i < n {
      LastNamingInPrefix(entries, i);
      ConfiguredTableLastWins(entries[..n], i);
    }
  }

  /** An entry that is the last to name its pool stays the last in any prefix holding
      it, and the final entry names another pool. */
  lemma LastNamingInPrefix(entries: seq<AgentEntry>, i: int)
    requires 0 <= i < |entries| - 1
    requires LastNamingBefore(entries, i, |entries|)
    ensures entries[..|entries| - 1][i] == entries[i]
    ensures LastNamingBefore(entries[..|entries| - 1], i, |entries| - 1)
    ensures EntryAgent(entries[|entries| - 1]) != EntryAgent(entries[i])
  {
    var n := |entries| - 1;
    var init := entries[..n];
    forall j | i < j < n ensures EntryAgent(init[j]) != EntryAgent(init[i]) {
      assert init[j] == entries[j];
    }
  }

  /** `_load_available_agents`, given the already-parsed `available_agents` list: later
      entries naming the same pool overwrite earlier ones, invalid names are skipped, and
      an empty result falls back on the built-in table. */
  method LoadAvailableAgents(entries: seq<AgentEntry>) returns (agents: map<AgentType, AgentInfo>)
    ensures (forall i :: 0 <= i < |entries| ==> EntryAgent(entries[i]).None?) ==>
              agents == FallbackAgents()
    ensures (exists i :: 0 <= i < |entries| && EntryAgent(entries[i]).Some?) ==>
              && (forall a :: a in agents <==> NamedBefore(entries, a, |entries|))
              && (forall i :: 0 <= i < |entries| && EntryAgent(entries[i]).Some? ==>
                    LastNamingBefore(entries, i, |entries|) ==>
                    var a := EntryAgent(entries[i]).value;
                    a in agents && agents[a] == InfoFromEntry(entries[i], a))
  {
    var agentMap: map<AgentType, AgentInfo> := map[];
    var k := 0;
    while k < |entries|
      invariant 0 <= k <= |entries|
      invariant agentMap == ConfiguredTable(entries[..k])
    {
      assert entries[..k + 1][..k] == entries[..k];
      var parsed := EntryAgent(entries[k]);
      if parsed.Some? {
        agentMap := agentMap[parsed.value := InfoFromEntry(entries[k], parsed.value)];
      }
      k := k + 1;
    }
    assert entries[..k] == entries;
    ConfiguredTableKeys(entries);
    forall i | 0 <= i < |entries| && EntryAgent(entries[i]).Some? && LastNamingBefore(entries, i, |entries|)
      ensures var a := EntryAgent(entries[i]).value;
              a in agentMap && agentMap[a] == InfoFromEntry(entries[i], a)
    {
      ConfiguredTableLastWins(entries, i);
    }
    if agentMap != map[] {
      agents := agentMap;
    } else {
      agents := FallbackAgents();
      if exists i :: 0 <= i < |entries| && EntryAgent(entries[i]).Some? {
        var i :| 0 <= i < |entries| && EntryAgent(entries[i]).Some?;
        assert NamedBefore(entries, EntryAgent(entries[i]).value, |entries|);
      }
    }
  }
}
