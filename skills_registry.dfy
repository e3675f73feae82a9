/// The skill registry: the skill cache by id and its two secondary indexes,
/// slash-command name to skill id and hook trigger to the ids registered
/// for it, in registration order.
module SkillsRegistry {
  import opened Common
  import opened SkillTypes

  /** The three maps, as one value. */
  datatype RegistryState = RegistryState(
    skills: map<string, Skill>,
    slashCommands: map<string, string>,
    hooks: map<string, seq<string>>)

  const EmptyRegistry := RegistryState(map[], map[], map[])

  /** Every skill is cached under its own id. */
  predicate Keyed(st: RegistryState)
  {
    forall id :: id in st.skills ==> st.skills[id].id == id
  }

  /** The slash-command name a skill is indexed under: only a SlashCommand
      with its configuration has one. */
  function SlashName(skill: Skill): Option<string>
  {
    if skill.kind == SlashCommand && skill.config.slashCommand.Some? then Some(skill.config.slashCommand.value.name)
    else None
  }

  /** The hook-index key a skill is filed under: only a Hook with its
      configuration has one. */
  function HookKey(skill: Skill): Option<string>
  {
    if skill.kind == Hook && skill.config.hook.Some? then Some(TriggerKey(skill.config.hook.value.trigger)) else None
  }

  /** The ids filed under `key`, none when the key was never used. */
  function HookIds(hooks: map<string, seq<string>>, key: string): seq<string>
  {
    if key in hooks then hooks[key] else []
  }

  /** `retain(|x| x != id)`: the ids other than `id`, in their order. */
  function Without(ids: seq<string>, id: string): (r: seq<string>)
    ensures forall x :: x in r <==> x in ids && x != id
    ensures |r| <= |ids|
  {
    if ids == [] then []
    else (if ids[0] == id then [] else [ids[0]]) + Without(ids[1..], id)
  }

  /** Removing an id from a list and the list with more ids appended. */
  lemma {:induction false} WithoutAppend(a: seq<string>, b: seq<string>, id: string)
    ensures Without(a + b, id) == Without(a, id) + Without(b, id)
  {
    if a != [] {
      assert (a + b)[0] == a[0] && (a + b)[1..] == a[1..] + b;
      WithoutAppend(a[1..], b, id);
    } else {
      assert a + b == b;
    }
  }

  /** Removing an id that is not listed changes nothing. */
  lemma {:induction false} WithoutAbsent(ids: seq<string>, id: string)
    requires id !in ids
    ensures Without(ids, id) == ids
  {
    if ids != [] {
      WithoutAbsent(ids[1..], id);
      assert ids == [ids[0]] + ids[1..];
    }
  }

  /** The cached skills `ids` names, in the order named, skipping ids no
      longer cached. */
  function StoredSkills(skills: map<string, Skill>, ids: seq<string>): (r: seq<Skill>)
    ensures |r| <= |ids|
    ensures forall i :: 0 <= i < |r| ==> r[i] in skills.Values
  {
    if ids == [] then []
    else
      var last := ids[|ids| - 1];
      StoredSkills(skills, ids[..|ids| - 1]) + (if last in skills then [skills[last]] else [])
  }

  /** Looking up a longer list looks up its two parts in turn. */
  lemma {:induction false} StoredSkillsAppend(skills: map<string, Skill>, a: seq<string>, b: seq<string>)
    ensures StoredSkills(skills, a + b) == StoredSkills(skills, a) + StoredSkills(skills, b)
    decreases |b|
  {
    if b == [] {
      assert a + b == a;
    } else {
      assert (a + b)[..|a + b| - 1] == a + b[..|b| - 1];
      StoredSkillsAppend(skills, a, b[..|b| - 1]);
    }
  }

  /** When every id is cached, the lookup gives each one's skill, in order. */
  lemma {:induction false} StoredSkillsAllCached(skills: map<string, Skill>, ids: seq<string>)
    requires forall i :: 0 <= i < |ids| ==> ids[i] in skills
    ensures |StoredSkills(skills, ids)| == |ids|
    ensures forall i :: 0 <= i < |ids| ==> StoredSkills(skills, ids)[i] == skills[ids[i]]
  {
    if ids != [] {
      var n := |ids| - 1;
      var init := ids[..n];
      assert forall i :: 0 <= i < n ==> init[i] == ids[i];
      StoredSkillsAllCached(skills, init);
      assert StoredSkills(skills, ids) == StoredSkills(skills, init) + [skills[ids[n]]];
    }
  }

  /** An id that is not cached never comes back from a lookup. */
  lemma {:induction false} StoredSkillsSkipUncached(skills: map<string, Skill>, ids: seq<string>, id: string)
    requires forall x :: x in skills ==> skills[x].id == x
    requires id !in skills
    ensures forall i :: 0 <= i < |StoredSkills(skills, ids)| ==> StoredSkills(skills, ids)[i].id != id
  {
    forall i | 0 <= i < |StoredSkills(skills, ids)| ensures StoredSkills(skills, ids)[i].id != id {
      assert StoredSkills(skills, ids)[i] in skills.Values;
      var x :| x in skills && skills[x] == StoredSkills(skills, ids)[i];
    }
  }

  /** `register_skill`: the skill is cached under its id; a SlashCommand
      with its configuration is indexed by command name, and a Hook with its
      configuration has its id appended to its trigger's list. */
  function Register(st: RegistryState, skill: Skill): (r: RegistryState)
    ensures SlashName(skill).None? ==> r.slashCommands == st.slashCommands
    ensures HookKey(skill).None? ==> r.hooks == st.hooks
  {
    var slash := match SlashName(skill)
      case Some(name) => st.slashCommands[name := skill.id]
      case None => st.slashCommands;
    var hooks := match HookKey(skill)
      case Some(key) => st.hooks[key := HookIds(st.hooks, key) + [skill.id]]
      case None => st.hooks;
    RegistryState(st.skills[skill.id := skill], slash, hooks)
  }

  /** `unregister_skill`: a cached skill leaves the cache, its command name
      leaves the slash index and its id leaves its trigger's list; an
      unknown id changes nothing. */
  function Unregister(st: RegistryState, id: string): (r: RegistryState)
    ensures id !in st.skills ==> r == st
    ensures id !in r.skills && r.skills == st.skills - {id}
  {
    if id !in st.skills then st
    else
      var skill := st.skills[id];
      var slash := match SlashName(skill)
        case Some(name) => st.slashCommands - {name}
        case None => st.slashCommands;
      var hooks := match HookKey(skill)
        case Some(key) => if key in st.hooks then st.hooks[key := Without(st.hooks[key], id)] else st.hooks
        case None => st.hooks;
      RegistryState(st.skills - {id}, slash, hooks)
  }

  /** `get_skill`. */
  function GetSkill(st: RegistryState, id: string): (r: Option<Skill>)
    ensures r.Some? <==> id in st.skills
    ensures Keyed(st) && r.Some? ==> r.value.id == id
  {
    if id in st.skills then Some(st.skills[id]) else None
  }

  /** `get_slash_command`: a skill only when the name is indexed and the
      indexed id is still cached. */
  function GetSlashCommand(st: RegistryState, name: string): (r: Option<Skill>)
    ensures r.Some? <==> name in st.slashCommands && st.slashCommands[name] in st.skills
    ensures r.Some? ==> r.value == st.skills[st.slashCommands[name]]
  {
    if name in st.slashCommands && st.slashCommands[name] in st.skills then Some(st.skills[st.slashCommands[name]])
    else None
  }

  /** `get_hooks_for_trigger`: the cached skills filed under the key, in
      registration order. */
  function GetHooksForTrigger(st: RegistryState, key: string): (r: seq<Skill>)
    ensures |r| <= |HookIds(st.hooks, key)|
  {
    StoredSkills(st.skills, HookIds(st.hooks, key))
  }

  /** After registering, the skill is found by id, by its command name and
      as the last hook of its trigger; the cache stays keyed by id. */
  lemma RegisterFinds(st: RegistryState, skill: Skill)
    requires Keyed(st)
    ensures var r := Register(st, skill);
      Keyed(r) && GetSkill(r, skill.id) == Some(skill)
      && (SlashName(skill).Some? ==> GetSlashCommand(r, SlashName(skill).value) == Some(skill))
      && (HookKey(skill).Some? ==>
            var hs := GetHooksForTrigger(r, HookKey(skill).value);
            |hs| > 0 && hs[|hs| - 1] == skill)
  {
    var r := Register(st, skill);
    if HookKey(skill).Some? {
      var key := HookKey(skill).value;
      StoredSkillsAppend(r.skills, HookIds(st.hooks, key), [skill.id]);
    }
  }

  /** After unregistering, no lookup returns a skill with that id. */
  lemma UnregisterForgets(st: RegistryState, id: string)
    requires Keyed(st)
    ensures var r := Unregister(st, id);
      Keyed(r) && GetSkill(r, id).None?
      && (forall name :: GetSlashCommand(r, name).Some? ==> GetSlashCommand(r, name).value.id != id)
      && (forall key, i :: 0 <= i < |GetHooksForTrigger(r, key)| ==> GetHooksForTrigger(r, key)[i].id != id)
  {
    var r := Unregister(st, id);
    forall key ensures forall i :: 0 <= i < |GetHooksForTrigger(r, key)| ==> GetHooksForTrigger(r, key)[i].id != id {
      StoredSkillsSkipUncached(r.skills, HookIds(r.hooks, key), id);
    }
  }

  /** Registering a skill whose id, command name and hook entry are all new,
      then unregistering it, restores the cache and the slash index, and
      every trigger lists the same ids as before. */
  lemma RegisterUnregisterRoundTrip(st: RegistryState, skill: Skill)
    requires skill.id !in st.skills
    requires SlashName(skill).Some? ==> SlashName(skill).value !in st.slashCommands
    requires HookKey(skill).Some? ==> skill.id !in HookIds(st.hooks, HookKey(skill).value)
    ensures var r := Unregister(Register(st, skill), skill.id);
      r.skills == st.skills && r.slashCommands == st.slashCommands
      && forall key :: HookIds(r.hooks, key) == HookIds(st.hooks, key)
  {
    var mid := Register(st, skill);
    assert mid.skills[skill.id] == skill;
    if HookKey(skill).Some? {
      var key := HookKey(skill).value;
      WithoutAppend(HookIds(st.hooks, key), [skill.id], skill.id);
      WithoutAbsent(HookIds(st.hooks, key), skill.id);
      assert Without([skill.id], skill.id) == [];
    }
  }

  /** Registering the same hook skill twice, as saving it again does, files
      its id twice, so its trigger lists it twice. */
  lemma RegisterAgainRepeatsHook(st: RegistryState, skill: Skill)
    requires HookKey(skill).Some?
    ensures var key := HookKey(skill).value;
      var r := Register(Register(st, skill), skill);
      var hs := GetHooksForTrigger(r, key);
      HookIds(r.hooks, key) == HookIds(st.hooks, key) + [skill.id, skill.id]
      && |hs| >= 2 && hs[|hs| - 2] == skill && hs[|hs| - 1] == skill
  {
    var key := HookKey(skill).value;
    var r := Register(Register(st, skill), skill);
    var ids := HookIds(st.hooks, key);
    assert HookIds(r.hooks, key) == ids + [skill.id] + [skill.id];
    StoredSkillsAppend(r.skills, ids + [skill.id], [skill.id]);
    StoredSkillsAppend(r.skills, ids, [skill.id]);
  }

  /** The listings: every skill, those of one kind, or those a project can
      see. */
  datatype Query = AllSkills | OfKind(kind: SkillKind) | ForProject(path: string)

  /** A project sees the global skills and the skills scoped to its path. */
  predicate Selects(q: Query, s: Skill)
  {
    match q
    case AllSkills => true
    case OfKind(kind) => s.kind == kind
    case ForProject(path) => s.visibility == Global || s.projectPath == Some(path)
  }

  function SelectedIds(skills: map<string, Skill>, q: Query): (ids: set<string>)
    ensures ids <= skills.Keys
    ensures forall id :: id in ids <==> id in skills && Selects(q, skills[id])
  {
    set id | id in skills && Selects(q, skills[id])
  }

  /** The ids of the cached skills of one kind. */
  function KindIds(skills: map<string, Skill>, kind: SkillKind): set<string>
  {
    set id | id in skills && skills[id].kind == kind
  }

  /** How many of the listed ids name skills of the kind. */
  function KindCount(skills: map<string, Skill>, ids: seq<string>, kind: SkillKind): nat
    requires forall i :: 0 <= i < |ids| ==> ids[i] in skills
  {
    if ids == [] then 0
    else KindCount(skills, ids[..|ids| - 1], kind) + (if skills[ids[|ids| - 1]].kind == kind then 1 else 0)
  }

  /** Counting along a listing without repeats counts the skills of the kind
      among the listed ids. */
  lemma {:induction false} KindCountOfListing(skills: map<string, Skill>, ids: seq<string>, kind: SkillKind)
    requires DistinctIds(ids) && forall i :: 0 <= i < |ids| ==> ids[i] in skills
    ensures KindCount(skills, ids, kind) == |KindIds(skills, kind) * IdSet(ids)|
  {
    if ids == [] {
      assert KindIds(skills, kind) * IdSet(ids) == {};
    } else {
      var n := |ids| - 1;
      var init := ids[..n];
      IdSetStep(ids, n);
      assert init + [ids[n]] == ids;
      KindCountOfListing(skills, init, kind);
      CountOneMore(KindIds(skills, kind), IdSet(init), ids[n]);
    }
  }

  /** One more member not seen before counts once if it is of interest. */
  lemma CountOneMore(interesting: set<string>, seen: set<string>, x: string)
    requires x !in seen
    ensures |interesting * (seen + {x})| == |interesting * seen| + (if x in interesting then 1 else 0)
  {
    if x in interesting {
      assert interesting * (seen + {x}) == interesting * seen + {x};
    } else {
      assert interesting * (seen + {x}) == interesting * seen;
    }
  }

  /** `counts` holds, for each kind met along `ids`, how many of the listed
      skills have it. */
  ghost predicate Tallied(counts: map<SkillKind, nat>, skills: map<string, Skill>, ids: seq<string>)
  {
    (forall i :: 0 <= i < |ids| ==> ids[i] in skills)
    && (forall k :: k in counts <==> KindCount(skills, ids, k) > 0)
    && (forall k :: k in counts ==> counts[k] == KindCount(skills, ids, k))
  }

  /** One turn of `count_by_kind`: the next skill's kind counts once more. */
  method TallyNext(counts: map<SkillKind, nat>, skills: map<string, Skill>, ids: seq<string>, i: nat)
    returns (next: map<SkillKind, nat>)
    requires i < |ids| && (forall j :: 0 <= j < |ids| ==> ids[j] in skills)
    requires Tallied(counts, skills, ids[..i])
    ensures Tallied(next, skills, ids[..i + 1])
  {
    var prefix := ids[..i + 1];
    assert prefix[..i] == ids[..i];
    var kind := skills[ids[i]].kind;
    next := counts[kind := if kind in counts then counts[kind] + 1 else 1];
    forall k ensures KindCount(skills, prefix, k) == KindCount(skills, ids[..i], k) + (if k == kind then 1 else 0) {
    }
  }

  class SkillRegistry {
    var skills: map<string, Skill>
    var slashCommands: map<string, string>
    var hooks: map<string, seq<string>>

    function State(): RegistryState
      reads this
    {
      RegistryState(skills, slashCommands, hooks)
    }

    ghost predicate Valid()
      reads this
    {
      Keyed(State())
    }

    /** A new registry caches nothing and indexes nothing. */
    constructor ()
      ensures State() == EmptyRegistry && Valid()
    {
      skills := map[];
      slashCommands := map[];
      hooks := map[];
    }

    method RegisterSkill(skill: Skill)
      requires Valid()
      modifies this
      ensures Valid() && State() == Register(old(State()), skill)
    {
      match SlashName(skill) {
        case Some(name) => slashCommands := slashCommands[name := skill.id];
        case None =>
      }
      match HookKey(skill) {
        case Some(key) => hooks := hooks[key := HookIds(hooks, key) + [skill.id]];
        case None =>
      }
      skills := skills[skill.id := skill];
    }

    method UnregisterSkill(id: string)
      requires Valid()
      modifies this
      ensures Valid() && State() == Unregister(old(State()), id)
    {
      if id in skills {
        var skill := skills[id];
        skills := skills - {id};
        match SlashName(skill) {
          case Some(name) => slashCommands := slashCommands - {name};
          case None =>
        }
        match HookKey(skill) {
          case Some(key) =>
            if key in hooks {
              hooks := hooks[key := Without(hooks[key], id)];
            }
          case None =>
        }
      }
    }

    /** `list_all_skills`, `list_skills_by_kind` and `list_project_skills`:
        exactly the cached skills the query selects, each once. */
    method ListSkills(q: Query) returns (r: seq<Skill>)
      requires Valid()
      ensures |r| == |SelectedIds(skills, q)|
      ensures forall i :: 0 <= i < |r| ==> r[i].id in skills && skills[r[i].id] == r[i] && Selects(q, r[i])
      ensures forall i, j :: 0 <= i < j < |r| ==> r[i].id != r[j].id
      ensures forall id :: id in SelectedIds(skills, q) ==> exists i :: 0 <= i < |r| && r[i].id == id
    {
      var ids := Enumerate(SelectedIds(skills, q));
      StoredSkillsAllCached(skills, ids);
      r := StoredSkills(skills, ids);
      forall id | id in SelectedIds(skills, q)
        ensures exists i :: 0 <= i < |r| && r[i].id == id
      {
        var i :| 0 <= i < |ids| && ids[i] == id;
        assert r[i].id == id;
      }
    }

    /** `list_slash_commands`: each indexed name whose skill is still
        cached, with that skill, each name once. */
    method ListSlashCommands() returns (r: seq<(string, Skill)>)
      ensures forall i :: 0 <= i < |r| ==> GetSlashCommand(State(), r[i].0) == Some(r[i].1)
      ensures forall i, j :: 0 <= i < j < |r| ==> r[i].0 != r[j].0
      ensures forall name :: GetSlashCommand(State(), name).Some? ==> exists i :: 0 <= i < |r| && r[i].0 == name
    {
      var index, cache := slashCommands, skills;
      var live := set name | name in index && index[name] in cache;
      var names := Enumerate(live);
      r := seq(|names|, i requires 0 <= i < |names| => (names[i], cache[index[names[i]]]));
      assert forall i :: 0 <= i < |r| ==> r[i].0 == names[i] && names[i] in live;
      forall name | GetSlashCommand(State(), name).Some?
        ensures exists i :: 0 <= i < |r| && r[i].0 == name
      {
        assert name in live;
        var i :| 0 <= i < |names| && names[i] == name;
        assert r[i].0 == name;
      }
    }

    /** `count_by_kind`: the number of cached skills of each kind that has
        any. */
    method CountByKind() returns (counts: map<SkillKind, nat>)
      ensures forall k :: k in counts <==> KindIds(skills, k) != {}
      ensures forall k :: k in counts ==> counts[k] == |KindIds(skills, k)|
    {
      var ids := Enumerate(skills.Keys);
      counts := map[];
      var i := 0;
      while i < |ids|
        invariant 0 <= i <= |ids|
        invariant Tallied(counts, skills, ids[..i])
      {
        counts := TallyNext(counts, skills, ids, i);
        i := i + 1;
      }
      assert ids[..|ids|] == ids;
      forall k ensures KindCount(skills, ids, k) == |KindIds(skills, k)| {
        KindCountOfListing(skills, ids, k);
        assert KindIds(skills, k) * IdSet(ids) == KindIds(skills, k);
      }
    }

    /** `has_slash_command` looks only at the name index; a name the
        lookup resolves is always indexed. */
    predicate HasSlashCommand(name: string)
      reads this
      ensures HasSlashCommand(name) <==> name in slashCommands
      ensures GetSlashCommand(State(), name).Some? ==> HasSlashCommand(name)
    {
      name in slashCommands
    }

    /** `clear_cache`: all three maps emptied. */
    method ClearCache()
      modifies this
      ensures State() == EmptyRegistry && Valid()
    {
      skills := map[];
      slashCommands := map[];
      hooks := map[];
    }
  }

  /** A new registry lists no skills. */
  method ExampleNewRegistry() returns (all: seq<Skill>)
    ensures all == []
  {
    var registry := new SkillRegistry();
    all := registry.ListSkills(AllSkills);
  }

  /** A registered slash command "test" is indexed and found. */
  method ExampleRegisterSlashCommand() returns (indexed: bool, found: Option<Skill>)
    ensures indexed && found.Some? && found.value.id == "test-skill"
  {
    var registry := new SkillRegistry();
    var config := EmptyConfig.(slashCommand := Some(SlashCommandConfig("test", "Test command", None, "Test prompt", false, [])));
    var skill := Skill("test-skill", SlashCommand, "Test Skill", "A test skill", Global, true, config, None, "local");
    registry.RegisterSkill(skill);
    RegisterFinds(EmptyRegistry, skill);
    indexed := registry.HasSlashCommand("test");
    found := GetSlashCommand(registry.State(), "test");
  }
}
