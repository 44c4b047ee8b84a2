/** From an AI change plan and the published definition to the definition that would follow. */
module ChangePlan {
  import opened OrderedMerge
  import opened SystemDefinition

  const FIELD_DATA_TYPES: set<string> := {
    "text", "longtext", "number", "integer", "currency", "percentage", "boolean", "date", "datetime",
    "email", "phone", "url", "select", "multiselect", "reference", "file", "json" }

  const VIEW_TYPES: set<string> := { "table", "form", "kanban", "calendar", "chart", "card" }

  datatype View = View(name: string, viewType: string, entityKey: Option<string>, config: Option<Json>)

  datatype Dashboard = Dashboard(name: string, scope: string, widgets: seq<Json>)

  /** What the owner decided about the system as a whole. */
  datatype Profile = Profile(name: string, purpose: Option<string>, description: Option<string>,
                             teamSize: Option<int>, industryType: Option<string>,
                             governanceMode: string, visibility: string)

  datatype Definition = Definition(profile: Profile, modules: seq<Module>, views: seq<View>,
                                   dashboards: seq<Dashboard>, workflows: seq<Workflow>, policies: seq<Policy>)

  /** A workflow as planned: its definition may be missing. */
  datatype PlannedWorkflow = PlannedWorkflow(name: string, key: Option<string>, triggerType: string,
                                             moduleKey: Option<string>, definition: Option<Json>)

  datatype Plan = Plan(createSystem: bool, name: string, description: Option<string>,
                       industryType: Option<string>, governanceMode: string, visibility: string,
                       modules: seq<Module>, views: seq<View>, dashboards: seq<Dashboard>,
                       workflows: seq<PlannedWorkflow>, policies: seq<Policy>)

  // ----- reading a plan

  function Map<A, B>(f: A -> B, xs: seq<A>): (ys: seq<B>)
    ensures |ys| == |xs| && forall i | 0 <= i < |xs| :: ys[i] == f(xs[i])
  {
    seq(|xs|, i requires 0 <= i < |xs| => f(xs[i]))
  }

  /** An unknown data type becomes text. */
  function ToField(f: Field): Field {
    f.(dataType := if f.dataType in FIELD_DATA_TYPES then f.dataType else "text")
  }

  function ToEntity(e: Entity): Entity {
    e.(fields := Map(ToField, e.fields))
  }

  function ToModule(m: Module): Module {
    m.(entities := Map(ToEntity, m.entities))
  }

  /** An unknown view type becomes a table. */
  function ToView(v: View): View {
    v.(viewType := if v.viewType in VIEW_TYPES then v.viewType else "table")
  }

  function ToWorkflow(w: PlannedWorkflow): Workflow {
    Workflow(w.name, w.key, w.triggerType, w.moduleKey, if w.definition.Some? then w.definition.value else "{}")
  }

  /** The changes a plan asks for. */
  datatype Changes = Changes(modules: seq<Module>, views: seq<View>, dashboards: seq<Dashboard>,
                             workflows: seq<Workflow>, policies: seq<Policy>)

  function ChangesOf(plan: Plan): Changes {
    Changes(Map(ToModule, plan.modules), Map(ToView, plan.views), plan.dashboards,
            Map(ToWorkflow, plan.workflows), plan.policies)
  }

  /** Changes applied to a definition. */
  function Applied(c: Changes, before: Definition): Definition {
    before.(modules := MergedModules(before.modules, c.modules),
            views := before.views + c.views,
            dashboards := before.dashboards + c.dashboards,
            workflows := Override(before.workflows, c.workflows, WorkflowKey),
            policies := Override(before.policies, c.policies, PolicyKey))
  }

  function NewSystem(plan: Plan): Definition {
    var c := ChangesOf(plan);
    Definition(Profile(plan.name, None, plan.description, None, plan.industryType, plan.governanceMode,
                       plan.visibility),
               c.modules, c.views, c.dashboards, c.workflows, c.policies)
  }

  /** What a plan says is taken over word for word, but for two things: a data type that is none of
      the seventeen becomes text, and a view type that is none of the six becomes a table. A workflow
      without a definition gets an empty one. */
  lemma PlanIsRead(f: Field, v: View, w: PlannedWorkflow)
    ensures var known := f.dataType in {
                "text", "longtext", "number", "integer", "currency", "percentage", "boolean", "date", "datetime",
                "email", "phone", "url", "select", "multiselect", "reference", "file", "json"};
            ToField(f) == Field(f.key, f.name, if known then f.dataType else "text", f.required, f.config) &&
            ToField(ToField(f)) == ToField(f)
    ensures var known := v.viewType in {"table", "form", "kanban", "calendar", "chart", "card"};
            ToView(v) == View(v.name, if known then v.viewType else "table", v.entityKey, v.config) &&
            ToView(ToView(v)) == ToView(v)
    ensures ToWorkflow(w) ==
            Workflow(w.name, w.key, w.triggerType, w.moduleKey, match w.definition case Some(d) => d case None => "{}")
  {
  }

  /** Modules and entities are taken over as they are, and so are their fields, one by one, but for the
      data type. */
  lemma ModuleIsRead(m: Module, i: nat, j: nat)
    requires i < |m.entities| && j < |m.entities[i].fields|
    ensures var r := ToModule(m);
            r == Module(m.key, m.name, m.kind, m.description, m.config, r.entities) && |r.entities| == |m.entities| &&
            var e, was := r.entities[i], m.entities[i];
            e == Entity(was.key, was.name, was.description, was.config, e.fields) && |e.fields| == |was.fields| &&
            e.fields[j] == ToField(was.fields[j])
  {
  }

  /** Only a plan for a new system sets the profile, and the published definition counts for nothing
      then. Any other plan keeps profile, views and dashboards and adds its own behind them. */
  method BuildAfterDefinition(plan: Plan, before: Definition) returns (after: Definition)
    ensures after == if plan.createSystem then NewSystem(plan) else Applied(ChangesOf(plan), before)
    ensures plan.createSystem ==>
              after.modules == Map(ToModule, plan.modules) && after.views == Map(ToView, plan.views) &&
              after.dashboards == plan.dashboards && after.workflows == Map(ToWorkflow, plan.workflows) &&
              after.policies == plan.policies &&
              after.profile == Profile(plan.name, None, plan.description, None, plan.industryType,
                                       plan.governanceMode, plan.visibility)
    ensures !plan.createSystem ==>
              after.profile == before.profile && after.views == before.views + Map(ToView, plan.views) &&
              after.dashboards == before.dashboards + plan.dashboards &&
              after.modules == MergedModules(before.modules, Map(ToModule, plan.modules)) &&
              after.workflows == Override(before.workflows, Map(ToWorkflow, plan.workflows), WorkflowKey) &&
              after.policies == Override(before.policies, plan.policies, PolicyKey)
  {
    var c := ChangesOf(plan);
    if plan.createSystem {
      return Definition(
          Profile(plan.name, None, plan.description, None, plan.industryType, plan.governanceMode, plan.visibility),
          c.modules, c.views, c.dashboards, c.workflows, c.policies);
    }
    var modules := MergeModules(before.modules, c.modules);
    var workflows := MergeByKey(before.workflows, c.workflows, WorkflowKey);
    var policies := MergeByKey(before.policies, c.policies, PolicyKey);
    after := before.(modules := modules, views := before.views + c.views,
                     dashboards := before.dashboards + c.dashboards, workflows := workflows, policies := policies);
  }

  // ----- what reading a plan keeps

  lemma MapKeepsKeys<A>(f: A -> A, xs: seq<A>, keyOf: A -> string)
    requires forall x | x in xs :: keyOf(f(x)) == keyOf(x)
    ensures Keys(Map(f, xs), keyOf) == Keys(xs, keyOf)
  {
  }

  /** A plan with unique keys asks for changes with unique keys. */
  lemma ReadingKeepsUnique(ms: seq<Module>)
    requires UniqueModules(ms)
    ensures UniqueModules(Map(ToModule, ms))
  {
    MapKeepsKeys(ToModule, ms, ModuleKey);
    forall m | m in ms
      ensures UniqueModule(ToModule(m))
    {
      MapKeepsKeys(ToEntity, m.entities, EntityKey);
      forall e | e in m.entities
        ensures UniqueEntity(ToEntity(e))
      {
        MapKeepsKeys(ToField, e.fields, FieldKey);
      }
    }
  }

  // ----- applying plans one after another

  /** Re-applying the same changes leaves modules, workflows and policies alone and appends the
      views and dashboards once more, so it changes nothing exactly when there are none. */
  lemma Reapplied(c: Changes, before: Definition)
    requires UniqueModules(c.modules)
    ensures var once := Applied(c, before);
            var twice := Applied(c, once);
            twice == once.(views := once.views + c.views, dashboards := once.dashboards + c.dashboards) &&
            (twice == once <==> c.views == [] && c.dashboards == [])
  {
    hide MergedModules, Override, UniqueModules;
    MergeModulesIdempotent(before.modules, c.modules);
    OverrideIdempotent(before.workflows, c.workflows, WorkflowKey);
    OverrideIdempotent(before.policies, c.policies, PolicyKey);
    var once := Applied(c, before);
    assert once.views + c.views == once.views <==> c.views == [];
    assert once.dashboards + c.dashboards == once.dashboards <==> c.dashboards == [];
  }

  ghost predicate UniqueChanges(c: Changes) {
    UniqueModules(c.modules) && Distinct(Keys(c.workflows, WorkflowKey)) && Distinct(Keys(c.policies, PolicyKey))
  }

  ghost predicate UniqueDefinition(d: Definition) {
    UniqueModules(d.modules) && Distinct(Keys(d.workflows, WorkflowKey)) && Distinct(Keys(d.policies, PolicyKey))
  }

  /** Two lots of changes as one. */
  function Combined(c: Changes, d: Changes): Changes {
    Changes(MergedModules(c.modules, d.modules), c.views + d.views, c.dashboards + d.dashboards,
            Override(c.workflows, d.workflows, WorkflowKey), Override(c.policies, d.policies, PolicyKey))
  }

  /** Applying two plans in turn to any definition is applying their combination, to the last
      detail, when the first names no workflow or policy twice. */
  lemma AppliedInTurn(c: Changes, d: Changes, before: Definition)
    requires UniqueModules(d.modules) && UniqueChanges(c)
    ensures Applied(d, Applied(c, before)) == Applied(Combined(c, d), before)
  {
    hide MergedModules, Override, UniqueModules, Distinct, Keys;
    MergeModulesAssociative(before.modules, c.modules, d.modules);
    OverrideComposes(before.workflows, c.workflows, d.workflows, WorkflowKey);
    OverrideComposes(before.policies, c.policies, d.policies, PolicyKey);
    assert (before.views + c.views) + d.views == before.views + (c.views + d.views);
    assert (before.dashboards + c.dashboards) + d.dashboards == before.dashboards + (c.dashboards + d.dashboards);
  }

  /** Applying a plan and then any other to any definition is applying their combination. */
  ghost predicate Composes(c: Changes) {
    forall d: Changes, before: Definition | UniqueModules(d.modules) ::
      Applied(d, Applied(c, before)) == Applied(Combined(c, d), before)
  }

  /** A plan can be combined with every later one exactly when it names no workflow or policy twice. */
  lemma ComposesIffUnique(c: Changes)
    requires UniqueModules(c.modules)
    ensures Composes(c) <==> Distinct(Keys(c.workflows, WorkflowKey)) && Distinct(Keys(c.policies, PolicyKey))
  {
    hide Applied, Combined, UniqueModules;
    if !Distinct(Keys(c.workflows, WorkflowKey)) {
      WorkflowRepetition(c);
    } else if !Distinct(Keys(c.policies, PolicyKey)) {
      PolicyRepetition(c);
    } else {
      forall d: Changes, before: Definition | UniqueModules(d.modules)
        ensures Applied(d, Applied(c, before)) == Applied(Combined(c, d), before)
      {
        AppliedInTurn(c, d, before);
      }
    }
  }

  const NO_PROFILE: Profile := Profile("", None, None, None, None, "standard", "private")
  const NOTHING: Definition := Definition(NO_PROFILE, [], [], [], [], [])

  lemma WorkflowRepetition(c: Changes)
    requires !Distinct(Keys(c.workflows, WorkflowKey))
    ensures !Composes(c)
  {
    var ks := Keys(c.workflows, WorkflowKey);
    var i, j :| 0 <= i < j < |ks| && ks[i] == ks[j];
    SomeLast(c.workflows, WorkflowKey, j);
    var last := Last(c.workflows, WorkflowKey, ks[j]).value;
    LastHasKey(c.workflows, WorkflowKey, ks[j]);
    var x := last.(definition := last.definition + " ");
    assert x.definition != last.definition by { assert |x.definition| != |last.definition|; }
    assert WorkflowKey(x) == ks[j];
    hide WorkflowKey, Keys, Last, Override, Distinct, MergedModules, UniqueModules;
    RepetitionDecomposes(c.workflows, WorkflowKey, i, j, x);
    var d := Changes([], [], [], [x], []);
    assert Applied(d, Applied(c, NOTHING)).workflows != Applied(Combined(c, d), NOTHING).workflows;
    assert UniqueModules(d.modules);
  }

  lemma PolicyRepetition(c: Changes)
    requires !Distinct(Keys(c.policies, PolicyKey))
    ensures !Composes(c)
  {
    var ks := Keys(c.policies, PolicyKey);
    var i, j :| 0 <= i < j < |ks| && ks[i] == ks[j];
    SomeLast(c.policies, PolicyKey, j);
    var last := Last(c.policies, PolicyKey, ks[j]).value;
    LastHasKey(c.policies, PolicyKey, ks[j]);
    var x := last.(actions := last.actions + [""]);
    assert x.actions != last.actions by { assert |x.actions| != |last.actions|; }
    assert PolicyKey(x) == ks[j];
    hide PolicyKey, Keys, Last, Override, Distinct, MergedModules, UniqueModules;
    RepetitionDecomposes(c.policies, PolicyKey, i, j, x);
    var d := Changes([], [], [], [], [x]);
    assert Applied(d, Applied(c, NOTHING)).policies != Applied(Combined(c, d), NOTHING).policies;
    assert UniqueModules(d.modules);
  }

  lemma {:induction false} LastHasKey<T>(xs: seq<T>, keyOf: T -> string, k: string)
    ensures Last(xs, keyOf, k).Some? ==> keyOf(Last(xs, keyOf, k).value) == k
  {
    if xs != [] && keyOf(xs[|xs| - 1]) != k {
      LastHasKey(xs[..|xs| - 1], keyOf, k);
    }
  }

  // ----- the validator of the uniqueness these laws ask for

  /** `validateUniqueKeys`: no issues exactly when keys are unique at every level. */
  method ValidateUniqueKeys(modules: seq<Module>) returns (issues: seq<string>)
    ensures issues == [] <==> UniqueModules(modules)
  {
    issues := [];
    var moduleKeys: set<string> := {};
    for i := 0 to |modules|
      invariant moduleKeys == set k | k in Keys(modules[..i], ModuleKey)
      invariant issues == [] <==> UniqueModules(modules[..i])
    {
      var mod := modules[i];
      UniqueModulesStep(modules, i);
      if mod.key in moduleKeys {
        issues := issues + ["Duplicate module key: " + mod.key];
      }
      moduleKeys := moduleKeys + {mod.key};
      var more := ValidateEntities(mod);
      issues := issues + more;
    }
    assert modules[..|modules|] == modules;
  }

  method ValidateEntities(mod: Module) returns (issues: seq<string>)
    ensures issues == [] <==> UniqueModule(mod)
  {
    issues := [];
    var entityKeys: set<string> := {};
    for i := 0 to |mod.entities|
      invariant entityKeys == set k | k in Keys(mod.entities[..i], EntityKey)
      invariant issues == [] <==> UniqueEntities(mod.entities[..i])
    {
      var entity := mod.entities[i];
      UniqueEntitiesStep(mod.entities, i);
      if entity.key in entityKeys {
        issues := issues + ["Duplicate entity key in module " + mod.key + ": " + entity.key];
      }
      entityKeys := entityKeys + {entity.key};
      var more := ValidateFields(mod.key + "." + entity.key, entity);
      issues := issues + more;
    }
    assert mod.entities[..|mod.entities|] == mod.entities;
  }

  method ValidateFields(qualifiedKey: string, entity: Entity) returns (issues: seq<string>)
    ensures issues == [] <==> UniqueEntity(entity)
  {
    issues := [];
    var fieldKeys: set<string> := {};
    for i := 0 to |entity.fields|
      invariant fieldKeys == set k | k in Keys(entity.fields[..i], FieldKey)
      invariant issues == [] <==> Distinct(Keys(entity.fields[..i], FieldKey))
    {
      DistinctStep(entity.fields, FieldKey, i);
      if entity.fields[i].key in fieldKeys {
        issues := issues + ["Duplicate field key in " + qualifiedKey + ": " + entity.fields[i].key];
      }
      fieldKeys := fieldKeys + {entity.fields[i].key};
    }
    assert entity.fields[..|entity.fields|] == entity.fields;
  }

  lemma DistinctStep<T>(xs: seq<T>, keyOf: T -> string, i: nat)
    requires i < |xs|
    ensures Keys(xs[..i + 1], keyOf) == Keys(xs[..i], keyOf) + [keyOf(xs[i])]
    ensures Distinct(Keys(xs[..i + 1], keyOf)) <==>
            Distinct(Keys(xs[..i], keyOf)) && keyOf(xs[i]) !in Keys(xs[..i], keyOf)
  {
    var ks, more := Keys(xs[..i], keyOf), Keys(xs[..i + 1], keyOf);
    assert more == ks + [keyOf(xs[i])];
    if Distinct(more) {
      DistinctInit(more);
      assert more[..i] == ks;
    }
  }

  lemma UniqueEntitiesStep(es: seq<Entity>, i: nat)
    requires i < |es|
    ensures Keys(es[..i + 1], EntityKey) == Keys(es[..i], EntityKey) + [es[i].key]
    ensures UniqueEntities(es[..i + 1]) <==>
            UniqueEntities(es[..i]) && es[i].key !in Keys(es[..i], EntityKey) && UniqueEntity(es[i])
  {
    DistinctStep(es, EntityKey, i);
    assert es[..i + 1] == es[..i] + [es[i]];
  }

  lemma UniqueModulesStep(ms: seq<Module>, i: nat)
    requires i < |ms|
    ensures Keys(ms[..i + 1], ModuleKey) == Keys(ms[..i], ModuleKey) + [ms[i].key]
    ensures UniqueModules(ms[..i + 1]) <==>
            UniqueModules(ms[..i]) && ms[i].key !in Keys(ms[..i], ModuleKey) && UniqueModule(ms[i])
  {
    DistinctStep(ms, ModuleKey, i);
    assert ms[..i + 1] == ms[..i] + [ms[i]];
  }
}
