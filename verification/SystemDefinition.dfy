/** System definitions and the algebra by which a change plan is merged into one. */
module SystemDefinition {
  import opened OrderedMerge

  // JSON values the merge never looks into are kept as their text.
  type Json = string

  datatype FieldConfig = FieldConfig(hasDefaultValue: bool, json: Json)

  datatype Field = Field(key: string, name: string, dataType: string, required: bool, config: Option<FieldConfig>)

  datatype Entity = Entity(key: string, name: string, description: Option<string>, config: Option<Json>,
                           fields: seq<Field>)

  datatype Module = Module(key: string, name: string, kind: string, description: Option<string>,
                           config: Option<Json>, entities: seq<Entity>)

  datatype Workflow = Workflow(name: string, key: Option<string>, triggerType: string,
                               moduleKey: Option<string>, definition: Json)

  datatype Policy = Policy(name: string, scope: string, role: string, resourceType: string,
                           actions: seq<string>, fieldRestrictions: Option<Json>, conditions: Option<Json>)

  function FieldKey(f: Field): string { f.key }

  function EntityKey(e: Entity): string { e.key }

  function ModuleKey(m: Module): string { m.key }

  /** `w.key ?? w.name` */
  function WorkflowKey(w: Workflow): string {
    if w.key.Some? then w.key.value else w.name
  }

  function PolicyKey(p: Policy): string {
    p.role + "::" + p.resourceType + "::" + p.scope + "::" + p.name
  }

  /** A workflow is known by its key, and by its name only if it has none. */
  lemma WorkflowKeyNames(w: Workflow)
    ensures WorkflowKey(w) == match w.key case Some(key) => key case None => w.name
  {
  }

  /** Policies are one and the same exactly when role, resource type, scope and name all agree, as
      long as none of the first three contains a colon. */
  lemma PolicyKeyNames(p: Policy, q: Policy)
    requires ':' !in p.role && ':' !in p.resourceType && ':' !in p.scope
    requires ':' !in q.role && ':' !in q.resourceType && ':' !in q.scope
    ensures PolicyKey(p) == PolicyKey(q) <==>
            p.role == q.role && p.resourceType == q.resourceType && p.scope == q.scope && p.name == q.name
  {
    PolicyKeyParts(p);
    PolicyKeyParts(q);
    DoubleColonSplits(p.role, p.resourceType + "::" + (p.scope + "::" + p.name),
              q.role, q.resourceType + "::" + (q.scope + "::" + q.name));
    DoubleColonSplits(p.resourceType, p.scope + "::" + p.name, q.resourceType, q.scope + "::" + q.name);
    DoubleColonSplits(p.scope, p.name, q.scope, q.name);
  }

  lemma PolicyKeyParts(p: Policy)
    ensures PolicyKey(p) == p.role + "::" + (p.resourceType + "::" + (p.scope + "::" + p.name))
  {
  }

  // ----- the three-level merge

  function MergedFields(before: seq<Field>, plan: seq<Field>): seq<Field> {
    Merge(FromList(before, FieldKey), plan, FieldKey, TakeNew)
  }

  /** The entity that was there, with the plan's fields merged into its own. */
  function JoinEntity(existing: Entity, entity: Entity): Entity {
    existing.(fields := MergedFields(existing.fields, entity.fields))
  }

  function MergedEntities(before: seq<Entity>, plan: seq<Entity>): seq<Entity> {
    Merge(FromList(before, EntityKey), plan, EntityKey, JoinEntity)
  }

  /** The module that was there, with the plan's entities merged into its own. */
  function JoinModule(existing: Module, mod: Module): Module {
    existing.(entities := MergedEntities(existing.entities, mod.entities))
  }

  function MergedModules(before: seq<Module>, plan: seq<Module>): seq<Module> {
    Merge(FromList(before, ModuleKey), plan, ModuleKey, JoinModule)
  }

  method MergeModules(before: seq<Module>, plan: seq<Module>) returns (merged: seq<Module>)
    ensures merged == MergedModules(before, plan)
  {
    hide Merge, Put, Get;
    var byKey := FromList(before, ModuleKey);
    NothingMerged(byKey, ModuleKey, JoinModule);
    for i := 0 to |plan|
      invariant byKey == MergedModules(before, plan[..i])
    {
      var mod := plan[i];
      MergeStep(FromList(before, ModuleKey), plan, i, ModuleKey, JoinModule);
      var existing := Get(byKey, ModuleKey, mod.key);
      if existing.None? {
        byKey := Put(byKey, ModuleKey, mod);
        continue;
      }
      var entitiesByKey := MergeEntities(existing.value.entities, mod.entities);
      byKey := Put(byKey, ModuleKey, existing.value.(entities := entitiesByKey));
    }
    assert plan[..|plan|] == plan;
    merged := byKey;
  }

  method MergeEntities(before: seq<Entity>, plan: seq<Entity>) returns (entitiesByKey: seq<Entity>)
    ensures entitiesByKey == MergedEntities(before, plan)
  {
    hide Merge, Put, Get;
    entitiesByKey := FromList(before, EntityKey);
    NothingMerged(entitiesByKey, EntityKey, JoinEntity);
    for i := 0 to |plan|
      invariant entitiesByKey == MergedEntities(before, plan[..i])
    {
      var entity := plan[i];
      MergeStep(FromList(before, EntityKey), plan, i, EntityKey, JoinEntity);
      var existingEntity := Get(entitiesByKey, EntityKey, entity.key);
      if existingEntity.None? {
        entitiesByKey := Put(entitiesByKey, EntityKey, entity);
        continue;
      }
      var fieldsByKey := MergeFields(existingEntity.value.fields, entity.fields);
      entitiesByKey := Put(entitiesByKey, EntityKey, existingEntity.value.(fields := fieldsByKey));
    }
    assert plan[..|plan|] == plan;
  }

  method MergeFields(before: seq<Field>, plan: seq<Field>) returns (fieldsByKey: seq<Field>)
    ensures fieldsByKey == MergedFields(before, plan)
  {
    hide Merge, Put, Get;
    fieldsByKey := FromList(before, FieldKey);
    NothingMerged(fieldsByKey, FieldKey, TakeNew);
    for i := 0 to |plan|
      invariant fieldsByKey == MergedFields(before, plan[..i])
    {
      MergeStep(FromList(before, FieldKey), plan, i, FieldKey, TakeNew);
      fieldsByKey := Put(fieldsByKey, FieldKey, plan[i]);
    }
    assert plan[..|plan|] == plan;
  }

  lemma NothingMerged<T>(base: seq<T>, keyOf: T -> string, join: (T, T) -> T)
    ensures Merge(base, [], keyOf, join) == base
  {
  }

  method MergeByKey<T>(before: seq<T>, plan: seq<T>, keyOf: T -> string) returns (merged: seq<T>)
    ensures merged == Override(before, plan, keyOf)
  {
    merged := before;
    for i := 0 to |plan|
      invariant merged == Override(before, plan[..i], keyOf)
    {
      var item := plan[i];
      assert plan[..i + 1][..i] == plan[..i];
      var idx := IndexOf(Keys(merged, keyOf), keyOf(item));
      if idx >= 0 {
        merged := merged[idx := item];
      } else {
        merged := merged + [item];
      }
    }
    assert plan[..|plan|] == plan;
  }

  // ----- keys unique at every level

  ghost predicate UniqueEntity(e: Entity) {
    Distinct(Keys(e.fields, FieldKey))
  }

  ghost predicate UniqueEntities(es: seq<Entity>) {
    Distinct(Keys(es, EntityKey)) && forall e | e in es :: UniqueEntity(e)
  }

  ghost predicate UniqueModule(m: Module) {
    UniqueEntities(m.entities)
  }

  ghost predicate UniqueModules(ms: seq<Module>) {
    Distinct(Keys(ms, ModuleKey)) && forall m | m in ms :: UniqueModule(m)
  }

  // ----- entities

  lemma FieldsMerge(b: seq<Field>, p: seq<Field>)
    requires Distinct(Keys(b, FieldKey))
    ensures MergedFields(b, p) == Override(b, p, FieldKey)
  {
    FromListIsIdentity(b, FieldKey);
  }

  lemma EntitiesMerge(b: seq<Entity>, p: seq<Entity>)
    requires Distinct(Keys(b, EntityKey))
    ensures MergedEntities(b, p) == Merge(b, p, EntityKey, JoinEntity)
  {
    FromListIsIdentity(b, EntityKey);
  }

  lemma ModulesMerge(b: seq<Module>, p: seq<Module>)
    requires Distinct(Keys(b, ModuleKey))
    ensures MergedModules(b, p) == Merge(b, p, ModuleKey, JoinModule)
  {
    FromListIsIdentity(b, ModuleKey);
  }

  lemma JoinEntityUnique(x: Entity, y: Entity)
    requires UniqueEntity(x) && UniqueEntity(y)
    ensures UniqueEntity(JoinEntity(x, y))
  {
    FieldsMerge(x.fields, y.fields);
    DistinctMerge(x.fields, y.fields, FieldKey, TakeNew);
  }

  /** Merging a second plan's fields in goes on from where the first left off. */
  lemma FieldsMergedAgain(b: seq<Field>, p: seq<Field>, q: seq<Field>)
    ensures var f := FromList(b, FieldKey);
            MergedFields(b, p) == Override(f, p, FieldKey) &&
            MergedFields(MergedFields(b, p), q) == Override(Override(f, p, FieldKey), q, FieldKey)
  {
    var f := FromList(b, FieldKey);
    FromListDistinct(b, FieldKey);
    DistinctOverride(f, p, FieldKey);
    FieldsMerge(Override(f, p, FieldKey), q);
  }

  lemma JoinEntityAssociative(x: Entity, y: Entity, z: Entity)
    requires UniqueEntity(y)
    ensures JoinEntity(JoinEntity(x, y), z) == JoinEntity(x, JoinEntity(y, z))
  {
    hide Override, MergedFields;
    FieldsMergedAgain(x.fields, y.fields, z.fields);
    FieldsMerge(y.fields, z.fields);
    FieldsMergedAgain(x.fields, JoinEntity(y, z).fields, []);
    OverrideComposes(FromList(x.fields, FieldKey), y.fields, z.fields, FieldKey);
  }

  lemma JoinEntityIdempotent(x: Entity, y: Entity)
    ensures JoinEntity(JoinEntity(x, y), y) == JoinEntity(x, y)
    ensures UniqueEntity(y) ==> JoinEntity(y, y) == y
  {
    hide Override, MergedFields;
    FieldsMergedAgain(x.fields, y.fields, y.fields);
    OverrideIdempotent(FromList(x.fields, FieldKey), y.fields, FieldKey);
    if UniqueEntity(y) {
      FieldsMerge(y.fields, y.fields);
      OverrideNothing(y.fields);
      OverrideIdempotent([], y.fields, FieldKey);
    }
  }

  lemma OverrideNothing(fs: seq<Field>)
    requires Distinct(Keys(fs, FieldKey))
    ensures Override([], fs, FieldKey) == fs
  {
    MergeIntoNothing(fs, FieldKey, TakeNew);
  }

  // ----- lists of entities

  /** Looking an entity up in a list with unique keys yields one with unique keys. */
  lemma EntityFound(es: seq<Entity>, k: string)
    requires UniqueEntities(es)
    ensures Get(es, EntityKey, k).Some? ==> UniqueEntity(Get(es, EntityKey, k).value)
  {
  }

  lemma MergedEntitiesUnique(b: seq<Entity>, p: seq<Entity>)
    requires UniqueEntities(b) && UniqueEntities(p)
    ensures UniqueEntities(MergedEntities(b, p))
  {
    EntitiesMerge(b, p);
    DistinctMerge(b, p, EntityKey, JoinEntity);
    forall x, y | UniqueEntity(x) && UniqueEntity(y)
      ensures UniqueEntity(JoinEntity(x, y))
    {
      JoinEntityUnique(x, y);
    }
    MergeKeepsAll(b, p, EntityKey, JoinEntity, UniqueEntity);
  }

  lemma EntitiesMergedAgain(b: seq<Entity>, p: seq<Entity>, q: seq<Entity>)
    ensures MergedEntities(MergedEntities(b, p), q) ==
            Merge(Merge(FromList(b, EntityKey), p, EntityKey, JoinEntity), q, EntityKey, JoinEntity)
  {
    hide Merge, JoinEntity;
    FromListDistinct(b, EntityKey);
    JoinEntityKeepsKey();
    MergeStaysDistinct(FromList(b, EntityKey), p, EntityKey, JoinEntity);
    EntitiesMerge(MergedEntities(b, p), q);
  }

  lemma JoinEntityKeepsKey()
    ensures KeepsKey(EntityKey, JoinEntity)
  {
  }

  lemma MergedEntitiesAssociative(a: seq<Entity>, b: seq<Entity>, c: seq<Entity>)
    requires UniqueEntities(b) && UniqueEntities(c)
    ensures MergedEntities(MergedEntities(a, b), c) == MergedEntities(a, MergedEntities(b, c))
  {
    hide Merge, JoinEntity, Meet, Get;
    var base := FromList(a, EntityKey);
    EntitiesMergedAgain(a, b, c);
    EntitiesMerge(b, c);
    JoinEntityKeepsKey();
    FromListDistinct(a, EntityKey);
    forall k
      ensures Meet(Meet(Get(base, EntityKey, k), Get(b, EntityKey, k), JoinEntity), Get(c, EntityKey, k), JoinEntity) ==
              Meet(Get(base, EntityKey, k), Meet(Get(b, EntityKey, k), Get(c, EntityKey, k), JoinEntity), JoinEntity)
    {
      MeetEntities(base, b, c, k);
    }
    MergeAssociative(base, b, c, EntityKey, JoinEntity);
  }

  lemma MeetEntities(a: seq<Entity>, b: seq<Entity>, c: seq<Entity>, k: string)
    requires UniqueEntities(b)
    ensures Meet(Meet(Get(a, EntityKey, k), Get(b, EntityKey, k), JoinEntity), Get(c, EntityKey, k), JoinEntity) ==
            Meet(Get(a, EntityKey, k), Meet(Get(b, EntityKey, k), Get(c, EntityKey, k), JoinEntity), JoinEntity)
  {
    hide JoinEntity;
    var x, y, z := Get(a, EntityKey, k), Get(b, EntityKey, k), Get(c, EntityKey, k);
    if x.Some? && y.Some? && z.Some? {
      JoinEntityAssociative(x.value, y.value, z.value);
    }
  }

  lemma MergedEntitiesIdempotent(b: seq<Entity>, p: seq<Entity>)
    requires UniqueEntities(p)
    ensures MergedEntities(MergedEntities(b, p), p) == MergedEntities(b, p)
    ensures MergedEntities(p, p) == p
  {
    FromListDistinct(b, EntityKey);
    EntitiesMergedAgain(b, p, p);
    RemergeEntities(FromList(b, EntityKey), p);
    EntitiesMerge(p, p);
    MergeIntoNothing(p, EntityKey, JoinEntity);
    RemergeEntities([], p);
  }

  lemma RemergeEntities(b: seq<Entity>, p: seq<Entity>)
    requires Distinct(Keys(b, EntityKey)) && UniqueEntities(p)
    ensures Merge(Merge(b, p, EntityKey, JoinEntity), p, EntityKey, JoinEntity) == Merge(b, p, EntityKey, JoinEntity)
  {
    forall k
      ensures var met := Meet(Get(b, EntityKey, k), Get(p, EntityKey, k), JoinEntity);
              Meet(met, Get(p, EntityKey, k), JoinEntity) == met
    {
      var x, y := Get(b, EntityKey, k), Get(p, EntityKey, k);
      if y.Some? {
        JoinEntityIdempotent(if x.Some? then x.value else y.value, y.value);
      }
    }
    MergeIdempotent(b, p, EntityKey, JoinEntity);
  }

  // ----- modules

  lemma JoinModuleUnique(x: Module, y: Module)
    requires UniqueModule(x) && UniqueModule(y)
    ensures UniqueModule(JoinModule(x, y))
  {
    MergedEntitiesUnique(x.entities, y.entities);
  }

  /** Merging keeps keys unique at every level. */
  lemma MergedModulesUnique(b: seq<Module>, p: seq<Module>)
    requires UniqueModules(b) && UniqueModules(p)
    ensures UniqueModules(MergedModules(b, p))
  {
    ModulesMerge(b, p);
    DistinctMerge(b, p, ModuleKey, JoinModule);
    forall x, y | UniqueModule(x) && UniqueModule(y)
      ensures UniqueModule(JoinModule(x, y))
    {
      JoinModuleUnique(x, y);
    }
    MergeKeepsAll(b, p, ModuleKey, JoinModule, UniqueModule);
  }

  lemma ModulesMergedAgain(b: seq<Module>, p: seq<Module>, q: seq<Module>)
    ensures MergedModules(MergedModules(b, p), q) ==
            Merge(Merge(FromList(b, ModuleKey), p, ModuleKey, JoinModule), q, ModuleKey, JoinModule)
  {
    hide Merge, JoinModule;
    FromListDistinct(b, ModuleKey);
    JoinModuleKeepsKey();
    MergeStaysDistinct(FromList(b, ModuleKey), p, ModuleKey, JoinModule);
    ModulesMerge(MergedModules(b, p), q);
  }

  lemma JoinModuleKeepsKey()
    ensures KeepsKey(ModuleKey, JoinModule)
  {
  }

  /** Applying two plans in turn to any base is applying the merge of the two plans: the same
      modules, entities and fields, in the same order, with the same metadata. */
  lemma MergeModulesAssociative(a: seq<Module>, b: seq<Module>, c: seq<Module>)
    requires UniqueModules(b) && UniqueModules(c)
    ensures MergedModules(MergedModules(a, b), c) == MergedModules(a, MergedModules(b, c))
  {
    hide Merge, JoinModule, Meet, Get, UniqueModule;
    var base := FromList(a, ModuleKey);
    ModulesMergedAgain(a, b, c);
    ModulesMerge(b, c);
    JoinModuleKeepsKey();
    FromListDistinct(a, ModuleKey);
    forall k
      ensures Meet(Meet(Get(base, ModuleKey, k), Get(b, ModuleKey, k), JoinModule), Get(c, ModuleKey, k), JoinModule) ==
              Meet(Get(base, ModuleKey, k), Meet(Get(b, ModuleKey, k), Get(c, ModuleKey, k), JoinModule), JoinModule)
    {
      MeetModules(base, b, c, k);
    }
    MergeAssociative(base, b, c, ModuleKey, JoinModule);
  }

  lemma MeetModules(a: seq<Module>, b: seq<Module>, c: seq<Module>, k: string)
    requires UniqueModules(b) && UniqueModules(c)
    ensures Meet(Meet(Get(a, ModuleKey, k), Get(b, ModuleKey, k), JoinModule), Get(c, ModuleKey, k), JoinModule) ==
            Meet(Get(a, ModuleKey, k), Meet(Get(b, ModuleKey, k), Get(c, ModuleKey, k), JoinModule), JoinModule)
  {
    hide MergedEntities, UniqueEntities;
    var x, y, z := Get(a, ModuleKey, k), Get(b, ModuleKey, k), Get(c, ModuleKey, k);
    if x.Some? && y.Some? && z.Some? {
      MergedEntitiesAssociative(x.value.entities, y.value.entities, z.value.entities);
    }
  }

  /** The empty list is an identity on both sides. */
  lemma MergeModulesIdentity(ms: seq<Module>)
    requires UniqueModules(ms)
    ensures MergedModules(ms, []) == ms && MergedModules([], ms) == ms
  {
    ModulesMerge(ms, []);
    MergeIntoNothing(ms, ModuleKey, JoinModule);
  }

  /** Merging a plan into any base again changes nothing. */
  lemma MergeModulesIdempotent(b: seq<Module>, p: seq<Module>)
    requires UniqueModules(p)
    ensures MergedModules(MergedModules(b, p), p) == MergedModules(b, p)
  {
    hide Merge, JoinModule, Meet, Get, UniqueModule;
    var base := FromList(b, ModuleKey);
    ModulesMergedAgain(b, p, p);
    JoinModuleKeepsKey();
    FromListDistinct(b, ModuleKey);
    forall k
      ensures var met := Meet(Get(base, ModuleKey, k), Get(p, ModuleKey, k), JoinModule);
              Meet(met, Get(p, ModuleKey, k), JoinModule) == met
    {
      MeetModulesAgain(base, p, k);
    }
    MergeIdempotent(base, p, ModuleKey, JoinModule);
  }

  lemma MeetModulesAgain(b: seq<Module>, p: seq<Module>, k: string)
    requires UniqueModules(p)
    ensures var met := Meet(Get(b, ModuleKey, k), Get(p, ModuleKey, k), JoinModule);
            Meet(met, Get(p, ModuleKey, k), JoinModule) == met
  {
    hide MergedEntities, UniqueEntities;
    var x, y := Get(b, ModuleKey, k), Get(p, ModuleKey, k);
    if y.Some? {
      MergedEntitiesIdempotent(if x.Some? then x.value.entities else y.value.entities, y.value.entities);
    }
  }

  // ----- what is found where

  /** The field under a path of module, entity and field key. */
  function FieldAt(ms: seq<Module>, m: string, e: string, f: string): Option<Field> {
    var mod := Get(ms, ModuleKey, m);
    if mod.None? then None else FieldIn(mod.value.entities, e, f)
  }

  function FieldIn(es: seq<Entity>, e: string, f: string): Option<Field> {
    var entity := Get(es, EntityKey, e);
    if entity.None? then None else Get(entity.value.fields, FieldKey, f)
  }

  lemma FieldInMerged(b: seq<Entity>, p: seq<Entity>, e: string, f: string)
    requires UniqueEntities(b) && UniqueEntities(p)
    ensures FieldIn(MergedEntities(b, p), e, f) == FirstOf(FieldIn(p, e, f), FieldIn(b, e, f))
  {
    EntitiesMerge(b, p);
    GetMerge(b, p, EntityKey, JoinEntity, e);
    var x, y := Get(b, EntityKey, e), Get(p, EntityKey, e);
    if x.Some? && y.Some? {
      FieldsMerge(x.value.fields, y.value.fields);
      GetMerge(x.value.fields, y.value.fields, FieldKey, TakeNew, f);
    }
  }

  /** Under every path the merge has the plan's field if the plan has one, else the base's. */
  lemma FieldAtMerged(b: seq<Module>, p: seq<Module>, m: string, e: string, f: string)
    requires UniqueModules(b) && UniqueModules(p)
    ensures FieldAt(MergedModules(b, p), m, e, f) == FirstOf(FieldAt(p, m, e, f), FieldAt(b, m, e, f))
  {
    ModulesMerge(b, p);
    GetMerge(b, p, ModuleKey, JoinModule, m);
    var x, y := Get(b, ModuleKey, m), Get(p, ModuleKey, m);
    if x.Some? && y.Some? {
      FieldInMerged(x.value.entities, y.value.entities, e, f);
    }
  }

  function EntitiesOf(m: Option<Module>): seq<Entity> {
    if m.Some? then m.value.entities else []
  }

  function FieldsOf(e: Option<Entity>): seq<Field> {
    if e.Some? then e.value.fields else []
  }

  /** The known keys in their places, then the plan's new ones in plan order. */
  predicate KeysFollow(merged: seq<string>, known: seq<string>, plan: seq<string>) {
    merged == known + Without(plan, known)
  }

  /** The entity kept its metadata, and its fields follow those of the plan's entity. */
  predicate EntityKept(merged: Entity, known: Entity, plan: Option<Entity>) {
    merged.(fields := known.fields) == known &&
    KeysFollow(Keys(merged.fields, FieldKey), Keys(known.fields, FieldKey), Keys(FieldsOf(plan), FieldKey))
  }

  /** The module kept its metadata; its entities follow those of the plan's module, each kept. */
  predicate ModuleKept(merged: Module, known: Module, plan: Option<Module>) {
    merged.(entities := known.entities) == known &&
    KeysFollow(Keys(merged.entities, EntityKey), Keys(known.entities, EntityKey), Keys(EntitiesOf(plan), EntityKey)) &&
    forall j | 0 <= j < |known.entities| ::
      j < |merged.entities| &&
      EntityKept(merged.entities[j], known.entities[j], Get(EntitiesOf(plan), EntityKey, known.entities[j].key))
  }

  lemma NothingFollows(known: seq<string>)
    ensures KeysFollow(known, known, [])
  {
  }

  lemma MergeKeepsEntity(known: Entity, plan: Option<Entity>)
    requires UniqueEntity(known) && (plan.Some? ==> UniqueEntity(plan.value))
    ensures EntityKept(if plan.Some? then JoinEntity(known, plan.value) else known, known, plan)
  {
    hide Merge, Distinct;
    if plan.Some? {
      FieldsMerge(known.fields, plan.value.fields);
      KeysMerge(known.fields, plan.value.fields, FieldKey, TakeNew);
    } else {
      NothingFollows(Keys(known.fields, FieldKey));
      assert Keys(FieldsOf(plan), FieldKey) == [];
    }
  }

  /** Where an item of the base stands in a merge, and what it became. */
  lemma MergedAt<T(!new)>(b: seq<T>, p: seq<T>, keyOf: T -> string, join: (T, T) -> T, i: nat)
    requires KeepsKey(keyOf, join) && Distinct(Keys(b, keyOf)) && Distinct(Keys(p, keyOf)) && i < |b|
    ensures var merged, y := Merge(b, p, keyOf, join), Get(p, keyOf, keyOf(b[i]));
            i < |merged| && merged[i] == if y.Some? then join(b[i], y.value) else b[i]
  {
    var merged, k := Merge(b, p, keyOf, join), keyOf(b[i]);
    DistinctMerge(b, p, keyOf, join);
    GetMerge(b, p, keyOf, join, k);
    KeysMerge(b, p, keyOf, join);
    IndexOfIsFirst(Keys(b, keyOf), k, i);
    IndexOfIsFirst(Keys(merged, keyOf), k, i);
  }

  lemma MergeKeepsModule(known: Module, plan: Option<Module>)
    requires UniqueModule(known) && (plan.Some? ==> UniqueModule(plan.value))
    ensures ModuleKept(if plan.Some? then JoinModule(known, plan.value) else known, known, plan)
  {
    hide Merge, EntityKept, Keys, Without, Distinct, UniqueEntity;
    var b, p := known.entities, EntitiesOf(plan);
    if plan.Some? {
      EntitiesMerge(b, p);
      KeysMerge(b, p, EntityKey, JoinEntity);
      forall j | 0 <= j < |b|
        ensures j < |MergedEntities(b, p)| &&
                EntityKept(MergedEntities(b, p)[j], b[j], Get(p, EntityKey, b[j].key))
      {
        MergedAt(b, p, EntityKey, JoinEntity, j);
        EntityFound(p, b[j].key);
        MergeKeepsEntity(b[j], Get(p, EntityKey, b[j].key));
      }
    } else {
      NothingFollows(Keys(b, EntityKey));
      NoKeys();
      forall j | 0 <= j < |b|
        ensures EntityKept(b[j], b[j], Get(p, EntityKey, b[j].key))
      {
        MergeKeepsEntity(b[j], None);
      }
    }
  }

  lemma NoKeys()
    ensures Keys([], EntityKey) == [] && forall k :: Get([], EntityKey, k) == None
  {
  }

  /** At every level the keys that were there keep their places and the new ones follow in
      plan order; what was there keeps its own metadata. */
  lemma MergeKeepsOrderAndMetadata(b: seq<Module>, p: seq<Module>)
    requires UniqueModules(b) && UniqueModules(p)
    ensures var merged := MergedModules(b, p);
            KeysFollow(Keys(merged, ModuleKey), Keys(b, ModuleKey), Keys(p, ModuleKey)) &&
            forall i | 0 <= i < |b| :: i < |merged| && ModuleKept(merged[i], b[i], Get(p, ModuleKey, b[i].key))
  {
    hide Merge, ModuleKept, Keys, Without, Distinct, UniqueModule;
    ModulesMerge(b, p);
    KeysMerge(b, p, ModuleKey, JoinModule);
    forall i | 0 <= i < |b|
      ensures i < |MergedModules(b, p)| && ModuleKept(MergedModules(b, p)[i], b[i], Get(p, ModuleKey, b[i].key))
    {
      MergedAt(b, p, ModuleKey, JoinModule, i);
      MergeKeepsModule(b[i], Get(p, ModuleKey, b[i].key));
    }
  }
}
