/** The differences between two system definitions, and the definition that follows when a
    selection of them is applied. */
module DiffSelection {
  import opened OrderedMerge
  import opened SystemDefinition
  import opened ChangePlan
  import opened KeyedDiff

  // ----- the five kinds of items

  function EntityShell(e: Entity): Entity { e.(fields := []) }

  function ModuleShell(m: Module): Module { m.(entities := []) }

  function Whole<T>(x: T): T { x }

  const FIELD_KIND: Kind<Field> := Kind(FieldKey, true, Whole, true)
  const ENTITY_KIND: Kind<Entity> := Kind(EntityKey, false, EntityShell, true)
  const MODULE_KIND: Kind<Module> := Kind(ModuleKey, false, ModuleShell, true)
  const WORKFLOW_KIND: Kind<Workflow> := Kind(WorkflowKey, true, Whole, false)
  const POLICY_KIND: Kind<Policy> := Kind(PolicyKey, true, Whole, false)

  datatype EntityItem = EntityItem(moduleKey: string, item: Item<Entity>)

  datatype FieldItem = FieldItem(moduleKey: string, entityKey: string, item: Item<Field>)

  datatype Diff = Diff(modules: seq<Item<Module>>, entities: seq<EntityItem>, fields: seq<FieldItem>,
                       workflows: seq<Item<Workflow>>, policies: seq<Item<Policy>>)

  // ----- the ids by which items are selected

  function OpName(op: Op): string {
    match op case Add => "add" case Remove => "remove" case Modify => "modify"
  }

  function ModuleId(op: Op, m: string): string { "module:" + OpName(op) + ":" + m }

  function EntityId(op: Op, m: string, e: string): string { "entity:" + OpName(op) + ":" + m + ":" + e }

  function FieldId(op: Op, m: string, e: string, f: string): string {
    "field:" + OpName(op) + ":" + m + ":" + e + ":" + f
  }

  function WorkflowId(op: Op, w: string): string { "workflow:" + OpName(op) + ":" + w }

  function PolicyId(op: Op, p: string): string { "permission:" + OpName(op) + ":" + p }

  function IdOfModule(it: Item<Module>): string { ModuleId(it.op, it.key) }

  function IdOfEntity(it: EntityItem): string { EntityId(it.item.op, it.moduleKey, it.item.key) }

  function IdOfField(it: FieldItem): string { FieldId(it.item.op, it.moduleKey, it.entityKey, it.item.key) }

  function IdOfWorkflow(it: Item<Workflow>): string { WorkflowId(it.op, it.key) }

  function IdOfPolicy(it: Item<Policy>): string { PolicyId(it.op, it.key) }

  /** The ids as the client sends them back. */
  lemma IdsSpelled(m: string, e: string, f: string)
    ensures ModuleId(Add, m) == "module:" + "add" + ":" + m && ModuleId(Remove, m) == "module:" + "remove" + ":" + m
    ensures EntityId(Add, m, e) == "entity:" + "add" + ":" + m + ":" + e
    ensures EntityId(Remove, m, e) == "entity:" + "remove" + ":" + m + ":" + e
    ensures FieldId(Add, m, e, f) == "field:" + "add" + ":" + m + ":" + e + ":" + f
    ensures FieldId(Remove, m, e, f) == "field:" + "remove" + ":" + m + ":" + e + ":" + f
    ensures FieldId(Modify, m, e, f) == "field:" + "modify" + ":" + m + ":" + e + ":" + f
    ensures WorkflowId(Modify, m) == "workflow:" + "modify" + ":" + m
    ensures PolicyId(Modify, m) == "permission:" + "modify" + ":" + m
  {
  }

  /** `allDiffItemIds` */
  function AllIds(diff: Diff): seq<string> {
    Map(IdOfModule, diff.modules) + Map(IdOfEntity, diff.entities) + Map(IdOfField, diff.fields) +
    Map(IdOfWorkflow, diff.workflows) + Map(IdOfPolicy, diff.policies)
  }

  lemma IdsListed(diff: Diff)
    ensures forall it | it in diff.modules :: IdOfModule(it) in AllIds(diff)
    ensures forall it | it in diff.entities :: IdOfEntity(it) in AllIds(diff)
    ensures forall it | it in diff.fields :: IdOfField(it) in AllIds(diff)
    ensures forall it | it in diff.workflows :: IdOfWorkflow(it) in AllIds(diff)
    ensures forall it | it in diff.policies :: IdOfPolicy(it) in AllIds(diff)
  {
    hide IdOfModule, IdOfEntity, IdOfField, IdOfWorkflow, IdOfPolicy;
    InMap(IdOfModule, diff.modules);
    InMap(IdOfEntity, diff.entities);
    InMap(IdOfField, diff.fields);
    InMap(IdOfWorkflow, diff.workflows);
    InMap(IdOfPolicy, diff.policies);
  }

  lemma InMap<A>(f: A -> string, xs: seq<A>)
    ensures forall x | x in xs :: f(x) in Map(f, xs)
  {
    forall x | x in xs
      ensures f(x) in Map(f, xs)
    {
      var i :| 0 <= i < |xs| && xs[i] == x;
      assert Map(f, xs)[i] == f(x);
    }
  }

  /** What stands before a first colon can be told apart from what follows it. */
  lemma {:induction false} FirstPart(a: string, b: string, c: string, d: string)
    requires ':' !in a && ':' !in c && a + ":" + b == c + ":" + d
    ensures a == c && b == d
  {
    var s, t := a + ":" + b, c + ":" + d;
    if a == "" || c == "" {
      assert s[0] == t[0] == ':';
      assert a == c == "";
      assert s[1..] == b && t[1..] == d;
    } else {
      assert s[0] == a[0] && t[0] == c[0];
      assert s[1..] == a[1..] + ":" + b && t[1..] == c[1..] + ":" + d;
      FirstPart(a[1..], b, c[1..], d);
    }
  }

  lemma OpNameIsBare(op: Op, op2: Op)
    ensures ':' !in OpName(op) && (OpName(op) == OpName(op2) ==> op == op2)
  {
  }

  /** The operation and the rest of an id can be told apart. */
  lemma OpAndRest(kind: string, op: Op, rest: string, op2: Op, rest2: string)
    requires kind + OpName(op) + ":" + rest == kind + OpName(op2) + ":" + rest2
    ensures op == op2 && rest == rest2
  {
    OpNameIsBare(op, op2);
    OpNameIsBare(op2, op);
    hide OpName;
    var s, t := OpName(op) + ":" + rest, OpName(op2) + ":" + rest2;
    assert kind + s == kind + OpName(op) + ":" + rest && kind + t == kind + OpName(op2) + ":" + rest2;
    SamePrefix(kind, s, t);
    FirstPart(OpName(op), rest, OpName(op2), rest2);
  }

  /** The longer key goes on after the shorter one and a colon. */
  predicate Under(shorter: string, longer: string) {
    shorter + ":" <= longer
  }

  function Path(m: string, e: string): string { m + ":" + e }

  /** Two joined texts agree only where they are cut in the same place, or one head is under the other. */
  lemma SameCut(a: string, b: string, c: string, d: string)
    requires a + ":" + b == c + ":" + d && !Under(a, c) && !Under(c, a)
    ensures a == c && b == d
  {
    var s, t := a + ":" + b, c + ":" + d;
    if |a| == |c| {
      assert a == s[..|a|] && c == t[..|c|];
      assert b == s[|a| + 1..] && d == t[|c| + 1..];
    } else if |a| < |c| {
      ShorterIsUnder(a, b, c, d);
    } else {
      ShorterIsUnder(c, d, a, b);
    }
  }

  lemma ShorterIsUnder(a: string, b: string, c: string, d: string)
    requires a + ":" + b == c + ":" + d && |a| < |c|
    ensures Under(a, c)
  {
    var s, t := a + ":" + b, c + ":" + d;
    assert s[..|a| + 1] == a + ":" && t[..|a| + 1] == c[..|a| + 1];
  }

  /** An id names one entity, when neither module key is under the other. */
  lemma EntityIdNames(op: Op, m: string, e: string, op2: Op, m2: string, e2: string)
    requires !Under(m, m2) && !Under(m2, m) && EntityId(op, m, e) == EntityId(op2, m2, e2)
    ensures op == op2 && m == m2 && e == e2
  {
    hide OpName, Under;
    Regrouped("entity:" + OpName(op) + ":", m, e);
    Regrouped("entity:" + OpName(op2) + ":", m2, e2);
    OpAndRest("entity:", op, m + ":" + e, op2, m2 + ":" + e2);
    SameCut(m, e, m2, e2);
  }

  /** An id names one field, when neither module key and neither path is under the other. */
  lemma FieldIdNames(op: Op, m: string, e: string, f: string, op2: Op, m2: string, e2: string, f2: string)
    requires !Under(m, m2) && !Under(m2, m) && !Under(Path(m, e), Path(m2, e2)) && !Under(Path(m2, e2), Path(m, e))
    requires FieldId(op, m, e, f) == FieldId(op2, m2, e2, f2)
    ensures op == op2 && m == m2 && e == e2 && f == f2
  {
    FieldIdIsPath(op, m, e, f);
    FieldIdIsPath(op2, m2, e2, f2);
    hide OpName, Under, FieldId;
    OpAndRest("field:", op, Path(m, e) + ":" + f, op2, Path(m2, e2) + ":" + f2);
    SameCut(Path(m, e), f, Path(m2, e2), f2);
    SameCut(m, e, m2, e2);
  }

  lemma FieldIdIsPath(op: Op, m: string, e: string, f: string)
    ensures FieldId(op, m, e, f) == "field:" + OpName(op) + ":" + (Path(m, e) + ":" + f)
  {
    hide OpName;
    var head := "field:" + OpName(op) + ":";
    Regrouped(head + m + ":", e, f);
    Regrouped(head, m, e + ":" + f);
    Regrouped(m + ":", e, f);
  }

  lemma Regrouped(a: string, b: string, c: string)
    ensures a + b + ":" + c == a + (b + ":" + c)
    ensures b + (":" + c) == b + ":" + c
  {
  }

  lemma SamePrefix(p: string, s: string, t: string)
    requires p + s == p + t
    ensures s == t
  {
    assert s == (p + s)[|p|..] && t == (p + t)[|p|..];
  }

  /** With a colon in a module key, selecting one entity can select another as well. */
  lemma ColonsConfuse(op: Op, m: string, e: string, f: string)
    ensures EntityId(op, m + ":" + e, f) == EntityId(op, m, e + ":" + f)
  {
    assert m + ":" + e + ":" + f == m + ":" + (e + ":" + f);
  }

  type Selection = set<string>

  function ModuleChoice(s: Selection): Choice { (op, m) => ModuleId(op, m) in s }

  function EntityChoice(s: Selection, m: string): Choice { (op, e) => EntityId(op, m, e) in s }

  function FieldChoice(s: Selection, m: string, e: string): Choice { (op, f) => FieldId(op, m, e, f) in s }

  function WorkflowChoice(s: Selection): Choice { (op, w) => WorkflowId(op, w) in s }

  function PolicyChoice(s: Selection): Choice { (op, p) => PolicyId(op, p) in s }

  // ----- the differences between two definitions

  function InModule(m: string, items: seq<Item<Entity>>): seq<EntityItem> {
    seq(|items|, i requires 0 <= i < |items| => EntityItem(m, items[i]))
  }

  function InEntity(m: string, e: string, items: seq<Item<Field>>): seq<FieldItem> {
    seq(|items|, i requires 0 <= i < |items| => FieldItem(m, e, items[i]))
  }

  function EntityDifferences(before: seq<Module>, m: Module): seq<Item<Entity>> {
    Differences(EntitiesOf(Get(before, ModuleKey, m.key)), m.entities, ENTITY_KIND)
  }

  function EntityItems(before: seq<Module>, after: seq<Module>): seq<EntityItem> {
    if after == [] then []
    else
      var m := after[|after| - 1];
      EntityItems(before, after[..|after| - 1]) + InModule(m.key, EntityDifferences(before, m))
  }

  function FieldDifferences(before: seq<Entity>, e: Entity): seq<Item<Field>> {
    Differences(FieldsOf(Get(before, EntityKey, e.key)), e.fields, FIELD_KIND)
  }

  function FieldItemsIn(m: string, before: seq<Entity>, after: seq<Entity>): seq<FieldItem> {
    if after == [] then []
    else
      var e := after[|after| - 1];
      FieldItemsIn(m, before, after[..|after| - 1]) + InEntity(m, e.key, FieldDifferences(before, e))
  }

  function FieldItems(before: seq<Module>, after: seq<Module>): seq<FieldItem> {
    if after == [] then []
    else
      var m := after[|after| - 1];
      FieldItems(before, after[..|after| - 1]) +
      FieldItemsIn(m.key, FromList(EntitiesOf(Get(before, ModuleKey, m.key)), EntityKey),
          FromList(m.entities, EntityKey))
  }

  function DiffOf(before: Definition, after: Definition): Diff {
    var b, a := FromList(before.modules, ModuleKey), FromList(after.modules, ModuleKey);
    Diff(Differences(before.modules, after.modules, MODULE_KIND), EntityItems(b, a), FieldItems(b, a),
         Differences(before.workflows, after.workflows, WORKFLOW_KIND),
         Differences(before.policies, after.policies, POLICY_KIND))
  }

  method DiffSystemDefinition(before: Definition, after: Definition) returns (diff: Diff)
    ensures diff == DiffOf(before, after)
  {
    hide FromList, Differences, Get;
    var b, a := FromList(before.modules, ModuleKey), FromList(after.modules, ModuleKey);
    var modules := Compare(before.modules, after.modules, MODULE_KIND);
    var entities: seq<EntityItem> := [];
    var fields: seq<FieldItem> := [];
    for i := 0 to |a|
      invariant entities == EntityItems(b, a[..i]) && fields == FieldItems(b, a[..i])
    {
      assert a[..i + 1][..i] == a[..i];
      var known := EntitiesOf(Get(b, ModuleKey, a[i].key));
      var differences := Compare(known, a[i].entities, ENTITY_KIND);
      entities := entities + InModule(a[i].key, differences);
      var more := CompareFields(a[i].key, FromList(known, EntityKey), FromList(a[i].entities, EntityKey));
      fields := fields + more;
    }
    assert a[..|a|] == a;
    var workflows := Compare(before.workflows, after.workflows, WORKFLOW_KIND);
    var policies := Compare(before.policies, after.policies, POLICY_KIND);
    diff := Diff(modules, entities, fields, workflows, policies);
  }

  method CompareFields(m: string, before: seq<Entity>, after: seq<Entity>) returns (items: seq<FieldItem>)
    ensures items == FieldItemsIn(m, before, after)
  {
    hide Differences, Get;
    items := [];
    for i := 0 to |after|
      invariant items == FieldItemsIn(m, before, after[..i])
    {
      assert after[..i + 1][..i] == after[..i];
      var differences := Compare(FieldsOf(Get(before, EntityKey, after[i].key)), after[i].fields, FIELD_KIND);
      items := items + InEntity(m, after[i].key, differences);
    }
    assert after[..|after|] == after;
  }

  // ----- applying a selection

  function PatchEntity(ms: seq<Module>, it: EntityItem, s: Selection): seq<Module> {
    var i := IndexOf(Keys(ms, ModuleKey), it.moduleKey);
    if i == -1 then ms
    else ms[i := ms[i].(entities := Patch(ms[i].entities, it.item, ENTITY_KIND, EntityChoice(s, it.moduleKey)))]
  }

  function PatchEntities(ms: seq<Module>, items: seq<EntityItem>, s: Selection): seq<Module> {
    if items == [] then ms else PatchEntity(PatchEntities(ms, items[..|items| - 1], s), items[|items| - 1], s)
  }

  function PatchFieldIn(es: seq<Entity>, it: FieldItem, s: Selection): seq<Entity> {
    var i := IndexOf(Keys(es, EntityKey), it.entityKey);
    if i == -1 then es
    else es[i := es[i].(fields := Patch(es[i].fields, it.item, FIELD_KIND, FieldChoice(s, it.moduleKey, it.entityKey)))]
  }

  function PatchField(ms: seq<Module>, it: FieldItem, s: Selection): seq<Module> {
    var i := IndexOf(Keys(ms, ModuleKey), it.moduleKey);
    if i == -1 then ms else ms[i := ms[i].(entities := PatchFieldIn(ms[i].entities, it, s))]
  }

  function PatchFields(ms: seq<Module>, items: seq<FieldItem>, s: Selection): seq<Module> {
    if items == [] then ms else PatchField(PatchFields(ms, items[..|items| - 1], s), items[|items| - 1], s)
  }

  /** The selected entities of an added module that it does not hold yet. */
  function FillModule(es: seq<Entity>, m: string, plan: seq<Entity>, s: Selection): seq<Entity> {
    if plan == [] then es
    else
      var filled, e := FillModule(es, m, plan[..|plan| - 1], s), plan[|plan| - 1];
      if EntityId(Add, m, e.key) in s && e.key !in Keys(filled, EntityKey) then filled + [EntityShell(e)] else filled
  }

  function FillModules(ms: seq<Module>, items: seq<Item<Module>>, s: Selection): seq<Module> {
    if items == [] then ms
    else
      var filled, it := FillModules(ms, items[..|items| - 1], s), items[|items| - 1];
      var i := IndexOf(Keys(filled, ModuleKey), it.key);
      if it.op != Add || ModuleId(Add, it.key) !in s || it.after.None? || i == -1 then filled
      else filled[i := filled[i].(entities := FillModule(filled[i].entities, it.key, it.after.value.entities, s))]
  }

  /** The selected fields of an added entity that it does not hold yet. */
  function FillEntity(fs: seq<Field>, m: string, e: string, plan: seq<Field>, s: Selection): seq<Field> {
    if plan == [] then fs
    else
      var filled, f := FillEntity(fs, m, e, plan[..|plan| - 1], s), plan[|plan| - 1];
      if FieldId(Add, m, e, f.key) in s && f.key !in Keys(filled, FieldKey) then filled + [f] else filled
  }

  function FillEntityIn(es: seq<Entity>, m: string, it: Item<Entity>, s: Selection): seq<Entity> {
    var j := IndexOf(Keys(es, EntityKey), it.key);
    if j == -1 || it.after.None? then es
    else es[j := es[j].(fields := FillEntity(es[j].fields, m, it.key, it.after.value.fields, s))]
  }

  function FillEntityItem(ms: seq<Module>, it: EntityItem, s: Selection): seq<Module> {
    var i := IndexOf(Keys(ms, ModuleKey), it.moduleKey);
    if it.item.op != Add || EntityId(Add, it.moduleKey, it.item.key) !in s || i == -1 then ms
    else ms[i := ms[i].(entities := FillEntityIn(ms[i].entities, it.moduleKey, it.item, s))]
  }

  function FillEntities(ms: seq<Module>, items: seq<EntityItem>, s: Selection): seq<Module> {
    if items == [] then ms else FillEntityItem(FillEntities(ms, items[..|items| - 1], s), items[|items| - 1], s)
  }

  function PatchModules(before: seq<Module>, diff: Diff, s: Selection): seq<Module> {
    PatchFields(PatchEntities(PatchAll(before, diff.modules, MODULE_KIND, ModuleChoice(s)), diff.entities, s),
        diff.fields, s)
  }

  /** The definition that follows from a selection of the differences. */
  function Selected(before: Definition, after: Definition, diff: Diff, s: Selection): Definition {
    Definition(after.profile,
               FillEntities(FillModules(PatchModules(before.modules, diff, s), diff.modules, s), diff.entities, s),
               after.views, after.dashboards,
               PatchAll(before.workflows, diff.workflows, WORKFLOW_KIND, WorkflowChoice(s)),
               PatchAll(before.policies, diff.policies, POLICY_KIND, PolicyChoice(s)))
  }

  method ApplyEntities(ms: seq<Module>, items: seq<EntityItem>, s: Selection) returns (modules: seq<Module>)
    ensures modules == PatchEntities(ms, items, s)
  {
    modules := ms;
    for n := 0 to |items|
      invariant modules == PatchEntities(ms, items[..n], s)
    {
      assert items[..n + 1][..n] == items[..n];
      var it := items[n];
      var i := IndexOf(Keys(modules, ModuleKey), it.moduleKey);
      if EntityId(it.item.op, it.moduleKey, it.item.key) !in s || i == -1 {
        UnselectedEntity(modules, it, s);
        continue;
      }
      var entities := Patch(modules[i].entities, it.item, ENTITY_KIND, EntityChoice(s, it.moduleKey));
      modules := modules[i := modules[i].(entities := entities)];
    }
    assert items[..|items|] == items;
  }

  lemma UnselectedEntity(ms: seq<Module>, it: EntityItem, s: Selection)
    requires EntityId(it.item.op, it.moduleKey, it.item.key) !in s || it.moduleKey !in Keys(ms, ModuleKey)
    ensures PatchEntity(ms, it, s) == ms
  {
  }

  method ApplyFields(ms: seq<Module>, items: seq<FieldItem>, s: Selection) returns (modules: seq<Module>)
    ensures modules == PatchFields(ms, items, s)
  {
    modules := ms;
    for n := 0 to |items|
      invariant modules == PatchFields(ms, items[..n], s)
    {
      assert items[..n + 1][..n] == items[..n];
      modules := ApplyField(modules, items[n], s);
    }
    assert items[..|items|] == items;
  }

  method ApplyField(ms: seq<Module>, it: FieldItem, s: Selection) returns (modules: seq<Module>)
    ensures modules == PatchField(ms, it, s)
  {
    hide Patch;
    var i := IndexOf(Keys(ms, ModuleKey), it.moduleKey);
    if FieldId(it.item.op, it.moduleKey, it.entityKey, it.item.key) !in s || i == -1 {
      UnselectedField(ms, it, s);
      return ms;
    }
    var entities := ms[i].entities;
    var j := IndexOf(Keys(entities, EntityKey), it.entityKey);
    if j == -1 {
      assert ms[i := ms[i].(entities := entities)] == ms;
      return ms;
    }
    var fields := Patch(entities[j].fields, it.item, FIELD_KIND, FieldChoice(s, it.moduleKey, it.entityKey));
    modules := ms[i := ms[i].(entities := entities[j := entities[j].(fields := fields)])];
  }

  lemma UnselectedField(ms: seq<Module>, it: FieldItem, s: Selection)
    requires FieldId(it.item.op, it.moduleKey, it.entityKey, it.item.key) !in s || it.moduleKey !in Keys(ms, ModuleKey)
    ensures PatchField(ms, it, s) == ms
  {
    var i := IndexOf(Keys(ms, ModuleKey), it.moduleKey);
    if i >= 0 {
      assert PatchFieldIn(ms[i].entities, it, s) == ms[i].entities;
    }
  }

  method FillAddedModules(ms: seq<Module>, items: seq<Item<Module>>, s: Selection) returns (modules: seq<Module>)
    ensures modules == FillModules(ms, items, s)
  {
    modules := ms;
    for n := 0 to |items|
      invariant modules == FillModules(ms, items[..n], s)
    {
      assert items[..n + 1][..n] == items[..n];
      var it := items[n];
      if it.op != Add || ModuleId(Add, it.key) !in s || it.after.None? {
        continue;
      }
      var i := IndexOf(Keys(modules, ModuleKey), it.key);
      if i == -1 {
        continue;
      }
      var entities, plan := modules[i].entities, it.after.value.entities;
      for k := 0 to |plan|
        invariant entities == FillModule(modules[i].entities, it.key, plan[..k], s)
      {
        assert plan[..k + 1][..k] == plan[..k];
        if EntityId(Add, it.key, plan[k].key) in s && plan[k].key !in Keys(entities, EntityKey) {
          entities := entities + [EntityShell(plan[k])];
        }
      }
      assert plan[..|plan|] == plan;
      modules := modules[i := modules[i].(entities := entities)];
    }
    assert items[..|items|] == items;
  }

  method FillAddedEntities(ms: seq<Module>, items: seq<EntityItem>, s: Selection) returns (modules: seq<Module>)
    ensures modules == FillEntities(ms, items, s)
  {
    modules := ms;
    for n := 0 to |items|
      invariant modules == FillEntities(ms, items[..n], s)
    {
      assert items[..n + 1][..n] == items[..n];
      modules := FillAddedEntity(modules, items[n], s);
    }
    assert items[..|items|] == items;
  }

  method FillAddedEntity(ms: seq<Module>, it: EntityItem, s: Selection) returns (modules: seq<Module>)
    ensures modules == FillEntityItem(ms, it, s)
  {
    var i := IndexOf(Keys(ms, ModuleKey), it.moduleKey);
    if it.item.op != Add || EntityId(Add, it.moduleKey, it.item.key) !in s || i == -1 {
      return ms;
    }
    var entities := ms[i].entities;
    var j := IndexOf(Keys(entities, EntityKey), it.item.key);
    if j == -1 || it.item.after.None? {
      assert ms[i := ms[i].(entities := entities)] == ms;
      return ms;
    }
    var fields := FillFields(entities[j].fields, it.moduleKey, it.item.key, it.item.after.value.fields, s);
    modules := ms[i := ms[i].(entities := entities[j := entities[j].(fields := fields)])];
  }

  method FillFields(fs: seq<Field>, m: string, e: string, plan: seq<Field>, s: Selection) returns (fields: seq<Field>)
    ensures fields == FillEntity(fs, m, e, plan, s)
  {
    fields := fs;
    for k := 0 to |plan|
      invariant fields == FillEntity(fs, m, e, plan[..k], s)
    {
      assert plan[..k + 1][..k] == plan[..k];
      if FieldId(Add, m, e, plan[k].key) in s && plan[k].key !in Keys(fields, FieldKey) {
        fields := fields + [plan[k]];
      }
    }
    assert plan[..|plan|] == plan;
  }

  method ApplyDiffSelection(before: Definition, after: Definition, diff: Diff, s: Selection)
      returns (result: Definition)
    ensures result == Selected(before, after, diff, s)
  {
    hide PatchAll, PatchEntities, PatchFields, FillModules, FillEntities;
    var modules := ApplyAll(before.modules, diff.modules, MODULE_KIND, ModuleChoice(s));
    modules := ApplyEntities(modules, diff.entities, s);
    modules := ApplyFields(modules, diff.fields, s);
    modules := FillAddedModules(modules, diff.modules, s);
    modules := FillAddedEntities(modules, diff.entities, s);
    var workflows := ApplyAll(before.workflows, diff.workflows, WORKFLOW_KIND, WorkflowChoice(s));
    var policies := ApplyAll(before.policies, diff.policies, POLICY_KIND, PolicyChoice(s));
    result := Definition(after.profile, modules, after.views, after.dashboards, workflows, policies);
  }
}
