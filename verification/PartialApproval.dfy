/** Approving part of a plan: what a selection of the differences gives, nothing and everything
    selected included. */
module PartialApproval {
  import opened OrderedMerge
  import opened SystemDefinition
  import opened ChangePlan
  import opened KeyedDiff
  import opened DiffSelection

  // ----- selecting nothing

  ghost predicate HasId(diff: Diff, id: string) {
    id in AllIds(diff)
  }

  lemma HasIds(diff: Diff)
    ensures forall it | it in diff.modules :: HasId(diff, IdOfModule(it))
    ensures forall it | it in diff.entities :: HasId(diff, IdOfEntity(it))
    ensures forall it | it in diff.fields :: HasId(diff, IdOfField(it))
    ensures forall it | it in diff.workflows :: HasId(diff, IdOfWorkflow(it))
    ensures forall it | it in diff.policies :: HasId(diff, IdOfPolicy(it))
  {
    IdsListed(diff);
    hide AllIds, IdOfModule, IdOfEntity, IdOfField, IdOfWorkflow, IdOfPolicy;
  }

  lemma {:induction false} NonePatched<T>(xs: seq<T>, items: seq<Item<T>>, kind: Kind<T>, chosen: Choice)
    requires forall it | it in items :: !chosen(it.op, it.key)
    ensures PatchAll(xs, items, kind, chosen) == xs
  {
    if items == [] {
    } else {
      NonePatched(xs, items[..|items| - 1], kind, chosen);
    }
  }

  lemma {:induction false} NoEntities(ms: seq<Module>, items: seq<EntityItem>, s: Selection)
    requires forall it | it in items :: EntityId(it.item.op, it.moduleKey, it.item.key) !in s
    ensures PatchEntities(ms, items, s) == ms && FillEntities(ms, items, s) == ms
  {
    if items == [] {
    } else {
      NoEntities(ms, items[..|items| - 1], s);
      UnselectedEntity(ms, items[|items| - 1], s);
    }
  }

  lemma {:induction false} NoFields(ms: seq<Module>, items: seq<FieldItem>, s: Selection)
    requires forall it | it in items :: FieldId(it.item.op, it.moduleKey, it.entityKey, it.item.key) !in s
    ensures PatchFields(ms, items, s) == ms
  {
    if items == [] {
    } else {
      NoFields(ms, items[..|items| - 1], s);
      UnselectedField(ms, items[|items| - 1], s);
    }
  }

  lemma {:induction false} NoModules(ms: seq<Module>, items: seq<Item<Module>>, s: Selection)
    requires forall it | it in items :: ModuleId(it.op, it.key) !in s
    ensures FillModules(ms, items, s) == ms
  {
    if items == [] {
    } else {
      NoModules(ms, items[..|items| - 1], s);
    }
  }

  /** Selecting no difference keeps modules, workflows and policies as they were; profile, views
      and dashboards still come from the plan. */
  lemma NothingSelected(before: Definition, after: Definition, diff: Diff, s: Selection)
    requires forall id | id in s :: !HasId(diff, id)
    ensures Selected(before, after, diff, s) ==
            before.(profile := after.profile, views := after.views, dashboards := after.dashboards)
  {
    HasIds(diff);
    hide PatchAll, PatchEntities, PatchFields, FillModules, FillEntities, HasId;
    NonePatched(before.modules, diff.modules, MODULE_KIND, ModuleChoice(s));
    NoEntities(before.modules, diff.entities, s);
    NoFields(before.modules, diff.fields, s);
    NoModules(before.modules, diff.modules, s);
    NonePatched(before.workflows, diff.workflows, WORKFLOW_KIND, WorkflowChoice(s));
    NonePatched(before.policies, diff.policies, POLICY_KIND, PolicyChoice(s));
  }

  // ----- the item lists, module by module

  lemma {:induction false} EntitiesAppend(ms: seq<Module>, some: seq<EntityItem>, more: seq<EntityItem>, s: Selection)
    ensures PatchEntities(ms, some + more, s) == PatchEntities(PatchEntities(ms, some, s), more, s)
  {
    hide PatchEntity;
    if more == [] {
      assert some + more == some;
    } else {
      EntitiesAppend(ms, some, more[..|more| - 1], s);
      assert (some + more)[..|some + more| - 1] == some + more[..|more| - 1];
    }
  }

  lemma {:induction false} FieldsAppend(ms: seq<Module>, some: seq<FieldItem>, more: seq<FieldItem>, s: Selection)
    ensures PatchFields(ms, some + more, s) == PatchFields(PatchFields(ms, some, s), more, s)
  {
    hide PatchField;
    if more == [] {
      assert some + more == some;
    } else {
      FieldsAppend(ms, some, more[..|more| - 1], s);
      assert (some + more)[..|some + more| - 1] == some + more[..|more| - 1];
    }
  }

  lemma InModuleMore(m: string, items: seq<Item<Entity>>, it: Item<Entity>)
    ensures InModule(m, items + [it]) == InModule(m, items) + [EntityItem(m, it)]
  {
  }

  lemma EntitiesStep(ms: seq<Module>, items: seq<EntityItem>, it: EntityItem, s: Selection)
    ensures PatchEntities(ms, items + [it], s) == PatchEntity(PatchEntities(ms, items, s), it, s)
  {
    hide PatchEntity;
    assert (items + [it])[..|items|] == items;
  }

  lemma OneMoreEntity(ms: seq<Module>, m: string, items: seq<Item<Entity>>, it: Item<Entity>, s: Selection)
    ensures PatchEntities(ms, InModule(m, items + [it]), s) ==
            PatchEntity(PatchEntities(ms, InModule(m, items), s), EntityItem(m, it), s)
  {
    hide *;
    InModuleMore(m, items, it);
    EntitiesStep(ms, InModule(m, items), EntityItem(m, it), s);
  }

  lemma PatchEntityAt(ms: seq<Module>, i: nat, es: seq<Entity>, it: EntityItem, s: Selection)
    requires i < |ms| && IndexOf(Keys(ms, ModuleKey), it.moduleKey) == i
    ensures PatchEntity(ms[i := ms[i].(entities := es)], it, s) ==
            ms[i := ms[i].(entities := Patch(es, it.item, ENTITY_KIND, EntityChoice(s, it.moduleKey)))]
  {
    assert Keys(ms[i := ms[i].(entities := es)], ModuleKey) == Keys(ms, ModuleKey);
  }

  /** The items of one module patch that module's entities. */
  lemma {:induction false} EntitiesOfOne(ms: seq<Module>, m: string, items: seq<Item<Entity>>, s: Selection)
    ensures var i := IndexOf(Keys(ms, ModuleKey), m);
            PatchEntities(ms, InModule(m, items), s) ==
            if i == -1 then ms
            else ms[i := ms[i].(entities := PatchAll(ms[i].entities, items, ENTITY_KIND, EntityChoice(s, m)))]
  {
    var i := IndexOf(Keys(ms, ModuleKey), m);
    if items == [] {
    } else {
      hide Patch, PatchAll, PatchEntities, InModule, Keys, EntityChoice;
      var init, it := items[..|items| - 1], items[|items| - 1];
      assert items == init + [it];
      EntitiesOfOne(ms, m, init, s);
      OneMoreEntity(ms, m, init, it, s);
      if i >= 0 {
        PatchEntityAt(ms, i, PatchAll(ms[i].entities, init, ENTITY_KIND, EntityChoice(s, m)), EntityItem(m, it), s);
        PatchOneMore(ms[i].entities, init, it, ENTITY_KIND, EntityChoice(s, m));
      }
    }
  }

  function EntityPatch(before: seq<Module>, s: Selection): (Module, Module) -> Module {
    (x: Module, m: Module) =>
      x.(entities := PatchAll(x.entities, EntityDifferences(before, m), ENTITY_KIND, EntityChoice(s, m.key)))
  }

  lemma {:induction false} EntityPhase(ms: seq<Module>, before: seq<Module>, after: seq<Module>, s: Selection)
    ensures PatchEntities(ms, EntityItems(before, after), s) == Visit(ms, after, ModuleKey, EntityPatch(before, s))
  {
    if after == [] {
    } else {
      var init, m := after[..|after| - 1], after[|after| - 1];
      EntityPhase(ms, before, init, s);
      EntitiesAppend(ms, EntityItems(before, init), InModule(m.key, EntityDifferences(before, m)), s);
      EntitiesOfOne(PatchEntities(ms, EntityItems(before, init), s), m.key, EntityDifferences(before, m), s);
    }
  }

  function PatchFieldsIn(es: seq<Entity>, items: seq<FieldItem>, s: Selection): seq<Entity> {
    if items == [] then es else PatchFieldIn(PatchFieldsIn(es, items[..|items| - 1], s), items[|items| - 1], s)
  }

  lemma {:induction false} FieldsInAppend(es: seq<Entity>, some: seq<FieldItem>, more: seq<FieldItem>, s: Selection)
    ensures PatchFieldsIn(es, some + more, s) == PatchFieldsIn(PatchFieldsIn(es, some, s), more, s)
  {
    hide PatchFieldIn;
    if more == [] {
      assert some + more == some;
    } else {
      FieldsInAppend(es, some, more[..|more| - 1], s);
      assert (some + more)[..|some + more| - 1] == some + more[..|more| - 1];
    }
  }

  lemma InEntityMore(m: string, e: string, items: seq<Item<Field>>, it: Item<Field>)
    ensures InEntity(m, e, items + [it]) == InEntity(m, e, items) + [FieldItem(m, e, it)]
  {
  }

  lemma FieldsInStep(es: seq<Entity>, items: seq<FieldItem>, it: FieldItem, s: Selection)
    ensures PatchFieldsIn(es, items + [it], s) == PatchFieldIn(PatchFieldsIn(es, items, s), it, s)
  {
    hide PatchFieldIn;
    assert (items + [it])[..|items|] == items;
  }

  lemma OneMoreField(es: seq<Entity>, m: string, e: string, items: seq<Item<Field>>, it: Item<Field>, s: Selection)
    ensures PatchFieldsIn(es, InEntity(m, e, items + [it]), s) ==
            PatchFieldIn(PatchFieldsIn(es, InEntity(m, e, items), s), FieldItem(m, e, it), s)
  {
    hide *;
    InEntityMore(m, e, items, it);
    FieldsInStep(es, InEntity(m, e, items), FieldItem(m, e, it), s);
  }

  lemma PatchFieldAt(es: seq<Entity>, i: nat, fs: seq<Field>, it: FieldItem, s: Selection)
    requires i < |es| && IndexOf(Keys(es, EntityKey), it.entityKey) == i
    ensures PatchFieldIn(es[i := es[i].(fields := fs)], it, s) ==
            es[i := es[i].(fields := Patch(fs, it.item, FIELD_KIND, FieldChoice(s, it.moduleKey, it.entityKey)))]
  {
    assert Keys(es[i := es[i].(fields := fs)], EntityKey) == Keys(es, EntityKey);
  }

  lemma {:induction false} FieldsOfOne(es: seq<Entity>, m: string, e: string, items: seq<Item<Field>>, s: Selection)
    ensures var i := IndexOf(Keys(es, EntityKey), e);
            PatchFieldsIn(es, InEntity(m, e, items), s) ==
            if i == -1 then es
            else es[i := es[i].(fields := PatchAll(es[i].fields, items, FIELD_KIND, FieldChoice(s, m, e)))]
  {
    var i := IndexOf(Keys(es, EntityKey), e);
    if items == [] {
    } else {
      hide Patch, PatchAll, PatchFieldsIn, InEntity, Keys, FieldChoice;
      var init, it := items[..|items| - 1], items[|items| - 1];
      assert items == init + [it];
      FieldsOfOne(es, m, e, init, s);
      OneMoreField(es, m, e, init, it, s);
      if i >= 0 {
        PatchFieldAt(es, i, PatchAll(es[i].fields, init, FIELD_KIND, FieldChoice(s, m, e)), FieldItem(m, e, it), s);
        PatchOneMore(es[i].fields, init, it, FIELD_KIND, FieldChoice(s, m, e));
      }
    }
  }

  function FieldPatch(m: string, before: seq<Entity>, s: Selection): (Entity, Entity) -> Entity {
    (x: Entity, e: Entity) =>
      x.(fields := PatchAll(x.fields, FieldDifferences(before, e), FIELD_KIND, FieldChoice(s, m, e.key)))
  }

  lemma {:induction false} FieldPhaseIn(es: seq<Entity>, m: string, before: seq<Entity>, after: seq<Entity>,
      s: Selection)
    ensures PatchFieldsIn(es, FieldItemsIn(m, before, after), s) ==
            Visit(es, after, EntityKey, FieldPatch(m, before, s))
  {
    if after == [] {
    } else {
      var init, e := after[..|after| - 1], after[|after| - 1];
      FieldPhaseIn(es, m, before, init, s);
      FieldsInAppend(es, FieldItemsIn(m, before, init), InEntity(m, e.key, FieldDifferences(before, e)), s);
      FieldsOfOne(PatchFieldsIn(es, FieldItemsIn(m, before, init), s), m, e.key, FieldDifferences(before, e), s);
    }
  }

  /** Field items of one module patch the entities of that module. */
  lemma {:induction false} FieldsInOne(ms: seq<Module>, m: string, items: seq<FieldItem>, s: Selection)
    requires forall it | it in items :: it.moduleKey == m
    ensures var i := IndexOf(Keys(ms, ModuleKey), m);
            PatchFields(ms, items, s) ==
            if i == -1 then ms else ms[i := ms[i].(entities := PatchFieldsIn(ms[i].entities, items, s))]
  {
    if items == [] {
    } else {
      hide *;
      var init, it := items[..|items| - 1], items[|items| - 1];
      assert items == init + [it];
      FieldsInOne(ms, m, init, s);
      FieldsStep(ms, init, it, s);
      var i := IndexOf(Keys(ms, ModuleKey), m);
      if i >= 0 {
        PatchFieldInModule(ms, i, PatchFieldsIn(ms[i].entities, init, s), it, s);
        FieldsInStep(ms[i].entities, init, it, s);
      } else {
        UnselectedField(ms, it, s);
      }
    }
  }

  lemma FieldsStep(ms: seq<Module>, items: seq<FieldItem>, it: FieldItem, s: Selection)
    ensures PatchFields(ms, items + [it], s) == PatchField(PatchFields(ms, items, s), it, s)
  {
    hide PatchField;
    assert (items + [it])[..|items|] == items;
  }

  lemma PatchFieldInModule(ms: seq<Module>, i: nat, es: seq<Entity>, it: FieldItem, s: Selection)
    requires i < |ms| && IndexOf(Keys(ms, ModuleKey), it.moduleKey) == i
    ensures PatchField(ms[i := ms[i].(entities := es)], it, s) ==
            ms[i := ms[i].(entities := PatchFieldIn(es, it, s))]
  {
    hide PatchFieldIn;
    assert Keys(ms[i := ms[i].(entities := es)], ModuleKey) == Keys(ms, ModuleKey);
  }

  lemma {:induction false} FieldItemsInOne(m: string, before: seq<Entity>, after: seq<Entity>)
    ensures forall it | it in FieldItemsIn(m, before, after) :: it.moduleKey == m
  {
    if after == [] {
    } else {
      FieldItemsInOne(m, before, after[..|after| - 1]);
    }
  }

  function ModulePatch(before: seq<Module>, s: Selection): (Module, Module) -> Module {
    (x: Module, m: Module) =>
      x.(entities := VisitFields(x.entities, m.key, EntitiesOf(Get(before, ModuleKey, m.key)), m.entities, s))
  }

  function VisitFields(es: seq<Entity>, m: string, before: seq<Entity>, after: seq<Entity>, s: Selection): seq<Entity> {
    Visit(es, FromList(after, EntityKey), EntityKey, FieldPatch(m, FromList(before, EntityKey), s))
  }

  lemma {:induction false} FieldPhase(ms: seq<Module>, before: seq<Module>, after: seq<Module>, s: Selection)
    ensures PatchFields(ms, FieldItems(before, after), s) == Visit(ms, after, ModuleKey, ModulePatch(before, s))
  {
    if after == [] {
    } else {
      var init, m := after[..|after| - 1], after[|after| - 1];
      var known := FromList(EntitiesOf(Get(before, ModuleKey, m.key)), EntityKey);
      var items := FieldItemsIn(m.key, known, FromList(m.entities, EntityKey));
      var done := PatchFields(ms, FieldItems(before, init), s);
      FieldPhase(ms, before, init, s);
      FieldsAppend(ms, FieldItems(before, init), items, s);
      FieldItemsInOne(m.key, known, FromList(m.entities, EntityKey));
      FieldsInOne(done, m.key, items, s);
      var i := IndexOf(Keys(done, ModuleKey), m.key);
      if i >= 0 {
        FieldPhaseIn(done[i].entities, m.key, known, FromList(m.entities, EntityKey), s);
      }
    }
  }

  // ----- what a selection gives

  /** The entities a selection gives a module, from those it had and those the plan has. */
  function SelectedEntities(m: string, before: seq<Entity>, after: seq<Entity>, s: Selection): seq<Entity> {
    VisitFields(PatchAll(before, Differences(before, after, ENTITY_KIND), ENTITY_KIND, EntityChoice(s, m)), m, before,
        after, s)
  }

  /** The fields a selection gives an entity. */
  function SelectedFields(m: string, e: string, before: seq<Field>, after: seq<Field>, s: Selection): seq<Field> {
    PatchAll(before, Differences(before, after, FIELD_KIND), FIELD_KIND, FieldChoice(s, m, e))
  }

  lemma SensibleKinds()
    ensures Sensible(FIELD_KIND) && Sensible(ENTITY_KIND) && Sensible(MODULE_KIND) && Sensible(WORKFLOW_KIND) &&
            Sensible(POLICY_KIND)
  {
  }

  /** A selection keeps the known entities in their places, adds the selected new ones in plan
      order, and gives each the fields selected for it. */
  lemma EntityHolds(m: string, before: seq<Entity>, after: seq<Entity>, s: Selection, e: string)
    requires UniqueEntities(before) && UniqueEntities(after)
    ensures var kb, ka := Keys(before, EntityKey), Keys(after, EntityKey);
            Keys(SelectedEntities(m, before, after, s), EntityKey) ==
            Without(kb, Gone(kb, ka, EntityChoice(s, m))) + Come(kb, ka, EntityChoice(s, m))
    ensures var b, a := Get(before, EntityKey, e), Get(after, EntityKey, e);
            var x := Chosen(b, a, e, ENTITY_KIND, EntityChoice(s, m));
            Get(SelectedEntities(m, before, after, s), EntityKey, e) ==
            if x.Some? && a.Some?
            then Some(x.value.(fields := SelectedFields(m, e, FieldsOf(b), a.value.fields, s)))
            else x
  {
    SensibleKinds();
    FieldPatchKeeps(m, before, s);
    FromListIsIdentity(before, EntityKey);
    FromListIsIdentity(after, EntityKey);
    hide PatchAll, Differences, Visit, Without, Sensible, KeepsOwnKey, Keys, Get, Distinct, UniqueEntity, FieldPatch,
      Merge;
    var patched := PatchAll(before, Differences(before, after, ENTITY_KIND), ENTITY_KIND, EntityChoice(s, m));
    PatchedHolds(before, after, ENTITY_KIND, EntityChoice(s, m), e);
    VisitedHolds(patched, after, EntityKey, FieldPatch(m, before, s), e);
    FieldsVisited(m, before, after, s, e);
  }

  lemma FieldPatchKeeps(m: string, before: seq<Entity>, s: Selection)
    ensures KeepsOwnKey(EntityKey, FieldPatch(m, before, s))
  {
  }

  lemma FieldsVisited(m: string, before: seq<Entity>, after: seq<Entity>, s: Selection, e: string)
    ensures var b, a := Get(before, EntityKey, e), Get(after, EntityKey, e);
            var x := Chosen(b, a, e, ENTITY_KIND, EntityChoice(s, m));
            x.Some? && a.Some? ==>
              FieldPatch(m, before, s)(x.value, a.value) ==
              x.value.(fields := SelectedFields(m, e, FieldsOf(b), a.value.fields, s))
  {
  }

  /** The same, one level up. */
  lemma ModuleHolds(before: seq<Module>, after: seq<Module>, s: Selection, m: string)
    requires UniqueModules(before) && UniqueModules(after)
    ensures var kb, ka := Keys(before, ModuleKey), Keys(after, ModuleKey);
            Keys(SelectedModules(before, after, s), ModuleKey) ==
            Without(kb, Gone(kb, ka, ModuleChoice(s))) + Come(kb, ka, ModuleChoice(s))
    ensures var b, a := Get(before, ModuleKey, m), Get(after, ModuleKey, m);
            var x := Chosen(b, a, m, MODULE_KIND, ModuleChoice(s));
            Get(SelectedModules(before, after, s), ModuleKey, m) ==
            if x.Some? && a.Some?
            then Some(x.value.(entities := SelectedEntities(m, EntitiesOf(b), a.value.entities, s)))
            else x
  {
    SensibleKinds();
    ModulePatchesKeep(before, s);
    hide PatchAll, Differences, Visit, Without, Sensible, KeepsOwnKey, Keys, Get, Distinct, UniqueModule, EntityPatch,
      ModulePatch;
    var patched := PatchAll(before, Differences(before, after, MODULE_KIND), MODULE_KIND, ModuleChoice(s));
    PatchedHolds(before, after, MODULE_KIND, ModuleChoice(s), m);
    VisitedHolds(patched, after, ModuleKey, EntityPatch(before, s), m);
    VisitedHolds(Visit(patched, after, ModuleKey, EntityPatch(before, s)), after, ModuleKey, ModulePatch(before, s), m);
    EntitiesVisited(before, after, s, m);
  }

  lemma ModulePatchesKeep(before: seq<Module>, s: Selection)
    ensures KeepsOwnKey(ModuleKey, EntityPatch(before, s)) && KeepsOwnKey(ModuleKey, ModulePatch(before, s))
  {
  }

  lemma EntitiesVisited(before: seq<Module>, after: seq<Module>, s: Selection, m: string)
    ensures var b, a := Get(before, ModuleKey, m), Get(after, ModuleKey, m);
            var x := Chosen(b, a, m, MODULE_KIND, ModuleChoice(s));
            x.Some? && a.Some? ==>
              ModulePatch(before, s)(EntityPatch(before, s)(x.value, a.value), a.value) ==
              x.value.(entities := SelectedEntities(m, EntitiesOf(b), a.value.entities, s))
  {
  }

  function SelectedModules(before: seq<Module>, after: seq<Module>, s: Selection): seq<Module> {
    Visit(Visit(PatchAll(before, Differences(before, after, MODULE_KIND), MODULE_KIND, ModuleChoice(s)),
                after, ModuleKey, EntityPatch(before, s)),
          after, ModuleKey, ModulePatch(before, s))
  }

  lemma PatchModulesIsSelected(before: Definition, after: Definition, s: Selection)
    requires UniqueModules(before.modules) && UniqueModules(after.modules)
    ensures PatchModules(before.modules, DiffOf(before, after), s) == SelectedModules(before.modules, after.modules, s)
  {
    FromListIsIdentity(before.modules, ModuleKey);
    FromListIsIdentity(after.modules, ModuleKey);
    var patched := PatchAll(before.modules, Differences(before.modules, after.modules, MODULE_KIND), MODULE_KIND,
        ModuleChoice(s));
    EntityPhase(patched, before.modules, after.modules, s);
    FieldPhase(PatchEntities(patched, EntityItems(before.modules, after.modules), s), before.modules, after.modules, s);
  }

  // ----- the second pass over added modules and entities

  lemma {:induction false} EntityItemsAre(before: seq<Module>, after: seq<Module>, it: EntityItem)
    requires Distinct(Keys(after, ModuleKey))
    ensures it in EntityItems(before, after) <==>
            var a := Get(after, ModuleKey, it.moduleKey); a.Some? && it.item in EntityDifferences(before, a.value)
  {
    hide Differences;
    if after == [] {
    } else {
      var init, m := after[..|after| - 1], after[|after| - 1];
      KeysInit(after, ModuleKey);
      DistinctInit(Keys(after, ModuleKey));
      EntityItemsAre(before, init, it);
      GetInit(after, ModuleKey, it.moduleKey);
      TaggedEntity(m.key, EntityDifferences(before, m), it);
    }
  }

  lemma TaggedEntity(m: string, items: seq<Item<Entity>>, it: EntityItem)
    ensures it in InModule(m, items) <==> it.moduleKey == m && it.item in items
  {
    if it.moduleKey == m && it.item in items {
      var i :| 0 <= i < |items| && items[i] == it.item;
      assert InModule(m, items)[i] == it;
    }
  }

  lemma {:induction false} FieldItemsInAre(m: string, before: seq<Entity>, after: seq<Entity>, it: FieldItem)
    requires Distinct(Keys(after, EntityKey))
    ensures it in FieldItemsIn(m, before, after) <==>
            it.moduleKey == m &&
            var a := Get(after, EntityKey, it.entityKey); a.Some? && it.item in FieldDifferences(before, a.value)
  {
    hide Differences;
    if after == [] {
    } else {
      var init, e := after[..|after| - 1], after[|after| - 1];
      KeysInit(after, EntityKey);
      DistinctInit(Keys(after, EntityKey));
      FieldItemsInAre(m, before, init, it);
      GetInit(after, EntityKey, it.entityKey);
      TaggedField(m, e.key, FieldDifferences(before, e), it);
    }
  }

  lemma TaggedField(m: string, e: string, items: seq<Item<Field>>, it: FieldItem)
    ensures it in InEntity(m, e, items) <==> it.moduleKey == m && it.entityKey == e && it.item in items
  {
    if it.moduleKey == m && it.entityKey == e && it.item in items {
      var i :| 0 <= i < |items| && items[i] == it.item;
      assert InEntity(m, e, items)[i] == it;
    }
  }

  lemma {:induction false} FieldItemsListed(before: seq<Module>, after: seq<Module>, it: FieldItem)
    requires Distinct(Keys(after, ModuleKey))
    ensures it in FieldItems(before, after) <==>
            var m := Get(after, ModuleKey, it.moduleKey);
            m.Some? && it in FieldItemsIn(it.moduleKey,
                                          FromList(EntitiesOf(Get(before, ModuleKey, it.moduleKey)), EntityKey),
                                          FromList(m.value.entities, EntityKey))
  {
    hide FieldItemsIn, Merge;
    if after == [] {
    } else {
      var init, m := after[..|after| - 1], after[|after| - 1];
      KeysInit(after, ModuleKey);
      DistinctInit(Keys(after, ModuleKey));
      FieldItemsListed(before, init, it);
      GetInit(after, ModuleKey, it.moduleKey);
      FieldItemsInOne(m.key, FromList(EntitiesOf(Get(before, ModuleKey, m.key)), EntityKey),
                      FromList(m.entities, EntityKey));
    }
  }

  lemma FieldItemsAre(before: seq<Module>, after: seq<Module>, it: FieldItem)
    requires UniqueModules(before) && UniqueModules(after)
    ensures it in FieldItems(before, after) <==>
            var m := Get(after, ModuleKey, it.moduleKey);
            m.Some? && it in FieldItemsIn(it.moduleKey, EntitiesOf(Get(before, ModuleKey, it.moduleKey)),
                                          m.value.entities)
  {
    hide FieldItems, FieldItemsIn, Merge;
    FieldItemsListed(before, after, it);
    ModuleFound(before, it.moduleKey);
    ModuleFound(after, it.moduleKey);
    FromListIsIdentity(EntitiesOf(Get(before, ModuleKey, it.moduleKey)), EntityKey);
    FromListIsIdentity(EntitiesOf(Get(after, ModuleKey, it.moduleKey)), EntityKey);
  }

  lemma {:induction false} NothingToFillIn(es: seq<Entity>, m: string, plan: seq<Entity>, s: Selection)
    requires forall e | e in plan && EntityId(Add, m, e.key) in s :: e.key in Keys(es, EntityKey)
    ensures FillModule(es, m, plan, s) == es
  {
    if plan == [] {
    } else {
      NothingToFillIn(es, m, plan[..|plan| - 1], s);
    }
  }

  lemma {:induction false} NoFieldsToFill(fs: seq<Field>, m: string, e: string, plan: seq<Field>, s: Selection)
    requires forall f | f in plan && FieldId(Add, m, e, f.key) in s :: f.key in Keys(fs, FieldKey)
    ensures FillEntity(fs, m, e, plan, s) == fs
  {
    if plan == [] {
    } else {
      NoFieldsToFill(fs, m, e, plan[..|plan| - 1], s);
    }
  }

  /** The second pass would add nothing for this module. */
  ghost predicate ModuleFull(ms: seq<Module>, it: Item<Module>, s: Selection) {
    var x := Get(ms, ModuleKey, it.key);
    it.op == Add && it.after.Some? && x.Some? ==>
      forall e | e in it.after.value.entities && EntityId(Add, it.key, e.key) in s ::
          e.key in Keys(x.value.entities, EntityKey)
  }

  lemma {:induction false} ModulesFull(ms: seq<Module>, items: seq<Item<Module>>, s: Selection)
    requires forall it | it in items :: ModuleFull(ms, it, s)
    ensures FillModules(ms, items, s) == ms
  {
    if items == [] {
    } else {
      var it := items[|items| - 1];
      ModulesFull(ms, items[..|items| - 1], s);
      var i := IndexOf(Keys(ms, ModuleKey), it.key);
      if it.op == Add && it.after.Some? && i >= 0 {
        assert ModuleFull(ms, it, s);
        NothingToFillIn(ms[i].entities, it.key, it.after.value.entities, s);
      }
    }
  }

  /** The second pass would add nothing for this entity. */
  ghost predicate EntityFull(ms: seq<Module>, it: EntityItem, s: Selection) {
    var x := Get(ms, ModuleKey, it.moduleKey);
    it.item.op == Add && it.item.after.Some? && x.Some? ==>
      var y := Get(x.value.entities, EntityKey, it.item.key);
      y.Some? ==>
        forall f | f in it.item.after.value.fields && FieldId(Add, it.moduleKey, it.item.key, f.key) in s ::
          f.key in Keys(y.value.fields, FieldKey)
  }

  lemma FullEntityStays(es: seq<Entity>, m: string, it: Item<Entity>, s: Selection)
    requires var y := Get(es, EntityKey, it.key);
             y.Some? && it.after.Some? ==>
               forall f | f in it.after.value.fields && FieldId(Add, m, it.key, f.key) in s ::
                   f.key in Keys(y.value.fields, FieldKey)
    ensures FillEntityIn(es, m, it, s) == es
  {
    var j := IndexOf(Keys(es, EntityKey), it.key);
    if j >= 0 && it.after.Some? {
      NoFieldsToFill(es[j].fields, m, it.key, it.after.value.fields, s);
    }
  }

  lemma {:induction false} EntitiesFull(ms: seq<Module>, items: seq<EntityItem>, s: Selection)
    requires forall it | it in items :: EntityFull(ms, it, s)
    ensures FillEntities(ms, items, s) == ms
  {
    if items == [] {
    } else {
      var it := items[|items| - 1];
      EntitiesFull(ms, items[..|items| - 1], s);
      assert EntityFull(ms, it, s);
      hide FillEntityIn;
      var i := IndexOf(Keys(ms, ModuleKey), it.moduleKey);
      if it.item.op == Add && i >= 0 {
        FullEntityStays(ms[i].entities, it.moduleKey, it.item, s);
      }
    }
  }

  lemma AddedModuleFull(before: seq<Module>, after: seq<Module>, s: Selection, it: Item<Module>)
    requires UniqueModules(before) && UniqueModules(after) && it in Differences(before, after, MODULE_KIND)
    ensures ModuleFull(SelectedModules(before, after, s), it, s)
  {
    hide SelectedModules, Differences, SelectedEntities;
    DifferencesAre(before, after, MODULE_KIND, it);
    if it.op == Add {
      ModuleHolds(before, after, s, it.key);
      forall e | e in it.after.value.entities && EntityId(Add, it.key, e.key) in s
        ensures e.key in Keys(SelectedEntities(it.key, [], it.after.value.entities, s), EntityKey)
      {
        EntityHolds(it.key, [], it.after.value.entities, s, e.key);
        KnownKey(it.after.value.entities, e);
      }
    }
  }

  lemma KnownKey(es: seq<Entity>, e: Entity)
    requires e in es
    ensures Get(es, EntityKey, e.key).Some?
  {
    assert e.key in Keys(es, EntityKey);
  }

  lemma KnownField(fs: seq<Field>, f: Field)
    requires f in fs
    ensures Get(fs, FieldKey, f.key).Some?
  {
    assert f.key in Keys(fs, FieldKey);
  }

  lemma AddedEntityFull(before: seq<Module>, after: seq<Module>, s: Selection, it: EntityItem)
    requires UniqueModules(before) && UniqueModules(after) && it in EntityItems(before, after)
    ensures EntityFull(SelectedModules(before, after, s), it, s)
  {
    hide SelectedModules, Differences, SelectedEntities, SelectedFields;
    EntityItemsAre(before, after, it);
    var m, e := it.moduleKey, it.item.key;
    var known, a := EntitiesOf(Get(before, ModuleKey, m)), Get(after, ModuleKey, m).value;
    DifferencesAre(known, a.entities, ENTITY_KIND, it.item);
    if it.item.op == Add {
      ModuleHolds(before, after, s, m);
      EntityHolds(m, known, a.entities, s, e);
      var fields := it.item.after.value.fields;
      forall f | f in fields && FieldId(Add, m, e, f.key) in s
        ensures f.key in Keys(SelectedFields(m, e, [], fields, s), FieldKey)
      {
        SelectedFieldLands(m, e, fields, s, f);
      }
    }
  }

  lemma SelectedFieldLands(m: string, e: string, fields: seq<Field>, s: Selection, f: Field)
    requires f in fields && FieldId(Add, m, e, f.key) in s && Distinct(Keys(fields, FieldKey))
    ensures f.key in Keys(SelectedFields(m, e, [], fields, s), FieldKey)
  {
    hide PatchAll, Differences;
    SensibleKinds();
    KnownField(fields, f);
    PatchedHolds([], fields, FIELD_KIND, FieldChoice(s, m, e), f.key);
  }

  /** The second pass over the added modules and entities never adds anything: whatever it could
      add has ids of its own among the differences, and landed in the first. */
  lemma SecondPassAddsNothing(before: Definition, after: Definition, s: Selection)
    requires UniqueModules(before.modules) && UniqueModules(after.modules)
    ensures Selected(before, after, DiffOf(before, after), s).modules ==
            SelectedModules(before.modules, after.modules, s)
  {
    var diff, ms := DiffOf(before, after), SelectedModules(before.modules, after.modules, s);
    PatchModulesIsSelected(before, after, s);
    FromListIsIdentity(before.modules, ModuleKey);
    FromListIsIdentity(after.modules, ModuleKey);
    hide SelectedModules, PatchModules, EntityItems, Differences, ModuleFull, EntityFull, UniqueModules;
    forall it | it in diff.modules
      ensures ModuleFull(ms, it, s)
    {
      AddedModuleFull(before.modules, after.modules, s, it);
    }
    ModulesFull(ms, diff.modules, s);
    forall it | it in diff.entities
      ensures EntityFull(ms, it, s)
    {
      AddedEntityFull(before.modules, after.modules, s, it);
    }
    EntitiesFull(ms, diff.entities, s);
  }

  // ----- selecting everything

  ghost predicate AlignedEntity(before: seq<Entity>, after: seq<Entity>, e: string) {
    var b, a := Get(before, EntityKey, e), Get(after, EntityKey, e);
    b.Some? && a.Some? ==>
      EntityShell(b.value) == EntityShell(a.value) &&
      InOrder(Keys(b.value.fields, FieldKey), Keys(a.value.fields, FieldKey))
  }

  /** The plan puts known entities and fields before new ones, in their old order, and leaves the
      metadata of known entities alone. */
  ghost predicate AlignedEntities(before: seq<Entity>, after: seq<Entity>) {
    InOrder(Keys(before, EntityKey), Keys(after, EntityKey)) &&
    forall e | e in Keys(after, EntityKey) :: AlignedEntity(before, after, e)
  }

  ghost predicate AlignedModule(before: seq<Module>, after: seq<Module>, m: string) {
    var b, a := Get(before, ModuleKey, m), Get(after, ModuleKey, m);
    b.Some? && a.Some? ==>
      ModuleShell(b.value) == ModuleShell(a.value) && AlignedEntities(b.value.entities, a.value.entities)
  }

  ghost predicate AlignedModules(before: seq<Module>, after: seq<Module>) {
    InOrder(Keys(before, ModuleKey), Keys(after, ModuleKey)) &&
    forall m | m in Keys(after, ModuleKey) :: AlignedModule(before, after, m)
  }

  /** Everything that differs below these modules is selected. */
  ghost predicate AllSelectedIn(m: string, before: seq<Entity>, after: seq<Entity>, s: Selection) {
    AllChosen(before, after, ENTITY_KIND, EntityChoice(s, m)) &&
    forall e | e in Keys(after, EntityKey) ::
      AllChosen(FieldsOf(Get(before, EntityKey, e)), FieldsOf(Get(after, EntityKey, e)), FIELD_KIND,
          FieldChoice(s, m, e))
  }

  lemma NewFieldsInOrder(fs: seq<Field>)
    ensures InOrder(Keys<Field>([], FieldKey), Keys(fs, FieldKey))
  {
    KnownThenNew([], Keys(fs, FieldKey));
    assert [] + Keys(fs, FieldKey) == Keys(fs, FieldKey);
    assert Keys<Field>([], FieldKey) == [];
  }

  lemma FullEntity(m: string, before: seq<Entity>, after: seq<Entity>, s: Selection, e: string)
    requires UniqueEntities(before) && UniqueEntities(after) && AllSelectedIn(m, before, after, s)
    ensures Get(SelectedEntities(m, before, after, s), EntityKey, e) == Get(after, EntityKey, e) <==>
            AlignedEntity(before, after, e)
  {
    var b, a := Get(before, EntityKey, e), Get(after, EntityKey, e);
    SensibleKinds();
    EntityFound(before, e);
    EntityFound(after, e);
    NewFieldsInOrder(FieldsOf(a));
    EntityHolds(m, before, after, s, e);
    hide AllChosen, Sensible, InOrder, SelectedEntities, Chosen, Get, Keys, UniqueEntities, PatchAll, Differences,
      Distinct;
    AllChosenMeans(before, after, ENTITY_KIND, EntityChoice(s, m), e);
    if a.Some? {
      PatchedWhole(FieldsOf(b), a.value.fields, FIELD_KIND, FieldChoice(s, m, e));
    }
  }

  lemma FullEntities(m: string, before: seq<Entity>, after: seq<Entity>, s: Selection)
    requires UniqueEntities(before) && UniqueEntities(after) && AllSelectedIn(m, before, after, s)
    ensures SelectedEntities(m, before, after, s) == after <==> AlignedEntities(before, after)
  {
    var selected := SelectedEntities(m, before, after, s);
    var kb, ka := Keys(before, EntityKey), Keys(after, EntityKey);
    assert Keys(selected, EntityKey) == Without(kb, Without(kb, ka)) + Without(ka, kb) by {
      hide Get, Keys, Without;
      EntityHolds(m, before, after, s, "");
      AllChosenMeans(before, after, ENTITY_KIND, EntityChoice(s, m), "");
    }
    forall e
      ensures Get(selected, EntityKey, e) == Get(after, EntityKey, e) <==> AlignedEntity(before, after, e)
    {
      FullEntity(m, before, after, s, e);
    }
    hide AllSelectedIn, SelectedEntities, AlignedEntity, UniqueEntity, Without, Keys, Get;
    if AlignedEntities(before, after) {
      forall e
        ensures Get(selected, EntityKey, e) == Get(after, EntityKey, e)
      {
        AlignedElsewhere(before, after, e);
      }
      SameItems(after, selected, EntityKey);
    }
  }

  lemma AlignedElsewhere(before: seq<Entity>, after: seq<Entity>, e: string)
    requires AlignedEntities(before, after)
    ensures AlignedEntity(before, after, e)
  {
  }

  /** Every difference of the modules and of everything below them is selected. */
  ghost predicate AllSelected(before: seq<Module>, after: seq<Module>, s: Selection) {
    AllChosen(before, after, MODULE_KIND, ModuleChoice(s)) &&
    forall m | m in Keys(after, ModuleKey) ::
      AllSelectedIn(m, EntitiesOf(Get(before, ModuleKey, m)), EntitiesOf(Get(after, ModuleKey, m)), s)
  }

  lemma ModuleFound(ms: seq<Module>, m: string)
    requires UniqueModules(ms)
    ensures UniqueEntities(EntitiesOf(Get(ms, ModuleKey, m)))
  {
  }

  /** New entities are aligned with none. */
  lemma NewEntitiesAligned(es: seq<Entity>)
    ensures AlignedEntities([], es)
  {
    KnownThenNew([], Keys(es, EntityKey));
    assert [] + Keys(es, EntityKey) == Keys(es, EntityKey);
    assert Keys<Entity>([], EntityKey) == [];
  }

  lemma FullModule(before: seq<Module>, after: seq<Module>, s: Selection, m: string)
    requires UniqueModules(before) && UniqueModules(after) && AllSelected(before, after, s)
    ensures Get(SelectedModules(before, after, s), ModuleKey, m) == Get(after, ModuleKey, m) <==>
            AlignedModule(before, after, m)
  {
    var b, a := Get(before, ModuleKey, m), Get(after, ModuleKey, m);
    ModuleFound(before, m);
    ModuleFound(after, m);
    NewEntitiesAligned(EntitiesOf(a));
    ModuleHolds(before, after, s, m);
    hide AllChosen, AllSelectedIn, AlignedEntities, SelectedEntities, SelectedModules, Chosen, Get, Keys,
      UniqueEntities, UniqueModule, Distinct;
    AllChosenMeans(before, after, MODULE_KIND, ModuleChoice(s), m);
    if a.Some? {
      FullEntities(m, EntitiesOf(b), a.value.entities, s);
    }
  }

  lemma FullModules(before: seq<Module>, after: seq<Module>, s: Selection)
    requires UniqueModules(before) && UniqueModules(after) && AllSelected(before, after, s)
    ensures SelectedModules(before, after, s) == after <==> AlignedModules(before, after)
  {
    var selected := SelectedModules(before, after, s);
    var kb, ka := Keys(before, ModuleKey), Keys(after, ModuleKey);
    assert Keys(selected, ModuleKey) == Without(kb, Without(kb, ka)) + Without(ka, kb) by {
      hide Get, Keys, Without;
      ModuleHolds(before, after, s, "");
      AllChosenMeans(before, after, MODULE_KIND, ModuleChoice(s), "");
    }
    forall m
      ensures Get(selected, ModuleKey, m) == Get(after, ModuleKey, m) <==> AlignedModule(before, after, m)
    {
      FullModule(before, after, s, m);
    }
    hide AllSelected, SelectedModules, AlignedModule, UniqueModule, Without, Keys, Get;
    if AlignedModules(before, after) {
      forall m
        ensures Get(selected, ModuleKey, m) == Get(after, ModuleKey, m)
      {
        AlignedModulesElsewhere(before, after, m);
      }
      SameItems(after, selected, ModuleKey);
    }
  }

  lemma AlignedModulesElsewhere(before: seq<Module>, after: seq<Module>, m: string)
    requires AlignedModules(before, after)
    ensures AlignedModule(before, after, m)
  {
  }

  /** The ids of all differences are selected, so every difference is. */
  lemma AllIdsSelectAll(before: Definition, after: Definition, s: Selection)
    requires UniqueModules(before.modules) && UniqueModules(after.modules)
    requires forall id | HasId(DiffOf(before, after), id) :: id in s
    ensures AllSelected(before.modules, after.modules, s)
    ensures AllChosen(before.workflows, after.workflows, WORKFLOW_KIND, WorkflowChoice(s))
    ensures AllChosen(before.policies, after.policies, POLICY_KIND, PolicyChoice(s))
  {
    var b, a := before.modules, after.modules;
    HasIds(DiffOf(before, after));
    hide Differences, EntityItems, FieldItems, Merge, HasId;
    assert AllChosen(b, a, MODULE_KIND, ModuleChoice(s)) by {
      assert forall it | it in Differences(b, a, MODULE_KIND) :: IdOfModule(it) in s;
    }
    forall m | m in Keys(a, ModuleKey)
      ensures AllSelectedIn(m, EntitiesOf(Get(b, ModuleKey, m)), EntitiesOf(Get(a, ModuleKey, m)), s)
    {
      AllIdsSelectIn(before, after, s, m);
    }
    assert AllChosen(before.workflows, after.workflows, WORKFLOW_KIND, WorkflowChoice(s)) by {
      assert forall it | it in Differences(before.workflows, after.workflows, WORKFLOW_KIND) :: IdOfWorkflow(it) in s;
    }
    assert AllChosen(before.policies, after.policies, POLICY_KIND, PolicyChoice(s)) by {
      assert forall it | it in Differences(before.policies, after.policies, POLICY_KIND) :: IdOfPolicy(it) in s;
    }
  }

  lemma AllIdsSelectIn(before: Definition, after: Definition, s: Selection, m: string)
    requires UniqueModules(before.modules) && UniqueModules(after.modules) && m in Keys(after.modules, ModuleKey)
    requires forall id | HasId(DiffOf(before, after), id) :: id in s
    ensures AllSelectedIn(m, EntitiesOf(Get(before.modules, ModuleKey, m)),
            EntitiesOf(Get(after.modules, ModuleKey, m)), s)
  {
    hide AllChosen, HasId, DiffOf, UniqueModules, Keys, Get;
    AllIdsSelectEntities(before, after, s, m);
    forall e | e in Keys(EntitiesOf(Get(after.modules, ModuleKey, m)), EntityKey)
      ensures AllChosen(FieldsOf(Get(EntitiesOf(Get(before.modules, ModuleKey, m)), EntityKey, e)),
                        FieldsOf(Get(EntitiesOf(Get(after.modules, ModuleKey, m)), EntityKey, e)),
                        FIELD_KIND, FieldChoice(s, m, e))
    {
      AllIdsSelectFields(before, after, s, m, e);
    }
  }

  lemma EntityListed(before: Definition, after: Definition, it: EntityItem)
    requires UniqueModules(before.modules) && UniqueModules(after.modules)
    requires it in EntityItems(before.modules, after.modules)
    ensures HasId(DiffOf(before, after), IdOfEntity(it))
  {
    hide EntityItems, FieldItems, Differences, HasId, IdOfEntity, Merge;
    FromListIsIdentity(before.modules, ModuleKey);
    FromListIsIdentity(after.modules, ModuleKey);
    HasIds(DiffOf(before, after));
  }

  lemma FieldListed(before: Definition, after: Definition, it: FieldItem)
    requires UniqueModules(before.modules) && UniqueModules(after.modules)
    requires it in FieldItems(before.modules, after.modules)
    ensures HasId(DiffOf(before, after), IdOfField(it))
  {
    hide EntityItems, FieldItems, Differences, HasId, IdOfField, Merge;
    FromListIsIdentity(before.modules, ModuleKey);
    FromListIsIdentity(after.modules, ModuleKey);
    HasIds(DiffOf(before, after));
  }

  lemma AllIdsSelectEntities(before: Definition, after: Definition, s: Selection, m: string)
    requires UniqueModules(before.modules) && UniqueModules(after.modules) && m in Keys(after.modules, ModuleKey)
    requires forall id | HasId(DiffOf(before, after), id) :: id in s
    ensures AllChosen(EntitiesOf(Get(before.modules, ModuleKey, m)), EntitiesOf(Get(after.modules, ModuleKey, m)),
                      ENTITY_KIND, EntityChoice(s, m))
  {
    hide Differences, EntityItems, HasId, DiffOf, Merge;
    forall it | it in Differences(EntitiesOf(Get(before.modules, ModuleKey, m)),
                                  EntitiesOf(Get(after.modules, ModuleKey, m)), ENTITY_KIND)
      ensures EntityId(it.op, m, it.key) in s
    {
      EntityItemsAre(before.modules, after.modules, EntityItem(m, it));
      EntityListed(before, after, EntityItem(m, it));
    }
  }

  lemma AllIdsSelectFields(before: Definition, after: Definition, s: Selection, m: string, e: string)
    requires UniqueModules(before.modules) && UniqueModules(after.modules) && m in Keys(after.modules, ModuleKey)
    requires e in Keys(EntitiesOf(Get(after.modules, ModuleKey, m)), EntityKey)
    requires forall id | HasId(DiffOf(before, after), id) :: id in s
    ensures AllChosen(FieldsOf(Get(EntitiesOf(Get(before.modules, ModuleKey, m)), EntityKey, e)),
                      FieldsOf(Get(EntitiesOf(Get(after.modules, ModuleKey, m)), EntityKey, e)),
                      FIELD_KIND, FieldChoice(s, m, e))
  {
    var b, a := EntitiesOf(Get(before.modules, ModuleKey, m)), EntitiesOf(Get(after.modules, ModuleKey, m));
    ModuleFound(after.modules, m);
    hide Differences, FieldItems, FieldItemsIn, HasId, DiffOf, Merge;
    forall it | it in Differences(FieldsOf(Get(b, EntityKey, e)), FieldsOf(Get(a, EntityKey, e)), FIELD_KIND)
      ensures FieldId(it.op, m, e, it.key) in s
    {
      FieldItemsInAre(m, b, a, FieldItem(m, e, it));
      FieldItemsAre(before.modules, after.modules, FieldItem(m, e, it));
      FieldListed(before, after, FieldItem(m, e, it));
    }
  }

  /** The plan keeps what it knows in its place and its metadata, at every level. */
  ghost predicate Aligned(before: Definition, after: Definition) {
    AlignedModules(before.modules, after.modules) &&
    InOrder(Keys(before.workflows, WorkflowKey), Keys(after.workflows, WorkflowKey)) &&
    InOrder(Keys(before.policies, PolicyKey), Keys(after.policies, PolicyKey))
  }

  /** Selecting every difference gives exactly the whole plan, when and only when the plan is
      aligned with what was there. */
  lemma EverythingSelected(before: Definition, after: Definition, s: Selection)
    requires UniqueDefinition(before) && UniqueDefinition(after)
    requires forall id | HasId(DiffOf(before, after), id) :: id in s
    ensures Selected(before, after, DiffOf(before, after), s) == after <==> Aligned(before, after)
  {
    SensibleKinds();
    AllIdsSelectAll(before, after, s);
    hide Differences, EntityItems, FieldItems, Merge, PatchAll, UniqueModules, AllSelected, AllChosen, SelectedModules,
      AlignedModules, Distinct, Keys, InOrder, Sensible, HasId, FillEntities, FillModules, PatchModules;
    SecondPassAddsNothing(before, after, s);
    FullModules(before.modules, after.modules, s);
    PatchedWhole(before.workflows, after.workflows, WORKFLOW_KIND, WorkflowChoice(s));
    PatchedWhole(before.policies, after.policies, POLICY_KIND, PolicyChoice(s));
  }

  // ----- a merged plan is aligned

  lemma MergedInOrder<T(!new)>(before: seq<T>, plan: seq<T>, keyOf: T -> string, join: (T, T) -> T)
    requires KeepsKey(keyOf, join) && Distinct(Keys(plan, keyOf))
    ensures InOrder(Keys(before, keyOf), Keys(Merge(before, plan, keyOf, join), keyOf))
  {
    KeysMerge(before, plan, keyOf, join);
    KnownThenNew(Keys(before, keyOf), Without(Keys(plan, keyOf), Keys(before, keyOf)));
  }

  lemma SameInOrder(ks: seq<string>)
    ensures InOrder(ks, ks)
  {
    KnownThenNew(ks, []);
    assert ks + [] == ks;
  }

  lemma MergedEntitiesAligned(before: seq<Entity>, plan: seq<Entity>)
    requires UniqueEntities(before) && UniqueEntities(plan)
    ensures AlignedEntities(before, MergedEntities(before, plan)) && AlignedEntities(before, before)
  {
    hide InOrder, Without;
    EntitiesMerge(before, plan);
    MergedInOrder(before, plan, EntityKey, JoinEntity);
    SameInOrder(Keys(before, EntityKey));
    forall e
      ensures AlignedEntity(before, MergedEntities(before, plan), e) && AlignedEntity(before, before, e)
    {
      GetMerge(before, plan, EntityKey, JoinEntity, e);
      var b, p := Get(before, EntityKey, e), Get(plan, EntityKey, e);
      if b.Some? {
        SameInOrder(Keys(b.value.fields, FieldKey));
        if p.Some? {
          FieldsMerge(b.value.fields, p.value.fields);
          MergedInOrder(b.value.fields, p.value.fields, FieldKey, TakeNew);
        }
      }
    }
  }

  lemma MergedModulesAligned(before: seq<Module>, plan: seq<Module>)
    requires UniqueModules(before) && UniqueModules(plan)
    ensures AlignedModules(before, MergedModules(before, plan))
  {
    hide InOrder, Without, AlignedEntities, MergedEntities;
    ModulesMerge(before, plan);
    MergedInOrder(before, plan, ModuleKey, JoinModule);
    forall m
      ensures AlignedModule(before, MergedModules(before, plan), m)
    {
      GetMerge(before, plan, ModuleKey, JoinModule, m);
      var b, p := Get(before, ModuleKey, m), Get(plan, ModuleKey, m);
      if b.Some? {
        MergedEntitiesAligned(b.value.entities, if p.Some? then p.value.entities else []);
      }
    }
  }

  /** Approving a merged plan item by item, leaving none out, is approving the plan. */
  lemma ApprovingAllIsApplying(c: Changes, before: Definition, s: Selection)
    requires UniqueDefinition(before) && UniqueChanges(c)
    requires forall id | HasId(DiffOf(before, Applied(c, before)), id) :: id in s
    ensures Selected(before, Applied(c, before), DiffOf(before, Applied(c, before)), s) == Applied(c, before)
  {
    var after := Applied(c, before);
    MergedModulesUnique(before.modules, c.modules);
    DistinctMerge(before.workflows, c.workflows, WorkflowKey, TakeNew);
    DistinctMerge(before.policies, c.policies, PolicyKey, TakeNew);
    MergedModulesAligned(before.modules, c.modules);
    MergedInOrder(before.workflows, c.workflows, WorkflowKey, TakeNew);
    MergedInOrder(before.policies, c.policies, PolicyKey, TakeNew);
    hide HasId, DiffOf, Selected, AlignedModules, MergedModules, InOrder, UniqueModules;
    EverythingSelected(before, after, s);
  }

  // ----- selecting some

  /** What a selection leaves under a path: each level decides in turn, the module first. */
  lemma FieldSelected(before: Definition, after: Definition, s: Selection, m: string, e: string, f: string)
    requires UniqueModules(before.modules) && UniqueModules(after.modules)
    ensures FieldAt(Selected(before, after, DiffOf(before, after), s).modules, m, e, f) ==
            var mb, ma := Get(before.modules, ModuleKey, m), Get(after.modules, ModuleKey, m);
            var eb, ea := Get(EntitiesOf(mb), EntityKey, e), Get(EntitiesOf(ma), EntityKey, e);
            var fb, fa := Get(FieldsOf(eb), FieldKey, f), Get(FieldsOf(ea), FieldKey, f);
            if Chosen(mb, ma, m, MODULE_KIND, ModuleChoice(s)).None? then None
            else if ma.None? then fb
            else if Chosen(eb, ea, e, ENTITY_KIND, EntityChoice(s, m)).None? then None
            else if ea.None? then fb
            else Chosen(fb, fa, f, FIELD_KIND, FieldChoice(s, m, e))
  {
    SecondPassAddsNothing(before, after, s);
    ModuleHolds(before.modules, after.modules, s, m);
    ModuleFound(before.modules, m);
    ModuleFound(after.modules, m);
    SensibleKinds();
    hide Selected, DiffOf, SelectedModules, SelectedEntities, PatchAll, Differences, UniqueModules, Get, Keys,
      Distinct, Sensible;
    var mb, ma := Get(before.modules, ModuleKey, m), Get(after.modules, ModuleKey, m);
    if ma.Some? {
      EntityHolds(m, EntitiesOf(mb), EntitiesOf(ma), s, e);
      EntityFound(EntitiesOf(mb), e);
      EntityFound(EntitiesOf(ma), e);
      var eb, ea := Get(EntitiesOf(mb), EntityKey, e), Get(EntitiesOf(ma), EntityKey, e);
      if ea.Some? {
        PatchedHolds(FieldsOf(eb), FieldsOf(ea), FIELD_KIND, FieldChoice(s, m, e), f);
      }
    }
  }
}
