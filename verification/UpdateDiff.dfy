/** The differences between a definition and a plan merged into it: additions and changes only. */
module UpdateDiff {
  import opened OrderedMerge
  import opened SystemDefinition
  import opened ChangePlan
  import opened KeyedDiff
  import opened DiffSelection
  import opened PartialApproval
  import opened Impact

  // ----- merging only adds

  function FieldsAt(es: seq<Entity>, e: string): seq<Field> {
    FieldsOf(Get(FromList(es, EntityKey), EntityKey, e))
  }

  ghost predicate EntityGrows(x: Entity, y: Entity) {
    forall k | k in Keys(x.fields, FieldKey) :: k in Keys(y.fields, FieldKey)
  }

  ghost predicate ModuleGrows(x: Module, y: Module) {
    forall k | k in Keys(x.entities, EntityKey) ::
      k in Keys(y.entities, EntityKey) &&
      forall f | f in Keys(FieldsAt(x.entities, k), FieldKey) :: f in Keys(FieldsAt(y.entities, k), FieldKey)
  }

  lemma JoinedEntityGrows(x: Entity, y: Entity)
    ensures EntityGrows(x, JoinEntity(x, y))
  {
    FromListKeys(x.fields, FieldKey);
    KeysOverride(FromList(x.fields, FieldKey), y.fields, FieldKey);
  }

  lemma EntityGrowth(base: seq<Entity>, plan: seq<Entity>, k: string)
    ensures var x, now := Get(base, EntityKey, k), Get(Merge(base, plan, EntityKey, JoinEntity), EntityKey, k);
            x.Some? ==> now.Some? && EntityGrows(x.value, now.value)
  {
    hide Merge, Get;
    JoinEntityKeepsKey();
    forall x, y
      ensures EntityGrows(x, JoinEntity(x, y))
    {
      JoinedEntityGrows(x, y);
    }
    hide JoinEntity;
    MergeGrows(base, plan, EntityKey, JoinEntity, (x, y) => EntityGrows(x, y), k);
  }

  lemma JoinedModuleGrows(x: Module, y: Module)
    ensures ModuleGrows(x, JoinModule(x, y))
  {
    hide Merge, Distinct, Get;
    var base := FromList(x.entities, EntityKey);
    var merged := MergedEntities(x.entities, y.entities);
    FromListKeys(x.entities, EntityKey);
    FromListDistinct(x.entities, EntityKey);
    JoinEntityKeepsKey();
    MergeStaysDistinct(base, y.entities, EntityKey, JoinEntity);
    FromListIsIdentity(merged, EntityKey);
    forall k | k in Keys(x.entities, EntityKey)
      ensures k in Keys(merged, EntityKey)
      ensures forall f | f in Keys(FieldsAt(x.entities, k), FieldKey) :: f in Keys(FieldsAt(merged, k), FieldKey)
    {
      EntityGrowth(base, y.entities, k);
    }
  }

  lemma ModuleGrowth(before: seq<Module>, plan: seq<Module>, k: string)
    ensures var x := Get(FromList(before, ModuleKey), ModuleKey, k);
            var now := Get(MergedModules(before, plan), ModuleKey, k);
            x.Some? ==> now.Some? && ModuleGrows(x.value, now.value)
  {
    hide Merge, Get;
    JoinModuleKeepsKey();
    forall x, y
      ensures ModuleGrows(x, JoinModule(x, y))
    {
      JoinedModuleGrows(x, y);
    }
    hide JoinModule;
    MergeGrows(FromList(before, ModuleKey), plan, ModuleKey, JoinModule, (x, y) => ModuleGrows(x, y), k);
  }

  // ----- so nothing is removed

  /** No difference at any level is a removal. */
  ghost predicate NoRemovals(diff: Diff) {
    (forall it | it in diff.modules :: it.op != Remove) && (forall it | it in diff.entities :: it.item.op != Remove) &&
    (forall it | it in diff.fields :: it.item.op != Remove) && (forall it | it in diff.workflows :: it.op != Remove) &&
    forall it | it in diff.policies :: it.op != Remove
  }

  lemma OverrideRemovesNothing<T(!new)>(before: seq<T>, plan: seq<T>, kind: Kind<T>, it: Item<T>)
    requires it in Differences(before, Override(before, plan, kind.keyOf), kind)
    ensures it.op != Remove
  {
    hide Merge, Override, Differences;
    var after := Override(before, plan, kind.keyOf);
    DifferencesListed(before, after, kind, it);
    FromListKeys(before, kind.keyOf);
    FromListKeys(after, kind.keyOf);
    KeysOverride(before, plan, kind.keyOf);
  }

  lemma ModulesRemain(before: seq<Module>, plan: seq<Module>, it: Item<Module>)
    requires it in Differences(before, MergedModules(before, plan), MODULE_KIND)
    ensures it.op != Remove
  {
    hide Merge, MergedModules, Differences;
    var after := MergedModules(before, plan);
    DifferencesListed(before, after, MODULE_KIND, it);
    FromListKeys(after, ModuleKey);
    ModuleGrowth(before, plan, it.key);
  }

  /** Looking a merged module up in the Map the diff makes of the merge. */
  lemma MergedFound(before: seq<Module>, plan: seq<Module>, m: string)
    ensures var b, a := FromList(before, ModuleKey), FromList(MergedModules(before, plan), ModuleKey);
            Distinct(Keys(a, ModuleKey)) &&
            (Get(b, ModuleKey, m).Some? ==>
               Get(a, ModuleKey, m).Some? &&
               ModuleGrows(Get(b, ModuleKey, m).value, Get(a, ModuleKey, m).value))
  {
    hide Merge, Distinct, Get, ModuleGrows, JoinModule;
    FromListDistinct(before, ModuleKey);
    JoinModuleKeepsKey();
    MergeStaysDistinct(FromList(before, ModuleKey), plan, ModuleKey, JoinModule);
    FromListIsIdentity(MergedModules(before, plan), ModuleKey);
    ModuleGrowth(before, plan, m);
  }

  lemma EntitiesRemain(before: seq<Module>, plan: seq<Module>, it: EntityItem)
    requires it in EntityItems(FromList(before, ModuleKey), FromList(MergedModules(before, plan), ModuleKey))
    ensures it.item.op != Remove
  {
    hide Merge, MergedModules, Differences, EntityItems, Distinct;
    var b, a := FromList(before, ModuleKey), FromList(MergedModules(before, plan), ModuleKey);
    MergedFound(before, plan, it.moduleKey);
    EntityItemsAre(b, a, it);
    var known, now := EntitiesOf(Get(b, ModuleKey, it.moduleKey)), EntitiesOf(Get(a, ModuleKey, it.moduleKey));
    DifferencesListed(known, now, ENTITY_KIND, it.item);
    FromListKeys(known, EntityKey);
    FromListKeys(now, EntityKey);
  }

  lemma FieldsRemain(before: seq<Module>, plan: seq<Module>, it: FieldItem)
    ensures it in FieldItems(FromList(before, ModuleKey), FromList(MergedModules(before, plan), ModuleKey)) ==>
              it.item.op != Remove
  {
    hide Merge, MergedModules, Differences, FieldItems, FieldItemsIn, Distinct;
    var b, a := FromList(before, ModuleKey), FromList(MergedModules(before, plan), ModuleKey);
    if it !in FieldItems(b, a) {
      return;
    }
    MergedFound(before, plan, it.moduleKey);
    FieldItemsListed(b, a, it);
    var known, now := EntitiesOf(Get(b, ModuleKey, it.moduleKey)), EntitiesOf(Get(a, ModuleKey, it.moduleKey));
    FromListDistinct(now, EntityKey);
    FromListKeys(known, EntityKey);
    FieldItemsInAre(it.moduleKey, FromList(known, EntityKey), FromList(now, EntityKey), it);
    var f, g := FieldsAt(known, it.entityKey), FieldsAt(now, it.entityKey);
    DifferencesListed(f, g, FIELD_KIND, it.item);
    FromListKeys(f, FieldKey);
    FromListKeys(g, FieldKey);
  }

  /** The differences of any definition and any plan merged into it hold no removal at any level. */
  lemma UpdatesRemoveNothing(c: Changes, before: Definition)
    ensures NoRemovals(DiffOf(before, Applied(c, before)))
  {
    hide Merge, MergedModules, Override, Differences, EntityItems, FieldItems;
    var diff := DiffOf(before, Applied(c, before));
    forall it | it in diff.modules ensures it.op != Remove { ModulesRemain(before.modules, c.modules, it); }
    forall it | it in diff.entities ensures it.item.op != Remove { EntitiesRemain(before.modules, c.modules, it); }
    forall it | it in diff.fields ensures it.item.op != Remove { FieldsRemain(before.modules, c.modules, it); }
    forall it | it in diff.workflows ensures it.op != Remove {
      OverrideRemovesNothing(before.workflows, c.workflows, WORKFLOW_KIND, it);
    }
    forall it | it in diff.policies ensures it.op != Remove {
      OverrideRemovesNothing(before.policies, c.policies, POLICY_KIND, it);
    }
  }

  // ----- and the impact report charges fields only

  lemma {:induction false} FreeTotal(charges: seq<Charge>)
    requires forall i | 0 <= i < |charges| :: charges[i].cost == FREE
    ensures Total(charges) == Totals(0, 0, 0)
  {
    if charges == [] {
    } else {
      FreeTotal(charges[..|charges| - 1]);
    }
  }

  lemma ChargesRegroup(a: seq<Charge>, b: seq<Charge>, c: seq<Charge>)
    ensures (a + b) + c == a + (b + c)
  {
  }

  lemma {:induction false} TotalConcat(a: seq<Charge>, b: seq<Charge>)
    ensures Total(a + b) == Plus(Total(a), Total(b))
  {
    assert Total([]) == Totals(0, 0, 0);
    hide Total, Entries, Share, EntryOf;
    if b == [] {
      assert a + b == a;
    } else {
      var init, c := b[..|b| - 1], b[|b| - 1];
      assert b == init + [c];
      TotalConcat(a, init);
      EntriesAppend(a + init, c);
      ChargesRegroup(a, init, [c]);
      EntriesAppend(init, c);
    }
  }

  lemma ModulesFree(db: Snapshot, ms: seq<Item<Module>>)
    requires forall it | it in ms :: it.op != Remove
    ensures Total(ModuleCharges(db, ms)) == Totals(0, 0, 0)
  {
    FreeTotal(ModuleCharges(db, ms));
  }

  lemma EntitiesFree(db: Snapshot, es: seq<EntityItem>)
    requires forall it | it in es :: it.item.op != Remove
    ensures Total(EntityCharges(db, es)) == Totals(0, 0, 0)
  {
    FreeTotal(EntityCharges(db, es));
  }

  lemma WorkflowsFree(db: Snapshot, ws: seq<Item<Workflow>>)
    requires forall it | it in ws :: it.op != Remove
    ensures Total(WorkflowCharges(db, ws)) == Totals(0, 0, 0)
  {
    FreeTotal(WorkflowCharges(db, ws));
  }

  lemma PoliciesFree(ids: seq<string>)
    ensures Total(Free(ids)) == Totals(0, 0, 0)
  {
    FreeTotal(Free(ids));
  }

  lemma FiveTotals(a: seq<Charge>, b: seq<Charge>, c: seq<Charge>, d: seq<Charge>, e: seq<Charge>)
    ensures Total(a + b + c + d + e) == Plus(Plus(Plus(Plus(Total(a), Total(b)), Total(c)), Total(d)), Total(e))
  {
    hide Total, Plus;
    TotalConcat(a, b);
    TotalConcat(a + b, c);
    TotalConcat(a + b + c, d);
    TotalConcat(a + b + c + d, e);
  }

  lemma FieldCostsRecords(db: Snapshot, f: FieldItem)
    ensures FieldCost(db, f).workflows == 0
  {
    hide PublishedEntity, Required, HasDefault, TypeChanged, BecameRequired;
  }

  lemma {:induction false} NoWorkflows(charges: seq<Charge>)
    requires forall i | 0 <= i < |charges| :: charges[i].cost.workflows == 0
    ensures Total(charges).workflows == 0
  {
    if charges == [] {
    } else {
      NoWorkflows(charges[..|charges| - 1]);
    }
  }

  lemma FieldsChargeRecords(db: Snapshot, fs: seq<FieldItem>)
    ensures Total(FieldCharges(db, fs)).workflows == 0
  {
    hide FieldCost, IdOfField, Total;
    forall i | 0 <= i < |fs|
      ensures FieldCharges(db, fs)[i].cost.workflows == 0
    {
      FieldCostsRecords(db, fs[i]);
    }
    NoWorkflows(FieldCharges(db, fs));
  }

  lemma ChargesUnfold(db: Snapshot, diff: Diff)
    ensures Charges(db, diff) ==
            ModuleCharges(db, diff.modules) + EntityCharges(db, diff.entities) + FieldCharges(db, diff.fields) +
            WorkflowCharges(db, diff.workflows) + Free(Map(IdOfPolicy, diff.policies))
  {
  }

  /** Without removals only fields are charged. */
  lemma OnlyFieldsCharged(db: Snapshot, diff: Diff)
    requires NoRemovals(diff)
    ensures Total(Charges(db, diff)) == Total(FieldCharges(db, diff.fields))
  {
    ModulesFree(db, diff.modules);
    EntitiesFree(db, diff.entities);
    WorkflowsFree(db, diff.workflows);
    hide Total, Charges, ModuleCharges, EntityCharges, FieldCharges, WorkflowCharges, Free, NoRemovals, Map;
    PoliciesFree(Map(IdOfPolicy, diff.policies));
    ChargesUnfold(db, diff);
    FiveTotals(ModuleCharges(db, diff.modules), EntityCharges(db, diff.entities), FieldCharges(db, diff.fields),
               WorkflowCharges(db, diff.workflows), Free(Map(IdOfPolicy, diff.policies)));
  }

  /** The totals of an update's report are those of its field additions and changes alone. */
  lemma UpdatesChargeFields(db: Snapshot, c: Changes, before: Definition)
    ensures var diff := DiffOf(before, Applied(c, before));
            Total(Charges(db, diff)) == Total(FieldCharges(db, diff.fields)) &&
            Total(Charges(db, diff)).workflows == 0
  {
    hide *;
    UpdatesRemoveNothing(c, before);
    OnlyFieldsCharged(db, DiffOf(before, Applied(c, before)));
    FieldsChargeRecords(db, DiffOf(before, Applied(c, before)).fields);
  }
}
