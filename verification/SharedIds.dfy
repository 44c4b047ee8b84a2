/** What follows when two differences share an id: one selects the other as well, and the totals of
    an impact report need not be the sums of its entries. */
module SharedIds {
  import opened OrderedMerge
  import opened SystemDefinition
  import opened ChangePlan
  import opened KeyedDiff
  import opened DiffSelection
  import opened PartialApproval
  import opened DiffIds
  import opened Impact

  /** The report of the differences between two definitions: its totals are the sums over its
      entries exactly when no entry that counts is overwritten, and so whenever the plan's module
      keys and paths are apart; then there is also one entry for each difference. */
  method ReportImpact(systemExists: bool, db: Snapshot, before: Definition, after: Definition)
      returns (r: Result<Report>)
    ensures db.systemId != "" && !systemExists <==> r.NotFound?
    ensures r.Ok? ==> fresh(r.value) && r.value.Valid()
    ensures r.Ok? && db.systemId != "" ==>
              (r.value.totals == Sum(r.value.items) <==> NothingLost(Charges(db, DiffOf(before, after))))
    ensures r.Ok? && Apart(after.modules) ==>
              r.value.totals == Sum(r.value.items) && |r.value.items| == |AllIds(DiffOf(before, after))| &&
              r.value.items.Keys == set id | id in AllIds(DiffOf(before, after))
  {
    hide Apart, NothingLost, Charges, DiffOf, AllIds, Distinct;
    var diff := DiffSystemDefinition(before, after);
    r := ComputeImpact(systemExists, db, diff);
    if Apart(after.modules) {
      IdsAreDistinct(before, after);
    }
  }

  // ----- one id, two entities

  lemma NewEntityPresent(before: Definition, after: Definition, s: Selection, m: string, e: string)
    requires UniqueModules(before.modules) && UniqueModules(after.modules)
    requires HasPath(after.modules, m, e) && !HasPath(before.modules, m, e)
    requires Get(before.modules, ModuleKey, m).Some? || ModuleId(Add, m) in s
    ensures HasPath(Selected(before, after, DiffOf(before, after), s).modules, m, e) <==> EntityId(Add, m, e) in s
  {
    hide Selected, DiffOf, SelectedModules, SelectedEntities, Get, Keys, Distinct;
    SecondPassAddsNothing(before, after, s);
    ModuleHolds(before.modules, after.modules, s, m);
    ModuleFound(before.modules, m);
    ModuleFound(after.modules, m);
    EntityHolds(m, EntitiesOf(Get(before.modules, ModuleKey, m)), EntitiesOf(Get(after.modules, ModuleKey, m)), s, e);
  }

  /** Two new entities with one id are selected together or not at all. */
  lemma OneIdSelectsBoth(before: Definition, after: Definition, s: Selection, m: string, e: string, m2: string,
      e2: string)
    requires UniqueModules(before.modules) && UniqueModules(after.modules)
    requires HasPath(after.modules, m, e) && !HasPath(before.modules, m, e)
    requires HasPath(after.modules, m2, e2) && !HasPath(before.modules, m2, e2)
    requires Get(before.modules, ModuleKey, m).Some? || ModuleId(Add, m) in s
    requires Get(before.modules, ModuleKey, m2).Some? || ModuleId(Add, m2) in s
    requires EntityId(Add, m, e) == EntityId(Add, m2, e2)
    ensures var selected := Selected(before, after, DiffOf(before, after), s).modules;
            HasPath(selected, m, e) <==> HasPath(selected, m2, e2)
  {
    hide Selected, DiffOf, HasPath, EntityId, UniqueModules;
    NewEntityPresent(before, after, s, m, e);
    NewEntityPresent(before, after, s, m2, e2);
  }

  // ----- a plan that does it

  /** Modules "aa" with entity "bb:cc" and "aa:bb" with entity "cc". */
  function Twins(fields: seq<Field>): seq<Module> {
    [PlainModule("aa", [PlainEntity("bb:cc", fields)]), PlainModule("aa:bb", [PlainEntity("cc", fields)])]
  }

  lemma TwinsFound(fields: seq<Field>)
    ensures Distinct(Keys(Twins(fields), ModuleKey)) &&
            (Distinct(Keys(fields, FieldKey)) ==> UniqueModules(Twins(fields)))
    ensures Get(Twins(fields), ModuleKey, "aa") == Some(PlainModule("aa", [PlainEntity("bb:cc", fields)]))
    ensures Get(Twins(fields), ModuleKey, "aa:bb") == Some(PlainModule("aa:bb", [PlainEntity("cc", fields)]))
    ensures HasPath(Twins(fields), "aa", "bb:cc") && HasPath(Twins(fields), "aa:bb", "cc")
    ensures FieldsUnder(Twins(fields), "aa", "bb:cc") == FieldsUnder(Twins(fields), "aa:bb", "cc") == fields
  {
    hide Merge, Distinct, Keys, Get;
    GetTwo(PlainModule("aa", [PlainEntity("bb:cc", fields)]), PlainModule("aa:bb", [PlainEntity("cc", fields)]),
           ModuleKey);
    GetOne(PlainEntity("bb:cc", fields), EntityKey);
    GetOne(PlainEntity("cc", fields), EntityKey);
    FromListIsIdentity([PlainEntity("bb:cc", fields)], EntityKey);
    FromListIsIdentity([PlainEntity("cc", fields)], EntityKey);
  }

  lemma TwinsClash(op: Op, f: string)
    ensures EntityId(op, "aa", "bb:cc") == EntityId(op, "aa:bb", "cc")
    ensures FieldId(op, "aa", "bb:cc", f) == FieldId(op, "aa:bb", "cc", f)
  {
    ColonsConfuse(op, "aa", "bb", "cc");
    assert "bb" + ":" + "cc" == "bb:cc" && "aa" + ":" + "bb" == "aa:bb";
    FieldIdIsPath(op, "aa", "bb:cc", f);
    FieldIdIsPath(op, "aa:bb", "cc", f);
    assert Path("aa", "bb:cc") == Path("aa:bb", "cc");
  }

  lemma NoPaths(m: string, e: string)
    ensures !HasPath([], m, e) && UniqueModules([])
  {
  }

  /** A new system planned with these modules: its two new entities share an id, so that one id
      brings both into the system. */
  lemma TwinsComeTogether(s: Selection)
    requires ModuleId(Add, "aa") in s && ModuleId(Add, "aa:bb") in s
    ensures var after := WithModules(Twins([]));
            var selected := Selected(NOTHING, after, DiffOf(NOTHING, after), s).modules;
            (HasPath(selected, "aa", "bb:cc") <==> EntityId(Add, "aa", "bb:cc") in s) &&
            (HasPath(selected, "aa:bb", "cc") <==> EntityId(Add, "aa", "bb:cc") in s)
  {
    hide Selected, DiffOf, HasPath, EntityId, ModuleId, UniqueModules, Twins, Get, Keys, Distinct;
    TwinsFound([]);
    assert Distinct(Keys<Field>([], FieldKey)) by { NoFields(); }
    TwinsClash(Add, "");
    NoPaths("aa", "bb:cc");
    NoPaths("aa:bb", "cc");
    var after := WithModules(Twins([]));
    NewEntityPresent(NOTHING, after, s, "aa", "bb:cc");
    NewEntityPresent(NOTHING, after, s, "aa:bb", "cc");
  }

  lemma NoFields()
    ensures Distinct(Keys<Field>([], FieldKey))
  {
  }

  // ----- one id, two charges

  lemma AddedField(before: seq<Module>, after: seq<Module>, m: string, e: string, f: string)
    requires Distinct(Keys(after, ModuleKey)) && HasPath(after, m, e)
    requires f in Keys(FieldsUnder(after, m, e), FieldKey) && f !in Keys(FieldsUnder(before, m, e), FieldKey)
    ensures FieldItem(m, e, Item(Add, f, None, Get(FromList(FieldsUnder(after, m, e), FieldKey), FieldKey, f)))
            in FieldItems(before, after)
  {
    hide Merge, Distinct, Differences, FieldItems, FieldItemsIn;
    var b := FromList(EntitiesOf(Get(before, ModuleKey, m)), EntityKey);
    var a := FromList(Get(after, ModuleKey, m).value.entities, EntityKey);
    FromListKeys(Get(after, ModuleKey, m).value.entities, EntityKey);
    FromListDistinct(Get(after, ModuleKey, m).value.entities, EntityKey);
    var known, plan := FieldsOf(Get(b, EntityKey, e)), FieldsOf(Get(a, EntityKey, e));
    FromListKeys(known, FieldKey);
    FromListKeys(plan, FieldKey);
    var it := Item(Add, f, None, Get(FromList(plan, FieldKey), FieldKey, f));
    DifferencesListed(known, plan, FIELD_KIND, it);
    FieldItemsInAre(m, b, a, FieldItem(m, e, it));
    FieldItemsListed(before, after, FieldItem(m, e, it));
  }

  lemma ChargedAt(db: Snapshot, diff: Diff, i: nat)
    requires i < |diff.fields|
    ensures var charges, at := Charges(db, diff), |diff.modules| + |diff.entities| + i;
            at < |charges| && charges[at] == Charge(IdOfField(diff.fields[i]), FieldCost(db, diff.fields[i]))
  {
    hide ModuleCost, EntityCost, FieldCost, WorkflowCost, IdOfModule, IdOfEntity, IdOfField, IdOfWorkflow, IdOfPolicy;
  }

  /** Two field differences with one id, each of which costs something: the entry of one is lost,
      and the totals are more than the sums. */
  lemma LostCharge(db: Snapshot, diff: Diff, x: FieldItem, y: FieldItem)
    requires x in diff.fields && y in diff.fields && x != y && IdOfField(x) == IdOfField(y)
    requires FieldCost(db, x) != FREE && FieldCost(db, y) != FREE
    ensures Total(Charges(db, diff)) != Sum(Entries(Charges(db, diff)))
  {
    hide Charges, FieldCost, IdOfField, Total, Entries;
    var i :| 0 <= i < |diff.fields| && diff.fields[i] == x;
    var j :| 0 <= j < |diff.fields| && diff.fields[j] == y;
    ChargedAt(db, diff, i);
    ChargedAt(db, diff, j);
    TotalIsSumIff(Charges(db, diff));
  }

  const DUE: Field := Field("due", "due", "date", true, None)

  /** The plan that asks for a required field in both entities. */
  const BOTH_DUE: Changes := Changes(Twins([DUE]), [], [], [], [])

  lemma TwinsMerged()
    ensures MergedModules(Twins([]), Twins([DUE])) == Twins([DUE])
  {
    hide Merge, Distinct, Get, HasPath, FieldsUnder, UniqueModules;
    var b, p := Twins([]), Twins([DUE]);
    NoFields();
    GetOne(DUE, FieldKey);
    TwinsFound([]);
    TwinsFound([DUE]);
    ModulesMerge(b, p);
    JoinModuleKeepsKey();
    KeysMerge(b, p, ModuleKey, JoinModule);
    assert Keys(b, ModuleKey) == Keys(p, ModuleKey);
    WithoutAll(Keys(p, ModuleKey), Keys(b, ModuleKey));
    MergedAt(b, p, ModuleKey, JoinModule, 0);
    MergedAt(b, p, ModuleKey, JoinModule, 1);
    OneJoined("bb:cc");
    OneJoined("cc");
    assert Keys(MergedModules(b, p), ModuleKey) == Keys(b, ModuleKey);
  }

  lemma OneJoined(e: string)
    ensures MergedEntities([PlainEntity(e, [])], [PlainEntity(e, [DUE])]) == [PlainEntity(e, [DUE])]
  {
    hide Merge, Distinct, Get;
    var x, y := PlainEntity(e, []), PlainEntity(e, [DUE]);
    GetOne(x, EntityKey);
    GetOne(y, EntityKey);
    GetOne(DUE, FieldKey);
    EntitiesMerge([x], [y]);
    JoinEntityKeepsKey();
    KeysMerge([x], [y], EntityKey, JoinEntity);
    WithoutAll([e], [e]);
    MergedAt([x], [y], EntityKey, JoinEntity, 0);
    NoFields();
    FieldsMerge([], [DUE]);
    OverrideNothing([DUE]);
  }

  /** A plan that adds a required field to each of two entities with records: the totals of its
      impact report are not the sums of its entries. */
  lemma TotalsAreNotSums(db: Snapshot)
    requires PublishedEntity(db, "aa", "bb:cc").Some? && PublishedEntity(db, "aa:bb", "cc").Some?
    requires RecordsOfEntity(db, PublishedEntity(db, "aa", "bb:cc").value) != {}
    requires RecordsOfEntity(db, PublishedEntity(db, "aa:bb", "cc").value) != {}
    ensures var before := WithModules(Twins([]));
            var charges := Charges(db, DiffOf(before, Applied(BOTH_DUE, before)));
            Total(charges) != Sum(Entries(charges))
  {
    hide Merge, Distinct, MergedModules, Override, HasPath, FieldsUnder, FieldItems, EntityItems, Differences,
      PublishedEntity, Charges, Entries, Total, Twins, FieldId, UniqueModules, Get, Keys;
    var before := WithModules(Twins([]));
    var after := Applied(BOTH_DUE, before);
    TwinsMerged();
    assert after.modules == Twins([DUE]);
    NoFields();
    GetOne(DUE, FieldKey);
    TwinsFound([]);
    TwinsFound([DUE]);
    FromListIsIdentity(Twins([]), ModuleKey);
    FromListIsIdentity(Twins([DUE]), ModuleKey);
    FromListIsIdentity([DUE], FieldKey);
    NoKey("due");
    AddedField(Twins([]), Twins([DUE]), "aa", "bb:cc", "due");
    AddedField(Twins([]), Twins([DUE]), "aa:bb", "cc", "due");
    var it := Item(Add, "due", None, Some(DUE));
    TwinsClash(Add, "due");
    LostCharge(db, DiffOf(before, after), FieldItem("aa", "bb:cc", it), FieldItem("aa:bb", "cc", it));
  }

  lemma NoKey(k: string)
    ensures k !in Keys<Field>([], FieldKey)
  {
  }
}
