/** The impact report of a definition diff: five loops over a fixed database snapshot that keep
    the totals in step with the entries. */
module Impact {
  import opened OrderedMerge
  import opened SystemDefinition
  import opened ChangePlan
  import opened KeyedDiff
  import opened DiffSelection

  datatype ModuleRow = ModuleRow(id: string, key: string)

  datatype EntityRow = EntityRow(id: string, key: string, moduleId: string)

  /** A record of any system, with the values it holds by field key. */
  datatype RecordRow = RecordRow(id: string, systemId: string, moduleId: string, entityId: string,
                                 data: map<string, string>)

  datatype WorkflowRow = WorkflowRow(id: string, systemId: string, moduleId: string, key: string)

  /** The database as the report on one system reads it: the published modules and entities of that
      system, and the records and workflows of all systems. No system has the empty id. */
  datatype Snapshot = Snapshot(
    systemId: string,
    moduleRows: seq<ModuleRow>,
    entityRows: seq<EntityRow>,
    records: set<RecordRow>,
    workflows: set<WorkflowRow>)

  // ----- what the queries count

  function RecordsOfModule(db: Snapshot, moduleId: string): set<RecordRow> {
    set r | r in db.records && r.systemId == db.systemId && r.moduleId == moduleId
  }

  function WorkflowsOfModule(db: Snapshot, moduleId: string): set<WorkflowRow> {
    set w | w in db.workflows && w.systemId == db.systemId && w.moduleId == moduleId
  }

  function RecordsOfEntity(db: Snapshot, entityId: string): set<RecordRow> {
    set r | r in db.records && r.systemId == db.systemId && r.entityId == entityId
  }

  /** `r.data ? :fieldKey` */
  function Populated(db: Snapshot, entityId: string, fieldKey: string): set<RecordRow> {
    set r | r in RecordsOfEntity(db, entityId) && fieldKey in r.data
  }

  function WorkflowsByKey(db: Snapshot, key: string): set<WorkflowRow> {
    set w | w in db.workflows && w.systemId == db.systemId && w.key == key
  }

  datatype Entry = Entry(changeId: string, records: nat, workflows: nat)

  datatype Totals = Totals(records: nat, workflows: nat, destructive: nat)

  // ----- lookups: the last row wins, and an empty id counts as missing

  function ModuleRowKey(r: ModuleRow): string { r.key }

  function PublishedModule(db: Snapshot, key: string): Option<string> {
    var row := Last(db.moduleRows, ModuleRowKey, key);
    if row.Some? && row.value.id != "" then Some(row.value.id) else None
  }

  /** `moduleRows.find((m) => m.id === id)?.key ?? ''` */
  function ModuleKeyOf(rows: seq<ModuleRow>, id: string): string {
    if rows == [] then "" else if rows[0].id == id then rows[0].key else ModuleKeyOf(rows[1..], id)
  }

  function PublishedEntity(db: Snapshot, moduleKey: string, entityKey: string): Option<string> {
    var row := Last(db.entityRows, (r: EntityRow) => PathOf(db, r), moduleKey + "::" + entityKey);
    if row.Some? && row.value.id != "" then Some(row.value.id) else None
  }

  /** The path an entity row is found by. */
  function PathOf(db: Snapshot, row: EntityRow): string {
    ModuleKeyOf(db.moduleRows, row.moduleId) + "::" + row.key
  }

  // ----- what each kind of change costs

  /** The records and workflows a change touches. */
  datatype Cost = Cost(records: nat, workflows: nat)

  const FREE := Cost(0, 0)

  function ModuleCost(db: Snapshot, m: Item<Module>): Cost {
    var id := PublishedModule(db, m.key);
    if m.op == Remove && id.Some? then Cost(|RecordsOfModule(db, id.value)|, |WorkflowsOfModule(db, id.value)|)
    else FREE
  }

  function EntityCost(db: Snapshot, e: EntityItem): Cost {
    var id := PublishedEntity(db, e.moduleKey, e.item.key);
    if e.item.op == Remove && id.Some? then Cost(|RecordsOfEntity(db, id.value)|, 0) else FREE
  }

  predicate Required(f: Option<Field>) {
    f.Some? && f.value.required
  }

  predicate HasDefault(f: Option<Field>) {
    f.Some? && f.value.config.Some? && f.value.config.value.hasDefaultValue
  }

  predicate TypeChanged(f: FieldItem) {
    f.item.before.Some? && f.item.after.Some? && f.item.before.value.dataType != f.item.after.value.dataType
  }

  predicate BecameRequired(f: FieldItem) {
    f.item.before.Some? && f.item.after.Some? && !f.item.before.value.required && f.item.after.value.required
  }

  lemma PopulatedAtMost(db: Snapshot, entityId: string, fieldKey: string)
    ensures |Populated(db, entityId, fieldKey)| <= |RecordsOfEntity(db, entityId)|
  {
    SubsetCount(Populated(db, entityId, fieldKey), RecordsOfEntity(db, entityId));
  }

  lemma {:induction false} SubsetCount<T>(a: set<T>, b: set<T>)
    requires a <= b
    ensures |a| + |b - a| == |b|
  {
    assert a + (b - a) == b;
  }

  /** Of the records of the field's entity, those that would miss a required value, lose a value,
      or have to be migrated. */
  function FieldCost(db: Snapshot, f: FieldItem): Cost {
    var id := PublishedEntity(db, f.moduleKey, f.entityKey);
    if id.None? then FREE
    else
      var total, populated := |RecordsOfEntity(db, id.value)|, |Populated(db, id.value, f.item.key)|;
      PopulatedAtMost(db, id.value, f.item.key);
      match f.item.op
      case Add => if Required(f.item.after) && !HasDefault(f.item.after) then Cost(total, 0) else FREE
      case Remove => Cost(populated, 0)
      case Modify =>
        if TypeChanged(f) && populated > 0 then Cost(populated, 0)
        else if BecameRequired(f) && populated < total then Cost(total - populated, 0)
        else FREE
  }

  function WorkflowCost(db: Snapshot, w: Item<Workflow>): Cost {
    if w.op == Remove then Cost(0, |WorkflowsByKey(db, w.key)|) else FREE
  }

  // ----- what the costs count, record by record

  /** A field of a published entity. Removing it costs the records that hold a value. Adding it costs
      every record when it is required and has no default. Changing its type costs the records that
      hold a value; only when there are none, or the type stays, does making it required cost the
      records that hold no value. Nothing else costs anything. */
  lemma FieldCostCounts(db: Snapshot, f: FieldItem, entityId: string)
    requires PublishedEntity(db, f.moduleKey, f.entityKey) == Some(entityId)
    ensures var own := set r | r in db.records && r.systemId == db.systemId && r.entityId == entityId;
            var holding, lacking := set r | r in own && f.item.key in r.data, set r | r in own && f.item.key !in r.data;
            var before, after, cost := f.item.before, f.item.after, FieldCost(db, f);
            var retyped := before.Some? && after.Some? && before.value.dataType != after.value.dataType;
            var demanded := before.Some? && after.Some? && !before.value.required && after.value.required;
            var bare := after.Some? && after.value.required &&
                        !(after.value.config.Some? && after.value.config.value.hasDefaultValue);
            cost.workflows == 0 &&
            match f.item.op
            case Remove => cost.records == |holding|
            case Add => cost.records == if bare then |own| else 0
            case Modify =>
              cost.records ==
              if retyped && holding != {} then |holding| else if demanded then |lacking| else 0
  {
    var own := set r | r in db.records && r.systemId == db.systemId && r.entityId == entityId;
    var holding, lacking := set r | r in own && f.item.key in r.data, set r | r in own && f.item.key !in r.data;
    hide PublishedEntity;
    SubsetCount(holding, own);
    assert own - holding == lacking;
    assert own == RecordsOfEntity(db, entityId) && holding == Populated(db, entityId, f.item.key);
  }

  /** Removing a published module costs its records and workflows, removing a published entity its
      records, removing a workflow the stored workflows with its key; all of this system only.
      No other change of these, and none of what was never published, costs anything. */
  lemma RemovalCostCounts(db: Snapshot, m: Item<Module>, e: EntityItem, f: FieldItem, w: Item<Workflow>)
    ensures var id := PublishedModule(db, m.key);
            ModuleCost(db, m) ==
            if m.op == Remove && id.Some? then
              Cost(|set r | r in db.records && r.systemId == db.systemId && r.moduleId == id.value|,
                   |set x | x in db.workflows && x.systemId == db.systemId && x.moduleId == id.value|)
            else Cost(0, 0)
    ensures var id := PublishedEntity(db, e.moduleKey, e.item.key);
            EntityCost(db, e) ==
            if e.item.op == Remove && id.Some? then
              Cost(|set r | r in db.records && r.systemId == db.systemId && r.entityId == id.value|, 0)
            else Cost(0, 0)
    ensures PublishedEntity(db, f.moduleKey, f.entityKey).None? ==> FieldCost(db, f) == Cost(0, 0)
    ensures WorkflowCost(db, w) ==
            if w.op == Remove then Cost(0, |set x | x in db.workflows && x.systemId == db.systemId && x.key == w.key|)
            else Cost(0, 0)
  {
  }

  /** When a field is made required, the records its change will harm are those that hold no value
      and, if its type changes too, those that hold one. All of them are reported, exactly unless
      there are some of both kinds: then those without a value go unreported. */
  lemma HarmIsReportedIff(db: Snapshot, f: FieldItem, entityId: string)
    requires PublishedEntity(db, f.moduleKey, f.entityKey) == Some(entityId)
    requires f.item.op == Modify && f.item.before.Some? && f.item.after.Some?
    requires !f.item.before.value.required && f.item.after.value.required
    ensures var retyped := f.item.before.value.dataType != f.item.after.value.dataType;
            var harmed := set r | r in db.records && r.systemId == db.systemId && r.entityId == entityId &&
                                  (f.item.key !in r.data || retyped);
            var holding := set r | r in harmed && f.item.key in r.data;
            FieldCost(db, f).records == |harmed| <==> holding == {} || holding == harmed
    ensures FieldCost(db, f).records <= |RecordsOfEntity(db, entityId)|
  {
    var retyped := f.item.before.value.dataType != f.item.after.value.dataType;
    var own := RecordsOfEntity(db, entityId);
    var harmed := set r | r in db.records && r.systemId == db.systemId && r.entityId == entityId &&
                          (f.item.key !in r.data || retyped);
    var holding, lacking := set r | r in own && f.item.key in r.data, set r | r in own && f.item.key !in r.data;
    FieldCostCounts(db, f, entityId);
    hide FieldCost, PublishedEntity;
    SubsetCount(lacking, own);
    SubsetCount(holding, own);
    if retyped {
      assert harmed == own && (set r | r in harmed && f.item.key in r.data) == holding;
      assert own - holding == lacking;
    } else {
      assert harmed == lacking && (set r | r in harmed && f.item.key in r.data) == {};
    }
  }

  lemma {:induction false} LastRow<T>(rows: seq<T>, keyOf: T -> string, k: string) returns (at: int)
    ensures -1 <= at < |rows| && forall j | at < j < |rows| :: keyOf(rows[j]) != k
    ensures at == -1 ==> Last(rows, keyOf, k) == None
    ensures at >= 0 ==> keyOf(rows[at]) == k && Last(rows, keyOf, k) == Some(rows[at])
  {
    if rows == [] {
      at := -1;
    } else if keyOf(rows[|rows| - 1]) == k {
      at := |rows| - 1;
    } else {
      at := LastRow(rows[..|rows| - 1], keyOf, k);
    }
  }

  /** The key of the first module row with an id, or nothing. */
  lemma {:induction false} ModuleKeyIsFirst(rows: seq<ModuleRow>, id: string)
    ensures (forall i | 0 <= i < |rows| :: rows[i].id != id) ==> ModuleKeyOf(rows, id) == ""
    ensures forall i | 0 <= i < |rows| && rows[i].id == id && (forall j | 0 <= j < i :: rows[j].id != id) ::
              ModuleKeyOf(rows, id) == rows[i].key
  {
    if rows == [] || rows[0].id == id {
    } else {
      ModuleKeyIsFirst(rows[1..], id);
    }
  }

  /** Which rows the costs are looked up by: the last module row with the key; the last entity row
      whose own key, after the key of the first module row with its module's id, spells the path. */
  lemma PublishedRows(db: Snapshot, moduleKey: string, entityKey: string)
    ensures var id := PublishedModule(db, moduleKey);
            id.Some? <==>
            exists i | 0 <= i < |db.moduleRows| ::
              db.moduleRows[i].key == moduleKey && db.moduleRows[i].id != "" &&
              (forall j | i < j < |db.moduleRows| :: db.moduleRows[j].key != moduleKey) &&
              id == Some(db.moduleRows[i].id)
    ensures var id := PublishedEntity(db, moduleKey, entityKey);
            id.Some? <==>
            exists i | 0 <= i < |db.entityRows| ::
              ModuleKeyOf(db.moduleRows, db.entityRows[i].moduleId) + "::" + db.entityRows[i].key ==
              moduleKey + "::" + entityKey && db.entityRows[i].id != "" &&
              (forall j | i < j < |db.entityRows| ::
                 ModuleKeyOf(db.moduleRows, db.entityRows[j].moduleId) + "::" + db.entityRows[j].key !=
                 moduleKey + "::" + entityKey) &&
              id == Some(db.entityRows[i].id)
  {
    var m := LastRow(db.moduleRows, ModuleRowKey, moduleKey);
    var e := LastRow(db.entityRows, (r: EntityRow) => PathOf(db, r), moduleKey + "::" + entityKey);
    hide Last, ModuleKeyOf;
  }

  // ----- sums over the report

  function Destroys(e: Entry): nat {
    if e.records > 0 || e.workflows > 0 then 1 else 0
  }

  /** The totals an entry contributes. */
  function Share(e: Entry): Totals {
    Totals(e.records, e.workflows, Destroys(e))
  }

  function Plus(a: Totals, b: Totals): Totals {
    Totals(a.records + b.records, a.workflows + b.workflows, a.destructive + b.destructive)
  }

  ghost function SomeKey(items: map<string, Entry>): (k: string)
    requires items != map[]
    ensures k in items
  {
    var k :| k in items;
    k
  }

  /** The sum over all entries of a report. */
  ghost function Sum(items: map<string, Entry>): Totals
    decreases |items|
  {
    if items == map[] then Totals(0, 0, 0)
    else Plus(Share(items[SomeKey(items)]), Sum(items - {SomeKey(items)}))
  }

  /** Any entry can be taken out of the sum. */
  lemma {:induction false} SumTakeOut(items: map<string, Entry>, k: string)
    requires k in items
    ensures Sum(items) == Plus(Share(items[k]), Sum(items - {k}))
    decreases |items|
  {
    hide Share, Destroys;
    var j := SomeKey(items);
    if j != k {
      SumTakeOut(items - {j}, k);
      SumTakeOut(items - {k}, j);
      assert items - {j} - {k} == items - {k} - {j};
    }
  }

  lemma SumAdd(items: map<string, Entry>, k: string, e: Entry)
    requires k !in items
    ensures Sum(items[k := e]) == Plus(Sum(items), Share(e))
  {
    SumTakeOut(items[k := e], k);
    assert items[k := e] - {k} == items;
  }

  /** Each entry adds its records and workflows to the sum, and one change that destroys something
      if it has any. */
  lemma SumAdds(items: map<string, Entry>, k: string, e: Entry)
    requires k !in items
    ensures Sum(map[]) == Totals(0, 0, 0)
    ensures var was, now := Sum(items), Sum(items[k := e]);
            now.records == was.records + e.records && now.workflows == was.workflows + e.workflows &&
            now.destructive == was.destructive + if e.records > 0 || e.workflows > 0 then 1 else 0
  {
    SumAdd(items, k, e);
  }

  /** The destructive changes are the entries that count anything. */
  lemma {:induction false} DestructiveCounts(items: map<string, Entry>)
    ensures Sum(items).destructive == |set k | k in items && (items[k].records > 0 || items[k].workflows > 0)|
    decreases |items|
  {
    var all := set k | k in items && (items[k].records > 0 || items[k].workflows > 0);
    if items == map[] {
      assert all == {};
    } else {
      var j := SomeKey(items);
      var rest := items - {j};
      DestructiveCounts(rest);
      var fewer := set k | k in rest && (rest[k].records > 0 || rest[k].workflows > 0);
      SumTakeOut(items, j);
      assert all == if j in all then fewer + {j} else fewer;
    }
  }

  // ----- the report under construction

  /** A change and what it costs. */
  datatype Charge = Charge(id: string, cost: Cost)

  function EntryOf(c: Charge): Entry {
    Entry(c.id, c.cost.records, c.cost.workflows)
  }

  function ChargeId(c: Charge): string { c.id }

  /** The entry of the last change under each id. */
  function Entries(charges: seq<Charge>): map<string, Entry> {
    if charges == [] then map[]
    else
      var c := charges[|charges| - 1];
      Entries(charges[..|charges| - 1])[c.id := EntryOf(c)]
  }

  function Total(charges: seq<Charge>): Totals {
    if charges == [] then Totals(0, 0, 0)
    else Plus(Total(charges[..|charges| - 1]), Share(EntryOf(charges[|charges| - 1])))
  }

  lemma EntriesAppend(charges: seq<Charge>, c: Charge)
    ensures Entries(charges + [c]) == Entries(charges)[c.id := EntryOf(c)]
    ensures Total(charges + [c]) == Plus(Total(charges), Share(EntryOf(c)))
  {
    assert (charges + [c])[..|charges|] == charges;
  }

  /** One entry per distinct id, holding the cost of a change with that id. */
  lemma {:induction false} EntriesKeys(charges: seq<Charge>)
    ensures forall id :: id in Entries(charges) <==> id in Keys(charges, ChargeId)
    ensures forall id | id in Entries(charges) ::
              var c := Last(charges, ChargeId, id); c.Some? && Entries(charges)[id] == EntryOf(c.value)
  {
    if charges == [] {
    } else {
      EntriesKeys(charges[..|charges| - 1]);
      KeysInit(charges, ChargeId);
    }
  }

  /** A charge whose entry a later change with the same id overwrites costs nothing. */
  ghost predicate NothingLost(charges: seq<Charge>) {
    forall i, j | 0 <= i < j < |charges| && charges[i].id == charges[j].id :: charges[i].cost == FREE
  }

  predicate AtMost(a: Totals, b: Totals) {
    a.records <= b.records && a.workflows <= b.workflows && a.destructive <= b.destructive
  }

  lemma NothingLostInit(charges: seq<Charge>)
    requires charges != []
    ensures var init, c := charges[..|charges| - 1], charges[|charges| - 1];
            NothingLost(charges) <==>
            NothingLost(init) && forall i | 0 <= i < |init| && init[i].id == c.id :: init[i].cost == FREE
  {
    var init, c := charges[..|charges| - 1], charges[|charges| - 1];
    assert charges == init + [c];
  }

  /** What was last charged under an id is free if and only if everything charged under it is,
      when nothing was lost before. */
  lemma LastIsFree(charges: seq<Charge>, id: string)
    requires NothingLost(charges)
    ensures var last := Last(charges, ChargeId, id);
            (last.Some? ==> last.value.cost == FREE) <==>
            forall i | 0 <= i < |charges| && charges[i].id == id :: charges[i].cost == FREE
  {
    if charges == [] {
    } else if charges[|charges| - 1].id != id {
      NothingLostInit(charges);
      LastIsFree(charges[..|charges| - 1], id);
      assert charges == charges[..|charges| - 1] + [charges[|charges| - 1]];
    }
  }

  /** The totals are never less than the sums over the entries, and they are the sums exactly when
      no charge that costs anything is overwritten. */
  lemma {:induction false} TotalIsSumIff(charges: seq<Charge>)
    ensures AtMost(Sum(Entries(charges)), Total(charges))
    ensures Total(charges) == Sum(Entries(charges)) <==> NothingLost(charges)
  {
    if charges == [] {
    } else {
      var init, c := charges[..|charges| - 1], charges[|charges| - 1];
      assert charges == init + [c];
      EntriesAppend(init, c);
      TotalIsSumIff(init);
      NothingLostInit(charges);
      EntriesKeys(init);
      if NothingLost(init) {
        LastIsFree(init, c.id);
      }
      hide Entries, Total, NothingLost, Last;
      SumReplace(Entries(init), c.id, EntryOf(c));
    }
  }

  /** Storing an entry adds its share, and takes out the share of the one it replaces. */
  lemma SumReplace(items: map<string, Entry>, k: string, e: Entry)
    ensures var now := Sum(items[k := e]);
            Plus(now, if k in items then Share(items[k]) else Totals(0, 0, 0)) == Plus(Sum(items), Share(e))
  {
    if k in items {
      SumTakeOut(items, k);
      SumAdd(items - {k}, k, e);
      assert (items - {k})[k := e] == items[k := e];
    } else {
      SumAdd(items, k, e);
    }
  }

  /** With distinct ids the totals are the sums over the entries, and the destructive count is
      the number of entries that touch anything. */
  lemma {:induction false} TotalIsSum(charges: seq<Charge>)
    requires Distinct(Keys(charges, ChargeId))
    ensures Total(charges) == Sum(Entries(charges)) && |Entries(charges)| == |charges|
  {
    if charges == [] {
    } else {
      var init, c := charges[..|charges| - 1], charges[|charges| - 1];
      KeysInit(charges, ChargeId);
      DistinctInit(Keys(charges, ChargeId));
      TotalIsSum(init);
      EntriesKeys(init);
      SumAdd(Entries(init), c.id, EntryOf(c));
    }
  }

  class Report {
    var items: map<string, Entry>
    var totals: Totals
    ghost var charges: seq<Charge>

    ghost predicate Valid()
      reads this
    {
      items == Entries(charges) && totals == Total(charges)
    }

    constructor ()
      ensures Valid() && charges == []
    {
      items, totals, charges := map[], Totals(0, 0, 0), [];
    }

    /** A fresh entry, in the report from the start. */
    method Init(id: string)
      modifies this`items
      ensures items == old(items)[id := Entry(id, 0, 0)]
    {
      items := items[id := Entry(id, 0, 0)];
    }

    method ChargeModule(db: Snapshot, m: Item<Module>)
      requires Valid()
      modifies this
      ensures Valid() && charges == old(charges) + [Charge(IdOfModule(m), ModuleCost(db, m))]
    {
      var id := IdOfModule(m);
      EntriesAppend(charges, Charge(id, ModuleCost(db, m)));
      hide Entries, Total, Last, PublishedModule, PublishedEntity, IdOfModule;
      charges := charges + [Charge(id, ModuleCost(db, m))];
      Init(id);
      if m.op != Remove {
        return;
      }
      var moduleId := PublishedModule(db, m.key);
      if moduleId.None? {
        return;
      }
      var recordCount := |RecordsOfModule(db, moduleId.value)|;
      var workflowCount := |WorkflowsOfModule(db, moduleId.value)|;
      items := items[id := items[id].(records := recordCount, workflows := workflowCount)];
      if recordCount + workflowCount > 0 {
        totals := totals.(destructive := totals.destructive + 1);
      }
      totals := totals.(records := totals.records + recordCount);
      totals := totals.(workflows := totals.workflows + workflowCount);
    }

    method ChargeEntity(db: Snapshot, e: EntityItem)
      requires Valid()
      modifies this
      ensures Valid() && charges == old(charges) + [Charge(IdOfEntity(e), EntityCost(db, e))]
    {
      var id := IdOfEntity(e);
      EntriesAppend(charges, Charge(id, EntityCost(db, e)));
      hide Entries, Total, Last, PublishedModule, PublishedEntity, IdOfEntity;
      charges := charges + [Charge(id, EntityCost(db, e))];
      Init(id);
      if e.item.op != Remove {
        return;
      }
      var entityId := PublishedEntity(db, e.moduleKey, e.item.key);
      if entityId.None? {
        return;
      }
      var recordCount := |RecordsOfEntity(db, entityId.value)|;
      items := items[id := items[id].(records := recordCount)];
      if recordCount > 0 {
        totals := totals.(destructive := totals.destructive + 1);
      }
      totals := totals.(records := totals.records + recordCount);
    }

    method ChargeField(db: Snapshot, f: FieldItem)
      requires Valid()
      modifies this
      ensures Valid() && charges == old(charges) + [Charge(IdOfField(f), FieldCost(db, f))]
    {
      var id := IdOfField(f);
      EntriesAppend(charges, Charge(id, FieldCost(db, f)));
      hide Entries, Total, Last, PublishedModule, PublishedEntity, IdOfField, RecordsOfEntity, Populated;
      charges := charges + [Charge(id, FieldCost(db, f))];
      Init(id);
      var entityId := PublishedEntity(db, f.moduleKey, f.entityKey);
      if f.item.op == Add {
        if entityId.None? {
          return;
        }
        var total := |RecordsOfEntity(db, entityId.value)|;
        if Required(f.item.after) && !HasDefault(f.item.after) && total > 0 {
          Affect(id, total);
        }
        return;
      }
      if entityId.None? {
        return;
      }
      var populated := |Populated(db, entityId.value, f.item.key)|;
      if f.item.op == Remove {
        items := items[id := items[id].(records := populated)];
        if populated > 0 {
          totals := totals.(records := totals.records + populated, destructive := totals.destructive + 1);
        }
      } else {
        if TypeChanged(f) && populated > 0 {
          Affect(id, populated);
        } else if BecameRequired(f) && populated < |RecordsOfEntity(db, entityId.value)| {
          Affect(id, |RecordsOfEntity(db, entityId.value)| - populated);
        }
      }
    }

    /** Set an entry's record count and count it as destructive. */
    method Affect(id: string, n: nat)
      requires id in items
      modifies this`items, this`totals
      ensures items == old(items)[id := old(items)[id].(records := n)]
      ensures totals == old(totals).(records := old(totals).records + n, destructive := old(totals).destructive + 1)
    {
      items := items[id := items[id].(records := n)];
      totals := totals.(records := totals.records + n, destructive := totals.destructive + 1);
    }

    method ChargeWorkflow(db: Snapshot, w: Item<Workflow>)
      requires Valid()
      modifies this
      ensures Valid() && charges == old(charges) + [Charge(IdOfWorkflow(w), WorkflowCost(db, w))]
    {
      var id := IdOfWorkflow(w);
      EntriesAppend(charges, Charge(id, WorkflowCost(db, w)));
      hide Entries, Total, Last, PublishedModule, PublishedEntity, IdOfWorkflow;
      charges := charges + [Charge(id, WorkflowCost(db, w))];
      Init(id);
      if w.op != Remove {
        return;
      }
      var found := |WorkflowsByKey(db, w.key)|;
      items := items[id := items[id].(workflows := found)];
      if found > 0 {
        totals := totals.(workflows := totals.workflows + found, destructive := totals.destructive + 1);
      }
    }

    method ChargeNothing(id: string)
      requires Valid()
      modifies this
      ensures Valid() && charges == old(charges) + [Charge(id, FREE)]
    {
      EntriesAppend(charges, Charge(id, FREE));
      hide Entries, Total, Last, PublishedModule, PublishedEntity;
      charges := charges + [Charge(id, FREE)];
      Init(id);
    }
  }

  // ----- the report of a whole diff

  function ModuleCharges(db: Snapshot, ms: seq<Item<Module>>): seq<Charge> {
    seq(|ms|, i requires 0 <= i < |ms| => Charge(IdOfModule(ms[i]), ModuleCost(db, ms[i])))
  }

  function EntityCharges(db: Snapshot, es: seq<EntityItem>): seq<Charge> {
    seq(|es|, i requires 0 <= i < |es| => Charge(IdOfEntity(es[i]), EntityCost(db, es[i])))
  }

  function FieldCharges(db: Snapshot, fs: seq<FieldItem>): seq<Charge> {
    seq(|fs|, i requires 0 <= i < |fs| => Charge(IdOfField(fs[i]), FieldCost(db, fs[i])))
  }

  function WorkflowCharges(db: Snapshot, ws: seq<Item<Workflow>>): seq<Charge> {
    seq(|ws|, i requires 0 <= i < |ws| => Charge(IdOfWorkflow(ws[i]), WorkflowCost(db, ws[i])))
  }

  /** Free of charge: permissions, and every change when there is no system yet. */
  function Free(ids: seq<string>): seq<Charge> {
    seq(|ids|, i requires 0 <= i < |ids| => Charge(ids[i], FREE))
  }

  function Charges(db: Snapshot, diff: Diff): (charges: seq<Charge>)
    ensures Keys(charges, ChargeId) == AllIds(diff)
  {
    ModuleCharges(db, diff.modules) + EntityCharges(db, diff.entities) + FieldCharges(db, diff.fields) +
    WorkflowCharges(db, diff.workflows) + Free(Map(IdOfPolicy, diff.policies))
  }

  datatype Result<+T> = Ok(value: T) | NotFound

  /** With distinct ids, every change has its own entry, holding what it costs. */
  predicate Reports(db: Snapshot, diff: Diff, items: map<string, Entry>) {
    (forall m | m in diff.modules ::
       var id, cost := IdOfModule(m), ModuleCost(db, m);
       id in items && items[id] == Entry(id, cost.records, cost.workflows)) &&
    (forall e | e in diff.entities ::
       var id, cost := IdOfEntity(e), EntityCost(db, e);
       id in items && items[id] == Entry(id, cost.records, cost.workflows)) &&
    (forall f | f in diff.fields ::
       var id, cost := IdOfField(f), FieldCost(db, f);
       id in items && items[id] == Entry(id, cost.records, cost.workflows)) &&
    (forall w | w in diff.workflows ::
       var id, cost := IdOfWorkflow(w), WorkflowCost(db, w);
       id in items && items[id] == Entry(id, cost.records, cost.workflows)) &&
    forall p | p in diff.policies ::
      IdOfPolicy(p) in items && items[IdOfPolicy(p)] == Entry(IdOfPolicy(p), 0, 0)
  }

  lemma {:induction false} EntryAt(charges: seq<Charge>, i: nat)
    requires i < |charges| && Distinct(Keys(charges, ChargeId))
    ensures charges[i].id in Entries(charges) && Entries(charges)[charges[i].id] == EntryOf(charges[i])
  {
    var init, c := charges[..|charges| - 1], charges[|charges| - 1];
    KeysInit(charges, ChargeId);
    DistinctInit(Keys(charges, ChargeId));
    if i < |init| {
      EntryAt(init, i);
      assert Keys(charges, ChargeId)[i] != Keys(charges, ChargeId)[|init|];
    }
  }

  lemma Charged(db: Snapshot, diff: Diff)
    ensures forall i | 0 <= i < |diff.modules| ::
              Charge(IdOfModule(diff.modules[i]), ModuleCost(db, diff.modules[i])) in ModuleCharges(db, diff.modules)
    ensures forall i | 0 <= i < |diff.entities| ::
              Charge(IdOfEntity(diff.entities[i]), EntityCost(db, diff.entities[i])) in EntityCharges(db, diff.entities)
    ensures forall i | 0 <= i < |diff.fields| ::
              Charge(IdOfField(diff.fields[i]), FieldCost(db, diff.fields[i])) in FieldCharges(db, diff.fields)
    ensures forall i | 0 <= i < |diff.workflows| ::
              Charge(IdOfWorkflow(diff.workflows[i]), WorkflowCost(db, diff.workflows[i]))
              in WorkflowCharges(db, diff.workflows)
    ensures forall i | 0 <= i < |diff.policies| ::
              Charge(IdOfPolicy(diff.policies[i]), FREE) in Free(Map(IdOfPolicy, diff.policies))
  {
    hide ModuleCost, EntityCost, FieldCost, WorkflowCost, IdOfModule, IdOfEntity, IdOfField, IdOfWorkflow, IdOfPolicy;
    assert forall i | 0 <= i < |diff.modules| ::
        ModuleCharges(db, diff.modules)[i] == Charge(IdOfModule(diff.modules[i]), ModuleCost(db, diff.modules[i]));
    assert forall i | 0 <= i < |diff.entities| ::
        EntityCharges(db, diff.entities)[i] == Charge(IdOfEntity(diff.entities[i]), EntityCost(db, diff.entities[i]));
    assert forall i | 0 <= i < |diff.fields| ::
        FieldCharges(db, diff.fields)[i] == Charge(IdOfField(diff.fields[i]), FieldCost(db, diff.fields[i]));
    assert forall i | 0 <= i < |diff.workflows| ::
        WorkflowCharges(db, diff.workflows)[i] ==
        Charge(IdOfWorkflow(diff.workflows[i]), WorkflowCost(db, diff.workflows[i]));
    assert forall i | 0 <= i < |diff.policies| ::
        Free(Map(IdOfPolicy, diff.policies))[i] == Charge(IdOfPolicy(diff.policies[i]), FREE);
  }

  lemma EntryOfCharge(charges: seq<Charge>, c: Charge)
    requires c in charges && Distinct(Keys(charges, ChargeId))
    ensures c.id in Entries(charges) && Entries(charges)[c.id] == Entry(c.id, c.cost.records, c.cost.workflows)
  {
    hide Entries, Keys, Distinct;
    var i :| 0 <= i < |charges| && charges[i] == c;
    EntryAt(charges, i);
  }

  lemma ChargesReport(db: Snapshot, diff: Diff)
    requires Distinct(AllIds(diff))
    ensures Reports(db, diff, Entries(Charges(db, diff)))
  {
    var charges := Charges(db, diff);
    Charged(db, diff);
    hide Entries, Distinct, ModuleCost, EntityCost, FieldCost, WorkflowCost, AllIds, IdOfModule, IdOfEntity, IdOfField,
      IdOfWorkflow, IdOfPolicy, ModuleCharges, EntityCharges, FieldCharges, WorkflowCharges, Free, Map;
    forall c | c in charges
      ensures c.id in Entries(charges) && Entries(charges)[c.id] == Entry(c.id, c.cost.records, c.cost.workflows)
    {
      EntryOfCharge(charges, c);
    }
  }

  /** No system yet: nothing is affected. Otherwise each change is charged for what the snapshot
      holds; with distinct ids there is one entry per change and the totals are their sums. */
  method ComputeImpact(systemExists: bool, db: Snapshot, diff: Diff) returns (r: Result<Report>)
    ensures db.systemId != "" && !systemExists <==> r.NotFound?
    ensures r.Ok? ==> fresh(r.value) && r.value.Valid()
    ensures r.Ok? ==> r.value.charges == if db.systemId == "" then Free(AllIds(diff)) else Charges(db, diff)
    ensures r.Ok? && db.systemId == "" ==> r.value.totals == Totals(0, 0, 0)
    ensures r.Ok? ==> (r.value.totals == Sum(r.value.items) <==> NothingLost(r.value.charges))
    ensures r.Ok? && Distinct(AllIds(diff)) ==>
              r.value.totals == Sum(r.value.items) && r.value.items.Keys == (set id | id in AllIds(diff)) &&
              |r.value.items| == |AllIds(diff)| && (db.systemId != "" ==> Reports(db, diff, r.value.items))
  {
    hide *;
    var report := new Report();
    if db.systemId == "" {
      ChargeAllNothing(report, AllIds(diff));
      FreeKeys(AllIds(diff));
      FreeIsNothing(AllIds(diff));
    } else {
      if !systemExists {
        return NotFound;
      }
      ChargeAllModules(report, db, diff.modules);
      ChargeAllEntities(report, db, diff.entities);
      ChargeAllFields(report, db, diff.fields);
      ChargeAllWorkflows(report, db, diff.workflows);
      ChargeAllNothing(report, Map(IdOfPolicy, diff.policies));
      ChargesInOrder(db, diff);
      if Distinct(AllIds(diff)) {
        ChargesReport(db, diff);
      }
    }
    ValidUnfolds(report);
    Balanced(report);
    r := Ok(report);
  }

  lemma ChargesInOrder(db: Snapshot, diff: Diff)
    ensures Charges(db, diff) ==
            [] + ModuleCharges(db, diff.modules) + EntityCharges(db, diff.entities) + FieldCharges(db, diff.fields) +
            WorkflowCharges(db, diff.workflows) + Free(Map(IdOfPolicy, diff.policies))
  {
  }

  method ChargeAllNothing(report: Report, ids: seq<string>)
    requires report.Valid()
    modifies report
    ensures report.Valid() && report.charges == old(report.charges) + Free(ids)
  {
    hide Report.Valid;
    for i := 0 to |ids|
      invariant report.Valid() && report.charges == old(report.charges) + Free(ids[..i])
    {
      report.ChargeNothing(ids[i]);
    }
    assert ids[..|ids|] == ids;
  }

  method ChargeAllModules(report: Report, db: Snapshot, ms: seq<Item<Module>>)
    requires report.Valid()
    modifies report
    ensures report.Valid() && report.charges == old(report.charges) + ModuleCharges(db, ms)
  {
    hide Report.Valid;
    for i := 0 to |ms|
      invariant report.Valid() && report.charges == old(report.charges) + ModuleCharges(db, ms[..i])
    {
      report.ChargeModule(db, ms[i]);
    }
    assert ms[..|ms|] == ms;
  }

  method ChargeAllEntities(report: Report, db: Snapshot, es: seq<EntityItem>)
    requires report.Valid()
    modifies report
    ensures report.Valid() && report.charges == old(report.charges) + EntityCharges(db, es)
  {
    hide Report.Valid;
    for i := 0 to |es|
      invariant report.Valid() && report.charges == old(report.charges) + EntityCharges(db, es[..i])
    {
      report.ChargeEntity(db, es[i]);
    }
    assert es[..|es|] == es;
  }

  method ChargeAllFields(report: Report, db: Snapshot, fs: seq<FieldItem>)
    requires report.Valid()
    modifies report
    ensures report.Valid() && report.charges == old(report.charges) + FieldCharges(db, fs)
  {
    hide Report.Valid;
    for i := 0 to |fs|
      invariant report.Valid() && report.charges == old(report.charges) + FieldCharges(db, fs[..i])
    {
      report.ChargeField(db, fs[i]);
    }
    assert fs[..|fs|] == fs;
  }

  method ChargeAllWorkflows(report: Report, db: Snapshot, ws: seq<Item<Workflow>>)
    requires report.Valid()
    modifies report
    ensures report.Valid() && report.charges == old(report.charges) + WorkflowCharges(db, ws)
  {
    hide Report.Valid;
    for i := 0 to |ws|
      invariant report.Valid() && report.charges == old(report.charges) + WorkflowCharges(db, ws[..i])
    {
      report.ChargeWorkflow(db, ws[i]);
    }
    assert ws[..|ws|] == ws;
  }

  lemma ValidUnfolds(report: Report)
    requires report.Valid()
    ensures report.items == Entries(report.charges) && report.totals == Total(report.charges)
  {
  }

  lemma {:induction false} FreeIsNothing(ids: seq<string>)
    ensures Total(Free(ids)) == Totals(0, 0, 0)
  {
    if ids == [] {
    } else {
      FreeIsNothing(ids[..|ids| - 1]);
      assert Free(ids)[..|ids| - 1] == Free(ids[..|ids| - 1]);
    }
  }

  lemma FreeKeys(ids: seq<string>)
    ensures Keys(Free(ids), ChargeId) == ids
  {
  }

  lemma Balanced(report: Report)
    requires report.Valid()
    ensures Distinct(Keys(report.charges, ChargeId)) ==>
              report.totals == Sum(report.items) && |report.items| == |Keys(report.charges, ChargeId)|
    ensures report.totals == Sum(report.items) <==> NothingLost(report.charges)
    ensures report.items.Keys == set id | id in Keys(report.charges, ChargeId)
  {
    TotalIsSumIff(report.charges);
    EntriesKeys(report.charges);
    if Distinct(Keys(report.charges, ChargeId)) {
      TotalIsSum(report.charges);
    }
  }
}
