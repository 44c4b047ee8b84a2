/** The ids of a diff: no two differences share one, unless keys contain colons. */
module DiffIds {
  import opened OrderedMerge
  import opened SystemDefinition
  import opened ChangePlan
  import opened KeyedDiff
  import opened DiffSelection
  import opened PartialApproval

  function ItemKey<T>(it: Item<T>): string { it.key }

  // ----- the keys of one list of differences

  lemma ListedKey<T>(xs: seq<T>, keyOf: T -> string, k: string)
    requires k in Keys(xs, keyOf)
    ensures exists x :: x in xs && keyOf(x) == k
  {
    var i :| 0 <= i < |xs| && Keys(xs, keyOf)[i] == k;
    assert xs[i] in xs;
  }

  lemma {:induction false} RemovalKeys<T>(before: seq<T>, after: seq<T>, keyOf: T -> string)
    requires Distinct(Keys(before, keyOf))
    ensures Keys(Removals(before, after, keyOf), ItemKey) == Without(Keys(before, keyOf), Keys(after, keyOf))
  {
    if before == [] {
    } else {
      var init, k := before[..|before| - 1], keyOf(before[|before| - 1]);
      KeysInit(before, keyOf);
      DistinctInit(Keys(before, keyOf));
      RemovalKeys(init, after, keyOf);
      WithoutAppend(Keys(init, keyOf), k, Keys(after, keyOf));
      hide Without, Distinct;
    }
  }

  lemma {:induction false} ArrivalKeys<T>(before: seq<T>, after: seq<T>, keyOf: T -> string, deep: bool)
    requires Distinct(Keys(after, keyOf))
    ensures var ks := Keys(Arrivals(before, after, keyOf, deep), ItemKey);
            Distinct(ks) && forall k | k in ks :: k in Keys(after, keyOf)
  {
    if after == [] {
    } else {
      var init, x := after[..|after| - 1], after[|after| - 1];
      KeysInit(after, keyOf);
      DistinctInit(Keys(after, keyOf));
      ArrivalKeys(before, init, keyOf, deep);
      var rest, more := Arrivals(before, init, keyOf, deep), Arrivals(before, after, keyOf, deep);
      if more != rest {
        assert Keys(more, ItemKey) == Keys(rest, ItemKey) + [keyOf(x)];
        DistinctConcat(Keys(rest, ItemKey), [keyOf(x)]);
      }
    }
  }

  lemma KeysConcat<T>(xs: seq<Item<T>>, ys: seq<Item<T>>)
    ensures Keys(xs + ys, ItemKey) == Keys(xs, ItemKey) + Keys(ys, ItemKey)
  {
  }

  /** Each key is the key of one difference at most. */
  lemma DifferenceKeys<T(!new)>(before: seq<T>, after: seq<T>, kind: Kind<T>)
    ensures Distinct(Keys(Differences(before, after, kind), ItemKey))
  {
    var b, a := FromList(before, kind.keyOf), FromList(after, kind.keyOf);
    var gone, come := Removals(b, a, kind.keyOf), Arrivals(b, a, kind.keyOf, kind.deep);
    FromListDistinct(before, kind.keyOf);
    FromListDistinct(after, kind.keyOf);
    RemovalKeys(b, a, kind.keyOf);
    ArrivalKeys(b, a, kind.keyOf, kind.deep);
    DistinctWithout(Keys(b, kind.keyOf), Keys(a, kind.keyOf));
    hide Removals, Arrivals, Merge, Distinct, Without, Keys;
    KeysConcat(gone, come);
    DistinctConcat(Keys(gone, ItemKey), Keys(come, ItemKey));
  }

  /** Where equal ids mean equal keys, distinct keys mean distinct ids. */
  lemma DistinctIds<T>(items: seq<Item<T>>, idOf: Item<T> -> string)
    requires Distinct(Keys(items, ItemKey))
    requires forall i, j | 0 <= i < j < |items| && idOf(items[i]) == idOf(items[j]) :: items[i].key == items[j].key
    ensures Distinct(Map(idOf, items))
  {
  }

  // ----- the ids of each kind

  lemma ModuleIds(items: seq<Item<Module>>)
    requires Distinct(Keys(items, ItemKey))
    ensures Distinct(Map(IdOfModule, items))
  {
    forall i, j | 0 <= i < j < |items| && IdOfModule(items[i]) == IdOfModule(items[j])
      ensures items[i].key == items[j].key
    {
      OpAndRest("module:", items[i].op, items[i].key, items[j].op, items[j].key);
    }
    DistinctIds(items, IdOfModule);
  }

  lemma WorkflowIds(items: seq<Item<Workflow>>)
    requires Distinct(Keys(items, ItemKey))
    ensures Distinct(Map(IdOfWorkflow, items))
  {
    forall i, j | 0 <= i < j < |items| && IdOfWorkflow(items[i]) == IdOfWorkflow(items[j])
      ensures items[i].key == items[j].key
    {
      OpAndRest("workflow:", items[i].op, items[i].key, items[j].op, items[j].key);
    }
    DistinctIds(items, IdOfWorkflow);
  }

  lemma PolicyIds(items: seq<Item<Policy>>)
    requires Distinct(Keys(items, ItemKey))
    ensures Distinct(Map(IdOfPolicy, items))
  {
    forall i, j | 0 <= i < j < |items| && IdOfPolicy(items[i]) == IdOfPolicy(items[j])
      ensures items[i].key == items[j].key
    {
      OpAndRest("permission:", items[i].op, items[i].key, items[j].op, items[j].key);
    }
    DistinctIds(items, IdOfPolicy);
  }

  lemma MapConcat<A>(f: A -> string, xs: seq<A>, ys: seq<A>)
    ensures Map(f, xs + ys) == Map(f, xs) + Map(f, ys)
  {
  }

  /** Two lists of distinct ids, no item of the one sharing its id with an item of the other. */
  lemma DistinctMaps<A>(f: A -> string, xs: seq<A>, ys: seq<A>)
    requires Distinct(Map(f, xs)) && Distinct(Map(f, ys))
    requires forall x, y | x in xs && y in ys :: f(x) != f(y)
    ensures Distinct(Map(f, xs + ys))
  {
    MapConcat(f, xs, ys);
    DistinctConcat(Map(f, xs), Map(f, ys));
  }

  lemma NotUnderItself(k: string)
    ensures !Under(k, k)
  {
  }

  lemma IdsInModule(m: string, items: seq<Item<Entity>>)
    requires Distinct(Keys(items, ItemKey))
    ensures Distinct(Map(IdOfEntity, InModule(m, items)))
  {
    var ids := Map(IdOfEntity, InModule(m, items));
    NotUnderItself(m);
    forall i, j | 0 <= i < j < |ids|
      ensures ids[i] != ids[j]
    {
      if ids[i] == ids[j] {
        EntityIdNames(items[i].op, m, items[i].key, items[j].op, m, items[j].key);
      }
    }
  }

  lemma AllInModule(m: string, items: seq<Item<Entity>>)
    ensures forall it | it in InModule(m, items) :: it.moduleKey == m
  {
  }

  lemma ModulesApart(x: EntityItem, y: EntityItem)
    requires !Under(x.moduleKey, y.moduleKey) && !Under(y.moduleKey, x.moduleKey) && x.moduleKey != y.moduleKey
    ensures IdOfEntity(x) != IdOfEntity(y)
  {
    if IdOfEntity(x) == IdOfEntity(y) {
      EntityIdNames(x.item.op, x.moduleKey, x.item.key, y.item.op, y.moduleKey, y.item.key);
    }
  }

  // ----- when no key and no path is under another

  /** No module key is another followed by a colon and more. */
  ghost predicate ModuleKeysApart(ms: seq<Module>) {
    forall k, l | k in Keys(ms, ModuleKey) && l in Keys(ms, ModuleKey) :: !Under(k, l)
  }

  predicate HasPath(ms: seq<Module>, m: string, e: string) {
    var found := Get(ms, ModuleKey, m);
    found.Some? && e in Keys(found.value.entities, EntityKey)
  }

  /** No joined path of module and entity is another followed by a colon and more. */
  ghost predicate PathsApart(ms: seq<Module>) {
    forall m, e, m2, e2 | HasPath(ms, m, e) && HasPath(ms, m2, e2) :: !Under(Path(m, e), Path(m2, e2))
  }

  /** Both, for the modules as a Map holds them. */
  ghost predicate Apart(modules: seq<Module>) {
    ModuleKeysApart(FromList(modules, ModuleKey)) && PathsApart(FromList(modules, ModuleKey))
  }

  lemma HasPathInit(ms: seq<Module>, m: string, e: string)
    requires ms != [] && Distinct(Keys(ms, ModuleKey)) && HasPath(ms[..|ms| - 1], m, e)
    ensures HasPath(ms, m, e)
  {
    GetInit(ms, ModuleKey, m);
    DistinctInit(Keys(ms, ModuleKey));
    KeysInit(ms, ModuleKey);
  }

  lemma HasPathLast(ms: seq<Module>, e: string)
    requires ms != [] && Distinct(Keys(ms, ModuleKey)) && e in Keys(ms[|ms| - 1].entities, EntityKey)
    ensures HasPath(ms, ms[|ms| - 1].key, e)
  {
    GetInit(ms, ModuleKey, ms[|ms| - 1].key);
  }

  lemma ApartInit(ms: seq<Module>)
    requires ms != [] && Distinct(Keys(ms, ModuleKey))
    ensures ModuleKeysApart(ms) ==> ModuleKeysApart(ms[..|ms| - 1])
    ensures PathsApart(ms) ==> PathsApart(ms[..|ms| - 1])
  {
    KeysInit(ms, ModuleKey);
    if PathsApart(ms) {
      var init := ms[..|ms| - 1];
      forall m, e, m2, e2 | HasPath(init, m, e) && HasPath(init, m2, e2)
        ensures !Under(Path(m, e), Path(m2, e2))
      {
        HasPathInit(ms, m, e);
        HasPathInit(ms, m2, e2);
      }
    }
  }

  // ----- entities and fields

  lemma {:induction false} EntityIds(before: seq<Module>, after: seq<Module>)
    requires Distinct(Keys(after, ModuleKey)) && ModuleKeysApart(after)
    ensures Distinct(Map(IdOfEntity, EntityItems(before, after)))
    ensures forall it | it in EntityItems(before, after) :: it.moduleKey in Keys(after, ModuleKey)
  {
    if after == [] {
    } else {
      var init, m := after[..|after| - 1], after[|after| - 1];
      var items := EntityDifferences(before, m);
      KeysInit(after, ModuleKey);
      DistinctInit(Keys(after, ModuleKey));
      ApartInit(after);
      EntityIds(before, init);
      DifferenceKeys(EntitiesOf(Get(before, ModuleKey, m.key)), m.entities, ENTITY_KIND);
      IdsInModule(m.key, items);
      AllInModule(m.key, items);
      hide EntityDifferences, InModule, Keys, Distinct, IdOfEntity, Under;
      forall x, y | x in EntityItems(before, init) && y in InModule(m.key, items)
        ensures IdOfEntity(x) != IdOfEntity(y)
      {
        ModulesApart(x, y);
      }
      DistinctMaps(IdOfEntity, EntityItems(before, init), InModule(m.key, items));
    }
  }

  lemma IdsInEntity(m: string, e: string, items: seq<Item<Field>>)
    requires Distinct(Keys(items, ItemKey))
    ensures Distinct(Map(IdOfField, InEntity(m, e, items)))
  {
    var ids := Map(IdOfField, InEntity(m, e, items));
    NotUnderItself(m);
    NotUnderItself(Path(m, e));
    forall i, j | 0 <= i < j < |ids|
      ensures ids[i] != ids[j]
    {
      if ids[i] == ids[j] {
        FieldIdNames(items[i].op, m, e, items[i].key, items[j].op, m, e, items[j].key);
      }
    }
  }

  lemma AllInEntity(m: string, e: string, items: seq<Item<Field>>)
    ensures forall it | it in InEntity(m, e, items) :: it.moduleKey == m && it.entityKey == e
  {
  }

  lemma FieldsApart(x: FieldItem, y: FieldItem)
    requires !Under(x.moduleKey, y.moduleKey) && !Under(y.moduleKey, x.moduleKey)
    requires !Under(Path(x.moduleKey, x.entityKey), Path(y.moduleKey, y.entityKey))
    requires !Under(Path(y.moduleKey, y.entityKey), Path(x.moduleKey, x.entityKey))
    requires x.moduleKey != y.moduleKey || x.entityKey != y.entityKey
    ensures IdOfField(x) != IdOfField(y)
  {
    if IdOfField(x) == IdOfField(y) {
      FieldIdNames(x.item.op, x.moduleKey, x.entityKey, x.item.key, y.item.op, y.moduleKey, y.entityKey, y.item.key);
    }
  }

  lemma {:induction false} FieldIdsIn(m: string, before: seq<Entity>, after: seq<Entity>)
    requires Distinct(Keys(after, EntityKey))
    requires forall k, l | k in Keys(after, EntityKey) && l in Keys(after, EntityKey) :: !Under(Path(m, k), Path(m, l))
    ensures Distinct(Map(IdOfField, FieldItemsIn(m, before, after)))
    ensures forall it | it in FieldItemsIn(m, before, after) ::
              it.moduleKey == m && it.entityKey in Keys(after, EntityKey)
  {
    if after == [] {
    } else {
      var init, e := after[..|after| - 1], after[|after| - 1];
      var items := FieldDifferences(before, e);
      KeysInit(after, EntityKey);
      DistinctInit(Keys(after, EntityKey));
      FieldIdsIn(m, before, init);
      DifferenceKeys(FieldsOf(Get(before, EntityKey, e.key)), e.fields, FIELD_KIND);
      IdsInEntity(m, e.key, items);
      AllInEntity(m, e.key, items);
      NotUnderItself(m);
      hide FieldDifferences, InEntity, Keys, Distinct, IdOfField, Under, Path;
      forall x, y | x in FieldItemsIn(m, before, init) && y in InEntity(m, e.key, items)
        ensures IdOfField(x) != IdOfField(y)
      {
        FieldsApart(x, y);
      }
      DistinctMaps(IdOfField, FieldItemsIn(m, before, init), InEntity(m, e.key, items));
    }
  }

  /** The field ids of the last module are distinct, and lie under paths the modules have. */
  lemma FieldIdsOfLast(before: seq<Module>, after: seq<Module>)
    requires after != [] && Distinct(Keys(after, ModuleKey)) && PathsApart(after)
    ensures var m := after[|after| - 1];
            var b := FromList(EntitiesOf(Get(before, ModuleKey, m.key)), EntityKey);
            var items := FieldItemsIn(m.key, b, FromList(m.entities, EntityKey));
            Distinct(Map(IdOfField, items)) &&
            forall it | it in items :: it.moduleKey == m.key && HasPath(after, it.moduleKey, it.entityKey)
  {
    hide Merge, Distinct, HasPath;
    var m := after[|after| - 1];
    var a := FromList(m.entities, EntityKey);
    FromListDistinct(m.entities, EntityKey);
    FromListKeys(m.entities, EntityKey);
    forall k | k in Keys(a, EntityKey)
      ensures HasPath(after, m.key, k)
    {
      HasPathLast(after, k);
    }
    FieldIdsIn(m.key, FromList(EntitiesOf(Get(before, ModuleKey, m.key)), EntityKey), a);
  }

  lemma {:induction false} FieldIds(before: seq<Module>, after: seq<Module>)
    requires Distinct(Keys(after, ModuleKey)) && ModuleKeysApart(after) && PathsApart(after)
    ensures Distinct(Map(IdOfField, FieldItems(before, after)))
    ensures forall it | it in FieldItems(before, after) :: HasPath(after, it.moduleKey, it.entityKey)
  {
    if after == [] {
    } else {
      var init, m := after[..|after| - 1], after[|after| - 1];
      var items := FieldItemsIn(m.key, FromList(EntitiesOf(Get(before, ModuleKey, m.key)), EntityKey),
                                FromList(m.entities, EntityKey));
      KeysInit(after, ModuleKey);
      DistinctInit(Keys(after, ModuleKey));
      ApartInit(after);
      FieldIds(before, init);
      FieldIdsOfLast(before, after);
      hide FieldItemsIn, Distinct, Merge, IdOfField, Under, Path;
      forall x, y | x in FieldItems(before, init) && y in items
        ensures IdOfField(x) != IdOfField(y)
      {
        HasPathInit(after, x.moduleKey, x.entityKey);
        FieldsApart(x, y);
      }
      forall x | x in FieldItems(before, init)
        ensures HasPath(after, x.moduleKey, x.entityKey)
      {
        HasPathInit(after, x.moduleKey, x.entityKey);
      }
      DistinctMaps(IdOfField, FieldItems(before, init), items);
    }
  }

  // ----- the ids of a whole diff

  /** Every id begins with this letter. */
  predicate Begin(ids: seq<string>, c: char) {
    forall i | 0 <= i < |ids| :: ids[i] != "" && ids[i][0] == c
  }

  lemma DistinctKinds(a: seq<string>, b: seq<string>, cs: set<char>, d: char)
    requires Distinct(a) && Distinct(b) && (forall k | k in a :: k != "" && k[0] in cs) && Begin(b, d) && d !in cs
    ensures Distinct(a + b) && forall k | k in a + b :: k != "" && k[0] in cs + {d}
  {
    DistinctConcat(a, b);
  }

  lemma FiveKinds(a: seq<string>, b: seq<string>, c: seq<string>, d: seq<string>, e: seq<string>)
    requires Distinct(a) && Distinct(b) && Distinct(c) && Distinct(d) && Distinct(e)
    requires Begin(a, 'm') && Begin(b, 'e') && Begin(c, 'f') && Begin(d, 'w') && Begin(e, 'p')
    ensures Distinct(a + b + c + d + e)
  {
    assert forall k | k in a :: k != "" && k[0] in {'m'};
    hide Distinct, Begin;
    DistinctKinds(a, b, {'m'}, 'e');
    DistinctKinds(a + b, c, {'m', 'e'}, 'f');
    DistinctKinds(a + b + c, d, {'m', 'e', 'f'}, 'w');
    DistinctKinds(a + b + c + d, e, {'m', 'e', 'f', 'w'}, 'p');
  }

  lemma NestedIds(before: seq<Module>, after: seq<Module>)
    requires Apart(after)
    ensures var b, a := FromList(before, ModuleKey), FromList(after, ModuleKey);
            Distinct(Map(IdOfEntity, EntityItems(b, a))) && Distinct(Map(IdOfField, FieldItems(b, a)))
  {
    hide Merge, Distinct, ModuleKeysApart, PathsApart;
    FromListDistinct(after, ModuleKey);
    EntityIds(FromList(before, ModuleKey), FromList(after, ModuleKey));
    FieldIds(FromList(before, ModuleKey), FromList(after, ModuleKey));
  }

  /** All differences between any definition and the plan's have different ids, when the plan's
      module keys and paths are apart. */
  lemma IdsAreDistinct(before: Definition, after: Definition)
    requires Apart(after.modules)
    ensures Distinct(AllIds(DiffOf(before, after)))
  {
    hide Differences, Distinct, Apart, Merge, EntityItems, FieldItems, Begin;
    var diff := DiffOf(before, after);
    DifferenceKeys(before.modules, after.modules, MODULE_KIND);
    DifferenceKeys(before.workflows, after.workflows, WORKFLOW_KIND);
    DifferenceKeys(before.policies, after.policies, POLICY_KIND);
    ModuleIds(diff.modules);
    WorkflowIds(diff.workflows);
    PolicyIds(diff.policies);
    NestedIds(before.modules, after.modules);
    KindsBegin(diff);
    FiveKinds(Map(IdOfModule, diff.modules), Map(IdOfEntity, diff.entities), Map(IdOfField, diff.fields),
              Map(IdOfWorkflow, diff.workflows), Map(IdOfPolicy, diff.policies));
  }

  lemma KindsBegin(diff: Diff)
    ensures Begin(Map(IdOfModule, diff.modules), 'm') && Begin(Map(IdOfEntity, diff.entities), 'e')
    ensures Begin(Map(IdOfField, diff.fields), 'f') && Begin(Map(IdOfWorkflow, diff.workflows), 'w')
    ensures Begin(Map(IdOfPolicy, diff.policies), 'p')
  {
  }

  // ----- and when one key or path is under another

  lemma SharedId<A>(f: A -> string, xs: seq<A>, x: A, y: A)
    requires x in xs && y in xs && x != y && f(x) == f(y)
    ensures !Distinct(Map(f, xs))
  {
    var i :| 0 <= i < |xs| && xs[i] == x;
    var j :| 0 <= j < |xs| && xs[j] == y;
    assert Map(f, xs)[i] == Map(f, xs)[j];
  }

  /** The ids of entities and of fields are among all ids. */
  lemma DistinctKindsOf(diff: Diff)
    requires Distinct(AllIds(diff))
    ensures Distinct(Map(IdOfEntity, diff.entities)) && Distinct(Map(IdOfField, diff.fields))
  {
    hide Distinct, IdOfModule, IdOfEntity, IdOfField, IdOfWorkflow, IdOfPolicy;
    var a, b, c := Map(IdOfModule, diff.modules), Map(IdOfEntity, diff.entities), Map(IdOfField, diff.fields);
    var d, e := Map(IdOfWorkflow, diff.workflows), Map(IdOfPolicy, diff.policies);
    DistinctParts(a + b + c + d, e);
    DistinctParts(a + b + c, d);
    DistinctParts(a + b, c);
    DistinctParts(a, b);
  }

  /** A text longer than all of these. */
  function Longer(ks: seq<string>): (r: string)
    ensures forall k | k in ks :: |k| < |r|
  {
    if ks == [] then "x"
    else
      var rest := Longer(ks[..|ks| - 1]);
      assert forall k | k in ks :: k in ks[..|ks| - 1] || k == ks[|ks| - 1];
      rest + ks[|ks| - 1] + "x"
  }

  function PlainField(key: string): Field { Field(key, key, "text", false, None) }

  function PlainEntity(key: string, fields: seq<Field>): Entity { Entity(key, key, None, None, fields) }

  function PlainModule(key: string, entities: seq<Entity>): Module { Module(key, key, "custom", None, None, entities) }

  function WithModules(modules: seq<Module>): Definition { NOTHING.(modules := modules) }

  lemma RemovedEntity(before: seq<Module>, after: seq<Module>, m: string, e: string)
    requires Distinct(Keys(after, ModuleKey)) && Get(after, ModuleKey, m).Some?
    requires e !in Keys(Get(after, ModuleKey, m).value.entities, EntityKey)
    requires e in Keys(EntitiesOf(Get(before, ModuleKey, m)), EntityKey)
    ensures var known := FromList(EntitiesOf(Get(before, ModuleKey, m)), EntityKey);
            EntityItem(m, Item(Remove, e, Get(known, EntityKey, e), None)) in EntityItems(before, after)
  {
    hide Merge, Distinct, Differences, EntityItems;
    var known, plan := EntitiesOf(Get(before, ModuleKey, m)), Get(after, ModuleKey, m).value.entities;
    FromListKeys(known, EntityKey);
    FromListKeys(plan, EntityKey);
    var it := Item(Remove, e, Get(FromList(known, EntityKey), EntityKey, e), None);
    DifferencesListed(known, plan, ENTITY_KIND, it);
    EntityItemsAre(before, after, EntityItem(m, it));
  }

  lemma RemovedField(before: seq<Module>, after: seq<Module>, m: string, e: string, f: string)
    requires Distinct(Keys(after, ModuleKey)) && HasPath(after, m, e)
    requires f !in Keys(FieldsOf(Get(FromList(Get(after, ModuleKey, m).value.entities, EntityKey), EntityKey, e)),
             FieldKey)
    requires f in Keys(FieldsOf(Get(FromList(EntitiesOf(Get(before, ModuleKey, m)), EntityKey), EntityKey, e)),
             FieldKey)
    ensures var known := FieldsOf(Get(FromList(EntitiesOf(Get(before, ModuleKey, m)), EntityKey), EntityKey, e));
            FieldItem(m, e, Item(Remove, f, Get(FromList(known, FieldKey), FieldKey, f), None))
            in FieldItems(before, after)
  {
    hide Merge, Distinct, Differences, FieldItems, FieldItemsIn;
    var b := FromList(EntitiesOf(Get(before, ModuleKey, m)), EntityKey);
    var a := FromList(Get(after, ModuleKey, m).value.entities, EntityKey);
    FromListKeys(Get(after, ModuleKey, m).value.entities, EntityKey);
    FromListDistinct(Get(after, ModuleKey, m).value.entities, EntityKey);
    var known, plan := FieldsOf(Get(b, EntityKey, e)), FieldsOf(Get(a, EntityKey, e));
    FromListKeys(known, FieldKey);
    FromListKeys(plan, FieldKey);
    var it := Item(Remove, f, Get(FromList(known, FieldKey), FieldKey, f), None);
    DifferencesListed(known, plan, FIELD_KIND, it);
    FieldItemsInAre(m, b, a, FieldItem(m, e, it));
    FieldItemsListed(before, after, FieldItem(m, e, it));
  }

  lemma GetOne<T>(x: T, keyOf: T -> string)
    ensures Distinct(Keys([x], keyOf)) && Keys([x], keyOf) == [keyOf(x)] && Get([x], keyOf, keyOf(x)) == Some(x)
  {
  }

  lemma GetTwo<T>(x: T, y: T, keyOf: T -> string)
    requires keyOf(x) != keyOf(y)
    ensures Distinct(Keys([x, y], keyOf))
    ensures Get([x, y], keyOf, keyOf(x)) == Some(x) && Get([x, y], keyOf, keyOf(y)) == Some(y)
  {
    var ks := Keys([x, y], keyOf);
    assert ks == [keyOf(x), keyOf(y)];
    IndexOfIsFirst(ks, keyOf(x), 0);
    IndexOfIsFirst(ks, keyOf(y), 1);
  }

  lemma UnderSplits(k: string, l: string) returns (r: string)
    requires Under(k, l)
    ensures l == k + ":" + r && k != l
  {
    r := l[|k| + 1..];
  }

  /** With one module key under another, removing an entity from each can give the two removals
      one id. */
  lemma ModuleKeyClash(after: Definition, k: string, l: string) returns (before: Definition)
    requires k in Keys(FromList(after.modules, ModuleKey), ModuleKey)
    requires l in Keys(FromList(after.modules, ModuleKey), ModuleKey) && Under(k, l)
    ensures !Distinct(AllIds(DiffOf(before, after)))
  {
    hide Merge, Distinct, EntityItems, FieldItems, Differences, Keys, Get, Under, AllIds, Longer;
    var a := FromList(after.modules, ModuleKey);
    FromListDistinct(after.modules, ModuleKey);
    var first, second := Get(a, ModuleKey, k).value.entities, Get(a, ModuleKey, l).value.entities;
    var r := UnderSplits(k, l);
    var x := Longer(Keys(first, EntityKey) + Keys(second, EntityKey));
    var e := r + ":" + x;
    var left, right := PlainModule(k, [PlainEntity(e, [])]), PlainModule(l, [PlainEntity(x, [])]);
    before := WithModules([left, right]);
    GetTwo(left, right, ModuleKey);
    FromListIsIdentity([left, right], ModuleKey);
    GetOne(PlainEntity(e, []), EntityKey);
    GetOne(PlainEntity(x, []), EntityKey);
    assert x !in Keys(second, EntityKey);
    assert e !in Keys(first, EntityKey);
    RemovedEntity([left, right], a, k, e);
    RemovedEntity([left, right], a, l, x);
    ColonsConfuse(Remove, k, r, x);
    var i1 :| i1 in EntityItems([left, right], a) && i1.moduleKey == k && i1.item.op == Remove && i1.item.key == e;
    var i2 :| i2 in EntityItems([left, right], a) && i2.moduleKey == l && i2.item.op == Remove && i2.item.key == x;
    SharedId(IdOfEntity, DiffOf(before, after).entities, i1, i2);
    if Distinct(AllIds(DiffOf(before, after))) {
      DistinctKindsOf(DiffOf(before, after));
    }
  }

  /** The fields a definition has under a path, read through Maps. */
  function FieldsUnder(ms: seq<Module>, m: string, e: string): seq<Field> {
    FieldsOf(Get(FromList(EntitiesOf(Get(ms, ModuleKey, m)), EntityKey), EntityKey, e))
  }

  /** A definition with one field under each of two paths. */
  function TwoFields(m: string, e: string, f: string, m2: string, e2: string, f2: string): seq<Module> {
    var x, y := PlainEntity(e, [PlainField(f)]), PlainEntity(e2, [PlainField(f2)]);
    if m == m2 then [PlainModule(m, [x, y])] else [PlainModule(m, [x]), PlainModule(m2, [y])]
  }

  lemma TwoFieldsFound(m: string, e: string, f: string, m2: string, e2: string, f2: string)
    requires m != m2 || e != e2
    ensures var ms := TwoFields(m, e, f, m2, e2, f2);
            Distinct(Keys(ms, ModuleKey)) &&
            FieldsUnder(ms, m, e) == [PlainField(f)] && FieldsUnder(ms, m2, e2) == [PlainField(f2)]
  {
    hide Merge, Distinct, Keys, Get;
    var x, y := PlainEntity(e, [PlainField(f)]), PlainEntity(e2, [PlainField(f2)]);
    if m == m2 {
      GetOne(PlainModule(m, [x, y]), ModuleKey);
      GetTwo(x, y, EntityKey);
      FromListIsIdentity([x, y], EntityKey);
    } else {
      GetTwo(PlainModule(m, [x]), PlainModule(m2, [y]), ModuleKey);
      GetOne(x, EntityKey);
      GetOne(y, EntityKey);
      FromListIsIdentity([x], EntityKey);
      FromListIsIdentity([y], EntityKey);
    }
  }

  lemma FieldIdsClash(m: string, e: string, m2: string, e2: string, r: string, x: string)
    requires Path(m2, e2) == Path(m, e) + ":" + r
    ensures FieldId(Remove, m, e, r + ":" + x) == FieldId(Remove, m2, e2, x)
  {
    FieldIdIsPath(Remove, m, e, r + ":" + x);
    FieldIdIsPath(Remove, m2, e2, x);
    hide FieldId, Path, OpName;
    Regrouped(Path(m, e) + ":", r, x);
  }

  /** Removing a field from each of two paths, one under the other, where neither has its field in the plan. */
  lemma ClashingFields(after: Definition, m: string, e: string, m2: string, e2: string, r: string, x: string)
    requires HasPath(FromList(after.modules, ModuleKey), m, e) && HasPath(FromList(after.modules, ModuleKey), m2, e2)
    requires Path(m2, e2) == Path(m, e) + ":" + r
    ensures r + ":" + x in Keys(FieldsUnder(FromList(after.modules, ModuleKey), m, e), FieldKey) ||
            x in Keys(FieldsUnder(FromList(after.modules, ModuleKey), m2, e2), FieldKey) ||
            !Distinct(AllIds(DiffOf(WithModules(TwoFields(m, e, r + ":" + x, m2, e2, x)), after)))
  {
    hide Merge, Distinct, EntityItems, FieldItems, Differences, Keys, Get, AllIds, FieldId, TwoFields;
    var a, f := FromList(after.modules, ModuleKey), r + ":" + x;
    if f in Keys(FieldsUnder(a, m, e), FieldKey) || x in Keys(FieldsUnder(a, m2, e2), FieldKey) {
      return;
    }
    var before := WithModules(TwoFields(m, e, f, m2, e2, x));
    FromListDistinct(after.modules, ModuleKey);
    TwoFieldsFound(m, e, f, m2, e2, x);
    FieldIdsClash(m, e, m2, e2, r, x);
    FromListIsIdentity(before.modules, ModuleKey);
    GetOne(PlainField(f), FieldKey);
    GetOne(PlainField(x), FieldKey);
    RemovedField(before.modules, a, m, e, f);
    RemovedField(before.modules, a, m2, e2, x);
    var i1 :| i1 in FieldItems(before.modules, a) && i1.moduleKey == m && i1.entityKey == e &&
              i1.item.op == Remove && i1.item.key == f;
    var i2 :| i2 in FieldItems(before.modules, a) && i2.moduleKey == m2 && i2.entityKey == e2 &&
              i2.item.op == Remove && i2.item.key == x;
    SharedId(IdOfField, DiffOf(before, after).fields, i1, i2);
    if Distinct(AllIds(DiffOf(before, after))) {
      DistinctKindsOf(DiffOf(before, after));
    }
  }

  /** With one path under another, removing a field from each can give the two removals one id. */
  lemma PathClash(after: Definition, m: string, e: string, m2: string, e2: string) returns (before: Definition)
    requires HasPath(FromList(after.modules, ModuleKey), m, e) && HasPath(FromList(after.modules, ModuleKey), m2, e2)
    requires Under(Path(m, e), Path(m2, e2))
    ensures !Distinct(AllIds(DiffOf(before, after)))
  {
    hide Merge, Distinct, HasPath, FieldsUnder, DiffOf, Keys, Get, Under, AllIds, Longer;
    var a := FromList(after.modules, ModuleKey);
    var r := UnderSplits(Path(m, e), Path(m2, e2));
    var first, second := Keys(FieldsUnder(a, m, e), FieldKey), Keys(FieldsUnder(a, m2, e2), FieldKey);
    var x := Longer(first + second);
    var f := r + ":" + x;
    before := WithModules(TwoFields(m, e, f, m2, e2, x));
    assert x !in second;
    assert f !in first;
    ClashingFields(after, m, e, m2, e2, r, x);
  }

  /** Whatever the definition a plan's is compared with, no two differences share an id: exactly
      when the plan's module keys and paths are apart. */
  lemma IdsDistinctIffApart(after: Definition)
    ensures (forall before :: Distinct(AllIds(DiffOf(before, after)))) <==> Apart(after.modules)
  {
    hide Merge, Distinct, HasPath, DiffOf, Keys, Under, Path, AllIds;
    if Apart(after.modules) {
      forall before
        ensures Distinct(AllIds(DiffOf(before, after)))
      {
        IdsAreDistinct(before, after);
      }
    } else if !ModuleKeysApart(FromList(after.modules, ModuleKey)) {
      var a := FromList(after.modules, ModuleKey);
      var k, l :| k in Keys(a, ModuleKey) && l in Keys(a, ModuleKey) && Under(k, l);
      var before := ModuleKeyClash(after, k, l);
    } else {
      var a := FromList(after.modules, ModuleKey);
      var m, e, m2, e2 :| HasPath(a, m, e) && HasPath(a, m2, e2) && Under(Path(m, e), Path(m2, e2));
      var before := PathClash(after, m, e, m2, e2);
    }
  }

  /** No module key and no entity key contains a colon. */
  predicate ColonFree(ms: seq<Module>) {
    forall m | m in ms :: ':' !in m.key && forall e | e in m.entities :: ':' !in e.key
  }

  /** Keys without colons are apart, as definitions that pass the schema have them. */
  lemma ColonFreeIsApart(ms: seq<Module>)
    requires ColonFree(ms)
    ensures Apart(ms)
  {
    var a := FromList(ms, ModuleKey);
    FromListMembers(ms, ModuleKey);
    forall k, l | k in Keys(a, ModuleKey) && l in Keys(a, ModuleKey)
      ensures !Under(k, l)
    {
      ListedKey(a, ModuleKey, l);
      if Under(k, l) {
        UnderHasColon(k, l);
      }
    }
    forall m, e, m2, e2 | HasPath(a, m, e) && HasPath(a, m2, e2)
      ensures !Under(Path(m, e), Path(m2, e2))
    {
      BarePath(a, m, e);
      BarePath(a, m2, e2);
      BarePathsApart(m, e, m2, e2);
    }
  }

  lemma FromListMembers<T(!new)>(xs: seq<T>, keyOf: T -> string)
    ensures forall x | x in FromList(xs, keyOf) :: x in xs
  {
    MergeKeepsAll([], xs, keyOf, TakeNew, x => x in xs);
  }

  lemma UnderHasColon(k: string, l: string)
    requires Under(k, l)
    ensures ':' in l
  {
    assert (k + ":")[|k|] == l[|k|];
  }

  lemma BarePath(ms: seq<Module>, m: string, e: string)
    requires ColonFree(ms) && HasPath(ms, m, e)
    ensures ':' !in m && ':' !in e
  {
    var found := Get(ms, ModuleKey, m).value;
    ListedKey(found.entities, EntityKey, e);
  }

  lemma BarePathsApart(m: string, e: string, m2: string, e2: string)
    requires ':' !in m && ':' !in m2 && ':' !in e && ':' !in e2
    ensures !Under(Path(m, e), Path(m2, e2))
  {
    if Under(Path(m, e), Path(m2, e2)) {
      var r := UnderSplits(Path(m, e), Path(m2, e2));
      Regrouped(m + ":", e, r);
      Regrouped(m, e, r);
      assert m + ":" + (e + ":" + r) == m2 + ":" + e2;
      FirstPart(m, e + ":" + r, m2, e2);
      UnderHasColon(e, e + ":" + r);
    }
  }
}
