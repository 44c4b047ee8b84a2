/** What differs between two lists of keyed items, and what a list holds once a selection of the
    differences has been applied to it. */
module KeyedDiff {
  import opened OrderedMerge

  datatype Op = Add | Remove | Modify

  /** One difference between two lists of keyed items; `after` is what is added or changed to. */
  datatype Item<T> = Item(op: Op, key: string, before: Option<T>, after: Option<T>)

  /** How lists of one kind are compared and patched: whether a changed value is a difference,
      what stands for an added item before its children are looked at, and whether adding first
      looks for an item with that key. */
  datatype Kind<!T> = Kind(keyOf: T -> string, deep: bool, shell: T -> T, checked: bool)

  /** Whether the difference with this operation and key was selected. */
  type Choice = (Op, string) -> bool

  // ----- comparing two lists

  function Removals<T>(before: seq<T>, after: seq<T>, keyOf: T -> string): seq<Item<T>> {
    if before == [] then []
    else
      var rest := Removals(before[..|before| - 1], after, keyOf);
      var x := before[|before| - 1];
      if keyOf(x) in Keys(after, keyOf) then rest else rest + [Item(Remove, keyOf(x), Some(x), None)]
  }

  /** The difference an item of the second list makes, if any. */
  function Arrival<T(==)>(known: Option<T>, x: T, keyOf: T -> string, deep: bool): seq<Item<T>> {
    if known.None? then [Item(Add, keyOf(x), None, Some(x))]
    else if deep && known.value != x then [Item(Modify, keyOf(x), known, Some(x))]
    else []
  }

  function Arrivals<T(==)>(before: seq<T>, after: seq<T>, keyOf: T -> string, deep: bool): seq<Item<T>> {
    if after == [] then []
    else
      var x := after[|after| - 1];
      Arrivals(before, after[..|after| - 1], keyOf, deep) + Arrival(Get(before, keyOf, keyOf(x)), x, keyOf, deep)
  }

  function Differences<T(==)>(before: seq<T>, after: seq<T>, kind: Kind<T>): seq<Item<T>> {
    var b, a := FromList(before, kind.keyOf), FromList(after, kind.keyOf);
    Removals(b, a, kind.keyOf) + Arrivals(b, a, kind.keyOf, kind.deep)
  }

  method Compare<T(==)>(before: seq<T>, after: seq<T>, kind: Kind<T>) returns (items: seq<Item<T>>)
    ensures items == Differences(before, after, kind)
  {
    hide FromList, Keys, Get, Removals, Arrivals;
    var b, a := FromList(before, kind.keyOf), FromList(after, kind.keyOf);
    NothingCompared(b, a, kind);
    items := [];
    for i := 0 to |b|
      invariant items == Removals(b[..i], a, kind.keyOf)
    {
      RemovalsUpTo(b, a, kind.keyOf, i);
      var k := kind.keyOf(b[i]);
      if k !in Keys(a, kind.keyOf) {
        items := items + [Item(Remove, k, Some(b[i]), None)];
      }
    }
    assert b[..|b|] == b;
    ghost var removals := items;
    for i := 0 to |a|
      invariant items == removals + Arrivals(b, a[..i], kind.keyOf, kind.deep)
    {
      var known := Get(b, kind.keyOf, kind.keyOf(a[i]));
      ArrivalsUpTo(removals, b, a, kind.keyOf, kind.deep, i);
      if known.None? {
        items := items + [Item(Add, kind.keyOf(a[i]), None, Some(a[i]))];
      } else if kind.deep && known.value != a[i] {
        items := items + [Item(Modify, kind.keyOf(a[i]), known, Some(a[i]))];
      }
    }
    assert a[..|a|] == a;
  }

  lemma NothingCompared<T>(b: seq<T>, a: seq<T>, kind: Kind<T>)
    ensures Removals(b[..0], a, kind.keyOf) == [] && Arrivals(b, a[..0], kind.keyOf, kind.deep) == []
  {
  }

  lemma RemovalsUpTo<T>(b: seq<T>, a: seq<T>, keyOf: T -> string, i: nat)
    requires i < |b|
    ensures var rest, k := Removals(b[..i], a, keyOf), keyOf(b[i]);
            Removals(b[..i + 1], a, keyOf) ==
            if k in Keys(a, keyOf) then rest else rest + [Item(Remove, k, Some(b[i]), None)]
  {
    hide Keys;
    assert b[..i + 1][..i] == b[..i];
  }

  lemma ArrivalsUpTo<T>(head: seq<Item<T>>, b: seq<T>, a: seq<T>, keyOf: T -> string, deep: bool, i: nat)
    requires i < |a|
    ensures var rest, known := head + Arrivals(b, a[..i], keyOf, deep), Get(b, keyOf, keyOf(a[i]));
            head + Arrivals(b, a[..i + 1], keyOf, deep) ==
            if known.None? then rest + [Item(Add, keyOf(a[i]), None, Some(a[i]))]
            else if deep && known.value != a[i] then rest + [Item(Modify, keyOf(a[i]), known, Some(a[i]))]
            else rest
  {
    assert a[..i + 1] == a[..i] + [a[i]];
    ArrivalsStep(b, a[..i], a[i], keyOf, deep);
    hide Arrivals, Get;
  }

  // ----- patching a list

  /** `filter`: the items whose key is not among the dropped ones. */
  function Drop<T>(xs: seq<T>, keyOf: T -> string, gone: seq<string>): seq<T> {
    if xs == [] then []
    else
      var rest := Drop(xs[..|xs| - 1], keyOf, gone);
      if keyOf(xs[|xs| - 1]) in gone then rest else rest + [xs[|xs| - 1]]
  }

  function Patch<T>(xs: seq<T>, item: Item<T>, kind: Kind<T>, chosen: Choice): seq<T> {
    var i := IndexOf(Keys(xs, kind.keyOf), item.key);
    if !chosen(item.op, item.key) then xs
    else if item.op == Remove then Drop(xs, kind.keyOf, [item.key])
    else if item.after.None? then xs
    else if item.op == Add then
      if kind.checked && i >= 0 then xs[i := kind.shell(item.after.value)] else xs + [kind.shell(item.after.value)]
    else if i >= 0 then xs[i := item.after.value]
    else xs
  }

  function PatchAll<T>(xs: seq<T>, items: seq<Item<T>>, kind: Kind<T>, chosen: Choice): seq<T> {
    if items == [] then xs
    else Patch(PatchAll(xs, items[..|items| - 1], kind, chosen), items[|items| - 1], kind, chosen)
  }

  method ApplyAll<T>(xs: seq<T>, items: seq<Item<T>>, kind: Kind<T>, chosen: Choice) returns (patched: seq<T>)
    ensures patched == PatchAll(xs, items, kind, chosen)
  {
    patched := xs;
    for i := 0 to |items|
      invariant patched == PatchAll(xs, items[..i], kind, chosen)
    {
      assert items[..i + 1][..i] == items[..i];
      patched := Patch(patched, items[i], kind, chosen);
    }
    assert items[..|items|] == items;
  }

  // ----- what a patched list holds

  /** The keys that a selected removal takes out. */
  function Gone(before: seq<string>, after: seq<string>, chosen: Choice): (r: seq<string>)
    ensures forall k :: k in r <==> k in before && k !in after && chosen(Remove, k)
  {
    if before == [] then []
    else
      var rest := Gone(before[..|before| - 1], after, chosen);
      var k := before[|before| - 1];
      if k !in after && chosen(Remove, k) then rest + [k] else rest
  }

  /** The keys that a selected addition brings in. */
  function Come(before: seq<string>, after: seq<string>, chosen: Choice): (r: seq<string>)
    ensures forall k :: k in r <==> k in after && k !in before && chosen(Add, k)
  {
    if after == [] then []
    else
      var rest := Come(before, after[..|after| - 1], chosen);
      var k := after[|after| - 1];
      if k !in before && chosen(Add, k) then rest + [k] else rest
  }

  /** What stands under a key in the end, from what stood there before and what the plan has. */
  function Chosen<T(==)>(before: Option<T>, after: Option<T>, k: string, kind: Kind<T>, chosen: Choice): Option<T> {
    match (before, after)
    case (None, None) => None
    case (Some(_), None) => if chosen(Remove, k) then None else before
    case (None, Some(a)) => if chosen(Add, k) then Some(kind.shell(a)) else None
    case (Some(_), Some(_)) => if kind.deep && chosen(Modify, k) then after else before
  }

  lemma GetAppend<T>(xs: seq<T>, x: T, keyOf: T -> string, k: string)
    ensures Keys(xs + [x], keyOf) == Keys(xs, keyOf) + [keyOf(x)]
    ensures Get(xs + [x], keyOf, k) ==
            if k in Keys(xs, keyOf) then Get(xs, keyOf, k) else if k == keyOf(x) then Some(x) else None
  {
    assert Keys(xs + [x], keyOf) == Keys(xs, keyOf) + [keyOf(x)];
    if k in Keys(xs, keyOf) {
      IndexOfPrefix(Keys(xs, keyOf), [keyOf(x)], k);
    } else if k == keyOf(x) {
      IndexOfIsFirst(Keys(xs + [x], keyOf), k, |xs|);
    }
  }

  lemma {:induction false} DropHolds<T>(xs: seq<T>, keyOf: T -> string, gone: seq<string>, k: string)
    ensures Keys(Drop(xs, keyOf, gone), keyOf) == Without(Keys(xs, keyOf), gone)
    ensures Get(Drop(xs, keyOf, gone), keyOf, k) == if k in gone then None else Get(xs, keyOf, k)
  {
    if xs == [] {
    } else {
      var init, x := xs[..|xs| - 1], xs[|xs| - 1];
      DropHolds(init, keyOf, gone, k);
      KeysInit(xs, keyOf);
      WithoutAppend(Keys(init, keyOf), keyOf(x), gone);
      assert xs == init + [x];
      GetAppend(init, x, keyOf, k);
      GetAppend(Drop(init, keyOf, gone), x, keyOf, k);
    }
  }

  lemma {:induction false} DropTwice<T>(xs: seq<T>, keyOf: T -> string, gone: seq<string>, more: seq<string>)
    ensures Drop(Drop(xs, keyOf, gone), keyOf, more) == Drop(xs, keyOf, gone + more)
  {
    if xs == [] {
    } else {
      var init, x := xs[..|xs| - 1], xs[|xs| - 1];
      DropTwice(init, keyOf, gone, more);
      if keyOf(x) !in gone {
        var kept := Drop(init, keyOf, gone);
        assert (kept + [x])[..|kept|] == kept;
      }
    }
  }

  lemma {:induction false} DropNothing<T>(xs: seq<T>, keyOf: T -> string)
    ensures Drop(xs, keyOf, []) == xs
  {
    if xs == [] {
    } else {
      DropNothing(xs[..|xs| - 1], keyOf);
    }
  }

  lemma {:induction false} PatchAllAppend<T>(xs: seq<T>, some: seq<Item<T>>, more: seq<Item<T>>, kind: Kind<T>,
      chosen: Choice)
    ensures PatchAll(xs, some + more, kind, chosen) == PatchAll(PatchAll(xs, some, kind, chosen), more, kind, chosen)
  {
    if more == [] {
      assert some + more == some;
    } else {
      PatchAllAppend(xs, some, more[..|more| - 1], kind, chosen);
      assert (some + more)[..|some + more| - 1] == some + more[..|more| - 1];
    }
  }

  /** The removals leave what is not selected for removal. */
  lemma {:induction false} PatchRemovals<T>(xs: seq<T>, before: seq<T>, after: seq<T>, kind: Kind<T>, chosen: Choice)
    ensures PatchAll(xs, Removals(before, after, kind.keyOf), kind, chosen) ==
            Drop(xs, kind.keyOf, Gone(Keys(before, kind.keyOf), Keys(after, kind.keyOf), chosen))
  {
    if before == [] {
      DropNothing(xs, kind.keyOf);
    } else {
      var init, k := before[..|before| - 1], kind.keyOf(before[|before| - 1]);
      var rest := Removals(init, after, kind.keyOf);
      PatchRemovals(xs, init, after, kind, chosen);
      KeysInit(before, kind.keyOf);
      assert Keys(before, kind.keyOf)[..|init|] == Keys(init, kind.keyOf);
      if k !in Keys(after, kind.keyOf) {
        assert (rest + [Item(Remove, k, Some(before[|before| - 1]), None)])[..|rest|] == rest;
        DropTwice(xs, kind.keyOf, Gone(Keys(init, kind.keyOf), Keys(after, kind.keyOf), chosen), [k]);
      }
    }
  }

  /** The shell of an item keeps its key. */
  ghost predicate Sensible<T(!new)>(kind: Kind<T>) {
    forall x :: kind.keyOf(kind.shell(x)) == kind.keyOf(x)
  }

  /** The additions and changes land what is selected, wherever the removals left the keys that
      both sides know alone. */
  lemma {:induction false} PatchArrivals<T(!new)>(
      ys: seq<T>, before: seq<T>, after: seq<T>, kind: Kind<T>, chosen: Choice, k: string)
    requires Sensible(kind) && Distinct(Keys(after, kind.keyOf))
    requires forall j | j in Keys(after, kind.keyOf) :: Get(ys, kind.keyOf, j) == Get(before, kind.keyOf, j)
    ensures var patched := PatchAll(ys, Arrivals(before, after, kind.keyOf, kind.deep), kind, chosen);
            Keys(patched, kind.keyOf) == Keys(ys, kind.keyOf) +
                                         Come(Keys(before, kind.keyOf), Keys(after, kind.keyOf), chosen) &&
            Get(patched, kind.keyOf, k) ==
              if Get(after, kind.keyOf, k).None? then Get(ys, kind.keyOf, k)
              else Chosen(Get(before, kind.keyOf, k), Get(after, kind.keyOf, k), k, kind, chosen)
  {
    assert after == [] ==> Arrivals(before, after, kind.keyOf, kind.deep) == [] && Keys(after, kind.keyOf) == [] &&
                           Come(Keys(before, kind.keyOf), Keys(after, kind.keyOf), chosen) == [];
    assert after == [] ==> PatchAll(ys, Arrivals(before, after, kind.keyOf, kind.deep), kind, chosen) == ys;
    hide Arrivals, PatchAll, Come, Chosen, Sensible;
    if after == [] {
    } else {
      var init, x := after[..|after| - 1], after[|after| - 1];
      KeysInit(after, kind.keyOf);
      DistinctInit(Keys(after, kind.keyOf));
      PatchArrivals(ys, before, init, kind, chosen, k);
      PatchArrivals(ys, before, init, kind, chosen, kind.keyOf(x));
      GetInit(after, kind.keyOf, k);
      ArrivalStep(ys, before, init, x, kind, chosen, k);
      assert after == init + [x];
    }
  }

  lemma ArrivalStep<T(!new)>(
      ys: seq<T>, before: seq<T>, init: seq<T>, x: T, kind: Kind<T>, chosen: Choice, k: string)
    requires Sensible(kind) && kind.keyOf(x) !in Keys(init, kind.keyOf)
    requires Get(ys, kind.keyOf, kind.keyOf(x)) == Get(before, kind.keyOf, kind.keyOf(x))
    requires var patched := PatchAll(ys, Arrivals(before, init, kind.keyOf, kind.deep), kind, chosen);
             Keys(patched, kind.keyOf) == Keys(ys, kind.keyOf) +
                                          Come(Keys(before, kind.keyOf), Keys(init, kind.keyOf), chosen) &&
             Get(patched, kind.keyOf, kind.keyOf(x)) == Get(ys, kind.keyOf, kind.keyOf(x))
    ensures var patched := PatchAll(ys, Arrivals(before, init, kind.keyOf, kind.deep), kind, chosen);
            var further := PatchAll(ys, Arrivals(before, init + [x], kind.keyOf, kind.deep), kind, chosen);
            Keys(further, kind.keyOf) == Keys(ys, kind.keyOf) +
                                         Come(Keys(before, kind.keyOf), Keys(init + [x], kind.keyOf), chosen) &&
            Get(further, kind.keyOf, k) ==
              if k == kind.keyOf(x) then Chosen(Get(before, kind.keyOf, k), Some(x), k, kind, chosen)
              else Get(patched, kind.keyOf, k)
  {
    var rest := Arrivals(before, init, kind.keyOf, kind.deep);
    var patched := PatchAll(ys, rest, kind, chosen);
    var known, key := Get(before, kind.keyOf, kind.keyOf(x)), kind.keyOf(x);
    GetAppend(init, x, kind.keyOf, k);
    ComeStep(Keys(before, kind.keyOf), Keys(init, kind.keyOf), key, chosen);
    ArrivalsStep(before, init, x, kind.keyOf, kind.deep);
    hide Arrivals, PatchAll, Come, Keys, Get, Patch, Sensible;
    if known.None? {
      PatchOneMore(ys, rest, Item(Add, key, None, Some(x)), kind, chosen);
      PatchAdds(patched, x, kind, chosen, k);
    } else if kind.deep && known.value != x {
      PatchOneMore(ys, rest, Item(Modify, key, known, Some(x)), kind, chosen);
      PatchChanges(patched, known, x, kind, chosen, k);
    } else {
      assert rest + [] == rest;
    }
  }

  lemma PatchAdds<T(!new)>(xs: seq<T>, x: T, kind: Kind<T>, chosen: Choice, k: string)
    requires Sensible(kind) && kind.keyOf(x) !in Keys(xs, kind.keyOf)
    ensures var key := kind.keyOf(x);
            var patched := Patch(xs, Item(Add, key, None, Some(x)), kind, chosen);
            Keys(patched, kind.keyOf) == Keys(xs, kind.keyOf) + (if chosen(Add, key) then [key] else []) &&
            Get(patched, kind.keyOf, k) ==
              if k != key then Get(xs, kind.keyOf, k) else if chosen(Add, key) then Some(kind.shell(x)) else None
  {
    AddAppends(xs, x, kind, chosen);
    assert kind.keyOf(kind.shell(x)) == kind.keyOf(x);
    GetAppend(xs, kind.shell(x), kind.keyOf, k);
    NoneAtKey(xs, kind.keyOf, kind.keyOf(x));
    hide Patch, Keys, Get, Sensible;
  }

  lemma NoneAtKey<T>(xs: seq<T>, keyOf: T -> string, k: string)
    requires k !in Keys(xs, keyOf)
    ensures Get(xs, keyOf, k) == None
  {
  }

  lemma AddAppends<T>(xs: seq<T>, x: T, kind: Kind<T>, chosen: Choice)
    requires kind.keyOf(x) !in Keys(xs, kind.keyOf)
    ensures Patch(xs, Item(Add, kind.keyOf(x), None, Some(x)), kind, chosen) ==
            if chosen(Add, kind.keyOf(x)) then xs + [kind.shell(x)] else xs
  {
    hide Keys;
  }

  lemma PatchChanges<T>(xs: seq<T>, known: Option<T>, x: T, kind: Kind<T>, chosen: Choice, k: string)
    requires kind.keyOf(x) in Keys(xs, kind.keyOf)
    ensures var key := kind.keyOf(x);
            var patched := Patch(xs, Item(Modify, key, known, Some(x)), kind, chosen);
            Keys(patched, kind.keyOf) == Keys(xs, kind.keyOf) &&
            Get(patched, kind.keyOf, k) == if k == key && chosen(Modify, key) then Some(x) else Get(xs, kind.keyOf, k)
  {
    GetPut(xs, kind.keyOf, x, k);
    KeysPut(xs, kind.keyOf, x);
  }

  lemma ComeStep(before: seq<string>, ks: seq<string>, k: string, chosen: Choice)
    ensures Come(before, ks + [k], chosen) ==
            Come(before, ks, chosen) + if k !in before && chosen(Add, k) then [k] else []
  {
    assert (ks + [k])[..|ks|] == ks;
  }

  lemma ArrivalsStep<T>(before: seq<T>, init: seq<T>, x: T, keyOf: T -> string, deep: bool)
    ensures Arrivals(before, init + [x], keyOf, deep) ==
            Arrivals(before, init, keyOf, deep) + Arrival(Get(before, keyOf, keyOf(x)), x, keyOf, deep)
  {
    assert (init + [x])[..|init|] == init;
  }

  lemma PatchOneMore<T>(xs: seq<T>, items: seq<Item<T>>, item: Item<T>, kind: Kind<T>, chosen: Choice)
    ensures PatchAll(xs, items + [item], kind, chosen) == Patch(PatchAll(xs, items, kind, chosen), item, kind, chosen)
  {
    assert (items + [item])[..|items|] == items;
  }

  /** A patched list holds, under every key, what was selected for it; what stays keeps its place,
      and what is added follows in the plan's order. */
  lemma PatchedHolds<T(!new)>(before: seq<T>, after: seq<T>, kind: Kind<T>, chosen: Choice, k: string)
    requires Sensible(kind) && Distinct(Keys(before, kind.keyOf)) && Distinct(Keys(after, kind.keyOf))
    ensures var patched := PatchAll(before, Differences(before, after, kind), kind, chosen);
            var kb, ka := Keys(before, kind.keyOf), Keys(after, kind.keyOf);
            Keys(patched, kind.keyOf) == Without(kb, Gone(kb, ka, chosen)) + Come(kb, ka, chosen) &&
            Get(patched, kind.keyOf, k) ==
              Chosen(Get(before, kind.keyOf, k), Get(after, kind.keyOf, k), k, kind, chosen)
  {
    hide Arrivals, Removals, PatchAll, Distinct, Sensible, Drop, Without, Keys;
    var kb, ka := Keys(before, kind.keyOf), Keys(after, kind.keyOf);
    var gone := Gone(kb, ka, chosen);
    var kept := Drop(before, kind.keyOf, gone);
    FromListIsIdentity(before, kind.keyOf);
    FromListIsIdentity(after, kind.keyOf);
    PatchAllAppend(before, Removals(before, after, kind.keyOf), Arrivals(before, after, kind.keyOf, kind.deep), kind,
        chosen);
    PatchRemovals(before, before, after, kind, chosen);
    forall j | j in ka
      ensures Get(kept, kind.keyOf, j) == Get(before, kind.keyOf, j)
    {
      DropHolds(before, kind.keyOf, gone, j);
    }
    DropHolds(before, kind.keyOf, gone, k);
    PatchArrivals(kept, before, after, kind, chosen, k);
  }

  // ----- items of one list visited by those of another

  /** Every plan item in turn changes the item it finds under its key; none is added. */
  function Visit<T>(xs: seq<T>, plan: seq<T>, keyOf: T -> string, join: (T, T) -> T): seq<T> {
    if plan == [] then xs
    else
      var done, y := Visit(xs, plan[..|plan| - 1], keyOf, join), plan[|plan| - 1];
      var i := IndexOf(Keys(done, keyOf), keyOf(y));
      if i == -1 then done else done[i := join(done[i], y)]
  }

  /** Every value met with something of its key keeps its key. */
  ghost predicate KeepsOwnKey<T(!new)>(keyOf: T -> string, join: (T, T) -> T) {
    forall x, y :: keyOf(join(x, y)) == keyOf(x)
  }

  lemma {:induction false} VisitedHolds<T(!new)>(xs: seq<T>, plan: seq<T>, keyOf: T -> string, join: (T, T) -> T,
      k: string)
    requires KeepsOwnKey(keyOf, join) && Distinct(Keys(plan, keyOf))
    ensures Keys(Visit(xs, plan, keyOf, join), keyOf) == Keys(xs, keyOf)
    ensures var x, y := Get(xs, keyOf, k), Get(plan, keyOf, k);
            Get(Visit(xs, plan, keyOf, join), keyOf, k) ==
            if x.Some? && y.Some? then Some(join(x.value, y.value)) else x
  {
    if plan == [] {
    } else {
      var init, y := plan[..|plan| - 1], plan[|plan| - 1];
      var done := Visit(xs, init, keyOf, join);
      KeysInit(plan, keyOf);
      DistinctInit(Keys(plan, keyOf));
      VisitedHolds(xs, init, keyOf, join, k);
      GetInit(plan, keyOf, k);
      var i := IndexOf(Keys(done, keyOf), keyOf(y));
      if i >= 0 {
        var joined := join(done[i], y);
        assert done[i := joined] == Put(done, keyOf, joined);
        KeysPut(done, keyOf, joined);
        GetPut(done, keyOf, joined, k);
      }
    }
  }

  // ----- selecting everything

  /** The keys of the second list that the first has come first, in the first's order. */
  predicate InOrder(before: seq<string>, after: seq<string>) {
    after == Without(before, Without(before, after)) + Without(after, before)
  }

  lemma {:induction false} AllGone(before: seq<string>, after: seq<string>, chosen: Choice)
    requires forall k | k in before && k !in after :: chosen(Remove, k)
    ensures Gone(before, after, chosen) == Without(before, after)
  {
    if before == [] {
    } else {
      AllGone(before[..|before| - 1], after, chosen);
    }
  }

  lemma {:induction false} AllCome(before: seq<string>, after: seq<string>, chosen: Choice)
    requires forall k | k in after && k !in before :: chosen(Add, k)
    ensures Come(before, after, chosen) == Without(after, before)
  {
    if after == [] {
    } else {
      AllCome(before, after[..|after| - 1], chosen);
    }
  }

  /** What makes a difference under one key. */
  predicate DiffersAt<T(==)>(b: Option<T>, a: Option<T>, deep: bool, it: Item<T>) {
    match it.op
    case Remove => b.Some? && a.None? && it.before == b && it.after.None?
    case Add => b.None? && a.Some? && it.before.None? && it.after == a
    case Modify => deep && b.Some? && a.Some? && a != b && it.before == b && it.after == a
  }

  /** What is among the differences of two lists. */
  predicate Differs<T(==)>(before: seq<T>, after: seq<T>, kind: Kind<T>, it: Item<T>) {
    DiffersAt(Get(before, kind.keyOf, it.key), Get(after, kind.keyOf, it.key), kind.deep, it)
  }

  lemma {:induction false} RemovalsAre<T>(before: seq<T>, after: seq<T>, keyOf: T -> string, it: Item<T>)
    requires Distinct(Keys(before, keyOf))
    ensures it in Removals(before, after, keyOf) <==>
            it.op == Remove && it.after.None? && it.before.Some? && it.before == Get(before, keyOf, it.key) &&
            it.key !in Keys(after, keyOf)
  {
    if before == [] {
    } else {
      KeysInit(before, keyOf);
      DistinctInit(Keys(before, keyOf));
      GetInit(before, keyOf, it.key);
      RemovalsAre(before[..|before| - 1], after, keyOf, it);
    }
  }

  lemma ArrivalIs<T>(known: Option<T>, x: T, keyOf: T -> string, deep: bool, it: Item<T>)
    ensures it in Arrival(known, x, keyOf, deep) <==>
            it.key == keyOf(x) && it.op != Remove && DiffersAt(known, Some(x), deep, it)
  {
  }

  lemma NoArrival<T>(b: Option<T>, deep: bool, it: Item<T>)
    ensures it.op != Remove ==> !DiffersAt(b, None, deep, it)
  {
  }

  lemma {:induction false} ArrivalsAre<T>(before: seq<T>, after: seq<T>, kind: Kind<T>, it: Item<T>)
    requires Distinct(Keys(after, kind.keyOf))
    ensures it in Arrivals(before, after, kind.keyOf, kind.deep) <==>
            it.op != Remove && Differs(before, after, kind, it)
  {
    if after == [] {
      NoArrival(Get(before, kind.keyOf, it.key), kind.deep, it);
    } else {
      hide Arrivals, Arrival, DiffersAt, Distinct, Keys, Get;
      var init, x := after[..|after| - 1], after[|after| - 1];
      assert after == init + [x];
      KeysInit(after, kind.keyOf);
      DistinctInit(Keys(after, kind.keyOf));
      ArrivalsStep(before, init, x, kind.keyOf, kind.deep);
      ArrivalsAre(before, init, kind, it);
      GetInit(after, kind.keyOf, it.key);
      NotYetThere(init, x, kind.keyOf);
      ArrivalIs(Get(before, kind.keyOf, kind.keyOf(x)), x, kind.keyOf, kind.deep, it);
      NoArrival(Get(before, kind.keyOf, it.key), kind.deep, it);
    }
  }

  lemma NotYetThere<T>(init: seq<T>, x: T, keyOf: T -> string)
    requires Distinct(Keys(init, keyOf) + [keyOf(x)])
    ensures Get(init, keyOf, keyOf(x)) == None
  {
    var ks := Keys(init, keyOf) + [keyOf(x)];
    assert forall i | 0 <= i < |init| :: ks[i] == Keys(init, keyOf)[i];
    assert ks[|init|] == keyOf(x);
  }

  /** What is among the differences of any two lists, each read through a Map first. */
  lemma DifferencesListed<T(!new)>(before: seq<T>, after: seq<T>, kind: Kind<T>, it: Item<T>)
    ensures it in Differences(before, after, kind) <==>
            Differs(FromList(before, kind.keyOf), FromList(after, kind.keyOf), kind, it)
  {
    hide Removals, Arrivals, Merge, Distinct;
    var b, a := FromList(before, kind.keyOf), FromList(after, kind.keyOf);
    FromListDistinct(before, kind.keyOf);
    FromListDistinct(after, kind.keyOf);
    RemovalsAre(b, a, kind.keyOf, it);
    ArrivalsAre(b, a, kind, it);
  }

  lemma DifferencesAre<T(!new)>(before: seq<T>, after: seq<T>, kind: Kind<T>, it: Item<T>)
    requires Distinct(Keys(before, kind.keyOf)) && Distinct(Keys(after, kind.keyOf))
    ensures it in Differences(before, after, kind) <==> Differs(before, after, kind, it)
  {
    FromListIsIdentity(before, kind.keyOf);
    FromListIsIdentity(after, kind.keyOf);
    DifferencesListed(before, after, kind, it);
  }

  /** Every difference is selected. */
  ghost predicate AllChosen<T>(before: seq<T>, after: seq<T>, kind: Kind<T>, chosen: Choice) {
    forall it | it in Differences(before, after, kind) :: chosen(it.op, it.key)
  }

  /** With everything selected the keys that go are those the plan lacks, those that come are the
      plan's new ones, and under each key the plan decides; only the changes of an item that is not
      compared whole are left to its children. */
  lemma AllChosenMeans<T(!new)>(before: seq<T>, after: seq<T>, kind: Kind<T>, chosen: Choice, k: string)
    requires Distinct(Keys(before, kind.keyOf)) && Distinct(Keys(after, kind.keyOf))
    requires AllChosen(before, after, kind, chosen)
    ensures var kb, ka := Keys(before, kind.keyOf), Keys(after, kind.keyOf);
            Gone(kb, ka, chosen) == Without(kb, ka) && Come(kb, ka, chosen) == Without(ka, kb)
    ensures var b, a := Get(before, kind.keyOf, k), Get(after, kind.keyOf, k);
            Chosen(b, a, k, kind, chosen) ==
            if a.None? then None else if b.None? then Some(kind.shell(a.value)) else if kind.deep then a else b
  {
    hide PatchAll, Differences, Distinct, Keys, Without;
    var kb, ka := Keys(before, kind.keyOf), Keys(after, kind.keyOf);
    forall j | j in kb && j !in ka
      ensures chosen(Remove, j)
    {
      DifferencesAre(before, after, kind, Item(Remove, j, Get(before, kind.keyOf, j), None));
    }
    forall j | j in ka && j !in kb
      ensures chosen(Add, j)
    {
      DifferencesAre(before, after, kind, Item(Add, j, None, Get(after, kind.keyOf, j)));
    }
    DifferencesAre(before, after, kind, Item(Modify, k, Get(before, kind.keyOf, k), Get(after, kind.keyOf, k)));
    AllGone(kb, ka, chosen);
    AllCome(kb, ka, chosen);
  }

  /** Of lists whose items are compared whole, selecting everything gives exactly the plan's list
      when that has the known keys first, in their old order; else the order is all it misses. */
  lemma PatchedWhole<T(!new)>(before: seq<T>, after: seq<T>, kind: Kind<T>, chosen: Choice)
    requires Sensible(kind) && Distinct(Keys(before, kind.keyOf)) && Distinct(Keys(after, kind.keyOf))
    requires AllChosen(before, after, kind, chosen) && kind.deep && forall x :: kind.shell(x) == x
    ensures PatchAll(before, Differences(before, after, kind), kind, chosen) == after <==>
            InOrder(Keys(before, kind.keyOf), Keys(after, kind.keyOf))
  {
    hide PatchAll, Differences, Sensible, Distinct, Keys, Without, AllChosen, Get, Chosen;
    var patched := PatchAll(before, Differences(before, after, kind), kind, chosen);
    forall k
      ensures Get(patched, kind.keyOf, k) == Get(after, kind.keyOf, k)
    {
      PatchedHolds(before, after, kind, chosen, k);
      AllChosenMeans(before, after, kind, chosen, k);
    }
    PatchedHolds(before, after, kind, chosen, "");
    AllChosenMeans(before, after, kind, chosen, "");
    if InOrder(Keys(before, kind.keyOf), Keys(after, kind.keyOf)) {
      SameItems(after, patched, kind.keyOf);
    }
  }

  /** Known keys followed by new ones are in order. */
  lemma KnownThenNew(known: seq<string>, added: seq<string>)
    requires forall k | k in added :: k !in known
    ensures InOrder(known, known + added)
  {
    hide Without;
    WithoutAll(known, known + added);
    WithoutNone(known, []);
    WithoutConcat(known, added, known);
    WithoutAll(known, known);
    WithoutNone(added, known);
  }
}
