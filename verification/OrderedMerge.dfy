/** Lists of items identified by a key, merged the way JavaScript merges them through an
    insertion-ordered Map: a known key is replaced where it stands, a new one goes last. */
module OrderedMerge {

  datatype Option<+T> = None | Some(value: T)

  function Keys<T>(xs: seq<T>, keyOf: T -> string): (ks: seq<string>)
    ensures |ks| == |xs|
    ensures forall i | 0 <= i < |xs| :: ks[i] == keyOf(xs[i])
  {
    seq(|xs|, i requires 0 <= i < |xs| => keyOf(xs[i]))
  }

  predicate Distinct(ks: seq<string>) {
    forall i, j | 0 <= i < j < |ks| :: ks[i] != ks[j]
  }

  /** Where a key first occurs, or -1. */
  function IndexOf(ks: seq<string>, k: string): (i: int)
    ensures -1 <= i < |ks|
    ensures i == -1 <==> k !in ks
    ensures i >= 0 ==> ks[i] == k && k !in ks[..i]
  {
    if ks == [] then -1
    else if ks[0] == k then 0
    else
      var i := IndexOf(ks[1..], k);
      if i == -1 then -1 else i + 1
  }

  /** The first item with a key. */
  function Get<T>(xs: seq<T>, keyOf: T -> string, k: string): (r: Option<T>)
    ensures r.Some? <==> k in Keys(xs, keyOf)
    ensures r.Some? ==> r.value in xs && keyOf(r.value) == k
  {
    var i := IndexOf(Keys(xs, keyOf), k);
    if i == -1 then None else Some(xs[i])
  }

  /** Store an item under its key. */
  function Put<T>(xs: seq<T>, keyOf: T -> string, x: T): seq<T> {
    var i := IndexOf(Keys(xs, keyOf), keyOf(x));
    if i == -1 then xs + [x] else xs[i := x]
  }

  /** What is stored when an item meets what is already there under its key. */
  function Meet<T>(known: Option<T>, coming: Option<T>, join: (T, T) -> T): Option<T> {
    if known.None? then coming
    else if coming.None? then known
    else Some(join(known.value, coming.value))
  }

  /** Merge the items of a list, one after another, into a base. */
  function Merge<T>(base: seq<T>, plan: seq<T>, keyOf: T -> string, join: (T, T) -> T): seq<T> {
    if plan == [] then base
    else
      var merged := Merge(base, plan[..|plan| - 1], keyOf, join);
      var item := plan[|plan| - 1];
      Put(merged, keyOf, Meet(Get(merged, keyOf, keyOf(item)), Some(item), join).value)
  }

  lemma MergeStep<T>(base: seq<T>, plan: seq<T>, i: nat, keyOf: T -> string, join: (T, T) -> T)
    requires i < |plan|
    ensures var merged := Merge(base, plan[..i], keyOf, join);
            Merge(base, plan[..i + 1], keyOf, join) ==
            Put(merged, keyOf, Meet(Get(merged, keyOf, keyOf(plan[i])), Some(plan[i]), join).value)
  {
    assert plan[..i + 1][..i] == plan[..i];
  }

  function TakeNew<T>(known: T, coming: T): T {
    coming
  }

  /** `new Map(list.map((x) => [x.key, x]))`, read back in order. */
  function FromList<T>(xs: seq<T>, keyOf: T -> string): seq<T> {
    Merge([], xs, keyOf, TakeNew)
  }

  /** The keys of a list that another list does not have. */
  function Without(ks: seq<string>, taken: seq<string>): (r: seq<string>)
    ensures forall k :: k in r <==> k in ks && k !in taken
  {
    if ks == [] then []
    else
      var rest := Without(ks[..|ks| - 1], taken);
      var k := ks[|ks| - 1];
      if k in taken then rest else rest + [k]
  }

  function Members(ks: seq<string>): set<string> {
    set k | k in ks
  }

  /** `x ?? y` */
  function FirstOf<T>(x: Option<T>, y: Option<T>): Option<T> {
    if x.Some? then x else y
  }

  // ----- storing one item

  function AddKey(ks: seq<string>, k: string): seq<string> {
    if k in ks then ks else ks + [k]
  }

  lemma KeysPut<T>(xs: seq<T>, keyOf: T -> string, x: T)
    ensures Keys(Put(xs, keyOf, x), keyOf) == AddKey(Keys(xs, keyOf), keyOf(x))
  {
  }

  lemma {:induction false} IndexOfPrefix(ks: seq<string>, more: seq<string>, k: string)
    requires k in ks
    ensures IndexOf(ks + more, k) == IndexOf(ks, k)
  {
    if ks[0] != k {
      assert (ks + more)[1..] == ks[1..] + more;
      IndexOfPrefix(ks[1..], more, k);
    }
  }

  lemma {:induction false} IndexOfIsFirst(ks: seq<string>, k: string, i: nat)
    requires i < |ks| && ks[i] == k && forall j | 0 <= j < i :: ks[j] != k
    ensures IndexOf(ks, k) == i
  {
    if i == 0 {
    } else {
      IndexOfIsFirst(ks[1..], k, i - 1);
    }
  }

  lemma GetPut<T>(xs: seq<T>, keyOf: T -> string, x: T, k: string)
    ensures Get(Put(xs, keyOf, x), keyOf, k) == if k == keyOf(x) then Some(x) else Get(xs, keyOf, k)
  {
    var ks := Keys(xs, keyOf);
    KeysPut(xs, keyOf, x);
    if k in ks {
      IndexOfPrefix(ks, [keyOf(x)], k);
    } else if keyOf(x) == k {
      IndexOfIsFirst(ks + [k], k, |ks|);
    }
  }

  // ----- merging a list

  /** join keeps the key that both of its arguments share. */
  ghost predicate KeepsKey<T(!new)>(keyOf: T -> string, join: (T, T) -> T) {
    forall x, y :: keyOf(x) == keyOf(y) ==> keyOf(join(x, y)) == keyOf(x)
  }

  lemma {:induction false} WithoutAppend(ks: seq<string>, k: string, taken: seq<string>)
    ensures Without(ks + [k], taken) == Without(ks, taken) + (if k in taken then [] else [k])
  {
    assert (ks + [k])[..|ks|] == ks;
  }

  lemma DistinctInit(ks: seq<string>)
    requires ks != [] && Distinct(ks)
    ensures Distinct(ks[..|ks| - 1]) && ks[|ks| - 1] !in ks[..|ks| - 1]
  {
  }

  lemma KeysInit<T>(xs: seq<T>, keyOf: T -> string)
    requires xs != []
    ensures Keys(xs, keyOf) == Keys(xs[..|xs| - 1], keyOf) + [keyOf(xs[|xs| - 1])]
  {
  }

  /** The base keeps its keys and their order; the plan's new keys follow in plan order. */
  lemma {:induction false} KeysMerge<T(!new)>(base: seq<T>, plan: seq<T>, keyOf: T -> string, join: (T, T) -> T)
    requires KeepsKey(keyOf, join) && Distinct(Keys(plan, keyOf))
    ensures Keys(Merge(base, plan, keyOf, join), keyOf) ==
            Keys(base, keyOf) + Without(Keys(plan, keyOf), Keys(base, keyOf))
  {
    if plan == [] {
    } else {
      var init, item := plan[..|plan| - 1], plan[|plan| - 1];
      var merged := Merge(base, init, keyOf, join);
      var stored := Meet(Get(merged, keyOf, keyOf(item)), Some(item), join).value;
      assert keyOf(stored) == keyOf(item);
      assert Merge(base, plan, keyOf, join) == Put(merged, keyOf, stored);
      KeysInit(plan, keyOf);
      DistinctInit(Keys(plan, keyOf));
      hide Merge, Keys, Put, Get, Meet, Without, Distinct, KeepsKey;
      KeysMerge(base, init, keyOf, join);
      WithoutAppend(Keys(init, keyOf), keyOf(item), Keys(base, keyOf));
      KeysPut(merged, keyOf, stored);
      Regroup(Keys(base, keyOf), Without(Keys(init, keyOf), Keys(base, keyOf)), [keyOf(item)]);
    }
  }

  lemma GetInit<T>(xs: seq<T>, keyOf: T -> string, k: string)
    requires xs != [] && Distinct(Keys(xs, keyOf))
    ensures Get(xs, keyOf, k) ==
            if k == keyOf(xs[|xs| - 1]) then Some(xs[|xs| - 1]) else Get(xs[..|xs| - 1], keyOf, k)
  {
    var init, item := xs[..|xs| - 1], xs[|xs| - 1];
    KeysInit(xs, keyOf);
    DistinctInit(Keys(xs, keyOf));
    assert xs == Put(init, keyOf, item);
    GetPut(init, keyOf, item, k);
  }

  /** Under every key, the merge holds what the base and the plan hold there, joined. */
  lemma {:induction false} GetMerge<T(!new)>(
      base: seq<T>, plan: seq<T>, keyOf: T -> string, join: (T, T) -> T, k: string)
    requires KeepsKey(keyOf, join) && Distinct(Keys(plan, keyOf))
    ensures Get(Merge(base, plan, keyOf, join), keyOf, k) == Meet(Get(base, keyOf, k), Get(plan, keyOf, k), join)
  {
    if plan == [] {
    } else {
      var init, item := plan[..|plan| - 1], plan[|plan| - 1];
      var merged := Merge(base, init, keyOf, join);
      KeysInit(plan, keyOf);
      DistinctInit(Keys(plan, keyOf));
      GetMerge(base, init, keyOf, join, k);
      GetMerge(base, init, keyOf, join, keyOf(item));
      GetInit(plan, keyOf, k);
      GetPut(merged, keyOf, Meet(Get(merged, keyOf, keyOf(item)), Some(item), join).value, k);
    }
  }

  lemma DistinctMerge<T(!new)>(base: seq<T>, plan: seq<T>, keyOf: T -> string, join: (T, T) -> T)
    requires KeepsKey(keyOf, join) && Distinct(Keys(base, keyOf)) && Distinct(Keys(plan, keyOf))
    ensures Distinct(Keys(Merge(base, plan, keyOf, join), keyOf))
  {
    hide Merge, Keys, Without, Distinct;
    KeysMerge(base, plan, keyOf, join);
    DistinctWithout(Keys(plan, keyOf), Keys(base, keyOf));
    DistinctConcat(Keys(base, keyOf), Without(Keys(plan, keyOf), Keys(base, keyOf)));
  }

  lemma DistinctParts(a: seq<string>, b: seq<string>)
    requires Distinct(a + b)
    ensures Distinct(a) && Distinct(b)
  {
    assert forall i | 0 <= i < |a| :: (a + b)[i] == a[i];
    assert forall i | 0 <= i < |b| :: (a + b)[|a| + i] == b[i];
  }

  lemma DistinctConcat(a: seq<string>, b: seq<string>)
    requires Distinct(a) && Distinct(b) && forall k | k in b :: k !in a
    ensures Distinct(a + b)
  {
    forall i, j | 0 <= i < j < |a + b|
      ensures (a + b)[i] != (a + b)[j]
    {
      if i < |a| <= j {
        assert (a + b)[j] == b[j - |a|] && (a + b)[j] in b;
      }
    }
  }

  lemma {:induction false} DistinctWithout(ks: seq<string>, taken: seq<string>)
    requires Distinct(ks)
    ensures Distinct(Without(ks, taken))
  {
    if ks == [] {
    } else {
      DistinctInit(ks);
      DistinctWithout(ks[..|ks| - 1], taken);
    }
  }

  /** Merging never makes a key repeat, whatever the plan. */
  lemma {:induction false} MergeStaysDistinct<T(!new)>(base: seq<T>, plan: seq<T>, keyOf: T -> string,
                                                      join: (T, T) -> T)
    requires KeepsKey(keyOf, join) && Distinct(Keys(base, keyOf))
    ensures Distinct(Keys(Merge(base, plan, keyOf, join), keyOf))
  {
    if plan == [] {
    } else {
      var init, item := plan[..|plan| - 1], plan[|plan| - 1];
      var merged := Merge(base, init, keyOf, join);
      var stored := Meet(Get(merged, keyOf, keyOf(item)), Some(item), join).value;
      assert Merge(base, plan, keyOf, join) == Put(merged, keyOf, stored);
      hide Merge, Put, Get, Meet, Keys, Distinct;
      MergeStaysDistinct(base, init, keyOf, join);
      KeysPut(merged, keyOf, stored);
      DistinctAddKey(Keys(merged, keyOf), keyOf(stored));
    }
  }

  lemma DistinctAddKey(ks: seq<string>, k: string)
    requires Distinct(ks)
    ensures Distinct(AddKey(ks, k))
  {
    if k !in ks {
      DistinctConcat(ks, [k]);
    }
  }

  /** A Map has each key once. */
  lemma FromListDistinct<T(!new)>(xs: seq<T>, keyOf: T -> string)
    ensures Distinct(Keys(FromList(xs, keyOf), keyOf))
  {
    MergeStaysDistinct([], xs, keyOf, TakeNew);
  }

  /** Whatever a join may do to an item, merging a plan does at most that, and drops no key. */
  lemma {:induction false} MergeGrows<T(!new)>(base: seq<T>, plan: seq<T>, keyOf: T -> string, join: (T, T) -> T,
                                               grows: (T, T) -> bool, k: string)
    requires KeepsKey(keyOf, join)
    requires (forall x :: grows(x, x)) && (forall x, y :: grows(x, join(x, y)))
    requires forall x, y, z :: grows(x, y) && grows(y, z) ==> grows(x, z)
    ensures var x, now := Get(base, keyOf, k), Get(Merge(base, plan, keyOf, join), keyOf, k);
            x.Some? ==> now.Some? && grows(x.value, now.value)
  {
    if plan == [] {
    } else {
      var init, item := plan[..|plan| - 1], plan[|plan| - 1];
      var merged := Merge(base, init, keyOf, join);
      var stored := Meet(Get(merged, keyOf, keyOf(item)), Some(item), join).value;
      assert keyOf(stored) == keyOf(item);
      assert Merge(base, plan, keyOf, join) == Put(merged, keyOf, stored);
      hide Merge, Put, Get, Keys, KeepsKey;
      MergeGrows(base, init, keyOf, join, grows, k);
      GetPut(merged, keyOf, stored, k);
    }
  }

  /** A Map has exactly the keys of its list. */
  lemma FromListKeys<T(!new)>(xs: seq<T>, keyOf: T -> string)
    ensures forall k :: k in Keys(FromList(xs, keyOf), keyOf) <==> k in Keys(xs, keyOf)
  {
    KeysOverride([], xs, keyOf);
    assert Keys<T>([], keyOf) == [];
  }

  /** What holds of every item of base and plan, and of every join, holds of the merge. */
  lemma {:induction false} MergeKeepsAll<T(!new)>(
      base: seq<T>, plan: seq<T>, keyOf: T -> string, join: (T, T) -> T, good: T -> bool)
    requires forall x | x in base :: good(x)
    requires forall y | y in plan :: good(y)
    requires forall x, y :: good(x) && good(y) ==> good(join(x, y))
    ensures forall x | x in Merge(base, plan, keyOf, join) :: good(x)
  {
    if plan == [] {
    } else {
      MergeKeepsAll(base, plan[..|plan| - 1], keyOf, join, good);
    }
  }

  /** Key order and lookups determine a list with distinct keys. */
  lemma SameItems<T>(xs: seq<T>, ys: seq<T>, keyOf: T -> string)
    requires Keys(xs, keyOf) == Keys(ys, keyOf) && Distinct(Keys(xs, keyOf))
    requires forall k :: Get(xs, keyOf, k) == Get(ys, keyOf, k)
    ensures xs == ys
  {
    forall i | 0 <= i < |xs|
      ensures xs[i] == ys[i]
    {
      var k := keyOf(xs[i]);
      IndexOfIsFirst(Keys(xs, keyOf), k, i);
      assert Get(xs, keyOf, k) == Some(xs[i]) && Get(ys, keyOf, k) == Some(ys[i]);
    }
  }

  // ----- the algebra

  /** Nothing to add to a base without repeated keys. */
  lemma {:induction false} FromListIsIdentity<T>(xs: seq<T>, keyOf: T -> string)
    requires Distinct(Keys(xs, keyOf))
    ensures FromList(xs, keyOf) == xs
  {
    MergeIntoNothing(xs, keyOf, TakeNew);
  }

  lemma {:induction false} MergeIntoNothing<T>(xs: seq<T>, keyOf: T -> string, join: (T, T) -> T)
    requires Distinct(Keys(xs, keyOf))
    ensures Merge([], xs, keyOf, join) == xs
  {
    if xs == [] {
    } else {
      KeysInit(xs, keyOf);
      DistinctInit(Keys(xs, keyOf));
      MergeIntoNothing(xs[..|xs| - 1], keyOf, join);
    }
  }

  /** Keys new to a and then new to both, or new to a among those of b and c: the same. */
  lemma {:induction false} WithoutTwice(ks: seq<string>, a: seq<string>, b: seq<string>)
    ensures Without(ks, a + Without(b, a)) == Without(Without(ks, b), a)
  {
    if ks == [] {
    } else {
      var init, k := ks[..|ks| - 1], ks[|ks| - 1];
      WithoutTwice(init, a, b);
      if k !in b {
        WithoutAppend(Without(init, b), k, a);
      }
    }
  }

  lemma Regroup(a: seq<string>, b: seq<string>, c: seq<string>)
    ensures (a + b) + c == a + (b + c)
  {
  }

  lemma {:induction false} WithoutConcat(ks: seq<string>, more: seq<string>, taken: seq<string>)
    ensures Without(ks + more, taken) == Without(ks, taken) + Without(more, taken)
  {
    if more == [] {
      assert ks + more == ks;
    } else {
      var init, k := more[..|more| - 1], more[|more| - 1];
      WithoutConcat(ks, init, taken);
      WithoutAppend(ks + init, k, taken);
      WithoutAppend(init, k, taken);
      assert more == init + [k];
      hide Without;
      Regroup(ks, init, [k]);
      Regroup(Without(ks, taken), Without(init, taken), if k in taken then [] else [k]);
    }
  }

  /** Merging twice is merging the merge, wherever joining is associative. */
  lemma MergeAssociative<T(!new)>(a: seq<T>, b: seq<T>, c: seq<T>, keyOf: T -> string, join: (T, T) -> T)
    requires KeepsKey(keyOf, join)
    requires Distinct(Keys(a, keyOf)) && Distinct(Keys(b, keyOf)) && Distinct(Keys(c, keyOf))
    requires forall k :: Meet(Meet(Get(a, keyOf, k), Get(b, keyOf, k), join), Get(c, keyOf, k), join) ==
                         Meet(Get(a, keyOf, k), Meet(Get(b, keyOf, k), Get(c, keyOf, k), join), join)
    ensures Merge(Merge(a, b, keyOf, join), c, keyOf, join) == Merge(a, Merge(b, c, keyOf, join), keyOf, join)
  {
    hide Merge, Keys, Get, Meet, Without, Distinct, KeepsKey;
    var ab, bc := Merge(a, b, keyOf, join), Merge(b, c, keyOf, join);
    var left, right := Merge(ab, c, keyOf, join), Merge(a, bc, keyOf, join);
    DistinctMerge(a, b, keyOf, join);
    DistinctMerge(b, c, keyOf, join);
    DistinctMerge(ab, c, keyOf, join);
    MergeKeysAssociative(a, b, c, keyOf, join);
    forall k
      ensures Get(left, keyOf, k) == Get(right, keyOf, k)
    {
      GetMerge(a, b, keyOf, join, k);
      GetMerge(b, c, keyOf, join, k);
      GetMerge(ab, c, keyOf, join, k);
      GetMerge(a, bc, keyOf, join, k);
    }
    SameItems(left, right, keyOf);
  }

  lemma MergeKeysAssociative<T(!new)>(a: seq<T>, b: seq<T>, c: seq<T>, keyOf: T -> string, join: (T, T) -> T)
    requires KeepsKey(keyOf, join)
    requires Distinct(Keys(b, keyOf)) && Distinct(Keys(c, keyOf))
    ensures Keys(Merge(Merge(a, b, keyOf, join), c, keyOf, join), keyOf) ==
            Keys(Merge(a, Merge(b, c, keyOf, join), keyOf, join), keyOf)
  {
    hide Merge, Keys, Without, Distinct, KeepsKey;
    DistinctMerge(b, c, keyOf, join);
    KeysMerge(a, b, keyOf, join);
    KeysMerge(b, c, keyOf, join);
    KeysMerge(Merge(a, b, keyOf, join), c, keyOf, join);
    KeysMerge(a, Merge(b, c, keyOf, join), keyOf, join);
    var ka, kb, kc := Keys(a, keyOf), Keys(b, keyOf), Keys(c, keyOf);
    WithoutTwice(kc, ka, kb);
    WithoutConcat(kb, Without(kc, kb), ka);
  }

  lemma {:induction false} WithoutAll(ks: seq<string>, taken: seq<string>)
    requires forall k | k in ks :: k in taken
    ensures Without(ks, taken) == []
  {
    if ks == [] {
    } else {
      WithoutAll(ks[..|ks| - 1], taken);
    }
  }

  lemma {:induction false} WithoutNone(ks: seq<string>, taken: seq<string>)
    requires forall k | k in ks :: k !in taken
    ensures Without(ks, taken) == ks
  {
    if ks == [] {
    } else {
      WithoutNone(ks[..|ks| - 1], taken);
    }
  }

  /** Merging the same list again changes nothing, wherever joining again does not. */
  lemma MergeIdempotent<T(!new)>(base: seq<T>, plan: seq<T>, keyOf: T -> string, join: (T, T) -> T)
    requires KeepsKey(keyOf, join)
    requires Distinct(Keys(base, keyOf)) && Distinct(Keys(plan, keyOf))
    requires forall k :: var met := Meet(Get(base, keyOf, k), Get(plan, keyOf, k), join);
                         Meet(met, Get(plan, keyOf, k), join) == met
    ensures Merge(Merge(base, plan, keyOf, join), plan, keyOf, join) == Merge(base, plan, keyOf, join)
  {
    var once := Merge(base, plan, keyOf, join);
    var twice := Merge(once, plan, keyOf, join);
    DistinctMerge(base, plan, keyOf, join);
    KeysMerge(base, plan, keyOf, join);
    KeysMerge(once, plan, keyOf, join);
    WithoutAll(Keys(plan, keyOf), Keys(once, keyOf));
    forall k
      ensures Get(twice, keyOf, k) == Get(once, keyOf, k)
    {
      GetMerge(base, plan, keyOf, join, k);
      GetMerge(once, plan, keyOf, join, k);
    }
    SameItems(twice, once, keyOf);
  }

  // ----- overriding with arbitrary lists, repeated keys included

  /** The last item with a key. */
  function Last<T>(xs: seq<T>, keyOf: T -> string, k: string): Option<T> {
    if xs == [] then None
    else if keyOf(xs[|xs| - 1]) == k then Some(xs[|xs| - 1])
    else Last(xs[..|xs| - 1], keyOf, k)
  }

  /** Each key once, where it first occurs. */
  function Once(ks: seq<string>): (r: seq<string>)
    ensures forall k :: k in r <==> k in ks
  {
    if ks == [] then [] else AddKey(Once(ks[..|ks| - 1]), ks[|ks| - 1])
  }

  function Override<T>(base: seq<T>, plan: seq<T>, keyOf: T -> string): seq<T> {
    Merge(base, plan, keyOf, TakeNew)
  }

  lemma OverrideStep<T>(base: seq<T>, plan: seq<T>, keyOf: T -> string)
    requires plan != []
    ensures Override(base, plan, keyOf) == Put(Override(base, plan[..|plan| - 1], keyOf), keyOf, plan[|plan| - 1])
  {
  }

  /** No key of the base is lost or moved; unmatched keys follow, each once, in the order
      in which the plan first mentions them. */
  lemma {:induction false} KeysOverride<T>(base: seq<T>, plan: seq<T>, keyOf: T -> string)
    ensures Keys(Override(base, plan, keyOf), keyOf) ==
            Keys(base, keyOf) + Without(Once(Keys(plan, keyOf)), Keys(base, keyOf))
  {
    if plan == [] {
    } else {
      hide Override, Keys, Put, Once, Without;
      var init, item := plan[..|plan| - 1], plan[|plan| - 1];
      KeysInit(plan, keyOf);
      KeysOverride(base, init, keyOf);
      OverrideStep(base, plan, keyOf);
      KeysPut(Override(base, init, keyOf), keyOf, item);
      OnceAppend(Keys(init, keyOf), keyOf(item));
      WithoutAppend(Once(Keys(init, keyOf)), keyOf(item), Keys(base, keyOf));
      Regroup(Keys(base, keyOf), Without(Once(Keys(init, keyOf)), Keys(base, keyOf)), [keyOf(item)]);
    }
  }

  lemma OnceAppend(ks: seq<string>, k: string)
    ensures Once(ks + [k]) == AddKey(Once(ks), k)
  {
    assert (ks + [k])[..|ks|] == ks;
  }

  /** The first item with a key ends as the plan's last item with that key, if it has one. */
  lemma {:induction false} GetOverride<T>(base: seq<T>, plan: seq<T>, keyOf: T -> string, k: string)
    ensures Get(Override(base, plan, keyOf), keyOf, k) ==
            if Last(plan, keyOf, k).Some? then Last(plan, keyOf, k) else Get(base, keyOf, k)
  {
    if plan == [] {
    } else {
      var init := plan[..|plan| - 1];
      GetOverride(base, init, keyOf, k);
      OverrideStep(base, plan, keyOf);
      GetPut(Override(base, init, keyOf), keyOf, plan[|plan| - 1], k);
    }
  }

  /** Only the first match of a key changes. */
  lemma {:induction false} LaterMatchesKept<T>(base: seq<T>, plan: seq<T>, keyOf: T -> string, i: nat)
    requires i < |base| && IndexOf(Keys(base, keyOf), keyOf(base[i])) != i
    ensures |base| <= |Override(base, plan, keyOf)| && Override(base, plan, keyOf)[i] == base[i]
  {
    if plan == [] {
    } else {
      var init, item := plan[..|plan| - 1], plan[|plan| - 1];
      var merged := Override(base, init, keyOf);
      LaterMatchesKept(base, init, keyOf, i);
      OverrideStep(base, plan, keyOf);
      KeysOverride(base, init, keyOf);
      IndexOfPrefix(Keys(base, keyOf), Without(Once(Keys(init, keyOf)), Keys(base, keyOf)), keyOf(base[i]));
    }
  }

  /** Overriding again with the same plan changes nothing. */
  lemma OverrideIdempotent<T>(base: seq<T>, plan: seq<T>, keyOf: T -> string)
    ensures Override(Override(base, plan, keyOf), plan, keyOf) == Override(base, plan, keyOf)
  {
    var once := Override(base, plan, keyOf);
    var twice := Override(once, plan, keyOf);
    KeysOverride(base, plan, keyOf);
    KeysOverride(once, plan, keyOf);
    WithoutAll(Once(Keys(plan, keyOf)), Keys(once, keyOf));
    assert Keys(twice, keyOf) == Keys(once, keyOf);
    forall i | 0 <= i < |once|
      ensures twice[i] == once[i]
    {
      var k := keyOf(once[i]);
      if IndexOf(Keys(once, keyOf), k) == i {
        assert keyOf(twice[i]) == k;
        assert Get(once, keyOf, k) == Some(once[i]) && Get(twice, keyOf, k) == Some(twice[i]);
        GetOverride(base, plan, keyOf, k);
        GetOverride(once, plan, keyOf, k);
      } else {
        LaterMatchesKept(once, plan, keyOf, i);
      }
    }
  }

  // ----- one plan after another

  lemma {:induction false} OnceIsDistinct(ks: seq<string>)
    ensures Distinct(Once(ks))
  {
    if ks == [] {
    } else {
      OnceIsDistinct(ks[..|ks| - 1]);
    }
  }

  lemma {:induction false} OnceOfDistinct(ks: seq<string>)
    requires Distinct(ks)
    ensures Once(ks) == ks
  {
    if ks == [] {
    } else {
      DistinctInit(ks);
      OnceOfDistinct(ks[..|ks| - 1]);
      assert ks == ks[..|ks| - 1] + [ks[|ks| - 1]];
    }
  }

  /** Without repeated keys the last item with a key is the first. */
  lemma {:induction false} LastIsGet<T>(xs: seq<T>, keyOf: T -> string, k: string)
    requires Distinct(Keys(xs, keyOf))
    ensures Last(xs, keyOf, k) == Get(xs, keyOf, k)
  {
    if xs == [] {
    } else {
      KeysInit(xs, keyOf);
      DistinctInit(Keys(xs, keyOf));
      LastIsGet(xs[..|xs| - 1], keyOf, k);
      GetInit(xs, keyOf, k);
    }
  }

  lemma DistinctOverride<T>(base: seq<T>, plan: seq<T>, keyOf: T -> string)
    requires Distinct(Keys(base, keyOf))
    ensures Distinct(Keys(Override(base, plan, keyOf), keyOf))
  {
    hide Override, Keys, Once, Without, Distinct;
    KeysOverride(base, plan, keyOf);
    OnceIsDistinct(Keys(plan, keyOf));
    DistinctWithout(Once(Keys(plan, keyOf)), Keys(base, keyOf));
    DistinctConcat(Keys(base, keyOf), Without(Once(Keys(plan, keyOf)), Keys(base, keyOf)));
  }

  lemma ComposedKeys<T>(a: seq<T>, b: seq<T>, c: seq<T>, keyOf: T -> string)
    requires Distinct(Keys(b, keyOf))
    ensures Keys(Override(Override(a, b, keyOf), c, keyOf), keyOf) ==
            Keys(Override(a, Override(b, c, keyOf), keyOf), keyOf)
  {
    hide Override, Keys, Once, Without, Distinct;
    var ka, kb, kc := Keys(a, keyOf), Keys(b, keyOf), Keys(c, keyOf);
    var bc := Override(b, c, keyOf);
    DistinctOverride(b, c, keyOf);
    OnceOfDistinct(kb);
    OnceOfDistinct(Keys(bc, keyOf));
    KeysOverride(a, b, keyOf);
    KeysOverride(b, c, keyOf);
    KeysOverride(Override(a, b, keyOf), c, keyOf);
    KeysOverride(a, bc, keyOf);
    WithoutTwice(Once(kc), ka, kb);
    WithoutConcat(kb, Without(Once(kc), kb), ka);
    Regroup(ka, Without(kb, ka), Without(Without(Once(kc), kb), ka));
  }

  lemma ComposedGet<T>(a: seq<T>, b: seq<T>, c: seq<T>, keyOf: T -> string, k: string)
    requires Distinct(Keys(b, keyOf))
    ensures Get(Override(Override(a, b, keyOf), c, keyOf), keyOf, k) ==
            Get(Override(a, Override(b, c, keyOf), keyOf), keyOf, k)
  {
    hide Override, Keys, Get, Last, Distinct;
    var ab, bc := Override(a, b, keyOf), Override(b, c, keyOf);
    DistinctOverride(b, c, keyOf);
    LastIsGet(b, keyOf, k);
    LastIsGet(bc, keyOf, k);
    GetOverride(ab, c, keyOf, k);
    GetOverride(a, b, keyOf, k);
    GetOverride(a, bc, keyOf, k);
    GetOverride(b, c, keyOf, k);
  }

  /** Beyond the base an override repeats no key. */
  lemma RepeatsAreInBase(known: seq<string>, added: seq<string>, i: nat)
    requires Distinct(added) && (forall k | k in added :: k !in known) && i < |known + added|
    requires IndexOf(known + added, (known + added)[i]) != i
    ensures i < |known| && IndexOf(known, known[i]) != i
  {
    var all := known + added;
    if i < |known| {
      IndexOfPrefix(known, added, known[i]);
    } else {
      assert all[i] == added[i - |known|];
      forall j | 0 <= j < i
        ensures all[j] != all[i]
      {
        if j < |known| {
          assert all[j] in known;
        } else {
          assert all[j] == added[j - |known|];
        }
      }
      IndexOfIsFirst(all, all[i], i);
    }
  }

  /** One plan after another is the first plan overridden by the second, whatever the base and
      the second plan, when the first names no key twice. */
  lemma OverrideComposes<T>(a: seq<T>, b: seq<T>, c: seq<T>, keyOf: T -> string)
    requires Distinct(Keys(b, keyOf))
    ensures Override(Override(a, b, keyOf), c, keyOf) == Override(a, Override(b, c, keyOf), keyOf)
  {
    hide Override, Once, Without, Distinct;
    var ab, bc := Override(a, b, keyOf), Override(b, c, keyOf);
    var left, right := Override(ab, c, keyOf), Override(a, bc, keyOf);
    ComposedKeys(a, b, c, keyOf);
    forall i | 0 <= i < |left|
      ensures left[i] == right[i]
    {
      ComposedAt(a, b, c, keyOf, i);
    }
  }

  lemma ComposedAt<T>(a: seq<T>, b: seq<T>, c: seq<T>, keyOf: T -> string, i: nat)
    requires Distinct(Keys(b, keyOf)) && i < |Override(Override(a, b, keyOf), c, keyOf)|
    ensures i < |Override(a, Override(b, c, keyOf), keyOf)|
    ensures Override(Override(a, b, keyOf), c, keyOf)[i] == Override(a, Override(b, c, keyOf), keyOf)[i]
  {
    hide Override, Once, Without, Distinct;
    var ab, bc := Override(a, b, keyOf), Override(b, c, keyOf);
    var left, right := Override(ab, c, keyOf), Override(a, bc, keyOf);
    ComposedKeys(a, b, c, keyOf);
    var k := keyOf(left[i]);
    assert keyOf(right[i]) == k;
    if IndexOf(Keys(left, keyOf), k) == i {
      ComposedGet(a, b, c, keyOf, k);
      assert Get(left, keyOf, k) == Some(left[i]) && Get(right, keyOf, k) == Some(right[i]);
    } else {
      KeysOverride(a, bc, keyOf);
      OnceIsDistinct(Keys(bc, keyOf));
      DistinctWithout(Once(Keys(bc, keyOf)), Keys(a, keyOf));
      RepeatsAreInBase(Keys(a, keyOf), Without(Once(Keys(bc, keyOf)), Keys(a, keyOf)), i);
      LaterMatchesKept(a, bc, keyOf, i);
      LaterMatchesKept(a, b, keyOf, i);
      KeysOverride(a, b, keyOf);
      IndexOfPrefix(Keys(a, keyOf), Without(Once(Keys(b, keyOf)), Keys(a, keyOf)), k);
      LaterMatchesKept(ab, c, keyOf, i);
    }
  }

  lemma {:induction false} LastOfLater<T>(xs: seq<T>, keyOf: T -> string, i: nat, j: nat, x: T)
    requires i < j < |xs| && keyOf(xs[i]) == keyOf(xs[j]) == keyOf(x)
    ensures Last(xs[i := x], keyOf, keyOf(x)) == Last(xs, keyOf, keyOf(x))
  {
    if keyOf(xs[|xs| - 1]) != keyOf(x) {
      assert xs[i := x][..|xs| - 1] == xs[..|xs| - 1][i := x];
      LastOfLater(xs[..|xs| - 1], keyOf, i, j, x);
    }
  }

  /** A first plan that does name a key twice breaks the law: a second plan that sets the key
      wins when it comes after, and loses to the later repetition when merged in beforehand. */
  lemma RepetitionDecomposes<T>(b: seq<T>, keyOf: T -> string, i: nat, j: nat, x: T)
    requires i < j < |b| && keyOf(b[i]) == keyOf(b[j]) == keyOf(x) && Last(b, keyOf, keyOf(x)) != Some(x)
    ensures Override(Override([], b, keyOf), [x], keyOf) != Override([], Override(b, [x], keyOf), keyOf)
  {
    hide Override, Get, Last, Keys;
    var k := keyOf(x);
    var f := IndexOf(Keys(b, keyOf), k);
    FirstIsNoLater(b, keyOf, i);
    OverrideOne(b, x, keyOf);
    OverrideOne(Override([], b, keyOf), x, keyOf);
    LastOfLater(b, keyOf, f, j, x);
    SomeLast(b, keyOf, j);
    GetOverride([], b[f := x], keyOf, k);
    GetPut(Override([], b, keyOf), keyOf, x, k);
  }

  lemma FirstIsNoLater<T>(xs: seq<T>, keyOf: T -> string, i: nat)
    requires i < |xs|
    ensures 0 <= IndexOf(Keys(xs, keyOf), keyOf(xs[i])) <= i
  {
    var ks := Keys(xs, keyOf);
    var f := IndexOf(ks, ks[i]);
    forall j | 0 <= j < f
      ensures ks[j] != ks[i]
    {
      assert ks[..f][j] == ks[j];
    }
  }

  lemma OverrideOne<T>(base: seq<T>, x: T, keyOf: T -> string)
    ensures Override(base, [x], keyOf) == Put(base, keyOf, x)
  {
    var none: seq<T> := [];
    assert [x][..0] == none;
    assert Override(base, none, keyOf) == base;
    OverrideStep(base, [x], keyOf);
  }

  lemma {:induction false} SomeLast<T>(xs: seq<T>, keyOf: T -> string, j: nat)
    requires j < |xs|
    ensures Last(xs, keyOf, keyOf(xs[j])).Some?
  {
    if keyOf(xs[|xs| - 1]) != keyOf(xs[j]) {
      SomeLast(xs[..|xs| - 1], keyOf, j);
    }
  }

  // ----- keys put together from parts

  /** Two parts joined by a double colon can be told apart again when the first has no colon. */
  lemma DoubleColonSplits(a: string, x: string, b: string, y: string)
    requires ':' !in a && ':' !in b
    ensures a + "::" + x == b + "::" + y <==> a == b && x == y
  {
    var k, l, n, m := a + "::" + x, b + "::" + y, |a|, |b|;
    assert k[..n] == a && k[n + 2..] == x && l[..m] == b && l[m + 2..] == y;
    assert k[n] == ':' && forall i | 0 <= i < n :: k[i] != ':';
    assert l[m] == ':' && forall i | 0 <= i < m :: l[i] != ':';
  }
}
