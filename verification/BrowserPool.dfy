/** The pool of browsing sessions: never over its bound, and the least recently used goes first. */
module BrowserPool {
  import opened OrderedMerge

  datatype Session = Session(lastUsed: nat, pageClosed: bool)

  // ----- recency lists, least recently used first

  function Touch(keys: seq<string>, k: string): seq<string> {
    Without(keys, [k]) + [k]
  }

  /** All keys of an access trace by their last use. */
  function Recent(trace: seq<string>): seq<string> {
    if trace == [] then [] else Touch(Recent(trace[..|trace| - 1]), trace[|trace| - 1])
  }

  /** The last n of a list. */
  function LastN(keys: seq<string>, n: nat): seq<string> {
    if |keys| <= n then keys else keys[|keys| - n..]
  }

  lemma DropAbsent(keys: seq<string>, k: string)
    requires k !in keys
    ensures Without(keys, [k]) == keys
  {
    WithoutNone(keys, [k]);
  }

  /** Dropping a key that occurs once removes one element. */
  lemma {:induction false} DropOne(keys: seq<string>, k: string)
    requires Distinct(keys)
    ensures Distinct(Without(keys, [k])) && |Without(keys, [k])| == |keys| - (if k in keys then 1 else 0)
  {
    DistinctWithout(keys, [k]);
    if keys == [] {
    } else {
      var init := keys[..|keys| - 1];
      DistinctInit(keys);
      DropOne(init, k);
      assert k in keys <==> k in init || k == keys[|keys| - 1];
    }
  }

  lemma TouchDistinct(keys: seq<string>, k: string)
    requires Distinct(keys)
    ensures Distinct(Touch(keys, k)) && |Touch(keys, k)| == |keys| + (if k in keys then 0 else 1)
  {
    DropOne(keys, k);
  }

  lemma {:induction false} RecentDistinct(trace: seq<string>)
    ensures Distinct(Recent(trace)) && forall k :: k in Recent(trace) <==> k in trace
  {
    if trace == [] {
    } else {
      RecentDistinct(trace[..|trace| - 1]);
      TouchDistinct(Recent(trace[..|trace| - 1]), trace[|trace| - 1]);
    }
  }

  /** The position of the last use of a key. */
  function LastUse(trace: seq<string>, k: string): nat
    requires k in trace
  {
    if trace[|trace| - 1] == k then |trace| - 1 else LastUse(trace[..|trace| - 1], k)
  }

  lemma {:induction false} LastUseBound(trace: seq<string>, k: string)
    requires k in trace
    ensures LastUse(trace, k) < |trace|
  {
    if trace[|trace| - 1] != k {
      LastUseBound(trace[..|trace| - 1], k);
    }
  }

  /** Sorted by last use: what follows in the list was used later. */
  ghost predicate ByLastUse(trace: seq<string>, keys: seq<string>) {
    (forall i | 0 <= i < |keys| :: keys[i] in trace) &&
    forall i, j | 0 <= i < j < |keys| :: LastUse(trace, keys[i]) < LastUse(trace, keys[j])
  }

  lemma {:induction false} DropKeepsOrder(trace: seq<string>, keys: seq<string>, k: string)
    requires ByLastUse(trace, keys)
    ensures ByLastUse(trace, Without(keys, [k]))
  {
    if keys == [] {
    } else {
      hide LastUse, ByLastUse, Without;
      var init, last := keys[..|keys| - 1], keys[|keys| - 1];
      assert keys == init + [last];
      ByLastUseInit(trace, init, last);
      DropKeepsOrder(trace, init, k);
      WithoutAppend(init, last, [k]);
      var rest := Without(init, [k]);
      forall x | x in rest
        ensures LastUse(trace, x) < LastUse(trace, last)
      {
        UsedBefore(trace, init, last, x);
      }
      ByLastUseMore(trace, rest, last);
      assert rest + [] == rest;
    }
  }

  lemma ByLastUseInit(trace: seq<string>, init: seq<string>, last: string)
    requires ByLastUse(trace, init + [last])
    ensures ByLastUse(trace, init) && last in trace
  {
    var keys := init + [last];
    assert forall i | 0 <= i < |init| :: keys[i] == init[i];
    assert keys[|init|] == last;
  }

  lemma UsedBefore(trace: seq<string>, init: seq<string>, last: string, x: string)
    requires ByLastUse(trace, init + [last]) && x in init
    ensures x in trace && last in trace && LastUse(trace, x) < LastUse(trace, last)
  {
    var keys := init + [last];
    var j :| 0 <= j < |init| && init[j] == x;
    assert keys[j] == x && keys[|init|] == last;
  }

  lemma ByLastUseMore(trace: seq<string>, keys: seq<string>, last: string)
    requires ByLastUse(trace, keys) && last in trace
    requires forall x | x in keys :: x in trace && LastUse(trace, x) < LastUse(trace, last)
    ensures ByLastUse(trace, keys + [last])
  {
    hide LastUse;
  }

  /** The recency list is all distinct keys of the trace in the order of their last uses. */
  lemma {:induction false} RecentByLastUse(trace: seq<string>)
    ensures ByLastUse(trace, Recent(trace))
  {
    if trace == [] {
    } else {
      hide LastUse, ByLastUse, Without;
      var init, k := trace[..|trace| - 1], trace[|trace| - 1];
      assert trace == init + [k];
      RecentByLastUse(init);
      DropKeepsOrder(init, Recent(init), k);
      OlderUses(init, k, Without(Recent(init), [k]));
      ByLastUseMore(trace, Without(Recent(init), [k]), k);
    }
  }

  /** A further use leaves the last uses of other keys where they were. */
  lemma OlderUses(init: seq<string>, k: string, keys: seq<string>)
    requires ByLastUse(init, keys) && k !in keys
    ensures var trace := init + [k];
            ByLastUse(trace, keys) && forall x | x in keys :: x in trace && LastUse(trace, x) < LastUse(trace, k)
  {
    var trace := init + [k];
    assert trace[..|init|] == init;
    forall i | 0 <= i < |keys|
      ensures keys[i] in trace && LastUse(trace, keys[i]) == LastUse(init, keys[i]) < |init|
    {
      assert keys[i] in keys;
      LastUseBound(init, keys[i]);
    }
  }

  /** What the pool does to its recency list when a key is used. */
  function Use(keys: seq<string>, k: string, max: int): seq<string> {
    if k in keys then Touch(keys, k)
    else if |keys| >= max && keys != [] then keys[1..] + [k]
    else keys + [k]
  }

  lemma UseOfKept(cut: seq<string>, kept: seq<string>, k: string, n: nat)
    requires Distinct(cut + kept) && k in kept && (|kept| == n || (|kept| <= n && cut == []))
    ensures LastN(Touch(cut + kept, k), n) == Touch(kept, k)
  {
    DistinctParts(cut, kept);
    NotInBoth(cut, kept, k);
    WithoutConcat(cut, kept, [k]);
    DropAbsent(cut, k);
    DropOne(kept, k);
    assert Touch(cut + kept, k) == cut + Touch(kept, k);
    LastNOf(cut, Touch(kept, k), n);
  }

  lemma Shift(front: seq<string>, kept: seq<string>, k: string)
    requires kept != []
    ensures (front + kept) + [k] == (front + [kept[0]]) + (kept[1..] + [k])
  {
    assert kept == [kept[0]] + kept[1..];
  }

  lemma UseOfOther(cut: seq<string>, kept: seq<string>, k: string, n: nat)
    requires Distinct(cut + kept) && k !in kept && n >= 1 && (|kept| == n || (|kept| < n && cut == []))
    ensures LastN(Touch(cut + kept, k), n) == if |kept| == n then kept[1..] + [k] else kept + [k]
  {
    WithoutConcat(cut, kept, [k]);
    DropAbsent(kept, k);
    var front := Without(cut, [k]);
    assert Touch(cut + kept, k) == (front + kept) + [k];
    hide Without, Touch, LastN, Distinct;
    if |kept| == n {
      Shift(front, kept, k);
      LastNOf(front + [kept[0]], kept[1..] + [k], n);
    } else {
      DropAbsent(cut, k);
      Regroup(front, kept, [k]);
      LastNOf([], kept + [k], n);
    }
  }

  /** Keeping only the last n keys at every step keeps the last n keys of the whole trace. */
  lemma UseKeepsLastN(all: seq<string>, k: string, n: nat)
    requires Distinct(all) && n >= 1
    ensures Use(LastN(all, n), k, n) == LastN(Touch(all, k), n)
  {
    var kept := LastN(all, n);
    var cut := all[..|all| - |kept|];
    assert all == cut + kept;
    hide Without, Distinct;
    if k in kept {
      UseOfKept(cut, kept, k, n);
    } else {
      UseOfOther(cut, kept, k, n);
    }
  }

  lemma LastNOf(front: seq<string>, back: seq<string>, n: nat)
    requires |back| == n || (|back| <= n && front == [])
    ensures LastN(front + back, n) == back
  {
  }

  lemma NotInBoth(a: seq<string>, b: seq<string>, k: string)
    requires Distinct(a + b) && k in b
    ensures k !in a
  {
    forall i | 0 <= i < |a|
      ensures a[i] != k
    {
      var j :| 0 <= j < |b| && b[j] == k;
      assert (a + b)[i] != (a + b)[|a| + j];
    }
  }

  lemma {:induction false} MembersCount(keys: seq<string>)
    requires Distinct(keys)
    ensures |Members(keys)| == |keys|
  {
    if keys == [] {
    } else {
      DistinctParts([keys[0]], keys[1..]);
      assert keys == [keys[0]] + keys[1..];
      MembersCount(keys[1..]);
      assert Members(keys) == {keys[0]} + Members(keys[1..]);
    }
  }

  // ----- the pool

  /** In strictly increasing order of last use. */
  ghost predicate Sorted(sessions: map<string, Session>, keys: seq<string>) {
    (forall i | 0 <= i < |keys| :: keys[i] in sessions) &&
    forall i, j | 0 <= i < j < |keys| :: sessions[keys[i]].lastUsed < sessions[keys[j]].lastUsed
  }

  /** The keys are exactly those of the sessions, least recently used first. */
  ghost predicate Ordered(sessions: map<string, Session>, recency: seq<string>) {
    Distinct(recency) && sessions.Keys == Members(recency) && Sorted(sessions, recency)
  }

  lemma {:induction false} DropSorted(sessions: map<string, Session>, keys: seq<string>, k: string)
    requires Sorted(sessions, keys)
    ensures Sorted(sessions, Without(keys, [k]))
  {
    if keys == [] {
    } else {
      var init, last := keys[..|keys| - 1], keys[|keys| - 1];
      DropSorted(sessions, init, k);
      var rest := Without(init, [k]);
      forall i | 0 <= i < |rest|
        ensures rest[i] in sessions && sessions[rest[i]].lastUsed < sessions[last].lastUsed
      {
        assert rest[i] in rest;
        var j :| 0 <= j < |init| && init[j] == rest[i];
        assert keys[j] == init[j];
      }
    }
  }

  lemma OrderedDrop(sessions: map<string, Session>, recency: seq<string>, k: string)
    requires Ordered(sessions, recency)
    ensures Ordered(sessions - {k}, Without(recency, [k]))
  {
    DropOne(recency, k);
    DropSorted(sessions, recency, k);
    var r := Without(recency, [k]);
    forall i | 0 <= i < |r|
      ensures r[i] != k
    {
      assert r[i] in r;
    }
  }

  lemma OrderedTouch(sessions: map<string, Session>, recency: seq<string>, k: string, s: Session)
    requires Ordered(sessions, recency) && forall j | j in sessions :: sessions[j].lastUsed < s.lastUsed
    ensures Ordered(sessions[k := s], Touch(recency, k))
  {
    OrderedDrop(sessions, recency, k);
    TouchDistinct(recency, k);
    var r := Without(recency, [k]);
    forall i | 0 <= i < |r|
      ensures r[i] != k && r[i] in sessions
    {
      assert r[i] in r;
    }
  }

  lemma OrderedDistinct(sessions: map<string, Session>, recency: seq<string>)
    requires Ordered(sessions, recency)
    ensures Distinct(recency) && forall k :: k in recency <==> k in sessions
  {
    assert forall k :: k in Members(recency) <==> k in sessions.Keys;
  }

  /** The sessions of a pool, and their keys from the least recently used on. */
  datatype State = State(sessions: map<string, Session>, recency: seq<string>, clock: nat)

  datatype Happening =
    | Used(key: string, now: nat, launched: bool)
    | PageClosed(key: string)
    | SweepDue(now: nat)
    | BrowserGone

  /** The keys of a list that are in a set. */
  function Only(keys: seq<string>, kept: set<string>): seq<string> {
    if keys == [] then []
    else
      var rest := Only(keys[..|keys| - 1], kept);
      if keys[|keys| - 1] in kept then rest + [keys[|keys| - 1]] else rest
  }

  lemma {:induction false} OnlyMembers(keys: seq<string>)
    ensures Only(keys, Members(keys)) == keys
    ensures forall kept :: Members(keys) <= kept ==> Only(keys, kept) == keys
  {
    if keys == [] {
    } else {
      OnlyMembers(keys[..|keys| - 1]);
      assert keys == keys[..|keys| - 1] + [keys[|keys| - 1]];
      assert Members(keys[..|keys| - 1]) <= Members(keys);
    }
  }

  lemma {:induction false} OnlyWithout(keys: seq<string>, kept: set<string>, k: string)
    ensures Without(Only(keys, kept), [k]) == Only(keys, kept - {k})
  {
    if keys == [] {
    } else {
      var init, last := keys[..|keys| - 1], keys[|keys| - 1];
      OnlyWithout(init, kept, k);
      if last in kept {
        WithoutAppend(Only(init, kept), last, [k]);
      }
    }
  }

  /** A full pool without its least recently used session. */
  function Cleared(s: State, max: int): State {
    if |s.recency| >= max && s.recency != []
    then s.(sessions := s.sessions - {s.recency[0]}, recency := s.recency[1..])
    else s
  }

  /** What a pool becomes when something happens to it. A use with an open page or a successful
      launch stamps the key; a launch clears the way first, whether it succeeds or not. */
  function Happened(s: State, e: Happening, max: int, enabled: bool, idleMs: int): State {
    match e
    case Used(key, now, launched) =>
      var hit := key in s.sessions && !s.sessions[key].pageClosed;
      var room := if hit || !enabled then s else Cleared(s, max);
      if now <= s.clock then s
      else if hit || (enabled && launched) then
        State(room.sessions[key := Session(now, false)], Touch(room.recency, key), now)
      else room.(clock := now)
    case PageClosed(key) =>
      if key in s.sessions then s.(sessions := s.sessions[key := s.sessions[key].(pageClosed := true)]) else s
    case SweepDue(now) =>
      var awake := set k | k in s.sessions && now - s.sessions[k].lastUsed <= idleMs;
      s.(sessions := map k | k in awake :: s.sessions[k], recency := Only(s.recency, awake))
    case BrowserGone => s.(sessions := map[], recency := [])
  }

  function AllHappened(s: State, events: seq<Happening>, max: int, enabled: bool, idleMs: int): State {
    if events == [] then s
    else
      Happened(AllHappened(s, events[..|events| - 1], max, enabled, idleMs), events[|events| - 1], max, enabled, idleMs)
  }

  class Pool {
    const max: int
    const enabled: bool
    const idleMs: int
    var sessions: map<string, Session>
    var clock: nat
    ghost var recency: seq<string>

    /** Never more sessions than the bound, read as at least one. */
    ghost predicate Valid()
      reads this
    {
      Ordered(sessions, recency) && (forall k | k in sessions :: sessions[k].lastUsed <= clock) &&
      |recency| <= (if max < 1 then 1 else max)
    }

    constructor (max: int, enabled: bool, idleMs: int)
      ensures Valid() && recency == [] && clock == 0
      ensures this.max == max && this.enabled == enabled && this.idleMs == idleMs
    {
      this.max, this.enabled, this.idleMs := max, enabled, idleMs;
      sessions, clock, recency := map[], 0, [];
    }

    lemma Size()
      requires Valid()
      ensures |sessions| == |recency|
    {
      MembersCount(recency);
      assert |sessions| == |sessions.Keys|;
    }

    /** `sort((a, b) => a.lastUsed - b.lastUsed)[0]` */
    method LeastRecent() returns (lru: string)
      requires Valid() && sessions != map[]
      ensures recency != [] && lru == recency[0]
    {
      var left := sessions.Keys;
      lru :| lru in left;
      left := left - {lru};
      while left != {}
        invariant left <= sessions.Keys && lru in sessions
        invariant forall k | k in sessions && k !in left :: sessions[lru].lastUsed <= sessions[k].lastUsed
        decreases left
      {
        var k :| k in left;
        if sessions[k].lastUsed < sessions[lru].lastUsed {
          lru := k;
        }
        left := left - {k};
      }
      assert recency[0] in sessions;
      ghost var i :| 0 <= i < |recency| && recency[i] == lru;
    }

    method Close(key: string)
      requires Valid()
      modifies this`sessions, this`recency
      ensures Valid() && sessions == old(sessions) - {key} && recency == Without(old(recency), [key])
    {
      OrderedDrop(sessions, recency, key);
      DropOne(recency, key);
      recency := Without(recency, [key]);
      sessions := sessions - {key};
    }

    /** The key's session is open and used just now. */
    method Stamp(key: string, now: nat)
      requires Valid() && now > clock
      requires key in recency || |recency| < (if max < 1 then 1 else max)
      modifies this
      ensures Valid() && clock == now
      ensures sessions == old(sessions)[key := Session(now, false)] && recency == Touch(old(recency), key)
    {
      OrderedTouch(sessions, recency, key, Session(now, false));
      TouchDistinct(recency, key);
      sessions := sessions[key := Session(now, false)];
      recency := Touch(recency, key);
      clock := now;
    }

    ghost function Now(): State
      reads this
    {
      State(sessions, recency, clock)
    }

    lemma ClearedRoom(s: State)
      ensures s == Now() ==> Cleared(s, max).recency == Room() && Cleared(s, max).clock == clock
    {
    }

    /** The recency list after making room for one more session. */
    ghost function Room(): seq<string>
      reads this
    {
      if |recency| >= max && recency != [] then recency[1..] else recency
    }

    /** Using a key is touching it, once there is room for it. */
    lemma RoomTouched(key: string)
      requires Valid()
      ensures Use(recency, key, max) == Touch(if key in sessions then recency else Room(), key)
    {
      OrderedDistinct(sessions, recency);
      UseTouches(recency, key, max);
      hide Ordered, Use, Touch, Distinct;
    }

    lemma AllKept()
      requires Valid()
      ensures recency == Only(recency, sessions.Keys)
    {
      OnlyMembers(recency);
    }

    /** A full pool gives up its least recently used session. */
    method MakeRoom()
      requires Valid()
      modifies this`sessions, this`recency
      ensures Valid() && recency == old(Room())
      ensures |recency| < (if max < 1 then 1 else max)
      ensures forall k | k in sessions :: k in old(sessions) && sessions[k] == old(sessions)[k]
      ensures Now() == Cleared(old(Now()), max)
    {
      Size();
      if |sessions| >= max {
        if sessions != map[] {
          var lru := LeastRecent();
          DropFirst(recency);
          Close(lru);
        }
      }
    }

    /** The open session of a key, or a new one in place of the least recently used when the pool
        is full. A launch that fails may have evicted, but adds nothing. */
    method Ensure(key: string, now: nat, launched: bool) returns (ok: bool)
      requires Valid() && now > clock
      modifies this
      ensures Valid() && clock == now
      ensures var hit := key in old(sessions) && !old(sessions)[key].pageClosed;
              ok == (hit || (enabled && launched)) &&
              recency == (if hit then Touch(old(recency), key)
                          else if !enabled then old(recency)
                          else if launched then Touch(old(Room()), key) else old(Room()))
      ensures ok ==> key in sessions && sessions[key] == Session(now, false)
      ensures forall k | k in sessions && k != key :: k in old(sessions) && sessions[k] == old(sessions)[k]
      ensures Now() == Happened(old(Now()), Used(key, now, launched), max, enabled, idleMs)
    {
      UsedBy(Now(), key, now, launched, max, enabled, idleMs);
      ClearedRoom(Now());
      hide Happened, Cleared, Touch, Ordered;
      if key in sessions && !sessions[key].pageClosed {
        OrderedDistinct(sessions, recency);
        Stamp(key, now);
        return true;
      }
      if enabled {
        MakeRoom();
        if launched {
          Stamp(key, now);
          return true;
        }
      }
      clock := now;
      ok := false;
    }

    /** Close the session of a key if it has been idle too long. */
    method CloseIdle(key: string, now: nat)
      requires Valid() && key in sessions
      modifies this`sessions, this`recency
      ensures Valid()
      ensures Now() == Closed(old(Now()), key, now, idleMs)
    {
      hide Ordered, Without;
      if now - sessions[key].lastUsed > idleMs {
        Close(key);
      }
    }

    /** The loop over the sessions. */
    method SweepAll(now: nat)
      requires Valid()
      modifies this`sessions, this`recency
      ensures Valid() && Sweeping(old(Now()), Now(), {}, now, idleMs)
    {
      AllKept();
      ghost var was := Now();
      SweepBegins(was, now, idleMs);
      hide *;
      var left := sessions.Keys;
      while left != {}
        invariant Valid() && Sweeping(was, Now(), left, now, idleMs)
        decreases left
      {
        var key :| key in left;
        ghost var s := Now();
        SweepGoesOn(was, s, left, key, now, idleMs);
        NowIs();
        CloseIdle(key, now);
        assert Now() == Closed(s, key, now, idleMs);
        left := left - {key};
      }
    }

    lemma NowIs()
      ensures Now() == State(sessions, recency, clock)
    {
    }

    /** Exactly the sessions idle for longer than allowed go. */
    method Sweep(now: nat)
      requires Valid()
      modifies this`sessions, this`recency
      ensures Valid()
      ensures forall k :: k in sessions <==> k in old(sessions) && now - old(sessions)[k].lastUsed <= idleMs
      ensures forall k | k in sessions :: sessions[k] == old(sessions)[k]
      ensures Now() == Happened(old(Now()), SweepDue(now), max, enabled, idleMs)
    {
      hide Ordered, Only, Happened, Without, Sweeping;
      SweepAll(now);
      Swept(old(Now()), Now(), now, max, enabled, idleMs);
    }

    /** A page closes behind the pool's back. */
    method PageCloses(key: string)
      requires Valid()
      modifies this`sessions
      ensures Valid() && recency == old(recency)
      ensures sessions == if key in old(sessions) then old(sessions)[key := old(sessions)[key].(pageClosed := true)]
                          else old(sessions)
    {
      if key in sessions {
        sessions := sessions[key := sessions[key].(pageClosed := true)];
      }
    }

    /** The browser disconnects and takes all sessions with it. */
    method Disconnected()
      requires Valid()
      modifies this`sessions, this`recency
      ensures Valid() && sessions == map[] && recency == []
    {
      sessions, recency := map[], [];
    }

    /** Whatever happens to the pool, uses and failed launches, closed pages, sweeps and
        disconnections in any order, it becomes what these make of it one after another, and never
        holds more sessions than its bound. */
    method Endure(events: seq<Happening>)
      requires Valid()
      modifies this
      ensures Valid() && |sessions| <= (if max < 1 then 1 else max)
      ensures Now() == AllHappened(old(Now()), events, max, enabled, idleMs)
    {
      hide Ordered, Happened;
      for i := 0 to |events|
        invariant Valid() && Now() == AllHappened(old(Now()), events[..i], max, enabled, idleMs)
      {
        assert events[..i + 1][..i] == events[..i];
        HappenedUnfolds(Now(), events[i], max, enabled, idleMs);
        match events[i] {
          case Used(key, now, launched) =>
            if now > clock {
              var ok := Ensure(key, now, launched);
            }
          case PageClosed(key) => PageCloses(key);
          case SweepDue(now) => Sweep(now);
          case BrowserGone => Disconnected();
        }
      }
      assert events[..|events|] == events;
      Size();
    }

    /** One use, with nothing closed or swept: the pool keeps the most recently used of all keys. */
    method ServeOne(ghost all: seq<string>, key: string, now: nat)
      requires Valid() && enabled && max >= 1 && now > clock
      requires Distinct(all) && recency == LastN(all, max)
      requires forall k | k in sessions :: !sessions[k].pageClosed
      modifies this
      ensures Valid() && clock == now && recency == LastN(Touch(all, key), max)
      ensures forall k | k in sessions :: !sessions[k].pageClosed
    {
      hide *;
      ghost var kept := if key in sessions then recency else Room();
      RoomTouched(key);
      UseKeepsLastN(all, key, max);
      var ok := Ensure(key, now, true);
      assert recency == Touch(kept, key);
    }

    /** Serving a whole trace with nothing closed or swept, the pool holds exactly the `max`
        most recently used distinct keys of the trace, in the order of their last uses. */
    method Serve(trace: seq<string>, times: seq<nat>)
      requires Valid() && sessions == map[] && enabled && max >= 1
      requires |times| == |trace| && Increasing(clock, times)
      modifies this
      ensures Valid() && recency == LastN(Recent(trace), max)
      ensures sessions.Keys == Members(LastN(Recent(trace), max))
    {
      assert recency == [] by { Size(); }
      assert Recent([]) == [];
      hide Touch, LastN, Distinct, Without, Sorted;
      assert recency == LastN(Recent(trace[..0]), max) by { LastOfNone(max); }
      for i := 0 to |trace|
        invariant Valid() && recency == LastN(Recent(trace[..i]), max)
        invariant clock == Before(old(clock), times, i)
        invariant forall k | k in sessions :: !sessions[k].pageClosed
      {
        RecentDistinct(trace[..i]);
        RecentStep(trace, i);
        ServeOne(Recent(trace[..i]), trace[i], times[i]);
      }
      assert trace[..|trace|] == trace;
    }
  }

  lemma LastOfNone(n: nat)
    ensures LastN([], n) == []
  {
  }

  lemma RecentStep(trace: seq<string>, i: nat)
    requires i < |trace|
    ensures Recent(trace[..i + 1]) == Touch(Recent(trace[..i]), trace[i])
  {
    assert trace[..i + 1][..i] == trace[..i];
  }

  /** A sweep that has these keys left to look at. */
  ghost predicate Sweeping(was: State, s: State, left: set<string>, now: nat, idleMs: int) {
    left <= was.sessions.Keys && s.clock == was.clock && s.recency == Only(was.recency, s.sessions.Keys) &&
    (forall k :: k in s.sessions <==>
       k in was.sessions && (k in left || now - was.sessions[k].lastUsed <= idleMs)) &&
    forall k | k in s.sessions :: s.sessions[k] == was.sessions[k]
  }

  /** The pool without the session of a key, if that has been idle too long. */
  function Closed(s: State, key: string, now: nat, idleMs: int): State
    requires key in s.sessions
  {
    if now - s.sessions[key].lastUsed > idleMs then State(s.sessions - {key}, Without(s.recency, [key]), s.clock) else s
  }

  lemma SweepBegins(s: State, now: nat, idleMs: int)
    requires s.recency == Only(s.recency, s.sessions.Keys)
    ensures Sweeping(s, s, s.sessions.Keys, now, idleMs)
  {
  }

  lemma SweepGoesOn(was: State, s: State, left: set<string>, key: string, now: nat, idleMs: int)
    requires Sweeping(was, s, left, now, idleMs) && key in left
    ensures key in s.sessions
    ensures Sweeping(was, Closed(s, key, now, idleMs), left - {key}, now, idleMs)
  {
    hide Only, Without;
    OnlyWithout(was.recency, s.sessions.Keys, key);
    assert (s.sessions - {key}).Keys == s.sessions.Keys - {key};
  }

  lemma Swept(was: State, s: State, now: nat, max: int, enabled: bool, idleMs: int)
    requires Sweeping(was, s, {}, now, idleMs)
    ensures s == Happened(was, SweepDue(now), max, enabled, idleMs)
    ensures forall k :: k in s.sessions <==> k in was.sessions && now - was.sessions[k].lastUsed <= idleMs
    ensures forall k | k in s.sessions :: s.sessions[k] == was.sessions[k]
  {
    hide Only;
    var awake := set k | k in was.sessions && now - was.sessions[k].lastUsed <= idleMs;
    assert s.sessions.Keys == awake;
    assert s.sessions == map k | k in awake :: was.sessions[k];
  }

  lemma UsedBy(s: State, key: string, now: nat, launched: bool, max: int, enabled: bool, idleMs: int)
    requires now > s.clock
    ensures var hit := key in s.sessions && !s.sessions[key].pageClosed;
            var room := if hit || !enabled then s else Cleared(s, max);
            Happened(s, Used(key, now, launched), max, enabled, idleMs) ==
            if hit || (enabled && launched)
            then State(room.sessions[key := Session(now, false)], Touch(room.recency, key), now)
            else room.(clock := now)
  {
  }

  lemma HappenedUnfolds(s: State, e: Happening, max: int, enabled: bool, idleMs: int)
    ensures e.Used? && e.now <= s.clock ==> Happened(s, e, max, enabled, idleMs) == s
    ensures e.PageClosed? ==>
              Happened(s, e, max, enabled, idleMs) ==
              if e.key in s.sessions
              then s.(sessions := s.sessions[e.key := s.sessions[e.key].(pageClosed := true)]) else s
    ensures e.BrowserGone? ==> Happened(s, e, max, enabled, idleMs) == s.(sessions := map[], recency := [])
  {
  }

  /** The instant before the i-th. */
  function Before(start: nat, times: seq<nat>, i: nat): nat
    requires i <= |times|
  {
    if i == 0 then start else times[i - 1]
  }

  predicate Increasing(start: nat, times: seq<nat>) {
    forall i | 0 <= i < |times| :: Before(start, times, i) < times[i]
  }

  lemma DropFirst(keys: seq<string>)
    requires keys != [] && Distinct(keys)
    ensures Without(keys, [keys[0]]) == keys[1..]
  {
    assert keys == [keys[0]] + keys[1..];
    WithoutConcat([keys[0]], keys[1..], [keys[0]]);
    WithoutAll([keys[0]], [keys[0]]);
    assert keys[0] !in keys[1..];
    DropAbsent(keys[1..], keys[0]);
  }

  lemma UseTouches(keys: seq<string>, k: string, max: int)
    requires Distinct(keys)
    ensures Use(keys, k, max) == Touch(if k !in keys && |keys| >= max && keys != [] then keys[1..] else keys, k)
  {
    if k !in keys {
      DropAbsent(keys, k);
      if keys != [] {
        DropAbsent(keys[1..], k);
      }
    }
  }
}
