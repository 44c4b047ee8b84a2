/** The payment ledger written from Paystack events: one row per reference, refined to a plain
    reading of the whole event history. */
module Payments {
  import opened OrderedMerge

  datatype Status = Success | Failed | Pending | Refunded

  /** A metadata value: text, or anything else. */
  datatype Meta = Text(text: string) | Other

  datatype Data = Data(reference: Option<string>, amount: Option<int>, currency: Option<string>,
                       status: Option<string>, channel: Option<string>, paidAt: Option<string>,
                       email: Option<string>, metadata: Option<map<string, Meta>>)

  datatype Event = Event(name: Option<string>, data: Option<Data>)

  datatype Row = Row(amount: int, currency: string, status: Status, channel: Option<string>,
                     email: Option<string>, organizationId: Option<string>, userId: Option<string>,
                     paidAt: Option<string>, rawEvent: Event)

  const ORGANIZATION_KEYS: seq<string> := ["organizationId", "organization_id"]
  const USER_KEYS: seq<string> := ["userId", "user_id", "actorUserId"]

  function MapStatus(name: Option<string>, status: Option<string>): Status {
    if name.Some? && "refund" <= name.value then Refunded
    else if status == Some("success") then Success
    else if status == Some("failed") then Failed
    else Pending
  }

  /** The first of the keys that holds a non-empty text. */
  function PickMeta(metadata: Option<map<string, Meta>>, keys: seq<string>): Option<string> {
    if metadata.None? || keys == [] then None
    else if keys[0] in metadata.value && metadata.value[keys[0]].Text? && metadata.value[keys[0]].text != "" then
      Some(metadata.value[keys[0]].text)
    else PickMeta(metadata, keys[1..])
  }

  /** The first key that holds a non-empty text decides; without one nothing is picked. */
  lemma {:induction false} PickedIsFirst(metadata: map<string, Meta>, keys: seq<string>, i: nat)
    requires i <= |keys|
    requires forall j | 0 <= j < i ::
               keys[j] !in metadata || metadata[keys[j]] == Other || metadata[keys[j]] == Text("")
    ensures i == |keys| ==> PickMeta(Some(metadata), keys) == None
    ensures i < |keys| && keys[i] in metadata && metadata[keys[i]].Text? && metadata[keys[i]].text != "" ==>
              PickMeta(Some(metadata), keys) == Some(metadata[keys[i]].text)
  {
    if i == 0 {
    } else {
      PickedIsFirst(metadata, keys[1..], i - 1);
    }
  }

  // ----- what an event carries

  /** The reference an event is recorded under; without one it is ignored. */
  function Ref(e: Event): Option<string> {
    if e.data.Some? && e.data.value.reference.Some? && e.data.value.reference.value != "" then e.data.value.reference
    else None
  }

  function Amount(e: Event): Option<int> { if e.data.Some? then e.data.value.amount else None }

  function Currency(e: Event): Option<string> { if e.data.Some? then e.data.value.currency else None }

  function Channel(e: Event): Option<string> { if e.data.Some? then e.data.value.channel else None }

  function Email(e: Event): Option<string> { if e.data.Some? then e.data.value.email else None }

  function Organization(e: Event): Option<string> {
    if e.data.Some? then PickMeta(e.data.value.metadata, ORGANIZATION_KEYS) else None
  }

  function User(e: Event): Option<string> {
    if e.data.Some? then PickMeta(e.data.value.metadata, USER_KEYS) else None
  }

  /** An empty payment date counts as none. */
  function PaidAt(e: Event): Option<string> {
    if e.data.Some? && e.data.value.paidAt != Some("") then e.data.value.paidAt else None
  }

  function StatusOf(e: Event): Status {
    MapStatus(e.name, if e.data.Some? then e.data.value.status else None)
  }

  // ----- the history of a reference

  /** What the last event of a reference that carries a field says about it. */
  function Carried<T>(history: seq<Event>, ref: string, get: Event -> Option<T>): Option<T> {
    if history == [] then None
    else
      var e := history[|history| - 1];
      if Ref(e) == Some(ref) && get(e).Some? then get(e) else Carried(history[..|history| - 1], ref, get)
  }

  /** The last event of a reference. */
  function Latest(history: seq<Event>, ref: string): Option<Event> {
    if history == [] then None
    else if Ref(history[|history| - 1]) == Some(ref) then Some(history[|history| - 1])
    else Latest(history[..|history| - 1], ref)
  }

  function Or<T>(x: Option<T>, default: T): T {
    if x.Some? then x.value else default
  }

  /** The row a history should leave: each field from the last event that carried it, the status
      from the last event of all. */
  function RowOf(history: seq<Event>, ref: string): Option<Row> {
    var last := Latest(history, ref);
    if last.None? then None
    else Some(Row(Or(Carried(history, ref, Amount), 0), Or(Carried(history, ref, Currency), "NGN"),
                  StatusOf(last.value), Carried(history, ref, Channel), Carried(history, ref, Email),
                  Carried(history, ref, Organization), Carried(history, ref, User), Carried(history, ref, PaidAt),
                  last.value))
  }

  // ----- recording one event

  /** The upsert on the table as a whole. */
  function Recorded(rows: map<string, Row>, e: Event): map<string, Row> {
    if Ref(e).None? then rows
    else
      var ref := Ref(e).value;
      var was := if ref in rows then Some(rows[ref]) else None;
      rows[ref := Row(
        Or(Amount(e), if was.Some? then was.value.amount else 0),
        Or(Currency(e), if was.Some? then was.value.currency else "NGN"),
        StatusOf(e),
        FirstOf(Channel(e), if was.Some? then was.value.channel else None),
        FirstOf(Email(e), if was.Some? then was.value.email else None),
        FirstOf(Organization(e), if was.Some? then was.value.organizationId else None),
        FirstOf(User(e), if was.Some? then was.value.userId else None),
        FirstOf(PaidAt(e), if was.Some? then was.value.paidAt else None),
        e)]
  }

  /** The row an event leaves under its reference: what the event carries, else what the row held,
      else the default; the status of a refund by the event's name, any other by its data. */
  lemma RecordedRow(rows: map<string, Row>, e: Event)
    requires e.data.Some? && e.data.value.reference.Some? && e.data.value.reference.value != ""
    ensures var data, ref := e.data.value, e.data.value.reference.value;
            var now, was := Recorded(rows, e), if ref in rows then Some(rows[ref]) else None;
            var org := PickMeta(data.metadata, ["organizationId", "organization_id"]);
            var user := PickMeta(data.metadata, ["userId", "user_id", "actorUserId"]);
            ref in now && now == rows[ref := now[ref]] && now[ref].rawEvent == e &&
            now[ref].status ==
            (if e.name.Some? && |e.name.value| >= 6 && e.name.value[..6] == "refund" then Refunded
             else if data.status == Some("success") then Success
             else if data.status == Some("failed") then Failed
             else Pending) &&
            now[ref].amount ==
            (if data.amount.Some? then data.amount.value else if was.Some? then was.value.amount else 0) &&
            now[ref].currency ==
            (if data.currency.Some? then data.currency.value else if was.Some? then was.value.currency else "NGN") &&
            now[ref].channel ==
            (if data.channel.Some? then data.channel else if was.Some? then was.value.channel else None) &&
            now[ref].email == (if data.email.Some? then data.email else if was.Some? then was.value.email else None) &&
            now[ref].organizationId ==
            (if org.Some? then org else if was.Some? then was.value.organizationId else None) &&
            now[ref].userId == (if user.Some? then user else if was.Some? then was.value.userId else None) &&
            now[ref].paidAt ==
            (if data.paidAt.Some? && data.paidAt.value != "" then data.paidAt
             else if was.Some? then was.value.paidAt else None)
  {
    hide PickMeta;
  }

  class Ledger {
    var rows: map<string, Row>
    ghost var history: seq<Event>

    /** One row per reference seen, and each row says what the history says. */
    ghost predicate Valid()
      reads this
    {
      forall ref :: if ref in rows then RowOf(history, ref) == Some(rows[ref]) else RowOf(history, ref).None?
    }

    constructor ()
      ensures Valid() && rows == map[] && history == []
    {
      rows, history := map[], [];
    }

    method RecordPaystackEvent(e: Event)
      requires Valid()
      modifies this
      ensures Valid() && history == old(history) + [e] && rows == Recorded(old(rows), e)
    {
      hide RowOf, PickMeta, MapStatus;
      ghost var before := rows;
      history := history + [e];
      if e.data.None? || e.data.value.reference.None? || e.data.value.reference.value == "" {
        RecordedFollowsHistory(before, old(history), e);
        return;
      }
      var data := e.data.value;
      var ref := data.reference.value;
      var status := MapStatus(e.name, data.status);
      var orgId := PickMeta(data.metadata, ORGANIZATION_KEYS);
      var userId := PickMeta(data.metadata, USER_KEYS);
      var tx: Row;
      if ref in rows {
        tx := rows[ref];
      } else {
        tx := Row(0, "NGN", Pending, None, None, None, None, None, e);
      }
      tx := tx.(amount := Or(data.amount, tx.amount));
      tx := tx.(currency := Or(data.currency, tx.currency));
      tx := tx.(status := status);
      tx := tx.(channel := FirstOf(data.channel, tx.channel));
      tx := tx.(email := FirstOf(data.email, tx.email));
      tx := tx.(organizationId := FirstOf(orgId, tx.organizationId));
      tx := tx.(userId := FirstOf(userId, tx.userId));
      tx := tx.(paidAt := if data.paidAt.Some? && data.paidAt.value != "" then data.paidAt else tx.paidAt);
      tx := tx.(rawEvent := e);
      rows := rows[ref := tx];
      RecordedFollowsHistory(before, old(history), e);
    }

    /** After any sequence of events each row is what the whole history says about its reference. */
    method RecordAll(events: seq<Event>)
      requires Valid() && history == []
      modifies this
      ensures Valid() && history == events
      ensures forall ref :: (ref in rows <==> Latest(events, ref).Some?) &&
                            (ref in rows ==> RowOf(events, ref) == Some(rows[ref]))
    {
      for i := 0 to |events|
        invariant Valid() && history == events[..i]
      {
        RecordPaystackEvent(events[i]);
      }
    }
  }

  lemma RecordedFollowsHistory(rows: map<string, Row>, history: seq<Event>, e: Event)
    requires forall ref :: if ref in rows then RowOf(history, ref) == Some(rows[ref]) else RowOf(history, ref).None?
    ensures var now := Recorded(rows, e);
            forall ref :: if ref in now then RowOf(history + [e], ref) == Some(now[ref])
                else RowOf(history + [e], ref).None?
  {
    hide RowOf, Recorded;
    forall ref
      ensures var now := Recorded(rows, e);
              if ref in now then RowOf(history + [e], ref) == Some(now[ref]) else RowOf(history + [e], ref).None?
    {
      RecordedOne(rows, history, e, ref);
    }
  }

  lemma RecordedOne(rows: map<string, Row>, history: seq<Event>, e: Event, ref: string)
    requires if ref in rows then RowOf(history, ref) == Some(rows[ref]) else RowOf(history, ref).None?
    ensures var now := Recorded(rows, e);
            if ref in now then RowOf(history + [e], ref) == Some(now[ref]) else RowOf(history + [e], ref).None?
  {
    assert (history + [e])[..|history|] == history;
    CarriedStep(history, e, ref, Amount);
    CarriedStep(history, e, ref, Currency);
    CarriedStep(history, e, ref, Channel);
    CarriedStep(history, e, ref, Email);
    CarriedStep(history, e, ref, Organization);
    CarriedStep(history, e, ref, User);
    CarriedStep(history, e, ref, PaidAt);
    hide Carried, Amount, Currency, Channel, Email, Organization, User, PaidAt, StatusOf;
  }

  lemma CarriedStep<T>(history: seq<Event>, e: Event, ref: string, get: Event -> Option<T>)
    ensures Carried(history + [e], ref, get) ==
            if Ref(e) == Some(ref) && get(e).Some? then get(e) else Carried(history, ref, get)
    ensures Latest(history, ref).None? ==> Carried(history, ref, get).None?
  {
    assert (history + [e])[..|history|] == history;
    NothingCarried(history, ref, get);
  }

  /** Without an event of the reference nothing is carried. */
  lemma {:induction false} NothingCarried<T>(history: seq<Event>, ref: string, get: Event -> Option<T>)
    ensures Latest(history, ref).None? ==> Carried(history, ref, get).None?
  {
    if history == [] {
    } else {
      NothingCarried(history[..|history| - 1], ref, get);
    }
  }

  // ----- redelivery

  /** Recording an event once more changes nothing exactly when the row's raw event is that very
      event, that is, when it is the last one recorded under its reference. An event without a
      reference never changes anything. */
  lemma Redelivered(history: seq<Event>, rows: map<string, Row>, e: Event)
    requires forall ref :: if ref in rows then RowOf(history, ref) == Some(rows[ref]) else RowOf(history, ref).None?
    ensures Recorded(rows, e) == rows <==>
            Ref(e).Some? ==> Ref(e).value in rows && rows[Ref(e).value].rawEvent == e
  {
    if Ref(e).Some? {
      var ref := Ref(e).value;
      if ref in rows && rows[ref].rawEvent == e {
        LatestCarries(history, ref, Amount);
        LatestCarries(history, ref, Currency);
        LatestCarries(history, ref, Channel);
        LatestCarries(history, ref, Email);
        LatestCarries(history, ref, Organization);
        LatestCarries(history, ref, User);
        LatestCarries(history, ref, PaidAt);
        hide Carried, Latest, Amount, Currency, Channel, Email, Organization, User, PaidAt, StatusOf, Ref;
        assert RowOf(history, ref) == Some(rows[ref]);
        assert Recorded(rows, e)[ref] == rows[ref];
        assert Recorded(rows, e) == rows;
      } else {
        assert Recorded(rows, e)[ref].rawEvent == e;
      }
    }
  }

  /** What the last event of a reference carries is what the history carries. */
  lemma {:induction false} LatestCarries<T>(history: seq<Event>, ref: string, get: Event -> Option<T>)
    ensures Latest(history, ref).Some? && get(Latest(history, ref).value).Some? ==>
              Carried(history, ref, get) == get(Latest(history, ref).value)
  {
    if history == [] {
    } else {
      LatestCarries(history[..|history| - 1], ref, get);
    }
  }

  /** Recording the same event twice in a row is recording it once. */
  lemma RecordedTwice(rows: map<string, Row>, e: Event)
    ensures Recorded(Recorded(rows, e), e) == Recorded(rows, e)
  {
    hide Amount, Currency, Channel, Email, Organization, User, PaidAt, StatusOf, Ref;
    var once := Recorded(rows, e);
    if Ref(e).Some? {
      assert Recorded(once, e)[Ref(e).value] == once[Ref(e).value];
    }
  }

  /** A retry delivered late is not harmless: a charge redelivered after its refund makes the row
      successful again. */
  lemma LateRetryUndoesRefund(ref: string)
    requires ref != ""
    ensures var charge := Event(Some("charge.success"),
            Some(Data(Some(ref), Some(500), None, Some("success"), None, None, None, None)));
            var refund := Event(Some("refund.processed"),
                Some(Data(Some(ref), None, None, None, None, None, None, None)));
            var settled := Recorded(Recorded(map[], charge), refund);
            settled[ref].status == Refunded && Recorded(settled, charge)[ref].status == Success
  {
    assert "refund.processed"[..6] == "refund";
    assert "charge.success"[0] != "refund"[0];
  }

  /** Events of different references commute. */
  lemma RecordedCommute(rows: map<string, Row>, e: Event, f: Event)
    requires Ref(e) != Ref(f)
    ensures Recorded(Recorded(rows, e), f) == Recorded(Recorded(rows, f), e)
  {
    hide Amount, Currency, Channel, Email, Organization, User, PaidAt, StatusOf, Ref;
    if Ref(e).Some? && Ref(f).Some? {
      var left, right := Recorded(Recorded(rows, e), f), Recorded(Recorded(rows, f), e);
      assert left[Ref(e).value] == right[Ref(e).value] && left[Ref(f).value] == right[Ref(f).value];
      assert left.Keys == right.Keys;
    }
  }
}
