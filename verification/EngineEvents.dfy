/** The event stream of an engine session and what makes it disciplined. */
module EngineEvents {
  import opened OrderedMerge

  type Json = string

  datatype RuntimeState =
    Queued | Thinking | Executing | Testing | Repairing | Deploying | ReadyForFeedback | Failed | Stopped

  /** What a tool hands back, as far as printing it can tell values apart. */
  datatype Output =
    | Nothing
    | Text(text: string)
    | Scalar(json: Json)                 // a number or a boolean
    | BigInt                             // JSON.stringify throws
    | Structure(serialized: Option<Json>) // None: cyclic, JSON.stringify throws
    | Status(state: RuntimeState)

  datatype Event =
    | SessionStarted
    | SessionRouted(tier: nat, tool: Option<string>)
    | MessageComplete(text: string)
    | ToolCall(id: string, name: string, input: Json)
    | ToolResult(id: string, name: string, ok: bool, summary: Option<string>, output: Output)
    | SessionComplete(turns: nat, stopReason: string)
    | SessionError(message: string)

  // ----- texts of several lines

  /** `join('\n')` */
  function Lines(ls: seq<string>): string {
    if ls == [] then "" else if |ls| == 1 then ls[0] else ls[0] + "\n" + Lines(ls[1..])
  }

  /** Between two lines, and nowhere else, stands one line feed. */
  lemma {:induction false} LinesJoin(a: seq<string>, b: seq<string>, line: string)
    ensures Lines([]) == "" && Lines([line]) == line
    ensures a != [] && b != [] ==> Lines(a + b) == Lines(a) + "\n" + Lines(b)
  {
    if a == [] || b == [] {
    } else {
      LinesJoin(a[1..], b, line);
      assert (a + b)[1..] == a[1..] + b;
      if |a| > 1 {
        Regrouped(a[0], "\n", Lines(a[1..]), Lines(b));
      }
    }
  }

  lemma Regrouped(a: string, sep: string, b: string, c: string)
    ensures a + sep + (b + sep + c) == (a + sep + b) + sep + c
  {
  }

  /** Lines of lines are lines. */
  lemma LinesFlat(first: seq<string>, rest: seq<string>)
    requires first != [] && rest != []
    ensures Lines([Lines(first)] + rest) == Lines(first + rest)
  {
    LinesJoin([Lines(first)], rest, Lines(first));
    LinesJoin(first, rest, "");
  }

  // ----- one result for every call

  /** A reader of the stream: no call open, one awaiting its result, or the discipline broken. */
  datatype Reading = Idle | Awaiting(id: string) | Broken

  function Read(r: Reading, e: Event): Reading {
    match e
    case ToolCall(id, _, _) => if r == Idle then Awaiting(id) else Broken
    case ToolResult(id, _, _, _, _) => if r == Awaiting(id) then Idle else Broken
    case _ => r
  }

  function ReadAll(r: Reading, events: seq<Event>): Reading {
    if events == [] then r else Read(ReadAll(r, events[..|events| - 1]), events[|events| - 1])
  }

  /** Each tool.call is followed by exactly one tool.result with its id before the next call. */
  predicate Answered(events: seq<Event>) {
    ReadAll(Idle, events) == Idle
  }

  lemma {:induction false} ReadJoin(r: Reading, a: seq<Event>, b: seq<Event>)
    ensures ReadAll(r, a + b) == ReadAll(ReadAll(r, a), b)
  {
    if b == [] {
      assert a + b == a;
    } else {
      ReadJoin(r, a, b[..|b| - 1]);
      assert (a + b)[..|a + b| - 1] == a + b[..|b| - 1];
    }
  }

  lemma ReadNext(r: Reading, events: seq<Event>, e: Event)
    ensures ReadAll(r, events + [e]) == Read(ReadAll(r, events), e)
  {
    assert (events + [e])[..|events|] == events;
  }

  /** A stream without calls and results leaves the reader as it was. */
  lemma {:induction false} ReadQuiet(r: Reading, events: seq<Event>)
    requires forall i | 0 <= i < |events| :: !events[i].ToolCall? && !events[i].ToolResult?
    ensures ReadAll(r, events) == r
  {
    if events == [] {
    } else {
      ReadQuiet(r, events[..|events| - 1]);
    }
  }

  /** A call and its result. */
  lemma ReadPair(call: Event, result: Event)
    requires call.ToolCall? && result.ToolResult? && result.id == call.id
    ensures ReadAll(Idle, [call, result]) == Idle && CallIds([call, result]) == [call.id]
  {
    ReadNext(Idle, [], call);
    ReadNext(Idle, [call], result);
    assert [] + [call] == [call] && [call] + [result] == [call, result];
    assert [call, result][..1] == [call] && [call][..0] == [];
    assert CallIds([call]) == [call.id];
  }

  /** A second result breaks the discipline, and nothing that follows mends it. */
  lemma ReadTwice(call: Event, r1: Event, r2: Event, rest: seq<Event>)
    requires call.ToolCall? && r1.ToolResult? && r1.id == call.id && r2.ToolResult?
    ensures ReadAll(Idle, [call, r1, r2] + rest) == Broken
  {
    ReadPair(call, r1);
    ReadNext(Idle, [call, r1], r2);
    assert [call, r1] + [r2] == [call, r1, r2];
    ReadJoin(Idle, [call, r1, r2], rest);
    ReadBroken(rest);
  }

  lemma {:induction false} ReadBroken(events: seq<Event>)
    ensures ReadAll(Broken, events) == Broken
  {
    if events == [] {
    } else {
      ReadBroken(events[..|events| - 1]);
    }
  }

  function CallIds(events: seq<Event>): seq<string> {
    if events == [] then []
    else CallIds(events[..|events| - 1]) +
         (if events[|events| - 1].ToolCall? then [events[|events| - 1].id] else [])
  }

  lemma {:induction false} CallIdsJoin(a: seq<Event>, b: seq<Event>)
    ensures CallIds(a + b) == CallIds(a) + CallIds(b)
  {
    if b == [] {
      assert a + b == a;
    } else {
      CallIdsJoin(a, b[..|b| - 1]);
      assert (a + b)[..|a + b| - 1] == a + b[..|b| - 1];
    }
  }

  // ----- what the user is told

  /** The texts of a stream, in order. */
  function Tells(events: seq<Event>): seq<string> {
    if events == [] then []
    else Tells(events[..|events| - 1]) +
         (if events[|events| - 1].MessageComplete? then [events[|events| - 1].text] else [])
  }

  lemma {:induction false} TellsJoin(a: seq<Event>, b: seq<Event>)
    ensures Tells(a + b) == Tells(a) + Tells(b)
  {
    if b == [] {
      assert a + b == a;
    } else {
      TellsJoin(a, b[..|b| - 1]);
      assert (a + b)[..|a + b| - 1] == a + b[..|b| - 1];
    }
  }

  /** The states of an operation a stream reports, in order. */
  function Phases(events: seq<Event>): seq<RuntimeState> {
    if events == [] then []
    else
      var e := events[|events| - 1];
      Phases(events[..|events| - 1]) + (if e.ToolResult? && e.output.Status? then [e.output.state] else [])
  }

  lemma {:induction false} PhasesJoin(a: seq<Event>, b: seq<Event>)
    ensures Phases(a + b) == Phases(a) + Phases(b)
  {
    if b == [] {
      assert a + b == a;
    } else {
      PhasesJoin(a, b[..|b| - 1]);
      assert (a + b)[..|a + b| - 1] == a + b[..|b| - 1];
    }
  }

  lemma PhaseOfOne(e: Event)
    ensures Phases([]) == []
    ensures Phases([e]) == if e.ToolResult? && e.output.Status? then [e.output.state] else []
  {
    assert [e][..0] == [];
  }

  predicate Silent(events: seq<Event>) {
    forall i | 0 <= i < |events| :: !events[i].MessageComplete?
  }

  lemma {:induction false} SilentTells(events: seq<Event>)
    requires Silent(events)
    ensures Tells(events) == []
  {
    if events == [] {
    } else {
      SilentTells(events[..|events| - 1]);
    }
  }

  /** One text, wherever it stands. */
  lemma TellsOnce(before: seq<Event>, text: string, after: seq<Event>)
    requires Silent(before) && Silent(after)
    ensures Tells(before + [MessageComplete(text)] + after) == [text]
  {
    SilentTells(before);
    SilentTells(after);
    TellsJoin(before, [MessageComplete(text)]);
    TellsJoin(before + [MessageComplete(text)], after);
    assert Tells([MessageComplete(text)]) == [text];
  }

  // ----- how a session ends

  predicate IsTerminal(e: Event) {
    e.SessionComplete? || e.SessionError?
  }

  predicate Open(events: seq<Event>) {
    forall i | 0 <= i < |events| :: !IsTerminal(events[i])
  }

  /** Exactly one session.complete or session.error, and nothing after it. */
  predicate EndsOnce(events: seq<Event>) {
    events != [] && IsTerminal(events[|events| - 1]) && Open(events[..|events| - 1])
  }

  lemma EndsAfter(a: seq<Event>, b: seq<Event>)
    requires Open(a)
    ensures EndsOnce(b) ==> EndsOnce(a + b)
    ensures Open(b) ==> Open(a + b)
  {
    if EndsOnce(b) {
      assert (a + b)[..|a + b| - 1] == a + b[..|b| - 1];
    }
  }
}
