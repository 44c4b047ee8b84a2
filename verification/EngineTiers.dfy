/** What one session of the engine works with, and its cheap answers: the local tiers and the response
    cache. The models and the tools may answer anything at all. */
module EngineTiers {
  import opened OrderedMerge
  import opened EngineEvents
  import opened ToolRegistry
  import Builds

  // ----- messages

  datatype Block =
    | TextBlock(text: string)
    | ToolUse(id: string, name: string, input: Json)
    | ToolAnswer(useId: string, content: string, isError: bool)

  datatype Role = User | Assistant

  datatype Content = Plain(text: string) | Blocks(blocks: seq<Block>)

  datatype Message = Message(role: Role, content: Content)

  // ----- what may come back from the collaborators

  datatype Dispatch = Returned(summary: Option<string>, output: Output) | Threw(message: string)

  datatype Completion = Completed(content: seq<Block>, stopReason: string) | Failed(message: string)

  datatype Call = Call(name: string, input: Json)

  datatype Decision = Decision(tier: nat, directReply: Option<string>, tool: Option<Call>)

  datatype Cached = CachedReply(reply: string) | CachedTool(call: Call)

  datatype Maybe<+T> = Fine(value: T) | Rejected

  /** The collaborators of one session. The n-th tool dispatch and the completion of each turn
      may answer as they like; `Rejected` is a promise that rejects. */
  datatype World = World(
    scheduleIntent: bool,
    planIntent: bool,
    hasWorkspace: bool,
    schedule: Builds.ScheduleWorld,
    build: Builds.BuildWorld,
    prompt: string,
    history: seq<Message>,
    maxTurns: Option<int>,
    readOnly: bool,
    allowlist: Option<seq<string>>,
    tools: seq<Tool>,
    classify: Maybe<Decision>,
    lookup: Maybe<Option<Cached>>,
    orgQuestion: bool,
    briefHasContent: bool,
    orgModelAvailable: Maybe<bool>,
    orgAnswer: Maybe<string>,
    localChatEnabled: bool,
    actionRequest: bool,
    chatModelAvailable: Maybe<bool>,
    chatAnswer: Maybe<string>,
    budget: Maybe<bool>,
    budgetNotice: string,
    complete: (nat, seq<Message>) -> Completion,
    dispatch: (nat, string, Json) -> Dispatch,
    trim: string -> string,
    contains: (string, string) -> bool,
    tierStamp: string,
    cacheStamp: string)

  predicate ReadLike(w: World, name: string) {
    IsReadLike(Registered(w.tools), name)
  }

  function Resolved(w: World, name: string): string {
    Internal(Registered(w.tools), name)
  }

  // ----- printing tool output

  /** `describeToolOutput`; a BigInt makes JSON.stringify throw. */
  function Describe(output: Output): Maybe<string> {
    match output
    case Nothing => Fine("no data")
    case Text(text) => Fine(text)
    case Scalar(json) => Fine(json)
    case BigInt => Rejected
    case Structure(_) => Fine("data")
    case Status(_) => Fine("data")
  }

  /** `JSON.stringify(output ?? null)` */
  function Stringify(output: Output): Maybe<string> {
    match output
    case Nothing => Fine("null")
    case Text(text) => Fine("\"" + text + "\"")
    case Scalar(json) => Fine(json)
    case BigInt => Rejected
    case Structure(serialized) => if serialized.Some? then Fine(serialized.value) else Rejected
    case Status(_) => Fine("{}")
  }

  const UNSERIALIZABLE: string := "Do not know how to serialize"

  /** The reply made from a tool's result, or the error thrown while making it. */
  function Reply(name: string, summary: Option<string>, output: Output): Maybe<string> {
    if summary.Some? then Fine(summary.value)
    else match Describe(output)
      case Fine(text) => Fine("Done. " + name + " returned " + text + ".")
      case Rejected => Rejected
  }

  /** What the user reads of a result without a summary, and what the model is sent of any result. */
  lemma OutputsAreTold(name: string, text: string, s: string)
    ensures forall output :: Reply(name, Some(s), output) == Fine(s)
    ensures Reply(name, None, Nothing) == Fine("Done. " + name + " returned " + "no data" + ".")
    ensures Reply(name, None, Text(text)) == Fine("Done. " + name + " returned " + text + ".")
    ensures Reply(name, None, Scalar(text)) == Fine("Done. " + name + " returned " + text + ".")
    ensures Reply(name, None, Structure(Some(text))) == Reply(name, None, Structure(None)) ==
            Fine("Done. " + name + " returned " + "data" + ".")
    ensures Reply(name, None, BigInt) == Rejected
    ensures Stringify(Nothing) == Fine("null") && Stringify(Text(text)) == Fine("\"" + text + "\"")
    ensures Stringify(Scalar(text)) == Fine(text) && Stringify(Structure(Some(text))) == Fine(text)
    ensures Stringify(BigInt) == Rejected && Stringify(Structure(None)) == Rejected
  {
  }

  // ----- tier 0 and 1: a direct reply or one tool, chosen without the frontier model

  /** The tool a local decision runs: tier 0 or 1, and no reply to give instead. */
  function LocalCall(d: Decision): Option<Call> {
    if d.tier <= 1 && (d.directReply.None? || d.directReply.value == "") then d.tool else None
  }

  /** The n-th dispatch succeeds with a BigInt and no summary, so describing it throws. */
  predicate Stumbles(w: World, call: Call, n: nat) {
    w.dispatch(n, call.name, call.input) == Returned(None, BigInt)
  }

  function OkResult(id: string, call: Call, d: Dispatch): Event
    requires d.Returned?
  {
    ToolResult(id, call.name, true, d.summary, d.output)
  }

  function ErrorResult(id: string, name: string, message: string): Event {
    ToolResult(id, name, false, Some(message), Structure(Some("{error}")))
  }

  /** A tool dispatched outside the frontier loop, under one try: the events of the try and, if
      it threw after the result was out, of the catch; and the reply, if one could be made. */
  function ToolTrace(id: string, call: Call, d: Dispatch): (t: (seq<Event>, Maybe<string>))
    ensures Open(t.0) && |t.0| >= 2 && t.0[0] == ToolCall(id, call.name, call.input)
    ensures t.1 == if d.Returned? then Reply(call.name, d.summary, d.output) else Rejected
    ensures t.1.Fine? ==> t.0 == [ToolCall(id, call.name, call.input), OkResult(id, call, d)]
    ensures t.1.Fine? <==> d.Returned? && d != Returned(None, BigInt)
    ensures Silent(t.0)
    ensures ReadAll(Idle, t.0) == if d == Returned(None, BigInt) then Broken else Idle
  {
    var called := ToolCall(id, call.name, call.input);
    match d
    case Threw(message) =>
      ReadPair(called, ErrorResult(id, call.name, message));
      ([called, ErrorResult(id, call.name, message)], Rejected)
    case Returned(summary, output) =>
      ReadPair(called, OkResult(id, call, d));
      match Reply(call.name, summary, output)
      case Fine(reply) => ([called, OkResult(id, call, d)], Fine(reply))
      case Rejected =>
        var twice := [called, OkResult(id, call, d), ErrorResult(id, call.name, UNSERIALIZABLE)];
        ReadTwice(called, OkResult(id, call, d), ErrorResult(id, call.name, UNSERIALIZABLE), []);
        assert twice + [] == twice;
        (twice, Rejected)
  }

  /** A local decision that settles the session: a reply, or a tool whose result can be told. */
  predicate Settles(w: World, d: Decision) {
    d.tier <= 1 &&
    ((d.directReply.Some? && d.directReply.value != "") ||
     (d.tool.Some? && w.dispatch(0, d.tool.value.name, d.tool.value.input).Returned? && !Stumbles(w, d.tool.value, 0)))
  }

  /** The locally chosen tool succeeds, but describing its result throws. */
  predicate TierStumbles(w: World) {
    w.classify.Fine? && LocalCall(w.classify.value).Some? && Stumbles(w, LocalCall(w.classify.value).value, 0)
  }

  method RouteLocally(w: World) returns (events: seq<Event>, done: bool, dispatches: nat, learned: Option<Cached>)
    ensures if done then EndsOnce(events) else Open(events)
    ensures done <==> w.classify.Fine? && Settles(w, w.classify.value)
    ensures dispatches == LocalDispatches(w)
    ensures w.classify.Fine? ==>
              var d := w.classify.value;
              events != [] && events[0] == SessionRouted(d.tier, if d.tool.Some? then Some(d.tool.value.name) else None)
    ensures dispatches == 1 ==>
              var d := w.classify.value;
              |events| > 1 && d.tool.Some? &&
              events[1] == ToolCall((if d.tier == 0 then "tier0-" else "tier1-") + w.tierStamp, d.tool.value.name,
                                    d.tool.value.input)
    ensures ReadAll(Idle, events) == if TierStumbles(w) then Broken else Idle
    ensures learned == if done then LocalLesson(w, w.classify.value) else None
    ensures Tells(events) == if done then [LocalReply(w, w.classify.value)] else []
    ensures done ==>
              var d := w.classify.value;
              var direct := d.directReply.Some? && d.directReply.value != "";
              |events| >= 3 && events[|events| - 2] == MessageComplete(LocalReply(w, d)) &&
              events[|events| - 1] ==
              SessionComplete(if direct then 0 else 1,
                              (if d.tier == 0 then "tier0_" else "tier1_") + if direct then "direct" else "tool")
  {
    NothingRouted();
    hide Tells, ReadAll, Open, EndsOnce, Silent, Describe, ToolTrace;
    events, done, dispatches, learned := [], false, 0, None;
    if w.classify.Rejected? {
      return;
    }
    var d := w.classify.value;
    events := [SessionRouted(d.tier, if d.tool.Some? then Some(d.tool.value.name) else None)];
    JustRouted(events);
    if d.tier <= 1 && d.directReply.Some? && d.directReply.value != "" {
      SettledWith(events, d.directReply.value, 0, (if d.tier == 0 then "tier0_" else "tier1_") + "direct");
      events := events + [MessageComplete(d.directReply.value),
                          SessionComplete(0, (if d.tier == 0 then "tier0_" else "tier1_") + "direct")];
      return events, true, 0, Some(CachedReply(d.directReply.value));
    }
    if d.tier <= 1 && d.tool.Some? {
      var call := d.tool.value;
      var useId := (if d.tier == 0 then "tier0-" else "tier1-") + w.tierStamp;
      dispatches := 1;
      var (trace, reply) := ToolTrace(useId, call, w.dispatch(0, call.name, call.input));
      StreamsJoin(events, trace);
      events := events + trace;
      if reply.Fine? {
        SettledWith(events, reply.value, 1, (if d.tier == 0 then "tier0_" else "tier1_") + "tool");
        events := events + [MessageComplete(reply.value),
                            SessionComplete(1, (if d.tier == 0 then "tier0_" else "tier1_") + "tool")];
        done := true;
        if ReadLike(w, call.name) {
          learned := Some(CachedTool(call));
        }
      }
    }
  }

  lemma NothingRouted()
    ensures Open([]) && ReadAll(Idle, []) == Idle && Tells([]) == []
  {
  }

  lemma JustRouted(events: seq<Event>)
    requires |events| == 1 && events[0].SessionRouted?
    ensures Open(events) && Silent(events) && ReadAll(Idle, events) == Idle && Tells(events) == []
  {
    ReadQuiet(Idle, events);
    SilentTells(events);
  }

  lemma StreamsJoin(a: seq<Event>, b: seq<Event>)
    requires Open(a) && Silent(a) && Open(b) && Silent(b)
    ensures Open(a + b) && Silent(a + b) && Tells(a + b) == [] && ReadAll(Idle, a + b) == ReadAll(ReadAll(Idle, a), b)
  {
    ReadJoin(Idle, a, b);
    SilentTells(a + b);
  }

  /** A text and the end of the session, after events that tell nothing. */
  lemma SettledWith(before: seq<Event>, text: string, turns: nat, stopReason: string)
    requires Open(before) && Silent(before)
    ensures var all := before + [MessageComplete(text), SessionComplete(turns, stopReason)];
            EndsOnce(all) && Tells(all) == [text] && ReadAll(Idle, all) == ReadAll(Idle, before)
  {
    var ending := [MessageComplete(text), SessionComplete(turns, stopReason)];
    ReadJoin(Idle, before, ending);
    ReadQuiet(ReadAll(Idle, before), ending);
    EndsAfter(before, ending);
    TellsLast(before, ending[0], ending[1]);
  }

  lemma TellsLast(before: seq<Event>, told: Event, last: Event)
    requires Silent(before) && told.MessageComplete? && IsTerminal(last)
    ensures Tells(before + [told, last]) == [told.text]
  {
    TellsOnce(before, told.text, [last]);
    assert before + [told] + [last] == before + [told, last];
  }

  /** What a settled decision tells the user: its reply, or what its tool returned. */
  function LocalReply(w: World, d: Decision): string
    requires Settles(w, d)
  {
    if d.directReply.Some? && d.directReply.value != "" then d.directReply.value
    else
      var result := w.dispatch(0, d.tool.value.name, d.tool.value.input);
      Reply(d.tool.value.name, result.summary, result.output).value
  }

  /** A settled decision teaches its reply, or its tool if that is read-like. */
  function LocalLesson(w: World, d: Decision): Option<Cached> {
    if d.directReply.Some? && d.directReply.value != "" then Some(CachedReply(d.directReply.value))
    else if d.tool.Some? && ReadLike(w, d.tool.value.name) then Some(CachedTool(d.tool.value))
    else None
  }

  function LocalDispatches(w: World): nat {
    if w.classify.Fine? && LocalCall(w.classify.value).Some? then 1 else 0
  }

  /** Nothing but replies and read-like tools is worth remembering. */
  predicate OnlyReads(w: World, c: Cached) {
    c.CachedTool? ==> ReadLike(w, c.call.name)
  }

  // ----- the response cache

  /** A cached reply, or what the tool returns this time; nothing if that cannot be told. */
  function ReplayTells(w: World, result: Cached, n: nat): seq<string> {
    match result
    case CachedReply(reply) => [reply]
    case CachedTool(call) =>
      var d := w.dispatch(n, call.name, call.input);
      if d.Returned? && Reply(call.name, d.summary, d.output).Fine?
      then [Reply(call.name, d.summary, d.output).value] else []
  }

  /** A reply is repeated; a tool is run again for fresh data. */
  method ReplayFromCache(w: World, result: Cached, n: nat) returns (events: seq<Event>)
    ensures EndsOnce(events)
    ensures result.CachedReply? ==> events == [MessageComplete(result.reply), SessionComplete(0, "cache_reply")]
    ensures result.CachedTool? ==> Replayed(w, result.call, n, events)
    ensures Tells(events) == ReplayTells(w, result, n)
    ensures ReadAll(Idle, events) == if result.CachedTool? && Stumbles(w, result.call, n) then Broken else Idle
  {
    if result.CachedReply? {
      events := [MessageComplete(result.reply), SessionComplete(0, "cache_reply")];
      ReadQuiet(Idle, events);
      TellsLast([], events[0], events[1]);
    } else {
      events := ReplayTool(w, result.call, n);
    }
  }

  /** The events of a replayed tool: its call, and in the end what it returned or the error. */
  predicate Replayed(w: World, call: Call, n: nat, events: seq<Event>) {
    var d := w.dispatch(n, call.name, call.input);
    |events| >= 3 && events[0] == ToolCall("cache-" + w.cacheStamp, call.name, call.input) &&
    if d.Returned? && Reply(call.name, d.summary, d.output).Fine?
    then events[2..] == [MessageComplete(Reply(call.name, d.summary, d.output).value), SessionComplete(1, "cache_tool")]
    else events[|events| - 1] == SessionComplete(1, "cache_tool_error")
  }

  method ReplayTool(w: World, call: Call, n: nat) returns (events: seq<Event>)
    ensures EndsOnce(events) && Replayed(w, call, n, events) && Tells(events) == ReplayTells(w, CachedTool(call), n)
    ensures ReadAll(Idle, events) == if Stumbles(w, call, n) then Broken else Idle
  {
    hide Reply, ToolTrace, Describe, Open, EndsOnce, ReadAll, OkResult, Tells, Silent;
    var (trace, reply) := ToolTrace("cache-" + w.cacheStamp, call, w.dispatch(n, call.name, call.input));
    match reply {
      case Fine(text) =>
        ToldAfter(trace, text);
        events := trace + [MessageComplete(text), SessionComplete(1, "cache_tool")];
      case Rejected =>
        UntoldAfter(trace);
        events := trace + [SessionComplete(1, "cache_tool_error")];
    }
  }

  lemma ToldAfter(trace: seq<Event>, text: string)
    requires Open(trace) && Silent(trace) && |trace| == 2
    ensures var all := trace + [MessageComplete(text), SessionComplete(1, "cache_tool")];
            EndsOnce(all) && ReadAll(Idle, all) == ReadAll(Idle, trace) && all[0] == trace[0] &&
            all[2..] == [MessageComplete(text), SessionComplete(1, "cache_tool")] && Tells(all) == [text]
  {
    TellsLast(trace, MessageComplete(text), SessionComplete(1, "cache_tool"));
    var ending := [MessageComplete(text), SessionComplete(1, "cache_tool")];
    ReadJoin(Idle, trace, ending);
    ReadQuiet(ReadAll(Idle, trace), ending);
    EndsAfter(trace, ending);
  }

  lemma UntoldAfter(trace: seq<Event>)
    requires Open(trace) && Silent(trace) && |trace| >= 2
    ensures var all := trace + [SessionComplete(1, "cache_tool_error")];
            EndsOnce(all) && ReadAll(Idle, all) == ReadAll(Idle, trace) && all[0] == trace[0] &&
            all[|all| - 1] == SessionComplete(1, "cache_tool_error") && Tells(all) == []
  {
    SilentTells(trace + [SessionComplete(1, "cache_tool_error")]);
    var ending := [SessionComplete(1, "cache_tool_error")];
    ReadJoin(Idle, trace, ending);
    ReadQuiet(ReadAll(Idle, trace), ending);
    EndsAfter(trace, ending);
  }
}
