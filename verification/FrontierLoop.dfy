/** The frontier tool loop: completions, the tools they ask for, and the messages that carry the answers
    back. */
module FrontierLoop {
  import opened OrderedMerge
  import opened EngineEvents
  import opened ToolRegistry
  import opened EngineTiers

  // ----- tool uses and their answers

  function Uses(content: seq<Block>): (uses: seq<Block>)
    ensures forall i | 0 <= i < |uses| :: uses[i].ToolUse?
  {
    if content == [] then []
    else Uses(content[..|content| - 1]) + (if content[|content| - 1].ToolUse? then [content[|content| - 1]] else [])
  }

  /** One answer per use, in order, under the use's own id. */
  predicate Answers(uses: seq<Block>, results: seq<Block>) {
    |results| == |uses| &&
    forall i | 0 <= i < |uses| :: uses[i].ToolUse? && results[i].ToolAnswer? && results[i].useId == uses[i].id
  }

  /** An assistant message with tool uses, and the user message that answers all of them. */
  predicate Exchange(asked: Message, answered: Message) {
    asked.role == Assistant && asked.content.Blocks? && Uses(asked.content.blocks) != [] &&
    answered.role == User && answered.content.Blocks? && Answers(Uses(asked.content.blocks), answered.content.blocks)
  }

  /** Messages that alternate: every assistant message followed by its answers. */
  predicate Exchanges(messages: seq<Message>) {
    messages == [] ||
    (|messages| >= 2 && Exchanges(messages[..|messages| - 2]) &&
     Exchange(messages[|messages| - 2], messages[|messages| - 1]))
  }

  /** The ids of the tool uses answered so far, oldest first. */
  function AnsweredIds(messages: seq<Message>): seq<string> {
    if |messages| < 2 then []
    else AnsweredIds(messages[..|messages| - 2]) + UseIds(messages[|messages| - 2])
  }

  function UseIds(m: Message): seq<string> {
    if m.content.Plain? then [] else Ids(Uses(m.content.blocks))
  }

  function Ids(uses: seq<Block>): (ids: seq<string>)
    ensures |ids| == |uses|
  {
    seq(|uses|, i requires 0 <= i < |uses| => if uses[i].ToolUse? then uses[i].id else "")
  }

  /** Sessions with a read-only scope or an allowlist refuse the tools outside it. */
  predicate Permitted(w: World, name: string) {
    !(w.readOnly || w.allowlist.Some?) || IsAllowed(Registered(w.tools), name, w.readOnly, w.allowlist)
  }

  /** The tool run under a name is within the scope of the session: one that only reads, if the
      session is read-only, and one on the allowlist, if there is one. */
  ghost predicate InScope(w: World, name: string) {
    (w.readOnly ==> IsReadLike(Registered(w.tools), name)) && OnList(Registered(w.tools), name, w.allowlist)
  }

  lemma PermittedIffInScope(w: World, name: string)
    ensures Permitted(w, name) <==> InScope(w, name)
  {
    AllowedIffInScope(w.tools, name, w.readOnly, w.allowlist);
  }

  /** `JSON.stringify({ error: message })` */
  function ErrorJson(message: string): Json {
    "{\"error\":\"" + message + "\"}"
  }

  /** The answer to one tool use that is the n-th to be dispatched, if it is. */
  predicate AnsweredBy(w: World, use: Block, n: nat, answer: Block)
    requires use.ToolUse?
  {
    answer.ToolAnswer? && answer.useId == use.id &&
    if !Permitted(w, use.name) then
      answer.isError
    else
      match w.dispatch(n, use.name, use.input)
      case Returned(_, output) =>
        if Stringify(output).Fine? then answer == ToolAnswer(use.id, Stringify(output).value, false)
        else answer.isError
      case Threw(message) => answer == ToolAnswer(use.id, ErrorJson(message), true)
  }

  /** What becomes of one tool use: refused, or dispatched and its output serialized. */
  method UseTool(w: World, use: Block, n: nat)
      returns (events: seq<Event>, answer: Block, dispatched: bool)
    requires use.ToolUse?
    ensures |events| == 2 && events[0] == ToolCall(use.id, Resolved(w, use.name), use.input)
    ensures events[1].ToolResult? && events[1].id == use.id && events[1].name == Resolved(w, use.name)
    ensures dispatched <==> InScope(w, use.name)
    ensures answer.ToolAnswer? && answer.useId == use.id && answer.isError == !events[1].ok
    ensures events[1].ok <==>
            dispatched && var d := w.dispatch(n, use.name, use.input); d.Returned? && Stringify(d.output).Fine?
    ensures events[1].ok ==>
              var d := w.dispatch(n, use.name, use.input);
              answer.content == Stringify(d.output).value &&
              events[1].output == d.output && events[1].summary == d.summary
    ensures !events[1].ok ==>
              events[1].summary.Some? && answer.content == "{\"error\":\"" + events[1].summary.value + "\"}" &&
              (!dispatched ==>
                 events[1].summary.value == "Tool " + Resolved(w, use.name) + " is not permitted in this context.") &&
              (dispatched ==> var d := w.dispatch(n, use.name, use.input);
                              d.Threw? ==> events[1].summary == Some(d.message))
    ensures dispatched == Permitted(w, use.name) && AnsweredBy(w, use, n, answer)
  {
    var name := Resolved(w, use.name);
    var called := ToolCall(use.id, name, use.input);
    PermittedIffInScope(w, use.name);
    hide InScope;
    dispatched := Permitted(w, use.name);
    if !dispatched {
      var denial := "Tool " + name + " is not permitted in this context.";
      return [called, ErrorResult(use.id, name, denial)], ToolAnswer(use.id, ErrorJson(denial), true), dispatched;
    }
    var d := w.dispatch(n, use.name, use.input);
    if d.Returned? && Stringify(d.output).Fine? {
      return [called, ToolResult(use.id, name, true, d.summary, d.output)],
             ToolAnswer(use.id, Stringify(d.output).value, false), dispatched;
    }
    var message := if d.Threw? then d.message else UNSERIALIZABLE;
    return [called, ErrorResult(use.id, name, message)], ToolAnswer(use.id, ErrorJson(message), true), dispatched;
  }

  /** The calls a stream reports, in order. */
  function CallsOf(events: seq<Event>): seq<Call> {
    if events == [] then []
    else CallsOf(events[..|events| - 1]) +
         (if events[|events| - 1].ToolCall? then [Call(events[|events| - 1].name, events[|events| - 1].input)] else [])
  }

  lemma {:induction false} CallsOfJoin(a: seq<Event>, b: seq<Event>)
    ensures CallsOf(a + b) == CallsOf(a) + CallsOf(b)
  {
    if b == [] {
      assert a + b == a;
    } else {
      CallsOfJoin(a, b[..|b| - 1]);
      assert (a + b)[..|a + b| - 1] == a + b[..|b| - 1];
    }
  }

  lemma CallsOfPair(call: Event, result: Event)
    requires call.ToolCall? && result.ToolResult?
    ensures CallsOf([call, result]) == [Call(call.name, call.input)]
  {
    assert [call, result][..1] == [call] && [call][..0] == [];
    assert CallsOf([call]) == [Call(call.name, call.input)];
  }

  /** The names dispatched for these uses: those within the scope. */
  function Sent(w: World, uses: seq<Block>): seq<string> {
    if uses == [] then []
    else
      var use := uses[|uses| - 1];
      Sent(w, uses[..|uses| - 1]) + (if use.ToolUse? && Permitted(w, use.name) then [use.name] else [])
  }

  /** Every use is answered with what its own dispatch came to. */
  predicate AnsweredInTurn(w: World, uses: seq<Block>, n: nat, results: seq<Block>) {
    |results| == |uses| &&
    forall i | 0 <= i < |uses| :: uses[i].ToolUse? && AnsweredBy(w, uses[i], n + |Sent(w, uses[..i])|, results[i])
  }

  lemma AnsweredInTurnIsAnswers(w: World, uses: seq<Block>, n: nat, results: seq<Block>)
    requires AnsweredInTurn(w, uses, n, results)
    ensures Answers(uses, results)
  {
  }

  lemma UsesNext(w: World, uses: seq<Block>, use: Block)
    requires use.ToolUse?
    ensures Sent(w, uses + [use]) == Sent(w, uses) + (if Permitted(w, use.name) then [use.name] else [])
    ensures Ids(uses + [use]) == Ids(uses) + [use.id]
    ensures UsedTools(w, uses + [use]) == UsedTools(w, uses) + [Call(Resolved(w, use.name), use.input)]
  {
    hide Permitted, Resolved;
    assert (uses + [use])[..|uses|] == uses;
  }

  /** One use more, and its answer. */
  lemma AnsweredNext(w: World, uses: seq<Block>, n: nat, results: seq<Block>, use: Block, answer: Block)
    requires AnsweredInTurn(w, uses, n, results) && use.ToolUse?
    requires AnsweredBy(w, use, n + |Sent(w, uses)|, answer)
    ensures AnsweredInTurn(w, uses + [use], n, results + [answer])
  {
    hide AnsweredBy, Sent;
    var more := uses + [use];
    forall i | 0 <= i < |more|
      ensures AnsweredBy(w, more[i], n + |Sent(w, more[..i])|, (results + [answer])[i])
    {
      assert more[..i] == uses[..i];
      assert uses[..|uses|] == uses;
    }
  }

  lemma NoUses(w: World, n: nat)
    ensures AnsweredInTurn(w, [], n, []) && Sent(w, []) == [] && Ids([]) == [] && UsedTools(w, []) == []
    ensures Open([]) && Answered([]) && Silent([]) && CallIds([]) == [] && CallsOf([]) == []
  {
  }

  /** One pair of events more, of a call and its result. */
  lemma PairAdded(events: seq<Event>, pair: seq<Event>)
    requires Open(events) && Answered(events) && Silent(events)
    requires |pair| == 2 && pair[0].ToolCall? && pair[1].ToolResult? && pair[1].id == pair[0].id
    ensures Open(events + pair) && Answered(events + pair) && Silent(events + pair)
    ensures CallIds(events + pair) == CallIds(events) + [pair[0].id]
    ensures CallsOf(events + pair) == CallsOf(events) + [Call(pair[0].name, pair[0].input)]
  {
    ReadPair(pair[0], pair[1]);
    assert pair == [pair[0], pair[1]];
    ReadJoin(Idle, events, pair);
    CallIdsJoin(events, pair);
    CallsOfPair(pair[0], pair[1]);
    CallsOfJoin(events, pair);
    hide CallIds, CallsOf, ReadAll;
  }

  /** All tool uses of one assistant message, in order: each one in scope is dispatched, each one
      is answered with what became of it, and nothing is told in between. */
  method UseTools(w: World, uses: seq<Block>, n0: nat)
      returns (events: seq<Event>, results: seq<Block>, dispatched: seq<string>)
    requires forall i | 0 <= i < |uses| :: uses[i].ToolUse?
    ensures AnsweredInTurn(w, uses, n0, results) && dispatched == Sent(w, uses)
    ensures Open(events) && Answered(events) && Silent(events)
    ensures CallIds(events) == Ids(uses) && CallsOf(events) == UsedTools(w, uses)
  {
    hide *;
    NoUses(w, n0);
    events, results, dispatched := [], [], [];
    for i := 0 to |uses|
      invariant AnsweredInTurn(w, uses[..i], n0, results) && dispatched == Sent(w, uses[..i])
      invariant Open(events) && Answered(events) && Silent(events)
      invariant CallIds(events) == Ids(uses[..i]) && CallsOf(events) == UsedTools(w, uses[..i])
    {
      var pair, answer, sent := UseTool(w, uses[i], n0 + |dispatched|);
      PairAdded(events, pair);
      AnsweredNext(w, uses[..i], n0, results, uses[i], answer);
      UsesNext(w, uses[..i], uses[i]);
      assert uses[..i + 1] == uses[..i] + [uses[i]];
      events := events + pair;
      results := results + [answer];
      if sent {
        dispatched := dispatched + [uses[i].name];
      }
    }
    assert uses[..|uses|] == uses;
  }

  // ----- one turn

  function Texts(content: seq<Block>): seq<string> {
    if content == [] then []
    else (if content[0].TextBlock? then [content[0].text] else []) + Texts(content[1..])
  }

  /** The text blocks of a completion, a line each. */
  function Said(content: seq<Block>): string {
    Lines(Texts(content))
  }

  /** The text blocks of a content are those of its parts in order; a text block holds its text,
      and nothing else is a text. */
  lemma {:induction false} TextsInOrder(a: seq<Block>, b: seq<Block>, block: Block)
    ensures Texts(a + b) == Texts(a) + Texts(b)
    ensures Texts([block]) == if block.TextBlock? then [block.text] else []
  {
    assert [block][1..] == [];
    if a == [] {
      assert a + b == b;
    } else {
      TextsInOrder(a[1..], b, block);
      assert (a + b)[1..] == a[1..] + b;
    }
  }

  /** The tool uses of a content are those of its parts in order. */
  lemma {:induction false} UsesInOrder(a: seq<Block>, b: seq<Block>, block: Block)
    ensures Uses(a + b) == Uses(a) + Uses(b)
    ensures Uses([block]) == if block.ToolUse? then [block] else []
  {
    assert [block][..0] == [];
    if b == [] {
      assert a + b == a;
    } else {
      UsesInOrder(a, b[..|b| - 1], block);
      assert (a + b)[..|a + b| - 1] == a + b[..|b| - 1];
    }
  }

  function UsedTools(w: World, uses: seq<Block>): (calls: seq<Call>)
    ensures |calls| == |uses|
  {
    seq(|uses|, i requires 0 <= i < |uses| =>
      if uses[i].ToolUse? then Call(Resolved(w, uses[i].name), uses[i].input) else Call("", ""))
  }

  /** How one turn of the loop leaves it. */
  datatype Turn = Again(asked: Message, answered: Message) | Last(stopReason: string) | Died(message: string)

  /** The tool uses a completion stops for. */
  function Asks(c: Completion): (uses: seq<Block>)
    ensures forall i | 0 <= i < |uses| :: uses[i].ToolUse?
  {
    if c.Completed? && c.stopReason == "tool_use" then Uses(c.content) else []
  }

  /** One completion and the tools it asks for. Its text, if any is left when trimmed, is told
      first. Another turn follows exactly when the model stopped for tools and named at least one;
      then all of them are answered. */
  method TakeTurn(w: World, messages: seq<Message>, turn: nat, n: nat)
      returns (events: seq<Event>, next: Turn, used: seq<Call>, sent: seq<string>)
    ensures Open(events) && ReadAll(Idle, events) == Idle
    ensures var c := w.complete(turn, messages);
            c.Failed? ==> next == Died(c.message) && events == []
    ensures var c := w.complete(turn, messages);
            c.Completed? ==>
              var said := w.trim(Lines(Texts(c.content)));
              if said == "" then Silent(events)
              else events != [] && events[0] == MessageComplete(said) && Silent(events[1..])
    ensures var c := w.complete(turn, messages);
            c.Completed? ==>
              if c.stopReason == "tool_use" && Uses(c.content) != [] then
                next.Again? && next.asked == Message(Assistant, Blocks(c.content)) &&
                next.answered.role == User && next.answered.content.Blocks? &&
                AnsweredInTurn(w, Uses(c.content), n, next.answered.content.blocks)
              else next == Last(c.stopReason)
    ensures CallIds(events) == Ids(Asks(w.complete(turn, messages)))
    ensures used == CallsOf(events) == UsedTools(w, Asks(w.complete(turn, messages)))
    ensures sent == Sent(w, Asks(w.complete(turn, messages)))
    ensures next.Again? ==> Exchange(next.asked, next.answered)
  {
    NoUses(w, n);
    hide AnsweredInTurn, Sent, CallIds, CallsOf, ReadAll, Uses, Texts, Lines, Ids, UsedTools, Answers, Open;
    events, used, sent := [], [], [];
    var completion := w.complete(turn, messages);
    if completion.Failed? {
      return events, Died(completion.message), used, sent;
    }
    var content := completion.content;
    var said := w.trim(Said(content));
    if said != "" {
      events := [MessageComplete(said)];
    }
    JustSaid(events);
    next := Last(completion.stopReason);
    if completion.stopReason != "tool_use" {
      return;
    }
    var evs, results;
    evs, results, sent := UseTools(w, Uses(content), n);
    ReadJoin(Idle, events, evs);
    CallIdsJoin(events, evs);
    CallsOfJoin(events, evs);
    EndsAfter(events, evs);
    events := events + evs;
    used := UsedTools(w, Uses(content));
    SameLength(w, Uses(content), n, results);
    if results == [] {
      return;
    }
    AnsweredInTurnIsAnswers(w, Uses(content), n, results);
    next := Again(Message(Assistant, Blocks(content)), Message(User, Blocks(results)));
  }

  lemma JustSaid(events: seq<Event>)
    requires events == [] || (|events| == 1 && events[0].MessageComplete?)
    ensures Open(events) && ReadAll(Idle, events) == Idle && CallIds(events) == [] && CallsOf(events) == []
  {
    ReadQuiet(Idle, events);
    NoCallsQuiet(events);
  }

  lemma SameLength(w: World, uses: seq<Block>, n: nat, results: seq<Block>)
    requires AnsweredInTurn(w, uses, n, results)
    ensures results == [] <==> uses == []
  {
  }

  lemma {:induction false} NoCallsQuiet(events: seq<Event>)
    requires forall i | 0 <= i < |events| :: !events[i].ToolCall?
    ensures CallIds(events) == [] && CallsOf(events) == []
  {
    if events == [] {
    } else {
      NoCallsQuiet(events[..|events| - 1]);
    }
  }

  /** Every completion call saw the prompt followed by finished exchanges, and each call
      before the last one was answered and saw less than the next. */
  ghost predicate Trail(start: seq<Message>, calls: seq<seq<Message>>) {
    (forall i | 0 <= i < |calls| :: start <= calls[i] && Exchanges(calls[i][|start|..])) &&
    forall i | 0 <= i < |calls| - 1 :: calls[i] < calls[i + 1]
  }

  /** Between turns: finished exchanges since the prompt, their ids all reported, and every
      call so far saw less than what the next one will see. */
  ghost predicate Told(start: seq<Message>, calls: seq<seq<Message>>, since: seq<Message>, ids: seq<string>) {
    Trail(start, calls) && Exchanges(since) && ids == AnsweredIds(since) &&
    (calls != [] ==> calls[|calls| - 1] < start + since)
  }

  /** The next call continues the trail, and all it sees answered has been reported. */
  lemma ToldCall(start: seq<Message>, calls: seq<seq<Message>>, since: seq<Message>, ids: seq<string>)
    requires Told(start, calls, since, ids)
    ensures Trail(start, calls + [start + since]) && start <= start + since &&
            AnsweredIds((start + since)[|start|..]) == ids
  {
    hide Exchanges, AnsweredIds;
    assert (start + since)[|start|..] == since;
  }

  lemma ToldAgain(start: seq<Message>, calls: seq<seq<Message>>, since: seq<Message>, ids: seq<string>,
                  asked: Message, answered: Message)
    requires Told(start, calls, since, ids) && Exchange(asked, answered)
    ensures Told(start, calls + [start + since], since + [asked, answered], ids + UseIds(asked))
  {
    ToldCall(start, calls, since, ids);
    ExchangesGrow(since, asked, answered);
  }

  lemma NothingYet(start: seq<Message>)
    ensures Trail(start, []) && Told(start, [], [], [])
    ensures Open([]) && ReadAll(Idle, []) == Idle && CallIds([]) == [] && CallsOf([]) == []
  {
  }

  lemma ExchangesGrow(since: seq<Message>, asked: Message, answered: Message)
    requires Exchanges(since) && Exchange(asked, answered)
    ensures Exchanges(since + [asked, answered])
    ensures AnsweredIds(since + [asked, answered]) == AnsweredIds(since) + UseIds(asked)
  {
    var more := since + [asked, answered];
    assert more[..|more| - 2] == since;
  }

  const DEFAULT_MAX_TURNS: int := 10

  function TurnLimit(w: World): int {
    if w.maxTurns.Some? then w.maxTurns.value else DEFAULT_MAX_TURNS
  }

  // ----- all turns of a session, as the completions tell it

  function Completions(w: World, calls: seq<seq<Message>>): seq<Completion> {
    seq(|calls|, i requires 0 <= i < |calls| => w.complete(i + 1, calls[i]))
  }

  /** Every tool use the completions stopped for, in order. */
  function AllAsks(cs: seq<Completion>): (uses: seq<Block>)
    ensures forall i | 0 <= i < |uses| :: uses[i].ToolUse?
  {
    if cs == [] then [] else AllAsks(cs[..|cs| - 1]) + Asks(cs[|cs| - 1])
  }

  /** What one completion has to say: its text blocks, a line each, trimmed, unless nothing is left. */
  function Speech(w: World, c: Completion): seq<string> {
    if c.Failed? || w.trim(Said(c.content)) == "" then [] else [w.trim(Said(c.content))]
  }

  function AllSpeech(w: World, cs: seq<Completion>): seq<string> {
    if cs == [] then [] else AllSpeech(w, cs[..|cs| - 1]) + Speech(w, cs[|cs| - 1])
  }

  function SentSoFar(w: World, calls: seq<seq<Message>>): seq<string> {
    Sent(w, AllAsks(Completions(w, calls)))
  }

  /** The stream and the dispatches are what the completions asked for, no more and no less. */
  ghost predicate Accounted(w: World, calls: seq<seq<Message>>, events: seq<Event>, dispatched: seq<string>) {
    Tells(events) == AllSpeech(w, Completions(w, calls)) &&
    CallIds(events) == Ids(AllAsks(Completions(w, calls))) &&
    CallsOf(events) == UsedTools(w, AllAsks(Completions(w, calls))) &&
    dispatched == SentSoFar(w, calls)
  }

  /** What the model sees after a turn: all it saw before, its own completion, and an answer to
      each tool use in it. */
  ghost predicate Continues(w: World, before: seq<Message>, turn: nat, n: nat, after: seq<Message>) {
    var c := w.complete(turn, before);
    Asks(c) != [] && |after| == |before| + 2 && after[..|before|] == before &&
    after[|before|] == Message(Assistant, Blocks(c.content)) &&
    after[|before| + 1].role == User && after[|before| + 1].content.Blocks? &&
    AnsweredInTurn(w, Asks(c), n, after[|before| + 1].content.blocks)
  }

  ghost predicate Follows(w: World, calls: seq<seq<Message>>, n0: nat) {
    forall i | 0 <= i < |calls| - 1 ::
      Continues(w, calls[i], i + 1, n0 + |SentSoFar(w, calls[..i])|, calls[i + 1])
  }

  /** A sequence of calls and the next one. */
  ghost predicate Leads(w: World, calls: seq<seq<Message>>, n0: nat, messages: seq<Message>) {
    Follows(w, calls, n0) &&
    (calls != [] ==>
       Continues(w, calls[|calls| - 1], |calls|, n0 + |SentSoFar(w, calls[..|calls| - 1])|, messages))
  }

  lemma LeadsOn(w: World, calls: seq<seq<Message>>, n0: nat, messages: seq<Message>)
    requires Leads(w, calls, n0, messages)
    ensures Follows(w, calls + [messages], n0)
  {
    hide Continues, SentSoFar;
    var more := calls + [messages];
    forall i | 0 <= i < |more| - 1
      ensures Continues(w, more[i], i + 1, n0 + |SentSoFar(w, more[..i])|, more[i + 1])
    {
      assert more[..i] == calls[..i];
    }
  }

  lemma LeadsNext(w: World, calls: seq<seq<Message>>, n0: nat, messages: seq<Message>, next: Turn)
    requires Follows(w, calls + [messages], n0) && next.Again?
    requires Asks(w.complete(|calls| + 1, messages)) != []
    requires next.asked == Message(Assistant, Blocks(w.complete(|calls| + 1, messages).content))
    requires next.answered.role == User && next.answered.content.Blocks?
    requires AnsweredInTurn(w, Asks(w.complete(|calls| + 1, messages)), n0 + |SentSoFar(w, calls)|,
               next.answered.content.blocks)
    ensures Leads(w, calls + [messages], n0, messages + [next.asked, next.answered])
  {
    hide AnsweredInTurn, SentSoFar, Follows, Asks;
    var more, after := calls + [messages], messages + [next.asked, next.answered];
    assert more[..|more| - 1] == calls && more[|more| - 1] == messages;
    assert after[..|messages|] == messages;
  }

  lemma CompletionsNext(w: World, calls: seq<seq<Message>>, messages: seq<Message>)
    ensures var cs, c := Completions(w, calls + [messages]), w.complete(|calls| + 1, messages);
            AllAsks(cs) == AllAsks(Completions(w, calls)) + Asks(c) &&
            AllSpeech(w, cs) == AllSpeech(w, Completions(w, calls)) + Speech(w, c)
  {
    hide Asks, Speech;
    var cs := Completions(w, calls + [messages]);
    assert cs[..|cs| - 1] == Completions(w, calls);
  }

  lemma {:induction false} SentJoin(w: World, a: seq<Block>, b: seq<Block>)
    ensures Sent(w, a + b) == Sent(w, a) + Sent(w, b)
  {
    hide Permitted;
    if b == [] {
      assert a + b == a;
    } else {
      SentJoin(w, a, b[..|b| - 1]);
      assert (a + b)[..|a + b| - 1] == a + b[..|b| - 1];
    }
  }

  lemma UsesJoin(w: World, a: seq<Block>, b: seq<Block>)
    ensures Ids(a + b) == Ids(a) + Ids(b) && UsedTools(w, a + b) == UsedTools(w, a) + UsedTools(w, b)
  {
    hide Resolved;
  }

  /** One turn more in the account. */
  lemma AccountedNext(w: World, calls: seq<seq<Message>>, messages: seq<Message>, events: seq<Event>,
                      dispatched: seq<string>, evs: seq<Event>, sent: seq<string>)
    requires Accounted(w, calls, events, dispatched)
    requires var c := w.complete(|calls| + 1, messages);
             Tells(evs) == Speech(w, c) && CallIds(evs) == Ids(Asks(c)) && CallsOf(evs) == UsedTools(w, Asks(c)) &&
             sent == Sent(w, Asks(c))
    ensures Accounted(w, calls + [messages], events + evs, dispatched + sent)
  {
    hide Completions, AllAsks, AllSpeech, Speech, Asks, Sent, Ids, UsedTools, Tells, CallIds, CallsOf;
    var c := w.complete(|calls| + 1, messages);
    CompletionsNext(w, calls, messages);
    SentJoin(w, AllAsks(Completions(w, calls)), Asks(c));
    UsesJoin(w, AllAsks(Completions(w, calls)), Asks(c));
    TellsJoin(events, evs);
    CallIdsJoin(events, evs);
    CallsOfJoin(events, evs);
  }

  /** The text of a turn is told first, so it is all the turn tells. */
  lemma TurnTells(w: World, c: Completion, events: seq<Event>)
    requires Speech(w, c) == [] ==> Silent(events)
    requires Speech(w, c) != [] ==>
               events != [] && Silent(events[1..]) && events[0] == MessageComplete(Speech(w, c)[0])
    ensures Tells(events) == Speech(w, c)
  {
    hide Said;
    if Speech(w, c) == [] {
      SilentTells(events);
    } else {
      TellsOnce([], Speech(w, c)[0], events[1..]);
      assert [] + [events[0]] + events[1..] == events;
    }
  }

  lemma {:induction false} SentInScope(w: World, uses: seq<Block>)
    ensures forall i | 0 <= i < |Sent(w, uses)| :: InScope(w, Sent(w, uses)[i])
  {
    hide InScope, Permitted;
    if uses == [] {
    } else {
      SentInScope(w, uses[..|uses| - 1]);
      if uses[|uses| - 1].ToolUse? {
        PermittedIffInScope(w, uses[|uses| - 1].name);
      }
    }
  }

  lemma NoTurns(w: World, start: seq<Message>, n0: nat)
    ensures Accounted(w, [], [], []) && Leads(w, [], n0, start) && Follows(w, [], n0)
  {
  }

  /** A whole conversation with the model: it starts from the prompt, each call follows from the one
      before, and it is only cut short by the turn limit. */
  ghost predicate Conversation(w: World, start: seq<Message>, calls: seq<seq<Message>>, n0: nat) {
    Follows(w, calls, n0) &&
    (calls != [] ==>
       calls[0] == start && (|calls| < TurnLimit(w) ==> Asks(w.complete(|calls|, calls[|calls| - 1])) == []))
  }

  lemma Conversed(w: World, start: seq<Message>, calls: seq<seq<Message>>, n0: nat)
    requires Follows(w, calls, n0) && (calls != [] ==> calls[0] == start)
    requires calls != [] && |calls| < TurnLimit(w) ==> Asks(w.complete(|calls|, calls[|calls| - 1])) == []
    ensures Conversation(w, start, calls, n0)
  {
  }

  /** What a turn leaves behind, in terms of its completion. */
  lemma TurnTaken(w: World, messages: seq<Message>, turn: nat, n: nat, events: seq<Event>, next: Turn)
    requires var c := w.complete(turn, messages);
             c.Failed? ==> next == Died(c.message) && events == []
    requires var c := w.complete(turn, messages);
             c.Completed? ==>
               var said := w.trim(Lines(Texts(c.content)));
               if said == "" then Silent(events)
               else events != [] && events[0] == MessageComplete(said) && Silent(events[1..])
    requires var c := w.complete(turn, messages);
             c.Completed? ==>
               if c.stopReason == "tool_use" && Uses(c.content) != [] then
                 next.Again? && next.asked == Message(Assistant, Blocks(c.content)) &&
                 next.answered.role == User && next.answered.content.Blocks? &&
                 AnsweredInTurn(w, Uses(c.content), n, next.answered.content.blocks)
               else next == Last(c.stopReason)
    ensures var c := w.complete(turn, messages);
            Tells(events) == Speech(w, c) && (next.Again? <==> Asks(c) != []) && (next.Died? <==> c.Failed?) &&
            (next.Died? ==> next.message == c.message) && (next.Last? ==> next.stopReason == c.stopReason) &&
            (next.Again? ==>
               c.stopReason == "tool_use" &&
               next.asked == Message(Assistant, Blocks(c.content)) && UseIds(next.asked) == Ids(Asks(c)) &&
               next.answered.role == User && next.answered.content.Blocks? &&
               AnsweredInTurn(w, Asks(c), n, next.answered.content.blocks))
  {
    hide AnsweredInTurn, Texts, Lines, Tells, Ids, Uses;
    TurnTells(w, w.complete(turn, messages), events);
  }

  /** The frontier loop. There are at most as many calls as turns allowed, and fewer only if the
      last one asks for nothing. Each call shows the model what the one before showed it, the
      completion that was its answer, and an answer to each tool use in that. The user is told the
      texts of the completions and nothing else; every tool use is reported once, in order; those
      within the session's scope are run, and no others. */
  method Frontier(w: World, start: seq<Message>, n0: nat)
      returns (events: seq<Event>, calls: seq<seq<Message>>, dispatched: seq<string>, learned: Option<Cached>)
    ensures EndsOnce(events) && ReadAll(Idle, events) == Idle
    ensures Trail(start, calls) && (|calls| <= TurnLimit(w) || calls == [])
    ensures calls == [] <==> TurnLimit(w) <= 0
    ensures calls != [] ==> AnsweredIds(calls[|calls| - 1][|start|..]) <= CallIds(events)
    ensures Conversation(w, start, calls, n0)
    ensures Accounted(w, calls, events, dispatched)
    ensures forall i | 0 <= i < |dispatched| :: InScope(w, dispatched[i])
    ensures var last := events[|events| - 1];
            if calls != [] && w.complete(|calls|, calls[|calls| - 1]).Failed?
            then last == SessionError(w.complete(|calls|, calls[|calls| - 1]).message)
            else last.SessionComplete? && last.turns == |calls| &&
                 last.stopReason == if calls == [] then "unknown"
                     else w.complete(|calls|, calls[|calls| - 1]).stopReason
    ensures learned == if events[|events| - 1].SessionError? then None
                       else Lesson(w, CallsOf(events), events[|events| - 1].stopReason)
  {
    hide *;
    NothingYet(start);
    NoTurns(w, start, n0);
    var messages := start;
    var turns, stopReason := 0, "unknown";
    var limit := TurnLimit(w);
    var usedTools: seq<Call> := [];
    events, calls, dispatched, learned := [], [], [], None;
    ghost var since: seq<Message> := [];
    while turns < limit
      invariant 0 <= turns == |calls| && (turns <= limit || turns == 0)
      invariant messages == start + since && Told(start, calls, since, CallIds(events))
      invariant Trail(start, calls)
      invariant if calls == [] then since == []
                else calls[0] == start && start <= calls[|calls| - 1] &&
                     AnsweredIds(calls[|calls| - 1][|start|..]) <= CallIds(events)
      invariant Open(events) && ReadAll(Idle, events) == Idle
      invariant usedTools == CallsOf(events)
      invariant Leads(w, calls, n0, messages) && Follows(w, calls, n0)
      invariant Accounted(w, calls, events, dispatched) && dispatched == SentSoFar(w, calls)
      invariant calls != [] ==> w.complete(|calls|, calls[|calls| - 1]).Completed?
      invariant stopReason == if calls == [] then "unknown" else w.complete(|calls|, calls[|calls| - 1]).stopReason
    {
      turns := turns + 1;
      ToldCall(start, calls, since, CallIds(events));
      LeadsOn(w, calls, n0, messages);
      ghost var earlier, ids, reported := calls, CallIds(events), events;
      calls := calls + [messages];
      assert start + [] == start;
      var evs, next, used, sent := TakeTurn(w, messages, turns, n0 + |dispatched|);
      TurnTaken(w, messages, turns, n0 + |dispatched|, evs, next);
      AccountedNext(w, earlier, messages, events, dispatched, evs, sent);
      AccountedSends(w, calls, events + evs, dispatched + sent);
      ReadJoin(Idle, events, evs);
      CallIdsJoin(events, evs);
      CallsOfJoin(events, evs);
      EndsAfter(events, evs);
      events := events + evs;
      usedTools := usedTools + used;
      dispatched := dispatched + sent;
      SentInScope(w, AllAsks(Completions(w, calls)));
      SentUnfolds(w, calls);
      match next {
        case Died(message) =>
          events := Ended(events, SessionError(message));
          AccountedEnded(w, calls, reported + evs, events, dispatched);
          Conversed(w, start, calls, n0);
          return;
        case Last(reason) =>
          stopReason := reason;
          break;
        case Again(asked, answered) =>
          stopReason := "tool_use";
          ToldAgain(start, earlier, since, ids, asked, answered);
          LeadsNext(w, earlier, n0, messages, next);
          assert start + since + [asked, answered] == start + (since + [asked, answered]);
          messages := messages + [asked, answered];
          since := since + [asked, answered];
      }
    }
    SentInScope(w, AllAsks(Completions(w, calls)));
    SentUnfolds(w, calls);
    ghost var open := events;
    events := Ended(events, SessionComplete(turns, stopReason));
    AccountedEnded(w, calls, open, events, dispatched);
    Conversed(w, start, calls, n0);
    learned := Lesson(w, usedTools, stopReason);
  }

  lemma SentUnfolds(w: World, calls: seq<seq<Message>>)
    ensures SentSoFar(w, calls) == Sent(w, AllAsks(Completions(w, calls)))
  {
  }

  lemma AccountedSends(w: World, calls: seq<seq<Message>>, events: seq<Event>, dispatched: seq<string>)
    requires Accounted(w, calls, events, dispatched)
    ensures dispatched == SentSoFar(w, calls)
  {
  }

  lemma AccountedEnded(w: World, calls: seq<seq<Message>>, events: seq<Event>, ended: seq<Event>,
                       dispatched: seq<string>)
    requires Accounted(w, calls, events, dispatched)
    requires Tells(ended) == Tells(events) && CallIds(ended) == CallIds(events) && CallsOf(ended) == CallsOf(events)
    ensures Accounted(w, calls, ended, dispatched)
  {
  }

  /** What a completed session teaches the cache: a session that ended its turn after exactly one
      call, to a read-like tool, teaches that call. */
  function Lesson(w: World, used: seq<Call>, stopReason: string): Option<Cached> {
    if stopReason == "end_turn" && |used| == 1 && ReadLike(w, used[0].name) then Some(CachedTool(used[0])) else None
  }

  /** A stream closed by its terminal event. */
  function Ended(events: seq<Event>, last: Event): (ended: seq<Event>)
    requires Open(events) && (last.SessionComplete? || last.SessionError?)
    ensures |ended| == |events| + 1 && EndsOnce(ended) && ended[|ended| - 1] == last
    ensures ReadAll(Idle, ended) == ReadAll(Idle, events) && CallIds(ended) == CallIds(events) &&
            CallsOf(ended) == CallsOf(events) && Tells(ended) == Tells(events)
  {
    ReadNext(Idle, events, last);
    assert (events + [last])[..|events|] == events;
    events + [last]
  }
}
