/** One session of the engine: delegated to the builder or the scheduler, settled by a local tier, the
    cache or a local model, or taken through the frontier loop. */
module Engine {
  import opened OrderedMerge
  import opened EngineEvents
  import opened ToolRegistry
  import opened EngineTiers
  import opened FrontierLoop
  import Builds
  import Reports = BuildReports
  import Runtime = CoworkerRuntime

  // ----- the whole session

  /** The stream ends in session.complete. */
  predicate Completes(events: seq<Event>) {
    EndsOnce(events) && events[|events| - 1].SessionComplete?
  }

  /** Everything the scheduler needs is there, and the operator does not stop it. */
  predicate Schedulable(s: Builds.ScheduleWorld) {
    s.hasWorkspace && s.parsed && !s.pressed && s.create.Got? && s.shownTime.Got?
  }

  /** One of the three attempts a build may take comes up. */
  ghost predicate Buildable(b: Builds.BuildWorld) {
    exists k | 1 <= k <= 3 :: Builds.CameUp(b.polls(k))
  }

  /** What the delegate reports: a schedule exactly when it could be made; a build only when an attempt
      came up, and exactly then when nothing fails and nobody stops it. */
  ghost predicate DelegateReports(w: World, events: seq<Event>) {
    (w.scheduleIntent ==>
       (Completes(events) <==> Schedulable(w.schedule)) &&
       (Completes(events) ==>
          Tells(events) ==
          ["Scheduled \"" + w.schedule.create.value + "\" for " + w.schedule.shownTime.value + "."])) &&
    (!w.scheduleIntent ==>
       (Completes(events) ==>
          Buildable(w.build) && Tells(events) == ["I built and deployed the system. The preview is ready now."]) &&
       (Builds.Smooth(w.build) && (forall k :: !w.build.presses(k)) ==> (Completes(events) <==> Buildable(w.build))))
  }

  /** The session is handed to the scheduler or the builder. */
  predicate Delegated(w: World) {
    w.scheduleIntent || (w.planIntent && w.hasWorkspace)
  }

  /** The operator stops neither delegate, and nothing fails with the stop's own message. */
  ghost predicate NotStopped(w: World) {
    if w.scheduleIntent then
      !w.schedule.pressed && w.schedule.create != Builds.Threw(Builds.STOP_MESSAGE) &&
      w.schedule.shownTime != Builds.Threw(Builds.STOP_MESSAGE)
    else Builds.NeverStopped(w.build)
  }

  /** A collaborator awaited outside every try rejects. */
  predicate OutsideRejects(w: World) {
    w.lookup.Rejected? || w.orgModelAvailable.Rejected? || w.chatModelAvailable.Rejected? || w.budget.Rejected?
  }

  /** What the cache has to offer is a reply, or a tool that is still read-like. */
  predicate Replayable(w: World) {
    w.lookup.Fine? && w.lookup.value.Some? && OnlyReads(w, w.lookup.value.value)
  }

  /** The session gets to the cache, and the tool replayed succeeds but cannot be described. */
  predicate CacheStumbles(w: World) {
    !(w.classify.Fine? && Settles(w, w.classify.value)) && Replayable(w) && w.lookup.value.value.CachedTool? &&
    Stumbles(w, w.lookup.value.value.call, LocalDispatches(w))
  }

  /** The session gets past its delegates, the local tiers and the cache to the frontier model. */
  predicate Escalates(w: World) {
    !w.scheduleIntent && !w.planIntent && !(w.classify.Fine? && Settles(w, w.classify.value)) && !Replayable(w) &&
    NeedsFrontier(w)
  }

  /** A usable answer of a local model: not empty, and without the word that escalates. */
  function LocalAnswer(w: World, answer: Maybe<string>, escalate: string): Option<string> {
    if answer.Rejected? || w.trim(answer.value) == "" || w.contains(w.trim(answer.value), escalate) then None
    else Some(w.trim(answer.value))
  }

  /** The local model answers the question from what is known about the organization. */
  predicate OrgAnswers(w: World) {
    w.orgQuestion && w.briefHasContent && w.orgModelAvailable == Fine(true) &&
    LocalAnswer(w, w.orgAnswer, "NEED_CONTEXT").Some?
  }

  /** The local model answers the conversation. */
  predicate ChatAnswers(w: World) {
    w.localChatEnabled && !w.actionRequest && w.chatModelAvailable == Fine(true) &&
    LocalAnswer(w, w.chatAnswer, "ESCALATE").Some?
  }

  /** Nothing cheaper than the frontier model settles the session, and the budget allows it. */
  predicate NeedsFrontier(w: World) {
    !OrgAnswers(w) && !ChatAnswers(w) && w.budget == Fine(true)
  }

  function Settled(tier: nat, text: string, stopReason: string): (events: seq<Event>)
    ensures EndsOnce(events) && ReadAll(Idle, events) == Idle && Tells(events) == [text]
  {
    var events := [SessionRouted(tier, None), MessageComplete(text), SessionComplete(0, stopReason)];
    ReadQuiet(Idle, events);
    TellsLast([events[0]], events[1], events[2]);
    assert [events[0]] + [events[1], events[2]] == events;
    events
  }

  /** What the user hears after the cache: one local answer, or the notice that the budget is used
      up, or what the frontier model has to say. */
  function AnswerTells(w: World, calls: seq<seq<Message>>): seq<string> {
    if OrgAnswers(w) then [w.trim(w.orgAnswer.value)]
    else if ChatAnswers(w) then [w.trim(w.chatAnswer.value)]
    else if w.budget != Fine(true) then [w.budgetNotice]
    else AllSpeech(w, Completions(w, calls))
  }

  /** What is remembered of a session that asked the model: the one tool it used, if that only reads
      and the model ended its turn. */
  function AnswerLearns(w: World, calls: seq<seq<Message>>): Option<Cached> {
    var asks := AllAsks(Completions(w, calls));
    if calls == [] || w.complete(|calls|, calls[|calls| - 1]).Failed? then None
    else if w.complete(|calls|, calls[|calls| - 1]).stopReason != "end_turn" || |asks| != 1 then None
    else
      var name := Resolved(w, asks[0].name);
      if ReadLike(w, name) then Some(CachedTool(Call(name, asks[0].input))) else None
  }

  /** What is remembered of a session that is not delegated: besides that, a reply of a local tier, or
      the tool it used if that only reads. */
  function SessionLearns(w: World, calls: seq<seq<Message>>): Option<Cached> {
    if w.classify.Fine? && Settles(w, w.classify.value) then
      var d := w.classify.value;
      if d.directReply.Some? && d.directReply.value != "" then Some(CachedReply(d.directReply.value))
      else if IsReadLike(Registered(w.tools), d.tool.value.name) then Some(CachedTool(d.tool.value))
      else None
    else AnswerLearns(w, calls)
  }

  /** The frontier model is asked exactly when the session is not delegated; the classifier settles it
      neither by a reply nor by a tool of tier 0 or 1 whose result can be told; the cache has neither a
      reply nor a tool that still only reads; neither local model gives a non-empty answer without its
      word for passing on; and the budget allows it. */
  lemma EscalatesExactly(w: World)
    ensures Escalates(w) <==>
            !w.scheduleIntent && !w.planIntent &&
            !(w.classify.Fine? && w.classify.value.tier <= 1 &&
              var d := w.classify.value;
              ((d.directReply.Some? && d.directReply.value != "") ||
               (d.tool.Some? &&
                var result := w.dispatch(0, d.tool.value.name, d.tool.value.input);
                result.Returned? && result != Returned(None, BigInt)))) &&
            !(w.lookup.Fine? && w.lookup.value.Some? &&
              match w.lookup.value.value
              case CachedReply(_) => true
              case CachedTool(call) => IsReadLike(Registered(w.tools), call.name)) &&
            !(w.orgQuestion && w.briefHasContent && w.orgModelAvailable == Fine(true) && w.orgAnswer.Fine? &&
              var answer := w.trim(w.orgAnswer.value); answer != "" && !w.contains(answer, "NEED_CONTEXT")) &&
            !(w.localChatEnabled && !w.actionRequest && w.chatModelAvailable == Fine(true) && w.chatAnswer.Fine? &&
              var answer := w.trim(w.chatAnswer.value); answer != "" && !w.contains(answer, "ESCALATE")) &&
            w.budget == Fine(true)
  {
    hide IsReadLike, Registered;
  }

  /** What the user hears of a session that is not delegated. */
  function SessionTells(w: World, calls: seq<seq<Message>>): seq<string> {
    if w.classify.Fine? && Settles(w, w.classify.value) then [LocalReply(w, w.classify.value)]
    else if Replayable(w) then ReplayTells(w, w.lookup.value.value, LocalDispatches(w))
    else AnswerTells(w, calls)
  }

  /** Everything after the cache: the two local answers, the budget, and the frontier loop. */
  method Answer(w: World, n: nat)
      returns (events: seq<Event>, threw: bool, calls: seq<seq<Message>>, dispatched: seq<string>,
              learned: Option<Cached>)
    ensures if threw then events == [] && OutsideRejects(w) else EndsOnce(events)
    ensures calls != [] <==> !threw && NeedsFrontier(w) && TurnLimit(w) > 0
    ensures !threw && OrgAnswers(w) ==>
              events == [SessionRouted(1, None), MessageComplete(w.trim(w.orgAnswer.value)),
                         SessionComplete(0, "tier1_org_qa")]
    ensures !threw && !OrgAnswers(w) && ChatAnswers(w) ==>
              events == [SessionRouted(2, None), MessageComplete(w.trim(w.chatAnswer.value)),
                         SessionComplete(0, "tier2_local_chat")]
    ensures !threw && !OrgAnswers(w) && !ChatAnswers(w) && !NeedsFrontier(w) ==>
              w.budget == Fine(false) &&
              events == [MessageComplete(w.budgetNotice), SessionComplete(0, "budget_exhausted")]
    ensures !threw && NeedsFrontier(w) ==> Accounted(w, calls, events, dispatched)
    ensures dispatched == SentSoFar(w, calls)
    ensures Conversation(w, w.history + [Message(User, Plain(w.prompt))], calls, n)
    ensures !threw ==> Tells(events) == AnswerTells(w, calls) && learned == AnswerLearns(w, calls)
    ensures Answered(events)
    ensures Trail(w.history + [Message(User, Plain(w.prompt))], calls) && (|calls| <= TurnLimit(w) || calls == [])
    ensures forall i | 0 <= i < |dispatched| :: InScope(w, dispatched[i])
    ensures learned.Some? ==> OnlyReads(w, learned.value)
  {
    NothingAnswered(w);
    hide Trail, Conversation, InScope, Settles, Replayable, Completions, AllAsks, AllSpeech, Asks, Tells, CallIds,
      CallsOf, AnsweredIds;
    events, threw, calls, dispatched, learned := [], false, [], [], None;
    if w.orgQuestion && w.briefHasContent {
      if w.orgModelAvailable.Rejected? {
        threw := true;
        return;
      }
      if w.orgModelAvailable.value && LocalAnswer(w, w.orgAnswer, "NEED_CONTEXT").Some? {
        events := Settled(1, LocalAnswer(w, w.orgAnswer, "NEED_CONTEXT").value, "tier1_org_qa");
        return;
      }
    }
    if w.localChatEnabled && !w.actionRequest {
      if w.chatModelAvailable.Rejected? {
        threw := true;
        return;
      }
      if w.chatModelAvailable.value && LocalAnswer(w, w.chatAnswer, "ESCALATE").Some? {
        events := Settled(2, LocalAnswer(w, w.chatAnswer, "ESCALATE").value, "tier2_local_chat");
        return;
      }
    }
    if w.budget.Rejected? {
      threw := true;
      return;
    }
    if !w.budget.value {
      events := [MessageComplete(w.budgetNotice), SessionComplete(0, "budget_exhausted")];
      ReadQuiet(Idle, events);
      TellsLast([], events[0], events[1]);
      assert [] + [events[0], events[1]] == events;
      return;
    }
    events, calls, dispatched, learned := Frontier(w, w.history + [Message(User, Plain(w.prompt))], n);
    LessonOnlyReads(w, CallsOf(events), events[|events| - 1]);
    LessonIs(w, calls, events);
  }

  lemma LessonIs(w: World, calls: seq<seq<Message>>, events: seq<Event>)
    requires events != [] && CallsOf(events) == UsedTools(w, AllAsks(Completions(w, calls)))
    requires var last := events[|events| - 1];
             if calls != [] && w.complete(|calls|, calls[|calls| - 1]).Failed? then last.SessionError?
             else last.SessionComplete? &&
                  last.stopReason ==
                  if calls == [] then "unknown" else w.complete(|calls|, calls[|calls| - 1]).stopReason
    ensures AnswerLearns(w, calls) == if events[|events| - 1].SessionError? then None
                                      else Lesson(w, CallsOf(events), events[|events| - 1].stopReason)
  {
    hide CallsOf, AllAsks, Completions, Resolved, ReadLike;
    assert calls == [] ==> "unknown" != "end_turn" by { assert "unknown"[0] != "end_turn"[0]; }
  }

  lemma NothingAnswered(w: World)
    ensures Trail(w.history + [Message(User, Plain(w.prompt))], []) && Answered([]) && SentSoFar(w, []) == []
    ensures forall n :: Conversation(w, w.history + [Message(User, Plain(w.prompt))], [], n)
  {
  }

  lemma LessonOnlyReads(w: World, used: seq<Call>, last: Event)
    ensures last.SessionComplete? ==>
              var lesson := Lesson(w, used, last.stopReason); lesson.Some? ==> OnlyReads(w, lesson.value)
  {
  }

  lemma SettledLearns(w: World)
    ensures w.classify.Fine? && Settles(w, w.classify.value) ==>
              forall calls :: SessionLearns(w, calls) == LocalLesson(w, w.classify.value)
  {
    hide IsReadLike, Registered;
  }

  lemma SettledDoesNotStumble(w: World)
    ensures w.classify.Fine? && Settles(w, w.classify.value) ==>
              !TierStumbles(w) &&
              (LocalLesson(w, w.classify.value).Some? ==> OnlyReads(w, LocalLesson(w, w.classify.value).value))
  {
  }

  /** A whole session, whatever the collaborators do.
      - Unless something awaited outside every try rejects, the stream has exactly one terminal
        event and it is the last; a delegated session lacks it exactly when the operator's stop ended it.
      - Calls and results of the tiers, the cache and the frontier alternate with matching ids,
        except when a tool run outside the frontier returns a BigInt without a summary.
      - The frontier model is asked exactly when nothing cheaper settles the session and the budget
        allows it. It sees the prompt, then finished exchanges, each the completion it gave and the
        answers to it, and is asked again until it asks for nothing or the turns are used up.
      - The user hears the local answer, what the cache replays, the notice about the budget, or, when
        the model is asked, every text of its completions and nothing else.
      - What the model runs is within the scope: nothing but readers in a read-only session, and
        nothing off the allowlist; and it is exactly what the model asked for within that scope. */
  method Run(rt: Runtime.Runtime, w: World)
      returns (events: seq<Event>, threw: bool, calls: seq<seq<Message>>, dispatched: seq<string>,
              learned: Option<Cached>)
    modifies rt
    ensures threw ==> !Delegated(w) && OutsideRejects(w) && Open(events)
    ensures !threw && !Delegated(w) ==> EndsOnce(events)
    ensures !threw && (w.scheduleIntent || w.planIntent) && !Delegated(w) ==>
              events == [SessionStarted,
                         SessionError("A workspace is required before the coworker can build a system.")]
    ensures Delegated(w) ==> EndsOnce(events) || Reports.StoppedQuietly(events)
    ensures Delegated(w) && NotStopped(w) ==> EndsOnce(events)
    ensures Delegated(w) ==> DelegateReports(w, events)
    ensures !Delegated(w) ==> (Answered(events) <==> w.planIntent || (!TierStumbles(w) && !CacheStumbles(w)))
    ensures Trail(w.history + [Message(User, Plain(w.prompt))], calls) && (|calls| <= TurnLimit(w) || calls == [])
    ensures calls != [] <==> !threw && Escalates(w) && TurnLimit(w) > 0
    ensures Conversation(w, w.history + [Message(User, Plain(w.prompt))], calls, LocalDispatches(w))
    ensures |calls| <= (if w.maxTurns.Some? then w.maxTurns.value else 10) || calls == []
    ensures !threw && !w.scheduleIntent && !w.planIntent ==>
              Tells(events) == SessionTells(w, calls) && learned == SessionLearns(w, calls)
    ensures calls != [] ==> Tells(events) == AllSpeech(w, Completions(w, calls))
    ensures dispatched == SentSoFar(w, calls)
    ensures forall i | 0 <= i < |dispatched| ::
              (w.readOnly ==> IsReadLike(Registered(w.tools), dispatched[i])) &&
              OnList(Registered(w.tools), dispatched[i], w.allowlist)
    ensures learned.Some? ==> OnlyReads(w, learned.value)
  {
    TurnLimitIs(w);
    hide *;
    events, threw, calls, dispatched, learned := [SessionStarted], false, [], [], None;
    JustStarted();
    NothingSent(w);
    var more;
    if w.scheduleIntent || w.planIntent {
      NothingYet(w.history + [Message(User, Plain(w.prompt))]);
      NotEscalated(w);
      more := Delegate(rt, w);
      StoppedAfter(events, more);
      ReportsAfter(w, events, more);
    } else {
      NotDelegated(w);
      more, threw, calls, dispatched, learned := Resolve(w);
      ScopeUnfolds(w, dispatched);
      TellsWhenEscalated(w, calls);
    }
    AnsweredAfter(events, more);
    events := Continue(events, more);
  }

  lemma TurnLimitIs(w: World)
    ensures TurnLimit(w) == if w.maxTurns.Some? then w.maxTurns.value else 10
  {
  }

  lemma NothingSent(w: World)
    ensures SentSoFar(w, []) == [] && AnswerLearns(w, []) == None
    ensures Conversation(w, w.history + [Message(User, Plain(w.prompt))], [], LocalDispatches(w))
  {
  }

  lemma ScopeUnfolds(w: World, names: seq<string>)
    ensures forall i | 0 <= i < |names| && InScope(w, names[i]) ::
              (w.readOnly ==> IsReadLike(Registered(w.tools), names[i])) &&
              OnList(Registered(w.tools), names[i], w.allowlist)
  {
  }

  lemma TellsWhenEscalated(w: World, calls: seq<seq<Message>>)
    ensures Escalates(w) ==> SessionTells(w, calls) == AllSpeech(w, Completions(w, calls))
  {
  }

  lemma AnsweredAfter(a: seq<Event>, b: seq<Event>)
    requires ReadAll(Idle, a) == Idle
    ensures Answered(a + b) <==> Answered(b)
  {
    ReadJoin(Idle, a, b);
  }

  lemma JustStarted()
    ensures Open([SessionStarted]) && ReadAll(Idle, [SessionStarted]) == Idle && Tells([SessionStarted]) == []
  {
    ReadQuiet(Idle, [SessionStarted]);
    SilentTells([SessionStarted]);
  }

  lemma NotEscalated(w: World)
    requires w.scheduleIntent || w.planIntent
    ensures !Escalates(w)
    ensures !Delegated(w) ==> w.planIntent
  {
  }

  lemma NotDelegated(w: World)
    requires !w.scheduleIntent && !w.planIntent
    ensures !Delegated(w)
  {
  }

  lemma StoppedAfter(a: seq<Event>, b: seq<Event>)
    requires Open(a)
    ensures Reports.StoppedQuietly(b) ==> Reports.StoppedQuietly(a + b)
  {
  }

  lemma ReportsAfter(w: World, a: seq<Event>, b: seq<Event>)
    requires Open(a) && Tells(a) == [] && (EndsOnce(b) || Reports.StoppedQuietly(b))
    ensures DelegateReports(w, b) ==> DelegateReports(w, a + b)
  {
    hide Schedulable, Buildable, Builds.Smooth;
    EndsAfter(a, b);
    TellsJoin(a, b);
    assert Completes(a + b) <==> Completes(b);
  }

  /** A prompt to schedule or to build goes to the runtime; a build needs a workspace. */
  method Delegate(rt: Runtime.Runtime, w: World) returns (events: seq<Event>)
    requires w.scheduleIntent || w.planIntent
    modifies rt
    ensures !Delegated(w) ==>
              EndsOnce(events) && Answered(events) &&
              events == [SessionError("A workspace is required before the coworker can build a system.")]
    ensures Delegated(w) ==> EndsOnce(events) || Reports.StoppedQuietly(events)
    ensures Delegated(w) && NotStopped(w) ==> EndsOnce(events)
    ensures Delegated(w) ==> DelegateReports(w, events)
  {
    if w.scheduleIntent {
      var error;
      events, error := rt.RunSchedule(w.schedule);
    } else if !w.hasWorkspace {
      events := [SessionError("A workspace is required before the coworker can build a system.")];
      ReadQuiet(Idle, events);
    } else {
      hide Builds.Pressed, Builds.Quiet, Builds.NeverStopped, Builds.CameUp, Builds.CameDown, Builds.Smooth;
      var error, prompts, looks;
      events, error, prompts, looks := rt.RunBuild(w.build, w.prompt);
      if Completes(events) {
        BuiltWithinThree(w, events, prompts);
      }
    }
  }

  lemma BuiltWithinThree(w: World, events: seq<Event>, prompts: seq<Builds.Begun>)
    requires Builds.BuiltBy(w.build, |prompts|, events) && Builds.PromptsTold(w.build, w.prompt, prompts)
    ensures Buildable(w.build) && Tells(events) == ["I built and deployed the system. The preview is ready now."]
  {
  }

  /** Any other prompt goes through the local tiers, the cache, and what follows. */
  method Resolve(w: World)
      returns (events: seq<Event>, threw: bool, calls: seq<seq<Message>>, dispatched: seq<string>,
              learned: Option<Cached>)
    requires !w.scheduleIntent && !w.planIntent
    ensures threw ==> OutsideRejects(w) && Open(events)
    ensures !threw ==> EndsOnce(events)
    ensures Answered(events) <==> !TierStumbles(w) && !CacheStumbles(w)
    ensures Trail(w.history + [Message(User, Plain(w.prompt))], calls) && (|calls| <= TurnLimit(w) || calls == [])
    ensures calls != [] <==> !threw && Escalates(w) && TurnLimit(w) > 0
    ensures Conversation(w, w.history + [Message(User, Plain(w.prompt))], calls, LocalDispatches(w))
    ensures !threw ==> Tells(events) == SessionTells(w, calls) && learned == SessionLearns(w, calls)
    ensures dispatched == SentSoFar(w, calls)
    ensures forall i | 0 <= i < |dispatched| :: InScope(w, dispatched[i])
    ensures learned.Some? ==> OnlyReads(w, learned.value)
  {
    SettledDoesNotStumble(w);
    SettledLearns(w);
    hide NeedsFrontier, Settles, Stumbles, TierStumbles, LocalCall, LocalDispatches, LocalLesson, LocalReply, OnlyReads,
      Trail, EndsOnce, Open, ReadAll, InScope, TurnLimit, Conversation, SentSoFar, Tells, ReplayTells, AnswerTells,
      Reply, Replayed, AnswerLearns, ReadLike, IsReadLike;
    threw, calls, dispatched := false, [], [];
    NothingYet(w.history + [Message(User, Plain(w.prompt))]);
    NothingSent(w);
    var done, n;
    events, done, n, learned := RouteLocally(w);
    if done {
      return;
    }
    if w.lookup.Rejected? {
      threw := true;
      return;
    }
    if Replayable(w) {
      RoutedOnly();
      var replay := ReplayFromCache(w, w.lookup.value.value, n);
      events := Continue(events, [SessionRouted(1, None)]);
      events := Continue(events, replay);
      return;
    }
    var answer;
    answer, threw, calls, dispatched, learned := Answer(w, n);
    NothingMore(answer);
    events := Continue(events, answer);
  }

  lemma RoutedOnly()
    ensures Open([SessionRouted(1, None)]) && forall r :: ReadAll(r, [SessionRouted(1, None)]) == r
    ensures Tells([SessionRouted(1, None)]) == []
  {
    SilentTells([SessionRouted(1, None)]);
    forall r
      ensures ReadAll(r, [SessionRouted(1, None)]) == r
    {
      ReadQuiet(r, [SessionRouted(1, None)]);
    }
  }

  lemma NothingMore(events: seq<Event>)
    ensures events == [] ==> Open(events) && forall r :: ReadAll(r, events) == r
  {
  }

  /** Appending to a stream that has not ended: its reading goes on where it was. */
  function Continue(events: seq<Event>, more: seq<Event>): (all: seq<Event>)
    requires Open(events)
    ensures all == events + more
    ensures EndsOnce(more) ==> EndsOnce(all)
    ensures Open(more) ==> Open(all)
    ensures ReadAll(Idle, all) == ReadAll(ReadAll(Idle, events), more)
    ensures Tells(all) == Tells(events) + Tells(more)
    ensures ReadAll(Idle, events) == Broken ==> ReadAll(Idle, all) == Broken
  {
    EndsAfter(events, more);
    ReadJoin(Idle, events, more);
    TellsJoin(events, more);
    ReadBroken(more);
    events + more
  }
}
