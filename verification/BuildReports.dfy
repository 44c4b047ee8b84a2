/** What builds and schedule requests report: how their streams end, what they tell the user, and which
    states they go through. */
module BuildReports {
  import opened OrderedMerge
  import opened EngineEvents
  import opened Builds

  /** How the try block of a build is left. */
  ghost predicate Tried(w: BuildWorld, request: string, events: seq<Event>, exit: Exit, prompts: seq<Begun>, n: nat) {
    Heeds(w, n, exit) && PromptsTold(w, request, prompts) &&
    Delivered(w, prompts, if exit.Raised? then |prompts| - 1 else |prompts|) &&
    (!w.hasWorkspace ==> exit == Raised("A workspace is required before the coworker can build.") && prompts == []) &&
    match exit
    case Raised(_) => Open(events) && Silent(events) && Phases(events) <= [Thinking] + Rounds(|prompts|)
    case Returned =>
      EndsOnce(events) && BuiltBy(w, |prompts|, events) && n == LooksBefore(w, |prompts| + 1) &&
      Phases(events) == [Thinking] + Rounds(|prompts|) + [ReadyForFeedback]
    case Fell =>
      EndsOnce(events) && GaveUp(w, prompts, events) &&
      Phases(events) == [Thinking] + Rounds(|prompts|) + [RuntimeState.Failed]
  }

  /** The error a schedule request ends with, if any. */
  function ScheduleError(w: ScheduleWorld): Option<string> {
    if !w.hasWorkspace then Some(NO_WORKSPACE)
    else if !w.parsed then None
    else if w.pressed then Some(STOP_MESSAGE)
    else if w.create.Threw? then Some(w.create.message)
    else if w.shownTime.Threw? then Some(w.shownTime.message)
    else None
  }

  function ScheduledText(w: ScheduleWorld): string
    requires w.create.Got? && w.shownTime.Got?
  {
    "Scheduled \"" + w.create.value + "\" for " + w.shownTime.value + "."
  }

  lemma ScheduleSpelled(w: ScheduleWorld)
    ensures NEED_TITLE_AND_TIME ==
            "I need the meeting title and time. Example: \"Schedule a meeting with Mr Sagiru today at 8:30pm.\""
    ensures ScheduleError(w) == if !w.hasWorkspace then Some("A workspace is required before the coworker can build.")
                                else if !w.parsed then None
                                else if w.pressed then Some("Operation stopped by user.")
                                else if w.create.Threw? then Some(w.create.message)
                                else if w.shownTime.Threw? then Some(w.shownTime.message)
                                else None
    ensures w.create.Got? && w.shownTime.Got? ==>
              ScheduledText(w) == "Scheduled \"" + w.create.value + "\" for " + w.shownTime.value + "."
    ensures w.parsed && ScheduleError(w).None? <==>
              w.hasWorkspace && w.parsed && !w.pressed && w.create.Got? && w.shownTime.Got?
  {
  }

  /** How the try block of a schedule request is left. */
  ghost predicate ScheduleTried(w: ScheduleWorld, events: seq<Event>, error: Option<string>) {
    error == ScheduleError(w) &&
    if error.Some? then Open(events) && Silent(events)
    else
      EndsOnce(events) && events != [] &&
      if w.parsed then
        events[|events| - 1] == SessionComplete(1, "scheduled") &&
        Tells(events) == [ScheduledText(w)]
      else events[|events| - 1] == SessionError(NEED_TITLE_AND_TIME) && Tells(events) == []
  }

  function ScheduleReported(w: ScheduleWorld, body: seq<Event>, error: Option<string>): seq<Event> {
    [StatusEvent(w.operationId, Queued)] + body + (if error.Some? then Caught(w.operationId, error.value) else [])
  }

  lemma ScheduleUnfolds(w: ScheduleWorld, body: seq<Event>, error: Option<string>)
    requires ScheduleTried(w, body, error)
    ensures error == ScheduleError(w)
    ensures error.Some? ==> Open(body) && Silent(body)
    ensures error.None? ==>
              EndsOnce(body) && body != [] &&
              if w.parsed then
                body[|body| - 1] == SessionComplete(1, "scheduled") &&
                Tells(body) == [ScheduledText(w)]
              else body[|body| - 1] == SessionError(NEED_TITLE_AND_TIME) && Tells(body) == []
  {
    hide Tells, Open, Silent;
  }

  lemma ScheduleSplits(w: ScheduleWorld, body: seq<Event>, error: Option<string>)
    ensures var queued := [StatusEvent(w.operationId, Queued)];
            Open(queued) && Silent(queued) &&
            ScheduleReported(w, body, error) ==
            if error.Some? then queued + body + Caught(w.operationId, error.value) else queued + body
  {
    var queued := [StatusEvent(w.operationId, Queued)];
    assert queued + body + [] == queued + body;
    hide Caught;
  }

  lemma ScheduleReports(w: ScheduleWorld, body: seq<Event>, error: Option<string>)
    requires ScheduleTried(w, body, error)
    ensures error == ScheduleError(w)
    ensures var events := ScheduleReported(w, body, error);
            events != [] &&
            (error == Some(STOP_MESSAGE) ==>
               StoppedQuietly(events) && !EndsOnce(events) && Tells(events) == ["I stopped the operation."]) &&
            (error.Some? && error != Some(STOP_MESSAGE) ==>
               EndsOnce(events) && events[|events| - 1] == SessionError(error.value) && Tells(events) == []) &&
            (error.None? ==>
               EndsOnce(events) &&
               if w.parsed then
                 events[|events| - 1] == SessionComplete(1, "scheduled") &&
                 Tells(events) == [ScheduledText(w)]
               else events[|events| - 1] == SessionError(NEED_TITLE_AND_TIME) && Tells(events) == []) &&
            (EndsOnce(events) && events[|events| - 1].SessionComplete? <==>
             w.hasWorkspace && w.parsed && !w.pressed && w.create.Got? && w.shownTime.Got?)
  {
    hide *;
    var queued := [StatusEvent(w.operationId, Queued)];
    ScheduleUnfolds(w, body, error);
    ScheduleSpelled(w);
    ScheduleSplits(w, body, error);
    EndsAfter(queued, body);
    ToldAfter(queued, body);
    LastOfAll(queued, body);
    if error.Some? {
      var caught := Caught(w.operationId, error.value);
      CaughtEnds(w.operationId, error.value);
      EndsAfter(queued + body, caught);
      ToldAfter(queued + body, caught);
      LastOfAll(queued + body, caught);
      QuietEnd(queued + body + caught, caught[1]);
    }
  }

  /** Three attempts, the last one failed as well, and the stream ends with its error. */
  ghost predicate GaveUp(w: BuildWorld, prompts: seq<Begun>, events: seq<Event>) {
    |prompts| == 3 && FailedAttempt(w, 3) && Silent(events) && events != [] &&
    events[|events| - 1] ==
    SessionError(if ErrorOf(w, 3) != "" then ErrorOf(w, 3) else "Deployment failed after automatic repair attempts.")
  }

  lemma ThreeFailed(w: BuildWorld, prompts: seq<Begun>, events: seq<Event>, lastError: string)
    requires |prompts| == BUILD_MAX_REPAIR_ATTEMPTS && Silent(events) && lastError == ErrorOf(w, |prompts|)
    requires FailedAttempt(w, |prompts|)
    ensures GaveUp(w, prompts, events + GivenUp(w, lastError))
  {
    hide FailedAttempt, ErrorOf;
  }

  lemma GaveUpAfter(w: BuildWorld, prompts: seq<Begun>, a: seq<Event>, b: seq<Event>)
    requires Silent(a)
    ensures GaveUp(w, prompts, b) ==> GaveUp(w, prompts, a + b)
  {
    hide FailedAttempt, ErrorOf;
  }

  /** The last words of a build whose attempts are used up. */
  function GivenUp(w: BuildWorld, lastError: string): (events: seq<Event>)
    ensures EndsOnce(events) && events[|events| - 1].SessionError?
  {
    [StatusEvent(w.operationId, Failed),
     SessionError(if lastError != "" then lastError else "Deployment failed after automatic repair attempts.")]
  }

  lemma NothingYet(w: BuildWorld, request: string)
    ensures PromptsTold(w, request, []) && PromptOf(w, request, 1) == GeneratorPrompt(w, request)
    ensures !Pressed(w, 0) && LooksBefore(w, 1) == 0 && Open([]) && BUILD_MAX_REPAIR_ATTEMPTS >= 1
    ensures Silent([]) && Delivered(w, [], 0)
  {
    hide GeneratorPrompt, RepairPrompt;
  }

  lemma NextAttempt(w: BuildWorld, request: string, attempt: nat)
    requires attempt >= 1
    ensures PromptOf(w, request, attempt + 1) == RepairPrompt(w, request, ErrorOf(w, attempt), LogsOf(w, attempt))
    ensures LooksBefore(w, attempt + 1) == LooksBefore(w, attempt) + AttemptLooks(w, attempt)
    ensures forall n, exit | Heeds(w, n, exit) && !exit.Raised? :: !Pressed(w, n)
  {
    hide GeneratorPrompt, RepairPrompt;
  }

  /** The last words of a build whose preview runs. */
  function ReadyEvents(w: BuildWorld, attempt: nat): (events: seq<Event>)
    requires attempt >= 1
    ensures EndsOnce(events) && (CameUp(w.polls(attempt)) ==> BuiltBy(w, attempt, events))
  {
    var deployed := ResultEvent(w, "runner.deploy", true, 8 * attempt + 4);
    var before := [deployed, StatusEvent(w.operationId, ReadyForFeedback)];
    TellsOnce(before, BUILT, [SessionComplete(attempt, "ready")]);
    before + [MessageComplete(BUILT)] + [SessionComplete(attempt, "ready")]
  }

  lemma ToldAfter(a: seq<Event>, b: seq<Event>)
    requires Silent(a)
    ensures Tells(a + b) == Tells(b) && (Silent(b) ==> Silent(a + b))
  {
    SilentTells(a);
    TellsJoin(a, b);
  }

  lemma BuiltAfter(w: BuildWorld, attempt: nat, a: seq<Event>, b: seq<Event>)
    requires Silent(a)
    ensures BuiltBy(w, attempt, b) ==> BuiltBy(w, attempt, a + b)
    ensures Silent(b) ==> Silent(a + b)
    ensures Tells(a + b) == Tells(b)
  {
    ToldAfter(a, b);
  }

  /** The whole stream of a build: what its try block reports, and what its catch block adds. */
  function Reported(w: BuildWorld, body: seq<Event>, exit: Exit): seq<Event> {
    [StatusEvent(w.operationId, Queued)] + body + (if exit.Raised? then Caught(w.operationId, exit.message) else [])
  }

  lemma NothingPressed(w: BuildWorld)
    ensures !Pressed(w, 0)
  {
  }

  lemma ReportSplits(w: BuildWorld, body: seq<Event>, exit: Exit)
    ensures Open([StatusEvent(w.operationId, Queued)]) && Silent([StatusEvent(w.operationId, Queued)])
    ensures !exit.Raised? ==> Reported(w, body, exit) == [StatusEvent(w.operationId, Queued)] + body
    ensures exit.Raised? ==>
              Reported(w, body, exit) ==
              ([StatusEvent(w.operationId, Queued)] + body) + Caught(w.operationId, exit.message)
  {
  }

  lemma TriedUnfolds(w: BuildWorld, request: string, body: seq<Event>, exit: Exit, prompts: seq<Begun>, n: nat)
    requires Tried(w, request, body, exit, prompts, n)
    ensures Heeds(w, n, exit) && PromptsTold(w, request, prompts)
    ensures Delivered(w, prompts, if exit.Raised? then |prompts| - 1 else |prompts|)
    ensures !w.hasWorkspace ==>
              exit == Raised("A workspace is required before the coworker can build.") && prompts == []
    ensures exit.Raised? ==> Open(body) && Silent(body) && Phases(body) <= [Thinking] + Rounds(|prompts|)
    ensures exit.Returned? ==>
              EndsOnce(body) && BuiltBy(w, |prompts|, body) && n == LooksBefore(w, |prompts| + 1) &&
              Phases(body) == [Thinking] + Rounds(|prompts|) + [ReadyForFeedback]
    ensures exit.Fell? ==>
              EndsOnce(body) && GaveUp(w, prompts, body) &&
              Phases(body) == [Thinking] + Rounds(|prompts|) + [RuntimeState.Failed]
  {
    hide Heeds, PromptsTold, Delivered, Open, Silent, Phases, Rounds, EndsOnce, BuiltBy, GaveUp, LooksBefore;
  }

  lemma LastWord(w: BuildWorld, prompts: seq<Begun>, events: seq<Event>)
    ensures BuiltBy(w, |prompts|, events) ==>
              prompts != [] && events != [] && events[|events| - 1] == SessionComplete(|prompts|, "ready") &&
              CameUp(w.polls(|prompts|)) && Tells(events) == [BUILT]
    ensures GaveUp(w, prompts, events) ==>
              |prompts| == 3 && events != [] && events[|events| - 1].SessionError? && Silent(events) &&
              CameDown(w.polls(3))
  {
    hide CameUp, CameDown, ErrorOf, Tells;
  }

  lemma CaughtEnds(id: string, message: string)
    ensures var events := Caught(id, message);
            |events| == 2 &&
            if message == STOP_MESSAGE then Open(events) && events[1] == MessageComplete("I stopped the operation.")
            else EndsOnce(events) && events[1] == SessionError(message)
    ensures Tells(Caught(id, message)) == if message == STOP_MESSAGE then ["I stopped the operation."] else []
  {
    CaughtTells(id, message);
  }

  lemma QuietEnd(events: seq<Event>, last: Event)
    requires events != [] && events[|events| - 1] == last
    ensures last.MessageComplete? ==> !EndsOnce(events)
    ensures Open(events) && last == MessageComplete("I stopped the operation.") ==> StoppedQuietly(events)
  {
  }

  /** One terminal event at the end, or the message of the stop. */
  lemma ReportEnds(w: BuildWorld, request: string, body: seq<Event>, exit: Exit, prompts: seq<Begun>, n: nat)
    requires Tried(w, request, body, exit, prompts, n)
    ensures var events := Reported(w, body, exit);
            match exit
            case Raised(message) =>
              if message == STOP_MESSAGE
              then StoppedQuietly(events) && !EndsOnce(events) && Tells(events) == ["I stopped the operation."]
              else EndsOnce(events) && events[|events| - 1] == SessionError(message) && Tells(events) == []
            case Returned => EndsOnce(events) && BuiltBy(w, |prompts|, events)
            case Fell => EndsOnce(events) && GaveUp(w, prompts, events) && Tells(events) == []
  {
    hide *;
    TriedUnfolds(w, request, body, exit, prompts, n);
    ReportSplits(w, body, exit);
    var queued := [StatusEvent(w.operationId, Queued)];
    EndsAfter(queued, body);
    BuiltAfter(w, |prompts|, queued, body);
    GaveUpAfter(w, prompts, queued, body);
    LastWord(w, prompts, queued + body);
    if exit.Raised? {
      var caught := Caught(w.operationId, exit.message);
      CaughtEnds(w.operationId, exit.message);
      EndsAfter(queued + body, caught);
      ToldAfter(queued + body, caught);
      LastOfAll(queued + body, caught);
      QuietEnd(queued + body + caught, caught[1]);
    } else if exit.Fell? {
      SilentTells(queued + body);
    }
  }

  lemma ReportTellsStates(w: BuildWorld, request: string, body: seq<Event>, exit: Exit, prompts: seq<Begun>, n: nat)
    requires Tried(w, request, body, exit, prompts, n)
    ensures var told := Phases(Reported(w, body, exit));
            match exit
            case Raised(message) =>
              told != [] && told[..|told| - 1] <= [Queued, Thinking] + Rounds(|prompts|) &&
              told[|told| - 1] == if message == STOP_MESSAGE then Stopped else RuntimeState.Failed
            case Returned => told == [Queued, Thinking] + Rounds(|prompts|) + [ReadyForFeedback]
            case Fell => told == [Queued, Thinking] + Rounds(|prompts|) + [RuntimeState.Failed]
  {
    hide *;
    TriedUnfolds(w, request, body, exit, prompts, n);
    ReportSplits(w, body, exit);
    var queued := [StatusEvent(w.operationId, Queued)];
    OnePhase(w.operationId, Queued);
    PhasesJoin(queued, body);
    QueuedFirst(Phases(body), Rounds(|prompts|));
    if exit.Raised? {
      PhasesJoin(queued + body, Caught(w.operationId, exit.message));
      CaughtPhases(w.operationId, exit.message, Phases(queued + body));
    }
  }

  /** Ready and given up, in terms of the polls. */
  lemma ReportIsReady(w: BuildWorld, request: string, body: seq<Event>, exit: Exit, prompts: seq<Begun>, n: nat)
    requires Tried(w, request, body, exit, prompts, n)
    ensures PromptsTold(w, request, prompts)
    ensures var events := Reported(w, body, exit);
            events != [] &&
            (EndsOnce(events) && events[|events| - 1].SessionComplete? <==>
             !exit.Raised? && prompts != [] && CameUp(w.polls(|prompts|))) &&
            (EndsOnce(events) && events[|events| - 1].SessionComplete? ==>
               exit.Returned? && n == LooksBefore(w, |prompts| + 1)) &&
            (!exit.Raised? && !events[|events| - 1].SessionComplete? ==> exit.Fell? && CameDown(w.polls(3)))
    ensures forall k | 1 <= k < |prompts| :: CameDown(w.polls(k))
    ensures !exit.Raised? ==> (exit.Returned? <==> exists k | 1 <= k <= 3 :: CameUp(w.polls(k)))
  {
    hide *;
    TriedUnfolds(w, request, body, exit, prompts, n);
    ReportEnds(w, request, body, exit, prompts, n);
    LastWord(w, prompts, Reported(w, body, exit));
    NotEmpty(w, body, exit);
    FirstFailed(w, request, prompts);
    UpWithinThree(w, prompts);
    PollsTell(w.polls(3));
    UpOrDown(w.polls(3));
  }

  lemma NotEmpty(w: BuildWorld, body: seq<Event>, exit: Exit)
    ensures Reported(w, body, exit) != []
  {
  }

  lemma UpOrDown(polls: seq<Attempt<Option<Deployment>>>)
    ensures !(CameUp(polls) && CameDown(polls))
  {
    hide CameUp, CameDown;
    PollsTell(polls);
  }

  lemma FirstFailed(w: BuildWorld, request: string, prompts: seq<Begun>)
    requires PromptsTold(w, request, prompts)
    ensures |prompts| <= 3 && forall k | 1 <= k < |prompts| :: CameDown(w.polls(k))
  {
    hide CameDown;
    forall k | 1 <= k < |prompts|
      ensures CameDown(w.polls(k))
    {
      assert FailedAttempt(w, k);
    }
  }

  lemma ReportHeeds(w: BuildWorld, n: nat, exit: Exit, error: Option<string>)
    requires Heeds(w, n, exit) && error == if exit.Raised? then Some(exit.message) else None
    ensures Pressed(w, n) ==> error == Some("Operation stopped by user.")
    ensures Quiet(w) ==> (error == Some(STOP_MESSAGE) <==> Pressed(w, n))
    ensures Smooth(w) && error.Some? ==> Pressed(w, n)
    ensures NeverStopped(w) ==> error != Some(STOP_MESSAGE)
    ensures Smooth(w) && (forall k :: !w.presses(k)) ==> error.None?
    ensures STOP_MESSAGE == "Operation stopped by user."
    ensures BUILT == "I built and deployed the system. The preview is ready now."
  {
    hide Quiet, Smooth, Pressed;
    if forall k :: !w.presses(k) {
      NeverPressed(w, n);
      QuietWhenNeverStopped(w);
    }
    if NeverStopped(w) {
      QuietWhenNeverStopped(w);
      NeverPressed(w, n);
    }
  }

  /** The first attempts came down, and the last one came up or was the third. */
  lemma UpWithinThree(w: BuildWorld, prompts: seq<Begun>)
    requires |prompts| <= 3 && forall k | 1 <= k < |prompts| :: CameDown(w.polls(k))
    ensures prompts != [] && CameUp(w.polls(|prompts|)) ==> exists k | 1 <= k <= 3 :: CameUp(w.polls(k))
    ensures |prompts| == 3 && CameDown(w.polls(3)) ==> !exists k | 1 <= k <= 3 :: CameUp(w.polls(k))
  {
    hide CameUp, CameDown;
    UpOrDown(w.polls(1));
    UpOrDown(w.polls(2));
    UpOrDown(w.polls(3));
  }

  // ----- the states told

  lemma NoPhases()
    ensures Phases([]) == [] && Rounds(0) == []
  {
  }

  lemma OnePhase(id: string, state: RuntimeState)
    ensures Phases([StatusEvent(id, state)]) == [state]
  {
    PhaseOfOne(StatusEvent(id, state));
  }

  lemma NextPhase(events: seq<Event>, id: string, state: RuntimeState)
    ensures Phases(events + [StatusEvent(id, state)]) == Phases(events) + [state]
  {
    PhasesJoin(events, [StatusEvent(id, state)]);
    OnePhase(id, state);
  }

  lemma QuietResult(w: BuildWorld, events: seq<Event>, name: string, ok: bool, n: nat)
    ensures Phases(events + [ResultEvent(w, name, ok, n)]) == Phases(events)
  {
    PhasesJoin(events, [ResultEvent(w, name, ok, n)]);
    PhaseOfOne(ResultEvent(w, name, ok, n));
  }

  lemma GenerateHeeds(w: BuildWorld, attempt: nat, system: string, prompt: string, n: nat)
    ensures Pressed(w, n) ==> Heeds(w, n, Raised(STOP_MESSAGE))
    ensures !Pressed(w, n) ==> Heeds(w, n, Fell)
    ensures !Pressed(w, n) && w.generate(attempt, system, prompt).Threw? ==>
              Heeds(w, n, Raised(w.generate(attempt, system, prompt).message))
  {
    hide Pressed, ResolveSystem, Outcome;
  }

  /** The events around one generation: before it, right after it, and after the check of its files. */
  function Asked(w: BuildWorld, attempt: nat): seq<Event> {
    [StatusEvent(w.operationId, if attempt == 1 then Executing else Repairing),
     CallEvent(w, "runner.generate", 8 * attempt)]
  }

  function Generated(w: BuildWorld, attempt: nat): seq<Event> {
    [ResultEvent(w, "runner.generate", true, 8 * attempt + 1)]
  }

  function Checked(w: BuildWorld, attempt: nat): seq<Event> {
    [StatusEvent(w.operationId, Testing), ResultEvent(w, "commands.run_sandboxed", true, 8 * attempt + 2)]
  }

  /** An attempt that generates says so step by step; a step that fails would need repair. */
  lemma EventsSpelled(w: BuildWorld, attempt: nat, state: RuntimeState, name: string, n: nat)
    ensures StatusEvent(w.operationId, state) ==
            ToolResult(w.operationId, "coworker.runtime", state != RuntimeState.Failed, None, Status(state))
    ensures ResultEvent(w, name, true, n).summary == Some(name + " completed.")
    ensures ResultEvent(w, name, false, n).summary == Some(name + " needs repair.")
    ensures ResultEvent(w, name, true, n).ok && !ResultEvent(w, name, false, n).ok
    ensures Asked(w, attempt) + Generated(w, attempt) + Checked(w, attempt) ==
            [StatusEvent(w.operationId, if attempt == 1 then Executing else Repairing),
             CallEvent(w, "runner.generate", 8 * attempt),
             ResultEvent(w, "runner.generate", true, 8 * attempt + 1),
             StatusEvent(w.operationId, Testing),
             ResultEvent(w, "commands.run_sandboxed", true, 8 * attempt + 2)]
  {
  }

  lemma GenerateTells(w: BuildWorld, attempt: nat)
    ensures Open([]) && Silent([]) && [] <= Round(attempt)[..2] && Round(attempt)[..1] <= Round(attempt)[..2]
    ensures var e := Asked(w, attempt); Open(e) && Silent(e) && Phases(e) == Round(attempt)[..1]
    ensures var e := Asked(w, attempt) + Generated(w, attempt);
            Open(e) && Silent(e) && Phases(e) == Round(attempt)[..1]
    ensures var e := Asked(w, attempt) + Generated(w, attempt) + Checked(w, attempt);
            Open(e) && Silent(e) && Phases(e) == Round(attempt)[..2]
  {
    GenerateStates(w, attempt);
    hide Phases;
  }

  lemma GenerateStates(w: BuildWorld, attempt: nat)
    ensures Phases(Asked(w, attempt)) == Round(attempt)[..1]
    ensures Phases(Asked(w, attempt) + Generated(w, attempt)) == Round(attempt)[..1]
    ensures Phases(Asked(w, attempt) + Generated(w, attempt) + Checked(w, attempt)) == Round(attempt)[..2]
  {
    var asked, generated, checked := Asked(w, attempt), Generated(w, attempt), Checked(w, attempt);
    hide Phases;
    PhasesOfPair(asked[0], asked[1]);
    PhaseOfOne(generated[0]);
    PhasesOfPair(checked[0], checked[1]);
    assert Phases(asked) == [Round(attempt)[0]] && Phases(generated) == [] && Phases(checked) == [Testing];
    hide *;
    PhasesJoin(asked, generated);
    PhasesJoin(asked + generated, checked);
    RoundBegins(attempt);
  }

  lemma RoundBegins(attempt: nat)
    ensures |Round(attempt)| == 3 && Round(attempt)[..1] == [Round(attempt)[0]] + []
    ensures Round(attempt)[..2] == [Round(attempt)[0]] + [] + [Testing]
  {
  }

  lemma PhasesOfPair(a: Event, b: Event)
    ensures Phases([a, b]) == Phases([a]) + Phases([b])
    ensures Phases([a]) == if a.ToolResult? && a.output.Status? then [a.output.state] else []
    ensures Phases([b]) == if b.ToolResult? && b.output.Status? then [b.output.state] else []
  {
    PhaseOfOne(a);
    PhaseOfOne(b);
    PhasesJoin([a], [b]);
    assert [a, b] == [a] + [b];
  }

  lemma DeployPhases(w: BuildWorld, attempt: nat, events: seq<Event>)
    requires events == [StatusEvent(w.operationId, Deploying), CallEvent(w, "runner.deploy", 8 * attempt + 3)]
    ensures Phases(events) == [Deploying]
  {
    PhasesOfPair(events[0], events[1]);
  }

  lemma ReadyPhases(w: BuildWorld, attempt: nat)
    requires attempt >= 1
    ensures Phases(ReadyEvents(w, attempt)) == [ReadyForFeedback]
  {
    ReadyList(w, attempt);
    hide *;
    var events := ReadyEvents(w, attempt);
    PhasesOfPair(events[0], events[1]);
    PhasesOfPair(events[2], events[3]);
    PhasesJoin([events[0], events[1]], [events[2], events[3]]);
    FourEvents(events);
    OnlyOne(ReadyForFeedback);
  }

  lemma FourEvents(events: seq<Event>)
    requires |events| == 4
    ensures events == [events[0], events[1]] + [events[2], events[3]]
  {
  }

  lemma OnlyOne(state: RuntimeState)
    ensures ([] + [state]) + ([] + []) == [state]
  {
  }

  lemma ReadyList(w: BuildWorld, attempt: nat)
    requires attempt >= 1
    ensures var events := ReadyEvents(w, attempt);
            |events| == 4 && events[0].ToolResult? && !events[0].output.Status? &&
            events[1].ToolResult? && events[1].output == Status(ReadyForFeedback) &&
            events[2].MessageComplete? && events[3].SessionComplete?
  {
    hide BuiltBy, EndsOnce, Open, Tells;
  }

  lemma GivenUpPhases(w: BuildWorld, lastError: string)
    ensures Phases(GivenUp(w, lastError)) == [RuntimeState.Failed]
  {
    PhasesOfPair(GivenUp(w, lastError)[0], GivenUp(w, lastError)[1]);
  }

  lemma CaughtPhases(id: string, message: string, before: seq<RuntimeState>)
    ensures var last := if message == STOP_MESSAGE then Stopped else RuntimeState.Failed;
            Phases(Caught(id, message)) == [last] && (before + [last])[..|before|] == before
  {
    PhasesOfPair(Caught(id, message)[0], Caught(id, message)[1]);
  }

  /** The states of the attempts so far and of one more. */
  lemma RoundAfter(events: seq<Event>, more: seq<Event>, attempt: nat, left: Exit, begun: nat)
    requires attempt >= 1 && Phases(events) == Rounds(attempt - 1)
    requires begun == attempt - 1 || begun == attempt
    requires left.Raised? ==> Phases(more) <= if begun == attempt - 1 then [] else Round(attempt)
    requires !left.Raised? ==>
               begun == attempt && Phases(more) == Round(attempt) + if left.Fell? then [] else [ReadyForFeedback]
    ensures match left
            case Raised(_) => Phases(events + more) <= Rounds(begun)
            case Returned => Phases(events + more) == Rounds(begun) + [ReadyForFeedback]
            case Fell => Phases(events + more) == Rounds(attempt)
  {
    PhasesJoin(events, more);
    assert Rounds(attempt) == Rounds(attempt - 1) + Round(attempt);
    if left.Raised? {
      PrefixJoin(Phases(events), Phases(more), if begun == attempt - 1 then [] else Round(attempt));
      assert Rounds(attempt - 1) + [] == Rounds(attempt - 1);
    }
  }

  lemma ThinkingFirst(told: seq<RuntimeState>, rounds: seq<RuntimeState>)
    ensures told <= rounds ==> [Thinking] + told <= [Thinking] + rounds
    ensures [Thinking] <= [Thinking] + rounds
    ensures forall last :: [Thinking] + (rounds + [last]) == [Thinking] + rounds + [last]
  {
  }

  lemma QueuedFirst(told: seq<RuntimeState>, rounds: seq<RuntimeState>)
    ensures told <= [Thinking] + rounds ==> [Queued] + told <= [Queued, Thinking] + rounds
    ensures forall last :: [Queued] + ([Thinking] + rounds + [last]) == [Queued, Thinking] + rounds + [last]
  {
  }

  lemma CaughtTells(id: string, message: string)
    ensures Tells(Caught(id, message)) == if message == STOP_MESSAGE then ["I stopped the operation."] else []
  {
    if message == STOP_MESSAGE {
      TellsOnce([StatusEvent(id, Stopped)], "I stopped the operation.", []);
      assert [StatusEvent(id, Stopped)] + [MessageComplete("I stopped the operation.")] + [] == Caught(id, message);
    } else {
      SilentTells(Caught(id, message));
    }
  }

  lemma FellUnpressed(w: BuildWorld, n: nat)
    requires !Pressed(w, n)
    ensures Heeds(w, n, Fell)
  {
  }

  lemma MorePrompts(w: BuildWorld, request: string, prompts: seq<Begun>, begun: seq<Begun>, attempt: nat)
    requires PromptsTold(w, request, prompts) && |prompts| == attempt - 1 && attempt <= BUILD_MAX_REPAIR_ATTEMPTS
    requires forall k | 1 <= k < attempt :: FailedAttempt(w, k)
    requires begun == [] ||
             (begun == [Begun(begun[0].system, PromptOf(w, request, attempt), LooksBefore(w, attempt) + 1)] &&
              ResolveSystem(w) == Got(begun[0].system))
    requires begun != [] ==> !Pressed(w, begun[0].looks)
    ensures PromptsTold(w, request, prompts + begun)
  {
    hide PromptOf, LooksBefore, FailedAttempt, Pressed, GeneratorPrompt, RepairPrompt;
  }

  lemma OneMore(w: BuildWorld, prompts: seq<Begun>, begun: seq<Begun>)
    requires Delivered(w, prompts, |prompts|) && (begun == [] || |begun| == 1)
    ensures Delivered(w, prompts + begun, |prompts + begun| - 1)
    ensures begun != [] && w.generate(|prompts| + 1, begun[0].system, begun[0].prompt).Got? &&
            w.deploy(|prompts| + 1).Got? ==>
              Delivered(w, prompts + begun, |prompts + begun|)
  {
    var all := prompts + begun;
    forall k | 0 <= k < |prompts|
      ensures w.generate(k + 1, all[k].system, all[k].prompt).Got? && w.deploy(k + 1).Got?
    {
      assert all[k] == prompts[k];
    }
    assert begun != [] ==> all[|prompts|] == begun[0];
  }

  lemma QuietWhenNeverStopped(w: BuildWorld)
    ensures NeverStopped(w) ==> Quiet(w) && forall k :: !w.presses(k)
  {
  }

  lemma LastOfAll(a: seq<Event>, b: seq<Event>)
    ensures b != [] ==> (a + b)[|a + b| - 1] == b[|b| - 1]
  {
  }

  /** The operator's stop leaves a message and no terminal event. */
  predicate StoppedQuietly(events: seq<Event>) {
    events != [] && Open(events) && events[|events| - 1] == MessageComplete("I stopped the operation.")
  }

  /** The catch block: the operator's stop is a message, any other error ends the session. */
  function Caught(id: string, message: string): (events: seq<Event>)
    ensures message == STOP_MESSAGE ==>
              Open(events) && |events| == 2 && events[1] == MessageComplete("I stopped the operation.")
    ensures message != STOP_MESSAGE ==> EndsOnce(events) && |events| == 2 && events[1] == SessionError(message)
  {
    if message == STOP_MESSAGE then
      [StatusEvent(id, Stopped), MessageComplete("I stopped the operation.")]
    else
      [StatusEvent(id, Failed), SessionError(message)]
  }
}
