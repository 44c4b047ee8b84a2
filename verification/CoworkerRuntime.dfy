/** The delegated sessions: building a system with automatic repair, and scheduling. */
module CoworkerRuntime {
  import opened OrderedMerge
  import opened EngineEvents
  import opened Builds
  import opened BuildReports

  datatype Operation = Operation(id: string, stopped: bool)

  /** What follows from the outcome of a deployment; the logs of one that failed are read. */
  method Conclude(w: BuildWorld, attempt: nat, before: seq<Event>, outcome: Attempt<Deployment>, n: nat)
      returns (events: seq<Event>, exit: Exit)
    requires attempt >= 1 && before != [] && Open(before) && Silent(before) && Phases(before) == [Deploying]
    requires outcome == if Pressed(w, n) then Threw(STOP_MESSAGE) else Outcome(w, attempt)
    ensures Heeds(w, n, exit)
    ensures exit.Returned? ==> EndsOnce(events) && BuiltBy(w, attempt, events)
    ensures !exit.Returned? ==> Open(events) && Silent(events) && events != []
    ensures exit.Fell? ==> FailedAttempt(w, attempt)
    ensures !exit.Raised? ==> outcome.Got?
    ensures Phases(events) == if exit.Returned? then [Deploying, ReadyForFeedback] else [Deploying]
  {
    PollsTell(w.polls(attempt));
    if Smooth(w) {
      SmoothOutcome(w, attempt);
    }
    hide Settled, CameUp, CameDown, ReadyEvents, BuiltBy, Phases, ResolveSystem;
    events := before;
    if outcome.Threw? {
      return events, Raised(outcome.message);
    }
    if outcome.value.status == Running {
      EndsAfter(events, ReadyEvents(w, attempt));
      BuiltAfter(w, attempt, events, ReadyEvents(w, attempt));
      PhasesJoin(events, ReadyEvents(w, attempt));
      ReadyPhases(w, attempt);
      events := events + ReadyEvents(w, attempt);
      return events, Returned;
    }
    var logs := w.logs(attempt);
    if logs.Threw? {
      return events, Raised(logs.message);
    }
    QuietResult(w, events, "runner.logs", false, 8 * attempt + 5);
    events := events + [ResultEvent(w, "runner.logs", false, 8 * attempt + 5)];
    exit := Fell;
  }

  /** Creating the schedule and telling about it. */
  method CreateSchedule(w: ScheduleWorld) returns (events: seq<Event>, error: Option<string>)
    ensures error == if w.create.Threw? then Some(w.create.message)
                     else if w.shownTime.Threw? then Some(w.shownTime.message) else None
    ensures error.Some? ==> Open(events) && Silent(events)
    ensures error.None? ==> EndsOnce(events) && events[|events| - 1] == SessionComplete(1, "scheduled")
    ensures error.None? ==> Tells(events) == ["Scheduled \"" + w.create.value + "\" for " + w.shownTime.value + "."]
  {
    events := [StatusEvent(w.operationId, Executing),
               ToolCall(w.operationId + ":schedules.create:" + w.callStamp, "schedules.create", "")];
    if w.create.Threw? {
      return events, Some(w.create.message);
    }
    events := events + [ToolResult(w.operationId + ":schedules.create:" + w.resultStamp, "schedules.create", true,
                                   Some("schedules.create completed."), Structure(Some(""))),
                        StatusEvent(w.operationId, ReadyForFeedback)];
    if w.shownTime.Threw? {
      return events, Some(w.shownTime.message);
    }
    var scheduled := "Scheduled \"" + w.create.value + "\" for " + w.shownTime.value + ".";
    TellsOnce(events, scheduled, [SessionComplete(1, "scheduled")]);
    events := events + [MessageComplete(scheduled)] + [SessionComplete(1, "scheduled")];
    error := None;
  }

  // ----- the service, with its table of operations in flight

  class Runtime {
    var operations: map<string, Operation>

    constructor ()
      ensures operations == map[]
    {
      operations := map[];
    }

    /** The operator's stop button: it reaches an operation exactly while that one is in flight. */
    method Stop(operationId: string) returns (found: bool)
      modifies this
      ensures found <==> operationId in old(operations)
      ensures operations == if found then old(operations)[operationId := old(operations)[operationId].(stopped := true)]
                            else old(operations)
    {
      found := operationId in operations;
      if found {
        operations := operations[operationId := operations[operationId].(stopped := true)];
      }
    }

    /** The build is in flight, and its flag is up exactly if stop was pressed within n looks. */
    ghost predicate InFlight(w: BuildWorld, n: nat)
      reads this
    {
      w.operationId in operations && operations[w.operationId] == Operation(w.operationId, Pressed(w, n))
    }

    /** `throwIfStopped`: the operator may press the button just before the flag is read. */
    method Look(w: BuildWorld, n: nat) returns (stopped: bool)
      requires InFlight(w, n)
      modifies this
      ensures InFlight(w, n + 1) && operations - {w.operationId} == old(operations) - {w.operationId} &&
              stopped == Pressed(w, n + 1)
    {
      if w.presses(n) {
        var found := Stop(w.operationId);
      }
      stopped := operations[w.operationId].stopped;
    }

    /** Generate the system and check the files. */
    method Generate(w: BuildWorld, system: string, prompt: string, attempt: nat, n0: nat)
        returns (events: seq<Event>, exit: Exit, begun: seq<Begun>, n: nat)
      requires InFlight(w, n0) && !Pressed(w, n0)
      modifies this
      ensures InFlight(w, n) && operations - {w.operationId} == old(operations) - {w.operationId} && Heeds(w, n, exit)
      ensures Open(events) && Silent(events) && exit != Returned
      ensures begun == [] || (begun == [Begun(system, prompt, n0 + 1)] && !Pressed(w, n0 + 1))
      ensures exit.Fell? ==> begun != [] && n == n0 + 2
      ensures begun == [] ==> events == []
      ensures exit.Fell? ==> w.generate(attempt, system, prompt).Got?
      ensures exit.Raised? && begun != [] && !Pressed(w, n) ==>
                w.generate(attempt, system, prompt) == Threw(exit.message)
      ensures Phases(events) <= Round(attempt)[..2] && (exit.Fell? ==> Phases(events) == Round(attempt)[..2])
    {
      NoPhases();
      GenerateHeeds(w, attempt, system, prompt, n0 + 1);
      GenerateHeeds(w, attempt, system, prompt, n0 + 2);
      GenerateTells(w, attempt);
      hide Phases, Heeds, Quiet, Smooth, Pressed, Open, Silent, Asked, Generated, Checked, Round;
      events, begun, n := [], [], n0 + 1;
      var stopped := Look(w, n0);
      if stopped {
        return events, Raised(STOP_MESSAGE), begun, n;
      }
      events := Asked(w, attempt);
      begun := [Begun(system, prompt, n)];
      var generated := w.generate(attempt, system, prompt);
      if generated.Threw? {
        return events, Raised(generated.message), begun, n;
      }
      events := events + Generated(w, attempt);
      stopped := Look(w, n);
      n := n + 1;
      if stopped {
        return events, Raised(STOP_MESSAGE), begun, n;
      }
      events := events + Checked(w, attempt);
      exit := Fell;
    }

    /** Poll the deployment until it has settled, the time is up, or the operator stops. */
    method WaitForDeployment(w: BuildWorld, attempt: nat, n0: nat) returns (outcome: Attempt<Deployment>, n: nat)
      requires InFlight(w, n0) && !Pressed(w, n0)
      modifies this
      ensures InFlight(w, n) && operations - {w.operationId} == old(operations) - {w.operationId}
      ensures outcome.Got? ==> n == n0 + Taken(w.polls(attempt))
      ensures outcome == if Pressed(w, n) then Threw(STOP_MESSAGE) else Outcome(w, attempt)
    {
      n := n0;
      var polls := w.polls(attempt);
      for i := 0 to |polls|
        invariant InFlight(w, n) && operations - {w.operationId} == old(operations) - {w.operationId} && !Pressed(w, n)
        invariant Settled(polls) == Settled(polls[i..]) && n + Taken(polls[i..]) == n0 + Taken(polls)
      {
        var stopped := Look(w, n);
        n := n + 1;
        if stopped {
          return Threw(STOP_MESSAGE), n;
        }
        match polls[i] {
          case Threw(message) => return Threw(message), n;
          case Got(Some(deployment)) => return Got(deployment), n;
          case Got(None) =>
        }
      }
      outcome := Got(TIMED_OUT);
    }

    /** Deploy the preview and wait for it; read the logs of a deployment that failed. */
    method DeployAndWait(w: BuildWorld, attempt: nat, n0: nat) returns (events: seq<Event>, exit: Exit, n: nat)
      requires InFlight(w, n0) && !Pressed(w, n0) && attempt >= 1
      modifies this
      ensures InFlight(w, n) && operations - {w.operationId} == old(operations) - {w.operationId} && Heeds(w, n, exit)
      ensures exit.Returned? ==> EndsOnce(events) && BuiltBy(w, attempt, events)
      ensures !exit.Returned? ==> Open(events) && Silent(events)
      ensures !exit.Raised? ==> n == n0 + 1 + Taken(w.polls(attempt))
      ensures exit.Fell? ==> FailedAttempt(w, attempt)
      ensures Phases(events) ==
              if exit.Returned? then [Deploying, ReadyForFeedback] else if events == [] then [] else [Deploying]
      ensures exit.Fell? ==> events != []
      ensures !exit.Raised? ==> w.deploy(attempt).Got?
    {
      NoPhases();
      hide Phases;
      events, n := [], n0 + 1;
      var stopped := Look(w, n0);
      if stopped {
        return events, Raised(STOP_MESSAGE), n;
      }
      events := [StatusEvent(w.operationId, Deploying), CallEvent(w, "runner.deploy", 8 * attempt + 3)];
      DeployPhases(w, attempt, events);
      var deployed := w.deploy(attempt);
      if deployed.Threw? {
        return events, Raised(deployed.message), n;
      }
      hide CameUp, CameDown, FailedAttempt, ReadyEvents, BuiltBy, Outcome, Heeds, Quiet, Smooth, Phases;
      var outcome;
      outcome, n := WaitForDeployment(w, attempt, n);
      events, exit := Conclude(w, attempt, events, outcome, n);
    }

    /** One turn of the loop. Returns when the preview runs; falls through when the deployment failed. */
    method BuildAttempt(w: BuildWorld, system: string, prompt: string, attempt: nat, n0: nat)
        returns (events: seq<Event>, exit: Exit, begun: seq<Begun>, n: nat)
      requires InFlight(w, n0) && !Pressed(w, n0) && attempt >= 1
      modifies this
      ensures InFlight(w, n) && operations - {w.operationId} == old(operations) - {w.operationId} && Heeds(w, n, exit)
      ensures exit.Returned? ==> begun != [] && EndsOnce(events) && BuiltBy(w, attempt, events)
      ensures !exit.Returned? ==> Open(events) && Silent(events)
      ensures begun == [] || (begun == [Begun(system, prompt, n0 + 1)] && !Pressed(w, n0 + 1))
      ensures !exit.Raised? ==> n == n0 + AttemptLooks(w, attempt)
      ensures exit.Fell? ==> begun != [] && FailedAttempt(w, attempt)
      ensures !exit.Raised? ==> w.generate(attempt, system, prompt).Got? && w.deploy(attempt).Got?
      ensures exit.Raised? ==> Phases(events) <= if begun == [] then [] else Round(attempt)
      ensures !exit.Raised? ==> Phases(events) == Round(attempt) + if exit.Fell? then [] else [ReadyForFeedback]
    {
      NoPhases();
      hide Phases;
      events, exit, begun, n := Generate(w, system, prompt, attempt, n0);
      if exit.Fell? {
        var more;
        more, exit, n := DeployAndWait(w, attempt, n);
        EndsAfter(events, more);
        BuiltAfter(w, attempt, events, more);
        PhasesJoin(events, more);
        events := events + more;
      }
    }

    /** The repair loop. Every prompt generated from is recorded. */
    method RepairLoop(w: BuildWorld, system: string, request: string)
        returns (events: seq<Event>, exit: Exit, prompts: seq<Begun>, n: nat)
      requires InFlight(w, 0) && ResolveSystem(w) == Got(system)
      modifies this
      ensures InFlight(w, n) && operations - {w.operationId} == old(operations) - {w.operationId} && Heeds(w, n, exit)
      ensures exit.Raised? ==> Open(events) && Silent(events)
      ensures !exit.Raised? ==> EndsOnce(events)
      ensures PromptsTold(w, request, prompts)
      ensures exit.Returned? ==> BuiltBy(w, |prompts|, events) && n == LooksBefore(w, |prompts| + 1)
      ensures exit.Fell? ==> GaveUp(w, prompts, events)
      ensures Delivered(w, prompts, if exit.Raised? then |prompts| - 1 else |prompts|)
      ensures match exit
              case Raised(_) => Phases(events) <= Rounds(|prompts|)
              case Returned => Phases(events) == Rounds(|prompts|) + [ReadyForFeedback]
              case Fell => Phases(events) == Rounds(|prompts|) + [RuntimeState.Failed]
    {
      hide *;
      NoPhases();
      NothingYet(w, request);
      var prompt := GeneratorPrompt(w, request);
      var lastError := "";
      events, prompts, n := [], [], 0;
      for attempt := 1 to BUILD_MAX_REPAIR_ATTEMPTS + 1
        invariant InFlight(w, n) && operations - {w.operationId} == old(operations) - {w.operationId}
        invariant !Pressed(w, n) && n == LooksBefore(w, attempt)
        invariant Open(events) && Silent(events) && |prompts| == attempt - 1
        invariant PromptsTold(w, request, prompts)
        invariant forall k | 1 <= k < attempt :: FailedAttempt(w, k)
        invariant attempt > 1 ==> lastError == ErrorOf(w, attempt - 1)
        invariant Phases(events) == Rounds(attempt - 1) && Delivered(w, prompts, |prompts|)
        invariant prompt == PromptOf(w, request, attempt)
      {
        var more, left, begun;
        more, left, begun, n := BuildAttempt(w, system, prompt, attempt, n);
        OneMore(w, prompts, begun);
        RoundAfter(events, more, attempt, left, |prompts + begun|);
        EndsAfter(events, more);
        BuiltAfter(w, attempt, events, more);
        events := events + more;
        MorePrompts(w, request, prompts, begun, attempt);
        NextAttempt(w, request, attempt);
        prompts := prompts + begun;
        if left != Fell {
          return events, left, prompts, n;
        }
        lastError := ErrorOf(w, attempt);
        prompt := RepairPrompt(w, request, lastError, LogsOf(w, attempt));
      }
      EndsAfter(events, GivenUp(w, lastError));
      ThreeFailed(w, prompts, events, lastError);
      PhasesJoin(events, GivenUp(w, lastError));
      GivenUpPhases(w, lastError);
      events := events + GivenUp(w, lastError);
      exit := Fell;
      FellUnpressed(w, n);
    }

    /** The try block of a build. */
    method BuildBody(w: BuildWorld, request: string)
        returns (events: seq<Event>, exit: Exit, prompts: seq<Begun>, n: nat)
      requires InFlight(w, 0)
      modifies this
      ensures InFlight(w, n) && operations - {w.operationId} == old(operations) - {w.operationId}
      ensures Tried(w, request, events, exit, prompts, n)
    {
      NoPhases();
      hide Phases, Rounds;
      events, prompts, n := [], [], 0;
      if !w.hasWorkspace {
        return events, Raised(NO_WORKSPACE), prompts, n;
      }
      events := [StatusEvent(w.operationId, Thinking)];
      OnePhase(w.operationId, Thinking);
      var system := ResolveSystem(w);
      if system.Threw? {
        return events, Raised(system.message), prompts, n;
      }
      hide FailedAttempt, InFlight, Outcome, PromptsTold, GaveUp, BuiltBy;
      QuietResult(w, events, "workspace.read_context", true, 0);
      events := events + [ResultEvent(w, "workspace.read_context", true, 0)];
      var loop;
      loop, exit, prompts, n := RepairLoop(w, system.value, request);
      PhasesJoin(events, loop);
      ThinkingFirst(Phases(loop), Rounds(|prompts|));
      EndsAfter(events, loop);
      BuiltAfter(w, |prompts|, events, loop);
      GaveUpAfter(w, prompts, events, loop);
      events := events + loop;
    }

    /** The whole of a build, with its catch and finally blocks. */
    method TryBuild(w: BuildWorld, request: string)
        returns (body: seq<Event>, exit: Exit, prompts: seq<Begun>, n: nat)
      modifies this
      ensures operations == old(operations) - {w.operationId} && Tried(w, request, body, exit, prompts, n)
    {
      NothingPressed(w);
      operations := operations[w.operationId := Operation(w.operationId, false)];
      assert InFlight(w, 0);
      hide Tried;
      body, exit, prompts, n := BuildBody(w, request);
      operations := operations - {w.operationId};
    }

    /** However the build goes, the stream ends in exactly one terminal event, unless the error
        that ended it was the operator's stop: then it has none. A press of the stop button the
        build could still see, in n looks at its flag, ends it; and unless a collaborator fails with
        the very same words, nothing else does. The operation is always released.
        It is reported ready exactly when no error ended it and the deployment of the last attempt
        came up. Those of all attempts before came down; without an error and unready, the third
        did so too. The states told are those of the attempts, one after another. */
    method RunBuild(w: BuildWorld, request: string)
        returns (events: seq<Event>, error: Option<string>, prompts: seq<Begun>, n: nat)
      modifies this
      ensures operations == old(operations) - {w.operationId}
      ensures events != []
      ensures error == Some(STOP_MESSAGE) ==>
                StoppedQuietly(events) && Tells(events) == ["I stopped the operation."]
      ensures error != Some(STOP_MESSAGE) ==> EndsOnce(events)
      ensures Pressed(w, n) ==> error == Some(STOP_MESSAGE)
      ensures Quiet(w) ==> (error == Some(STOP_MESSAGE) <==> Pressed(w, n))
      ensures Smooth(w) && error.Some? ==> Pressed(w, n)
      ensures NeverStopped(w) ==> error != Some(STOP_MESSAGE)
      ensures error.Some? && error.value != STOP_MESSAGE ==>
                events[|events| - 1] == SessionError(error.value) && Tells(events) == []
      ensures !w.hasWorkspace ==>
                error == Some("A workspace is required before the coworker can build.") && prompts == []
      ensures PromptsTold(w, request, prompts)
      ensures Delivered(w, prompts, if error.Some? then |prompts| - 1 else |prompts|)
      ensures EndsOnce(events) && events[|events| - 1].SessionComplete? ==>
                BuiltBy(w, |prompts|, events) && n == LooksBefore(w, |prompts| + 1)
      ensures EndsOnce(events) && events[|events| - 1].SessionComplete? <==>
              error.None? && prompts != [] && CameUp(w.polls(|prompts|))
      ensures forall k | 1 <= k < |prompts| :: CameDown(w.polls(k))
      ensures error.None? && !events[|events| - 1].SessionComplete? ==>
                GaveUp(w, prompts, events) && CameDown(w.polls(3)) && Tells(events) == []
      ensures Pressed(w, n) ==> error == Some("Operation stopped by user.")
      ensures error.None? ==>
                Phases(events) ==
                [Queued, Thinking] + Rounds(|prompts|) +
                [if events[|events| - 1].SessionComplete? then ReadyForFeedback else RuntimeState.Failed]
      ensures error.Some? ==>
                var told := Phases(events);
                told != [] && told[..|told| - 1] <= [Queued, Thinking] + Rounds(|prompts|) &&
                told[|told| - 1] == if error == Some(STOP_MESSAGE) then Stopped else RuntimeState.Failed
      ensures Smooth(w) && (forall k :: !w.presses(k)) ==>
                (EndsOnce(events) && events[|events| - 1].SessionComplete? <==>
                 exists k | 1 <= k <= 3 :: CameUp(w.polls(k)))
    {
      hide *;
      var body, exit;
      body, exit, prompts, n := TryBuild(w, request);
      events := Reported(w, body, exit);
      error := if exit.Raised? then Some(exit.message) else None;
      TriedUnfolds(w, request, body, exit, prompts, n);
      ReportEnds(w, request, body, exit, prompts, n);
      ReportTellsStates(w, request, body, exit, prompts, n);
      ReportIsReady(w, request, body, exit, prompts, n);
      ReportHeeds(w, n, exit, error);
    }

    /** A schedule is created at most once, and the session is complete exactly when it was
        created and its time could be shown. */
    method RunSchedule(w: ScheduleWorld) returns (events: seq<Event>, error: Option<string>)
      modifies this
      ensures operations == old(operations) - {w.operationId}
      ensures error == if !w.hasWorkspace then Some("A workspace is required before the coworker can build.")
                       else if !w.parsed then None
                       else if w.pressed then Some("Operation stopped by user.")
                       else if w.create.Threw? then Some(w.create.message)
                       else if w.shownTime.Threw? then Some(w.shownTime.message)
                       else None
      ensures events != []
      ensures error == Some(STOP_MESSAGE) ==>
                StoppedQuietly(events) && Tells(events) == ["I stopped the operation."]
      ensures error.Some? && error != Some(STOP_MESSAGE) ==>
                EndsOnce(events) && events[|events| - 1] == SessionError(error.value) && Tells(events) == []
      ensures error.None? ==>
                EndsOnce(events) &&
                if w.parsed then
                  events[|events| - 1] == SessionComplete(1, "scheduled") &&
                  Tells(events) == ["Scheduled \"" + w.create.value + "\" for " + w.shownTime.value + "."]
                else events[|events| - 1] == SessionError(NEED_TITLE_AND_TIME) && Tells(events) == []
      ensures EndsOnce(events) && events[|events| - 1].SessionComplete? <==>
              w.hasWorkspace && w.parsed && !w.pressed && w.create.Got? && w.shownTime.Got?
    {
      var body;
      body, error := TrySchedule(w);
      ScheduleSpelled(w);
      hide *;
      events := ScheduleReported(w, body, error);
      ScheduleReports(w, body, error);
    }

    /** The whole of a schedule request, with its catch and finally blocks. */
    method TrySchedule(w: ScheduleWorld) returns (body: seq<Event>, error: Option<string>)
      modifies this
      ensures operations == old(operations) - {w.operationId} && ScheduleTried(w, body, error)
    {
      hide ScheduleTried;
      operations := operations[w.operationId := Operation(w.operationId, false)];
      body, error := ScheduleBody(w);
      operations := operations - {w.operationId};
    }

    /** The try block of a schedule request. */
    method ScheduleBody(w: ScheduleWorld) returns (events: seq<Event>, error: Option<string>)
      requires w.operationId in operations && !operations[w.operationId].stopped
      modifies this
      ensures operations - {w.operationId} == old(operations) - {w.operationId}
      ensures ScheduleTried(w, events, error)
    {
      events := [];
      if !w.hasWorkspace {
        return events, Some(NO_WORKSPACE);
      }
      events := [StatusEvent(w.operationId, Thinking)];
      if !w.parsed {
        events := events + [StatusEvent(w.operationId, RuntimeState.Failed), SessionError(NEED_TITLE_AND_TIME)];
        SilentTells(events);
        return events, None;
      }
      if w.pressed {
        var found := Stop(w.operationId);
      }
      if operations[w.operationId].stopped {
        return events, Some(STOP_MESSAGE);
      }
      var more;
      more, error := CreateSchedule(w);
      EndsAfter(events, more);
      LastOfAll(events, more);
      ToldAfter(events, more);
      events := events + more;
    }
  }
}
