/** What one build works with and what its outcome depends on: the polls of its deployments, the prompts
    of its attempts, and the operator's stop button. */
module Builds {
  import opened OrderedMerge
  import opened EngineEvents

  const BUILD_MAX_REPAIR_ATTEMPTS: nat := 3
  const BUILT: string := "I built and deployed the system. The preview is ready now."
  const STOP_MESSAGE: string := "Operation stopped by user."

  /** What awaiting a collaborator comes to. */
  datatype Attempt<+T> = Got(value: T) | Threw(message: string)

  datatype DeploymentStatus = Running | Crashed | Halted

  datatype Deployment = Deployment(status: DeploymentStatus, errorMessage: Option<string>)

  /** The collaborators of one build. Those asked once per attempt answer by attempt number; the
      polls of a deployment answer until it has settled or the time is up. `presses` tells whether
      the operator presses stop just before the build looks at its flag for the k-th time. */
  datatype BuildWorld = BuildWorld(
    operationId: string,
    guidance: string,
    failureNotice: string,
    hasWorkspace: bool,
    contextSystem: Option<string>,
    latestSystem: Attempt<Option<string>>,
    createSystem: Attempt<string>,
    presses: nat -> bool,
    generate: (nat, string, string) -> Attempt<Json>,
    deploy: nat -> Attempt<string>,
    polls: nat -> seq<Attempt<Option<Deployment>>>,
    logs: nat -> Attempt<seq<string>>,
    stamp: nat -> string)

  function StatusEvent(id: string, state: RuntimeState): Event {
    ToolResult(id, "coworker.runtime", state != Failed, None, Status(state))
  }

  /** The states one attempt goes through, up to the deployment. */
  function Round(attempt: nat): seq<RuntimeState> {
    [if attempt == 1 then Executing else Repairing, Testing, Deploying]
  }

  function Rounds(attempts: nat): seq<RuntimeState> {
    if attempts == 0 then [] else Rounds(attempts - 1) + Round(attempts)
  }

  /** Every attempt tests and deploys what it has generated; only the first one is no repair. */
  lemma ThreeRounds()
    ensures Rounds(1) == [Executing, Testing, Deploying]
    ensures Rounds(2) == [Executing, Testing, Deploying, Repairing, Testing, Deploying]
    ensures Rounds(3) ==
            [Executing, Testing, Deploying, Repairing, Testing, Deploying, Repairing, Testing, Deploying]
  {
    assert Rounds(0) == [];
  }

  lemma PrefixJoin<T>(a: seq<T>, b: seq<T>, c: seq<T>)
    requires b <= c
    ensures a + b <= a + c
  {
  }

  function CallEvent(w: BuildWorld, name: string, n: nat): Event {
    ToolCall(w.operationId + ":" + name + ":" + w.stamp(n), name, "")
  }

  function ResultEvent(w: BuildWorld, name: string, ok: bool, n: nat): Event {
    ToolResult(w.operationId + ":" + name + ":" + w.stamp(n), name, ok,
               Some(name + (if ok then " completed." else " needs repair.")), Structure(Some("")))
  }

  /** `slice(-80)` */
  function LastLines(ls: seq<string>): seq<string> {
    if |ls| <= 80 then ls else ls[|ls| - 80..]
  }

  /** The request, and the fixed lines that follow every request. */
  function GeneratorPrompt(w: BuildWorld, prompt: string): string {
    Lines([prompt, "", w.guidance])
  }

  function RepairPrompt(w: BuildWorld, prompt: string, error: string, logs: seq<string>): string {
    Lines([GeneratorPrompt(w, prompt), "", w.failureNotice, "Deployment error: " + error, "Recent logs:",
           Lines(LastLines(logs))])
  }

  function DeploymentError(d: Deployment): string {
    if d.errorMessage.Some? then d.errorMessage.value
    else "Deployment ended as " +
         match d.status case Running => "running" case Crashed => "crashed" case Halted => "stopped"
  }

  const TIMED_OUT: Deployment := Deployment(Crashed, Some("Timed out waiting for deployment to become ready."))

  /** What waiting for a deployment comes to, left alone: the first poll that settles it. */
  function Settled(polls: seq<Attempt<Option<Deployment>>>): Attempt<Deployment> {
    if polls == [] then Got(TIMED_OUT)
    else match polls[0]
      case Threw(message) => Threw(message)
      case Got(None) => Settled(polls[1..])
      case Got(Some(d)) => Got(d)
  }

  /** How many polls that takes. */
  function Taken(polls: seq<Attempt<Option<Deployment>>>): nat {
    if polls == [] then 0
    else if polls[0] == Got(None) then 1 + Taken(polls[1..])
    else 1
  }

  /** The first poll that is not just waiting decides. */
  lemma {:induction false} SettledAt(polls: seq<Attempt<Option<Deployment>>>, j: nat)
    requires j < |polls| && polls[j] != Got(None) && forall i | 0 <= i < j :: polls[i] == Got(None)
    ensures Settled(polls) == if polls[j].Threw? then Threw(polls[j].message) else Got(polls[j].value.value)
    ensures Taken(polls) == j + 1
  {
    if j == 0 {
    } else {
      SettledAt(polls[1..], j - 1);
    }
  }

  /** A deployment that never settles has crashed, with the words of the time-out. */
  lemma {:induction false} NeverSettled(polls: seq<Attempt<Option<Deployment>>>)
    requires forall i | 0 <= i < |polls| :: polls[i] == Got(None)
    ensures Settled(polls) == Got(Deployment(Crashed, Some("Timed out waiting for deployment to become ready.")))
    ensures Taken(polls) == |polls|
  {
    if polls == [] {
    } else {
      NeverSettled(polls[1..]);
    }
  }

  /** The polls show the deployment running before anything else. */
  ghost predicate CameUp(polls: seq<Attempt<Option<Deployment>>>) {
    exists j | 0 <= j < |polls| ::
      polls[j].Got? && polls[j].value.Some? && polls[j].value.value.status == Running &&
      forall i | 0 <= i < j :: polls[i] == Got(None)
  }

  /** The polls show the deployment ended before anything else, or show nothing until the time is up. */
  ghost predicate CameDown(polls: seq<Attempt<Option<Deployment>>>) {
    (forall i | 0 <= i < |polls| :: polls[i] == Got(None)) ||
    exists j | 0 <= j < |polls| ::
      polls[j].Got? && polls[j].value.Some? && polls[j].value.value.status != Running &&
      forall i | 0 <= i < j :: polls[i] == Got(None)
  }

  lemma FirstSettled(polls: seq<Attempt<Option<Deployment>>>) returns (j: nat)
    ensures j <= |polls| && (forall i | 0 <= i < j :: polls[i] == Got(None)) &&
            (j < |polls| ==> polls[j] != Got(None))
  {
    j := 0;
    while j < |polls| && polls[j] == Got(None)
      invariant j <= |polls| && forall i | 0 <= i < j :: polls[i] == Got(None)
    {
      j := j + 1;
    }
  }

  /** A deployment cannot come up and down. It comes up when some poll shows it running and every poll
      before that showed nothing, and it comes down when such a poll shows anything else, or all of
      them show nothing. */
  lemma UpAndDown(polls: seq<Attempt<Option<Deployment>>>, j: nat)
    requires j <= |polls| && forall i | 0 <= i < j :: polls[i] == Got(None)
    ensures j == |polls| ==> CameDown(polls) && !CameUp(polls)
    ensures j < |polls| && polls[j].Threw? ==> !CameDown(polls) && !CameUp(polls)
    ensures j < |polls| && polls[j].Got? && polls[j].value.Some? ==>
              (CameUp(polls) <==> polls[j].value.value.status == Running) &&
              (CameDown(polls) <==> polls[j].value.value.status != Running)
  {
  }

  lemma PollsTell(polls: seq<Attempt<Option<Deployment>>>)
    ensures CameUp(polls) <==> Settled(polls).Got? && Settled(polls).value.status == Running
    ensures CameDown(polls) <==> Settled(polls).Got? && Settled(polls).value.status != Running
  {
    hide Settled;
    var j := FirstSettled(polls);
    if j == |polls| {
      NeverSettled(polls);
    } else {
      SettledAt(polls, j);
    }
  }

  /** How often an attempt that is not cut short looks at the stop flag: three times, and once
      before every poll. */
  function AttemptLooks(w: BuildWorld, attempt: nat): nat {
    3 + Taken(w.polls(attempt))
  }

  /** The looks of all attempts before this one. */
  function LooksBefore(w: BuildWorld, attempt: nat): nat {
    if attempt <= 1 then 0 else LooksBefore(w, attempt - 1) + AttemptLooks(w, attempt - 1)
  }

  function Outcome(w: BuildWorld, attempt: nat): Attempt<Deployment> {
    Settled(w.polls(attempt))
  }

  function ErrorOf(w: BuildWorld, attempt: nat): string {
    var d := Outcome(w, attempt);
    if d.Got? then DeploymentError(d.value) else ""
  }

  function LogsOf(w: BuildWorld, attempt: nat): seq<string> {
    var ls := w.logs(attempt);
    if ls.Got? then ls.value else []
  }

  /** The prompt of each attempt: the request itself, then what went wrong last time. */
  function PromptOf(w: BuildWorld, request: string, attempt: nat): string {
    if attempt <= 1 then GeneratorPrompt(w, request)
    else RepairPrompt(w, request, ErrorOf(w, attempt - 1), LogsOf(w, attempt - 1))
  }

  lemma LastLinesAreLast(ls: seq<string>)
    ensures |LastLines(ls)| == (if |ls| < 80 then |ls| else 80) && LastLines(ls) == ls[|ls| - |LastLines(ls)|..]
  {
  }

  /** The prompts, line by line. A repair prompt quotes the error of the attempt before it, and the
      last eighty lines of its logs. */
  lemma PromptIsSpelled(w: BuildWorld, request: string, attempt: nat)
    requires attempt >= 1
    ensures PromptOf(w, request, 1) == Lines([request, "", w.guidance])
    ensures w.logs(attempt).Got? ==>
              var logs := w.logs(attempt).value;
              var quoted := if logs == [] then [""] else if |logs| <= 80 then logs else logs[|logs| - 80..];
              PromptOf(w, request, attempt + 1) ==
              Lines([request, "", w.guidance, "", w.failureNotice, "Deployment error: " + ErrorOf(w, attempt),
                     "Recent logs:"] + quoted)
  {
    hide Lines, ErrorOf;
    if w.logs(attempt).Got? {
      LinesQuoted(w, request, ErrorOf(w, attempt), w.logs(attempt).value);
    }
  }

  /** The error of an attempt: that of its deployment, or failing that its status; or that the time
      was up. */
  lemma ErrorIsTold(w: BuildWorld, attempt: nat, j: nat)
    requires j <= |w.polls(attempt)| && forall i | 0 <= i < j :: w.polls(attempt)[i] == Got(None)
    ensures j == |w.polls(attempt)| ==> ErrorOf(w, attempt) == "Timed out waiting for deployment to become ready."
    ensures j < |w.polls(attempt)| ==>
              var poll := w.polls(attempt)[j];
              poll.Got? && poll.value.Some? ==>
                var d := poll.value.value;
                ErrorOf(w, attempt) ==
                if d.errorMessage.Some? then d.errorMessage.value
                else "Deployment ended as " +
                     match d.status case Running => "running" case Crashed => "crashed" case Halted => "stopped"
  {
    hide Settled;
    if j == |w.polls(attempt)| {
      NeverSettled(w.polls(attempt));
    } else if w.polls(attempt)[j] != Got(None) {
      SettledAt(w.polls(attempt), j);
    }
  }

  lemma LinesQuoted(w: BuildWorld, request: string, error: string, logs: seq<string>)
    ensures var quoted := if logs == [] then [""] else LastLines(logs);
            RepairPrompt(w, request, error, logs) ==
            Lines([request, "", w.guidance, "", w.failureNotice, "Deployment error: " + error, "Recent logs:"] + quoted)
  {
    var quoted := if logs == [] then [""] else LastLines(logs);
    var first, middle := [request, "", w.guidance],
        ["", w.failureNotice, "Deployment error: " + error, "Recent logs:"];
    LinesJoin([], [], "");
    assert Lines(LastLines(logs)) == Lines(quoted);
    hide Lines, LastLines;
    LinesFlat(first, middle + [Lines(quoted)]);
    LinesJoin(first + middle, [Lines(quoted)], Lines(quoted));
    LinesJoin(first + middle, quoted, "");
    assert first + (middle + [Lines(quoted)]) == (first + middle) + [Lines(quoted)];
    assert [Lines(first)] + (middle + [Lines(quoted)]) ==
           [Lines(first), "", w.failureNotice, "Deployment error: " + error, "Recent logs:", Lines(quoted)];
    assert first + middle + quoted ==
           [request, "", w.guidance, "", w.failureNotice, "Deployment error: " + error, "Recent logs:"] + quoted;
  }

  /** The attempt failed, but its logs were read and another may follow. */
  ghost predicate FailedAttempt(w: BuildWorld, attempt: nat) {
    CameDown(w.polls(attempt)) && w.logs(attempt).Got?
  }

  /** The operator has pressed stop by the time the build has looked n times. */
  predicate Pressed(w: BuildWorld, n: nat) {
    n > 0 && (Pressed(w, n - 1) || w.presses(n - 1))
  }

  /** No collaborator fails with the stop's own message. */
  ghost predicate Quiet(w: BuildWorld) {
    w.latestSystem != Threw(STOP_MESSAGE) && w.createSystem != Threw(STOP_MESSAGE) &&
    (forall k, id, p :: w.generate(k, id, p) != Threw(STOP_MESSAGE)) &&
    (forall k :: w.deploy(k) != Threw(STOP_MESSAGE)) &&
    (forall k :: Outcome(w, k) != Threw(STOP_MESSAGE)) && forall k :: w.logs(k) != Threw(STOP_MESSAGE)
  }

  /** The operator never stops the operation, and no collaborator fails with the stop's message. */
  ghost predicate NeverStopped(w: BuildWorld) {
    (forall k :: !w.presses(k)) && Quiet(w)
  }

  /** There is a workspace and a system, and no collaborator throws. */
  ghost predicate Smooth(w: BuildWorld) {
    w.hasWorkspace && ResolveSystem(w).Got? && (forall k, id, p :: w.generate(k, id, p).Got?) &&
    (forall k :: w.deploy(k).Got?) && (forall k :: w.logs(k).Got?) &&
    forall k, i | 0 <= i < |w.polls(k)| :: w.polls(k)[i].Got?
  }

  lemma SmoothOutcome(w: BuildWorld, attempt: nat)
    requires Smooth(w)
    ensures Outcome(w, attempt).Got?
  {
    hide Settled;
    var j := FirstSettled(w.polls(attempt));
    if j == |w.polls(attempt)| {
      NeverSettled(w.polls(attempt));
    } else {
      SettledAt(w.polls(attempt), j);
    }
  }

  lemma {:induction false} NeverPressed(w: BuildWorld, n: nat)
    requires forall k :: !w.presses(k)
    ensures !Pressed(w, n)
  {
    if n == 0 {
    } else {
      NeverPressed(w, n - 1);
    }
  }

  /** A build left this way after so many looks at its flag: a press it could see ends it, nothing
      else looks like a stop, and no error comes from nowhere. */
  ghost predicate Heeds(w: BuildWorld, n: nat, exit: Exit) {
    (Pressed(w, n) ==> exit == Raised(STOP_MESSAGE)) && (Smooth(w) && exit.Raised? ==> Pressed(w, n)) &&
    (Quiet(w) ==> (exit == Raised(STOP_MESSAGE) <==> Pressed(w, n)))
  }

  /** How a try block was left: normally, by return, or by an error. */
  datatype Exit = Fell | Returned | Raised(message: string)

  /** A prompt handed to the generator for a system, after so many looks at the stop flag. */
  datatype Begun = Begun(system: string, prompt: string, looks: nat)

  /** `ctx.systemId ?? latest ?? create` */
  function ResolveSystem(w: BuildWorld): Attempt<string> {
    if w.contextSystem.Some? then Got(w.contextSystem.value)
    else match w.latestSystem
      case Threw(message) => Threw(message)
      case Got(latest) => if latest.Some? then Got(latest.value) else w.createSystem
  }

  /** The system of the session is built on; failing that the latest one, if the prompt asks to go on
      with it; and only failing that a new one. */
  lemma SystemIsChosen(w: BuildWorld, id: string)
    ensures ResolveSystem(w) == Got(id) <==>
            if w.contextSystem.Some? then w.contextSystem == Some(id)
            else w.latestSystem == Got(Some(id)) || (w.latestSystem == Got(None) && w.createSystem == Got(id))
  {
  }

  /** At most three attempts, all at one system, each from the right prompt and each but the last one failed; none is
      begun once the operator has stopped the operation. */
  ghost predicate PromptsTold(w: BuildWorld, request: string, prompts: seq<Begun>) {
    |prompts| <= 3 &&
    (forall k | 1 <= k < |prompts| :: FailedAttempt(w, k)) &&
    (forall k | 0 <= k < |prompts| ::
       !Pressed(w, prompts[k].looks) && prompts[k].looks == LooksBefore(w, k + 1) + 1) &&
    (forall k | 0 <= k < |prompts| :: prompts[k].prompt == PromptOf(w, request, k + 1)) &&
    forall k | 0 <= k < |prompts| :: ResolveSystem(w) == Got(prompts[k].system)
  }

  /** The first n attempts got something generated from their prompts, and deployed it. */
  ghost predicate Delivered(w: BuildWorld, prompts: seq<Begun>, n: int) {
    n <= |prompts| && forall k | 0 <= k < n ::
      w.generate(k + 1, prompts[k].system, prompts[k].prompt).Got? && w.deploy(k + 1).Got?
  }

  /** The stream reports success after so many attempts, and the last deployment came up. */
  ghost predicate BuiltBy(w: BuildWorld, attempts: nat, events: seq<Event>) {
    1 <= attempts && events != [] && events[|events| - 1] == SessionComplete(attempts, "ready") &&
    CameUp(w.polls(attempts)) && Tells(events) == [BUILT]
  }

  /** The collaborators of one schedule request. */
  datatype ScheduleWorld = ScheduleWorld(
    operationId: string,
    hasWorkspace: bool,
    parsed: bool,
    pressed: bool,
    create: Attempt<string>,
    shownTime: Attempt<string>,
    callStamp: string,
    resultStamp: string)

  const NO_WORKSPACE: string := "A workspace is required before the coworker can build."

  const NEED_TITLE_AND_TIME: string :=
    "I need the meeting title and time. Example: \"Schedule a meeting with Mr Sagiru today at 8:30pm.\""
}
