/** The ticking scheduler, and every interleaving of timers, query answers, manual starts, edits and
    runs. */
module Scheduler {
  import opened OrderedMerge
  import opened Rrule
  import opened Jobs

  // ----- how far starts are apart

  /** A start by the timer: when the last run of the job had been over, how far apart the rule
      wants runs, and whether something excuses an early start. */
  datatype Start = Start(id: string, at: Instant, end: Option<Instant>, gap: nat, excused: bool)

  predicate KeepsGap(st: Start) {
    st.end.Some? ==> st.at >= st.end.value + st.gap
  }

  function EndOf(ends: map<string, Instant>, id: string): Option<Instant> {
    if id in ends then Some(ends[id]) else None
  }

  /** Every job that nothing has disturbed has its last run on record, and was not started by hand. */
  ghost predicate Recorded(rows: map<string, Job>, ends: map<string, Instant>, poked: set<string>,
      disturbed: set<string>) {
    poked <= disturbed && forall id | id in rows && id !in disturbed :: rows[id].lastRunAt == EndOf(ends, id)
  }

  /** The job's last run ended as its row says, and its rule allows the next one by then. */
  predicate OnTime(job: Job, end: Option<Instant>, at: Instant) {
    job.lastRunAt == end && (end.Some? ==> at >= end.value + Gap(RuleOf(job.config)))
  }

  /** The jobs in a query's answer were due when it was asked, and the undisturbed ones on time. */
  ghost predicate AnswerInTime(answer: seq<string>, asked: map<string, Job>, at: Instant,
                               ends: map<string, Instant>, disturbed: set<string>) {
    Distinct(answer) &&
    forall i | 0 <= i < |answer| ::
      answer[i] in asked && (answer[i] !in disturbed ==> OnTime(asked[answer[i]], EndOf(ends, answer[i]), at))
  }

  /** A due job on record is on time. */
  lemma DueIsOnTime(job: Job, end: Option<Instant>, at: Instant)
    requires WellTimed(job, false) && Due(job, at) && job.lastRunAt == end
    ensures OnTime(job, end, at)
  {
  }

  lemma QueryInTime(rows: map<string, Job>, due: seq<string>, at: Instant, ends: map<string, Instant>,
                    poked: set<string>, disturbed: set<string>)
    requires DueQuery(rows, at, due) && Recorded(rows, ends, poked, disturbed)
    requires forall id | id in rows :: WellTimed(rows[id], id in poked)
    ensures AnswerInTime(due, rows, at, ends, disturbed)
  {
    hide WellTimed, Due, OnTime, Distinct;
    forall i | 0 <= i < |due| && due[i] !in disturbed
      ensures OnTime(rows[due[i]], EndOf(ends, due[i]), at)
    {
      DueIsOnTime(rows[due[i]], EndOf(ends, due[i]), at);
    }
  }

  /** Starts of these jobs at one moment. */
  function StartsAt(ids: seq<string>, now: Instant, ends: map<string, Instant>, asked: map<string, Job>,
                    disturbed: set<string>): (starts: seq<Start>)
    requires forall i | 0 <= i < |ids| :: ids[i] in asked
  {
    seq(|ids|, i requires 0 <= i < |ids| =>
      Start(ids[i], now, EndOf(ends, ids[i]), Gap(RuleOf(asked[ids[i]].config)), ids[i] in disturbed))
  }

  /** Every start but an excused one keeps its gap. */
  ghost predicate GapsKept(starts: seq<Start>) {
    forall i | 0 <= i < |starts| :: starts[i].excused || KeepsGap(starts[i])
  }

  lemma AnsweredStartsKeepGaps(ids: seq<string>, answer: seq<string>, asked: map<string, Job>, at: Instant,
                               now: Instant, ends: map<string, Instant>, disturbed: set<string>)
    requires AnswerInTime(answer, asked, at, ends, disturbed) && at <= now
    requires forall i | 0 <= i < |ids| :: ids[i] in answer
    ensures (forall i | 0 <= i < |ids| :: ids[i] in asked) && GapsKept(StartsAt(ids, now, ends, asked, disturbed))
  {
    hide Gap, RuleOf, Distinct;
  }

  lemma StartsExcused(ids: seq<string>, now: Instant, ends: map<string, Instant>, asked: map<string, Job>,
                      disturbed: set<string>)
    requires forall i | 0 <= i < |ids| :: ids[i] in asked
    ensures var starts := StartsAt(ids, now, ends, asked, disturbed);
            forall i | 0 <= i < |starts| :: starts[i].excused ==> starts[i].id in disturbed
  {
  }

  lemma NothingStarted(before: seq<string>)
    ensures Without([], before) == [] && before + [] == before
  {
  }

  /** Runs dispatched and not begun. */
  function Dispatched(ids: seq<string>): seq<Flight> {
    seq(|ids|, i requires 0 <= i < |ids| => Flight(ids[i], None))
  }

  lemma DispatchedIds(flights: seq<Flight>, ids: seq<string>)
    ensures FlightIds(flights + Dispatched(ids)) == FlightIds(flights) + ids
  {
  }

  lemma DispatchedMore(flights: seq<Flight>, ids: seq<string>, id: string)
    ensures (flights + Dispatched(ids)) + [Flight(id, None)] == flights + Dispatched(ids + [id])
    ensures flights + Dispatched([]) == flights
  {
  }

  /** Dispatching the next listed job starts it exactly when it has no run in flight. */
  lemma DispatchedOne(due: seq<string>, i: nat, before: seq<Flight>)
    requires i < |due| && Distinct(due)
    ensures var ids := FlightIds(before);
            var flights := before + Dispatched(Without(due[..i], ids));
            var sent := due[i] !in FlightIds(flights);
            before + Dispatched(Without(due[..i + 1], ids)) ==
            if sent then flights + [Flight(due[i], None)] else flights
  {
    hide FlightIds, Without, Dispatched;
    var ids := FlightIds(before);
    assert due[..i + 1] == due[..i] + [due[i]];
    assert due[i] !in due[..i];
    WithoutAppend(due[..i], due[i], ids);
    DispatchedIds(before, Without(due[..i], ids));
    DispatchedMore(before, Without(due[..i], ids), due[i]);
    assert Without(due[..i], ids) + [] == Without(due[..i], ids);
  }

  lemma SentAll(due: seq<string>, before: seq<string>)
    ensures Members(before + Without(due, before)) == Members(before) + Members(due)
  {
  }

  class JobScheduler {
    const dispatcher: JobDispatcher
    var ticking: bool
    var answer: seq<string>             // what the query in progress will come back with
    ghost var asked: map<string, Job>   // the rows as they stood when it was asked
    ghost var askedAt: Instant
    ghost var disturbed: set<string>    // since their last recorded run: started by hand, or their last run
                                        // lost its record or ended during a query
    ghost var starts: seq<Start>        // every start by the timer

    /** The records and the query in progress are in time, and starts so far kept their gaps. */
    ghost predicate Valid()
      reads this, dispatcher, dispatcher.jobs
    {
      dispatcher.Valid() &&
      Recorded(dispatcher.jobs.rows, dispatcher.ends, dispatcher.jobs.poked, disturbed) &&
      (ticking ==>
         askedAt <= dispatcher.jobs.clock && AnswerInTime(answer, asked, askedAt, dispatcher.ends, disturbed)) &&
      GapsKept(starts)
    }

    constructor (dispatcher: JobDispatcher)
      requires dispatcher.Valid() && dispatcher.jobs.rows == map[] && dispatcher.jobs.poked == {}
      ensures Valid() && this.dispatcher == dispatcher && !ticking && disturbed == {} && starts == []
    {
      this.dispatcher := dispatcher;
      ticking, answer, disturbed, starts := false, [], {}, [];
    }

    /** The timer fires: unless a tick is still under way, the due jobs are asked for. */
    method TickBegins(due: seq<string>, now: Instant)
      requires Valid() && now >= dispatcher.jobs.clock && (ticking || DueQuery(dispatcher.jobs.rows, now, due))
      modifies this`ticking, this`answer, this`asked, this`askedAt, dispatcher.jobs`clock
      ensures Valid() && ticking && dispatcher.jobs.clock == now
      ensures if old(ticking) then answer == old(answer) && asked == old(asked)
              else answer == due && asked == dispatcher.jobs.rows
    {
      hide Recorded, AnswerInTime, GapsKept, DueQuery, WellTimed, HasBegun;
      dispatcher.jobs.clock := now;
      if ticking {
        return;
      }
      QueryInTime(dispatcher.jobs.rows, due, now, dispatcher.ends, dispatcher.jobs.poked, disturbed);
      ticking := true;
      answer := due;
      asked, askedAt := dispatcher.jobs.rows, now;
    }

    /** The answer arrives, or the query fails. Every job listed ends up with exactly one run in
        flight; those started now keep the gap their rule wants from the end of their last run,
        unless they were disturbed. */
    method TickEnds(failed: bool, now: Instant)
      requires Valid() && ticking && now >= dispatcher.jobs.clock
      modifies this`ticking, this`starts, dispatcher
      ensures Valid() && !ticking && dispatcher.ends == old(dispatcher.ends)
      ensures failed ==>
                dispatcher.running == old(dispatcher.running) && dispatcher.flights == old(dispatcher.flights) &&
                starts == old(starts)
      ensures !failed ==>
                var before := FlightIds(old(dispatcher.flights));
                dispatcher.running == old(dispatcher.running) + Members(answer) &&
                dispatcher.flights == old(dispatcher.flights) + Dispatched(Without(answer, before)) &&
                (forall i | 0 <= i < |Without(answer, before)| :: Without(answer, before)[i] in asked) &&
                starts == old(starts) + StartsAt(Without(answer, before), now, dispatcher.ends, asked, disturbed)
      ensures forall i | |old(starts)| <= i < |starts| :: starts[i].excused ==> starts[i].id in disturbed
    {
      if !failed {
        SendAll(now);
        ghost var sent := Without(answer, FlightIds(old(dispatcher.flights)));
        hide FlightIds, Without, Recorded, AnswerInTime, GapsKept, StartsAt, HasBegun, Members;
        AnsweredStartsKeepGaps(sent, answer, asked, askedAt, now, dispatcher.ends, disturbed);
        GapsKeptConcat(starts, StartsAt(sent, now, dispatcher.ends, asked, disturbed));
        StartsExcused(sent, now, dispatcher.ends, asked, disturbed);
        starts := starts + StartsAt(sent, now, dispatcher.ends, asked, disturbed);
      }
      ticking := false;
    }

    /** The loop over the answer. */
    method SendAll(now: Instant)
      requires Valid() && ticking
      modifies dispatcher
      ensures Valid() && dispatcher.ends == old(dispatcher.ends)
      ensures var before := FlightIds(old(dispatcher.flights));
              dispatcher.running == old(dispatcher.running) + Members(answer) &&
              dispatcher.flights == old(dispatcher.flights) + Dispatched(Without(answer, before))
    {
      hide Recorded, GapsKept, FlightIds, Without, HasBegun, OnTime, Dispatched;
      ghost var before := dispatcher.flights;
      NothingStarted(FlightIds(before));
      DispatchedMore(before, [], "");
      assert answer[..0] == [];
      for i := 0 to |answer|
        invariant Valid() && ticking && dispatcher.ends == old(dispatcher.ends)
        invariant dispatcher.flights == before + Dispatched(Without(answer[..i], FlightIds(before)))
      {
        DispatchedOne(answer, i, before);
        var sent := dispatcher.DispatchInternal(answer[i]);
      }
      assert answer[..|answer|] == answer;
      DispatchedIds(before, Without(answer, FlightIds(before)));
      SentAll(answer, FlightIds(before));
    }
  }

  lemma GapsKeptConcat(a: seq<Start>, b: seq<Start>)
    requires GapsKept(a) && GapsKept(b)
    ensures GapsKept(a + b)
  {
  }

  // ----- every interleaving

  datatype Step =
    | TickStep(due: seq<string>, now: Instant)
    | AnswerStep(failed: bool, now: Instant)
    | DispatchStep(id: string, now: Instant)
    | BeginStep(flight: nat, now: Instant, fault: Fault)
    | FinishStep(flight: nat, error: Option<string>, now: Instant, fault: Fault)
    | CreateStep(id: string, trigger: Trigger, config: Option<Config>, now: Instant)
    | UpdateStep(id: string, patch: Patch, now: Instant)
    | CancelStep(id: string)

  /** The process as a whole: the rows, the runs in flight, and the query in progress. */
  datatype Process = Process(rows: map<string, Job>, running: set<string>, flights: seq<Flight>, clock: Instant,
                             ticking: bool, answer: seq<string>)

  function ProcessOf(s: JobScheduler): Process
    reads s, s.dispatcher, s.dispatcher.jobs
  {
    Process(s.dispatcher.jobs.rows, s.dispatcher.running, s.dispatcher.flights, s.dispatcher.jobs.clock, s.ticking,
            s.answer)
  }

  /** The step can be taken: time does not run backwards, a query answer is an answer, a flight
      is in the right phase, an id is new, rules are legal. */
  predicate Enabled(p: Process, step: Step) {
    match step
    case TickStep(due, now) => now >= p.clock && (p.ticking || DueQuery(p.rows, now, due))
    case AnswerStep(_, now) => now >= p.clock && p.ticking
    case DispatchStep(_, now) => now >= p.clock
    case BeginStep(i, now, _) => now >= p.clock && i < |p.flights| && p.flights[i].copy.None?
    case FinishStep(i, _, now, _) => now >= p.clock && i < |p.flights| && p.flights[i].copy.Some?
    case CreateStep(id, _, config, now) => now >= p.clock && id !in p.rows && LegalConfig(config)
    case UpdateStep(_, patch, now) => now >= p.clock && LegalConfig(patch.config)
    case CancelStep(_) => true
  }

  /** The flight has landed. */
  function Landed(p: Process, i: nat): Process
    requires i < |p.flights|
  {
    p.(flights := p.flights[..i] + p.flights[i + 1..], running := p.running - {p.flights[i].id})
  }

  predicate Refused(rows: map<string, Job>, id: string) {
    id !in rows || rows[id].status == Paused || rows[id].status == Cancelled
  }

  /** A job after an edit. */
  function Edited(was: Job, patch: Patch, now: Instant): Job {
    var trigger := if patch.trigger.Some? then patch.trigger.value else was.trigger;
    var config := if patch.config.Some? then patch.config else was.config;
    var pausedAt := match patch.status
      case Some(Paused) => Some(now)
      case Some(Scheduled) => None
      case Some(Pending) => None
      case _ => was.pausedAt;
    Job(if patch.status.Some? then patch.status.value else was.status, trigger, config,
        ComputeNextRun(trigger, config, was.lastRunAt, now), was.lastRunAt, was.lastError, was.runCount, pausedAt)
  }

  lemma EditIsEdited(was: Job, patch: Patch, now: Instant, job: Job)
    requires IsEdit(was, patch, now, job)
    ensures job == Edited(was, patch, now)
  {
    hide ComputeNextRun;
  }

  /** What the process does in one step.
      - A tick asks for the due jobs, unless a query is under way; its answer starts every job listed
        that has no run in flight.
      - A start by hand makes a job due and starts it, unless it is paused, cancelled or in flight.
      - A run marks its job running, unless that is gone, paused or cancelled by then or something
        fails before; when it ends, the job is settled from the run's own copy of it, unless a save
        fails.
      - Jobs are created, edited and cancelled. */
  function Next(p: Process, step: Step): Process
    requires Enabled(p, step)
  {
    match step
    case TickStep(due, now) =>
      if p.ticking then p.(clock := now) else p.(clock := now, ticking := true, answer := due)
    case AnswerStep(failed, now) =>
      if failed then p.(ticking := false)
      else p.(ticking := false, running := p.running + Members(p.answer),
              flights := p.flights + Dispatched(Without(p.answer, FlightIds(p.flights))))
    case DispatchStep(id, now) =>
      if Refused(p.rows, id) then p.(clock := now)
      else
        p.(clock := now, running := p.running + {id},
           rows := p.rows[id := p.rows[id].(status := Scheduled, nextRunAt := Some(now), pausedAt := None)],
           flights := if id in p.running then p.flights else p.flights + [Flight(id, None)])
    case BeginStep(i, now, fault) =>
      var id := p.flights[i].id;
      if Refused(p.rows, id) || fault == AtCoworker || fault == AtMark then Landed(p, i).(clock := now)
      else
        var job := p.rows[id].(status := Running);
        var marked := p.(clock := now, rows := p.rows[id := job]);
        if fault == AtCreateRun then Landed(marked, i)
        else marked.(flights := p.flights[i := Flight(id, Some(job))])
    case FinishStep(i, error, now, fault) =>
      var id, job := p.flights[i].id, Settled(p.flights[i].copy.value, error, now);
      Landed(p, i).(clock := now,
                    rows := if fault == AtUpdateRun || fault == AtFinalSave then p.rows else p.rows[id := job])
    case CreateStep(id, trigger, config, now) =>
      var job := Job(if trigger == Manual then Pending else Scheduled, trigger, config,
                     ComputeNextRun(trigger, config, None, now), None, None, 0, None);
      p.(clock := now, rows := p.rows[id := job])
    case UpdateStep(id, patch, now) =>
      if id !in p.rows then p.(clock := now)
      else p.(clock := now, rows := p.rows[id := Edited(p.rows[id], patch, now)])
    case CancelStep(id) =>
      if id !in p.rows then p
      else p.(rows := p.rows[id := p.rows[id].(status := Cancelled, nextRunAt := None)])
  }

  /** All steps in turn; one that cannot be taken is passed over. */
  function NextAll(p: Process, steps: seq<Step>): Process {
    if steps == [] then p
    else
      var before, step := NextAll(p, steps[..|steps| - 1]), steps[|steps| - 1];
      if Enabled(before, step) then Next(before, step) else before
  }

  /** The disturbed jobs after a step: a start by hand disturbs a job, and so does a run whose end
      goes unrecorded or falls into a query; any other end of a run sets things right. */
  function Disturbs(step: Step, flights: seq<Flight>, ticking: bool, disturbed: set<string>): set<string> {
    match step
    case DispatchStep(id, _) => disturbed + {id}
    case FinishStep(i, _, _, fault) =>
      if i >= |flights| then disturbed
      else if fault in {AtUpdateRun, AtFinalSave} || ticking then disturbed + {flights[i].id}
      else disturbed - {flights[i].id}
    case _ => disturbed
  }

  lemma RowKept(rows: map<string, Job>, ends: map<string, Instant>, poked: set<string>, disturbed: set<string>,
                id: string, job: Job)
    requires Recorded(rows, ends, poked, disturbed)
    requires job.lastRunAt == if id in rows then rows[id].lastRunAt else EndOf(ends, id)
    ensures Recorded(rows[id := job], ends, poked, disturbed)
  {
  }

  lemma FewerPoked(rows: map<string, Job>, ends: map<string, Instant>, poked: set<string>, fewer: set<string>,
                   disturbed: set<string>)
    requires Recorded(rows, ends, poked, disturbed) && fewer <= poked
    ensures Recorded(rows, ends, fewer, disturbed)
  {
  }

  /** Disturbing a job asks less of its record. */
  lemma DisturbedRecord(rows: map<string, Job>, ends: map<string, Instant>, poked: set<string>, disturbed: set<string>,
                        id: string, end: map<string, Instant>, more: set<string>)
    requires Recorded(rows, ends, poked, disturbed)
    requires more <= poked + {id} && forall k | k != id :: EndOf(end, k) == EndOf(ends, k)
    ensures Recorded(rows, end, more, disturbed + {id})
  {
  }

  /** And less of the query in progress. */
  lemma DisturbedAnswer(answer: seq<string>, asked: map<string, Job>, at: Instant, ends: map<string, Instant>,
                        disturbed: set<string>, id: string, end: map<string, Instant>)
    requires AnswerInTime(answer, asked, at, ends, disturbed) && forall k | k != id :: EndOf(end, k) == EndOf(ends, k)
    ensures AnswerInTime(answer, asked, at, end, disturbed + {id})
  {
    hide OnTime, Distinct;
  }

  /** The end of a run, on record and outside a query. */
  lemma RunRecorded(rows: map<string, Job>, ends: map<string, Instant>, poked: set<string>, disturbed: set<string>,
                    id: string, job: Job, now: Instant)
    requires Recorded(rows, ends, poked, disturbed) && job.lastRunAt == Some(now)
    ensures Recorded(rows[id := job], ends[id := now], poked - {id}, disturbed - {id})
    ensures Recorded(rows[id := job], ends[id := now], poked - {id}, disturbed + {id})
  {
  }

  method TakeDispatch(s: JobScheduler, id: string, now: Instant)
    requires s.Valid() && now >= s.dispatcher.jobs.clock
    modifies s, s.dispatcher, s.dispatcher.jobs
    ensures s.Valid() && s.disturbed == old(s.disturbed) + {id} && s.ticking == old(s.ticking) &&
            s.starts == old(s.starts)
    ensures s.dispatcher.jobs.stuck == old(s.dispatcher.jobs.stuck) && s.dispatcher.jobs.clock == now
    ensures ProcessOf(s) == Next(old(ProcessOf(s)), DispatchStep(id, now))
  {
    hide AnswerInTime, GapsKept, Recorded, WellTimed, HasBegun;
    var d, table := s.dispatcher, s.dispatcher.jobs;
    if s.ticking {
      DisturbedAnswer(s.answer, s.asked, s.askedAt, d.ends, s.disturbed, id, d.ends);
    }
    var r := d.DispatchNow(id, now);
    DisturbedRecord(old(table.rows), d.ends, old(table.poked), s.disturbed, id, d.ends, table.poked);
    s.disturbed := s.disturbed + {id};
    if r.Ok? {
      RowKept(old(table.rows), d.ends, table.poked, s.disturbed, id, table.rows[id]);
    }
  }

  method TakeBegin(s: JobScheduler, i: nat, now: Instant, fault: Fault)
    requires s.Valid() && now >= s.dispatcher.jobs.clock
    requires i < |s.dispatcher.flights| && s.dispatcher.flights[i].copy.None?
    modifies s.dispatcher, s.dispatcher.jobs
    ensures s.Valid() && s.dispatcher.jobs.clock == now
    ensures ProcessOf(s) == Next(old(ProcessOf(s)), BeginStep(i, now, fault))
    ensures s.dispatcher.jobs.stuck <= old(s.dispatcher.jobs.stuck) +
                                       (if fault == AtCreateRun then {old(s.dispatcher.flights)[i].id} else {})
  {
    hide AnswerInTime, GapsKept, Recorded, WellTimed, HasBegun;
    var d, table := s.dispatcher, s.dispatcher.jobs;
    var id := d.flights[i].id;
    d.Begin(i, now, fault);
    if id in table.rows {
      RowKept(old(table.rows), d.ends, table.poked, s.disturbed, id, table.rows[id]);
      assert old(table.rows)[id := table.rows[id]] == table.rows;
    }
  }

  lemma FinishIsNext(p: Process, i: nat, error: Option<string>, now: Instant, fault: Fault, q: Process)
    requires now >= p.clock && i < |p.flights| && p.flights[i].copy.Some?
    requires q.clock == now && q.ticking == p.ticking && q.answer == p.answer
    requires q.flights == p.flights[..i] + p.flights[i + 1..] && q.running == p.running - {p.flights[i].id}
    requires q.rows == if fault in {AtUpdateRun, AtFinalSave} then p.rows
                       else p.rows[p.flights[i].id := Settled(p.flights[i].copy.value, error, now)]
    ensures Enabled(p, FinishStep(i, error, now, fault)) && q == Next(p, FinishStep(i, error, now, fault))
  {
    hide Settled;
  }

  method TakeFinish(s: JobScheduler, i: nat, error: Option<string>, now: Instant, fault: Fault)
    requires s.Valid() && now >= s.dispatcher.jobs.clock
    requires i < |s.dispatcher.flights| && s.dispatcher.flights[i].copy.Some?
    modifies s, s.dispatcher, s.dispatcher.jobs
    ensures s.Valid() && s.ticking == old(s.ticking) && s.starts == old(s.starts) && s.dispatcher.jobs.clock == now
    ensures ProcessOf(s) == Next(old(ProcessOf(s)), FinishStep(i, error, now, fault))
    ensures s.disturbed == Disturbs(FinishStep(i, error, now, fault), old(s.dispatcher.flights), old(s.ticking),
            old(s.disturbed))
    ensures s.dispatcher.jobs.stuck <= old(s.dispatcher.jobs.stuck) +
              (if fault in {AtUpdateRun, AtFinalSave} then {old(s.dispatcher.flights)[i].id} else {})
  {
    hide AnswerInTime, GapsKept, Recorded, WellTimed, HasBegun, Settled, Members, Distinct, FlightIds, RuleOf, Gap,
      LegalConfig;
    var d, table := s.dispatcher, s.dispatcher.jobs;
    var id, copy := d.flights[i].id, d.flights[i].copy.value;
    EndsElsewhere(d.ends, id, now);
    DisturbedRecord(table.rows, d.ends, table.poked, s.disturbed, id, d.ends[id := now], table.poked);
    if s.ticking {
      DisturbedAnswer(s.answer, s.asked, s.askedAt, d.ends, s.disturbed, id, d.ends[id := now]);
    }
    SettledEndsNow(copy, error, now);
    RunRecorded(table.rows, d.ends, table.poked, s.disturbed, id, Settled(copy, error, now), now);
    ghost var before := ProcessOf(s);
    hide Next;
    d.Finish(i, error, now, fault);
    FinishIsNext(before, i, error, now, fault, ProcessOf(s));
    if fault in {AtUpdateRun, AtFinalSave} || s.ticking {
      s.disturbed := s.disturbed + {id};
    } else {
      s.disturbed := s.disturbed - {id};
    }
  }

  lemma SettledEndsNow(copy: Job, error: Option<string>, now: Instant)
    ensures Settled(copy, error, now).lastRunAt == Some(now)
  {
  }

  lemma EndsElsewhere(ends: map<string, Instant>, id: string, now: Instant)
    ensures forall k | k != id :: EndOf(ends[id := now], k) == EndOf(ends, k)
  {
  }

  /** A job created, edited or cancelled. */
  method TakeEdit(s: JobScheduler, step: Step)
    requires s.Valid() && Enabled(ProcessOf(s), step)
    requires step.CreateStep? || step.UpdateStep? || step.CancelStep?
    modifies s.dispatcher.jobs
    ensures ProcessOf(s) == Next(old(ProcessOf(s)), step)
    ensures s.Valid() && s.dispatcher.jobs.clock >= old(s.dispatcher.jobs.clock)
    ensures s.dispatcher.jobs.stuck == old(s.dispatcher.jobs.stuck) + MayStick(step, s.dispatcher.flights)
  {
    hide AnswerInTime, GapsKept, Recorded, WellTimed, HasBegun, DueQuery, ComputeNextRun, Members, Distinct, FlightIds,
      RuleOf, Gap, IsEdit;
    var d, table := s.dispatcher, s.dispatcher.jobs;
    ghost var rows := table.rows;
    FewerPoked(rows, d.ends, table.poked, table.poked - {EditedId(step)}, s.disturbed);
    match step {
      case CreateStep(id, trigger, config, now) => table.Create(id, trigger, config, now);
      case UpdateStep(id, patch, now) =>
        var r := table.Update(id, patch, now);
        if r.Ok? {
          EditIsEdited(rows[id], patch, now, r.value);
        }
      case CancelStep(id) => var r := table.Cancel(id);
    }
    var id := EditedId(step);
    if id in table.rows {
      RowKept(rows, d.ends, table.poked, s.disturbed, id, table.rows[id]);
      assert rows[id := table.rows[id]] == table.rows;
    }
  }

  function EditedId(step: Step): string
    requires step.CreateStep? || step.UpdateStep? || step.CancelStep?
  {
    step.id
  }

  /** Any step of the process, edits of jobs in flight included, does what it should and keeps the
      scheduler valid. */
  method Take(s: JobScheduler, step: Step)
    requires s.Valid() && Enabled(ProcessOf(s), step)
    modifies s, s.dispatcher, s.dispatcher.jobs
    ensures s.Valid() && ProcessOf(s) == Next(old(ProcessOf(s)), step)
    ensures s.dispatcher.jobs.stuck <= old(s.dispatcher.jobs.stuck) + MayStick(step, old(s.dispatcher.flights))
    ensures s.disturbed == Disturbs(step, old(s.dispatcher.flights), old(s.ticking), old(s.disturbed))
    ensures old(s.starts) <= s.starts
    ensures forall i | |old(s.starts)| <= i < |s.starts| :: s.starts[i].excused ==> s.starts[i].id in s.disturbed
    ensures step.TickStep? ==> s.ticking && s.dispatcher.jobs.clock == step.now
    ensures !step.TickStep? ==> s.ticking == (old(s.ticking) && !step.AnswerStep?)
  {
    hide AnswerInTime, GapsKept, Recorded, WellTimed, HasBegun, DueQuery, StartsAt, FlightIds, Without;
    match step {
      case TickStep(due, now) => s.TickBegins(due, now);
      case AnswerStep(failed, now) => s.TickEnds(failed, now);
      case DispatchStep(id, now) => TakeDispatch(s, id, now);
      case BeginStep(i, now, fault) => TakeBegin(s, i, now, fault);
      case FinishStep(i, error, now, fault) => TakeFinish(s, i, error, now, fault);
      case _ => TakeEdit(s, step);
    }
  }

  /** The jobs a step can leave marked running with no run behind them. */
  function MayStick(step: Step, flights: seq<Flight>): set<string> {
    match step
    case BeginStep(i, _, fault) => if fault == AtCreateRun && i < |flights| then {flights[i].id} else {}
    case FinishStep(i, _, _, fault) =>
      if fault in {AtUpdateRun, AtFinalSave} && i < |flights| then {flights[i].id} else {}
    case UpdateStep(id, patch, _) => if patch.status == Some(Running) then {id} else {}
    case _ => {}
  }

  /** A step that neither loses a save nor marks a job running by hand. */
  predicate Clean(step: Step) {
    match step
    case BeginStep(_, _, fault) => fault != AtCreateRun
    case FinishStep(_, _, _, fault) => fault !in {AtUpdateRun, AtFinalSave}
    case UpdateStep(_, patch, _) => patch.status != Some(Running)
    case _ => true
  }

  /** Every query is answered before anything else happens. */
  predicate Atomic(steps: seq<Step>) {
    forall i | 0 <= i < |steps| && steps[i].TickStep? ::
      i + 1 < |steps| && steps[i + 1].AnswerStep? && steps[i + 1].now >= steps[i].now
  }

  /** No save is lost, nobody starts a job by hand, and every query is answered at once. */
  predicate Undisturbed(steps: seq<Step>) {
    Atomic(steps) && forall i | 0 <= i < |steps| :: Clean(steps[i]) && !steps[i].DispatchStep?
  }

  /** Every interleaving of timers, query answers, manual starts, edits, run beginnings, completions
      and failures makes of the process what its steps make of it one after another, and in each:
      - the running set is exactly the jobs in flight, each once;
      - while no save is lost, a row says running only while its run is in flight;
      - every start by the timer keeps the gap its rule wants from the end of the job's last run,
        recorded or not, unless the job was disturbed; and in an undisturbed trace none is. */
  method Interleave(s: JobScheduler, steps: seq<Step>)
    requires s.Valid()
    modifies s, s.dispatcher, s.dispatcher.jobs
    ensures s.Valid() && ProcessOf(s) == NextAll(old(ProcessOf(s)), steps)
    ensures Distinct(FlightIds(s.dispatcher.flights)) &&
            s.dispatcher.running == Members(FlightIds(s.dispatcher.flights))
    ensures old(s.dispatcher.jobs.stuck) == {} && (forall i | 0 <= i < |steps| :: Clean(steps[i])) ==>
              forall id | id in s.dispatcher.jobs.rows && s.dispatcher.jobs.rows[id].status == Running ::
                HasBegun(s.dispatcher.flights, id)
    ensures old(s.starts) <= s.starts && forall i | 0 <= i < |s.starts| :: s.starts[i].excused || KeepsGap(s.starts[i])
    ensures !old(s.ticking) && old(s.disturbed) == {} && Undisturbed(steps) ==>
              s.disturbed == {} && forall i | |old(s.starts)| <= i < |s.starts| :: KeepsGap(s.starts[i])
  {
    hide AnswerInTime, Recorded, WellTimed, HasBegun, DueQuery, KeepsGap, Next;
    for i := 0 to |steps|
      invariant s.Valid() && old(s.starts) <= s.starts
      invariant ProcessOf(s) == NextAll(old(ProcessOf(s)), steps[..i])
      invariant old(s.dispatcher.jobs.stuck) == {} && (forall j | 0 <= j < i :: Clean(steps[j])) ==>
                  s.dispatcher.jobs.stuck == {}
      invariant !old(s.ticking) && old(s.disturbed) == {} && Undisturbed(steps) ==>
                  s.disturbed == {} &&
                  (s.ticking ==> i > 0 && steps[i - 1].TickStep? && s.dispatcher.jobs.clock == steps[i - 1].now) &&
                  forall k | |old(s.starts)| <= k < |s.starts| :: KeepsGap(s.starts[k])
    {
      assert steps[..i + 1][..i] == steps[..i];
      if Enabled(ProcessOf(s), steps[i]) {
        Take(s, steps[i]);
      }
    }
    assert steps[..|steps|] == steps;
  }
}
