/** Coworker jobs in one process: the job table, the runner's two ends and the single-flight
    dispatcher. */
module Jobs {
  import opened OrderedMerge
  import opened Rrule

  datatype Trigger = Manual | Schedule | OnEvent

  datatype Status = Pending | Scheduled | Running | Completed | Failed | Paused | Cancelled

  /** A one-shot time that does not parse never yields a next run, so it counts as none. */
  datatype Config = Config(rrule: Option<Rule>, runAt: Option<Instant>)

  datatype Job = Job(status: Status, trigger: Trigger, config: Option<Config>, nextRunAt: Option<Instant>,
                     lastRunAt: Option<Instant>, lastError: Option<string>, runCount: nat, pausedAt: Option<Instant>)

  datatype Result<+T> = Ok(value: T) | NotFound | BadRequest

  function RuleOf(config: Option<Config>): Option<Rule> {
    if config.Some? then config.value.rrule else None
  }

  predicate LegalConfig(config: Option<Config>) {
    RuleOf(config).Some? ==> Legal(RuleOf(config).value)
  }

  function ComputeNextRun(trigger: Trigger, config: Option<Config>, lastRunAt: Option<Instant>,
      now: Instant): Option<Instant> {
    if trigger != Schedule || config.None? then None
    else
      var next := NextFromRrule(config.value.rrule, if lastRunAt.Some? then lastRunAt.value else now);
      if next.Some? then next
      else if config.value.runAt.None? then None
      else
        var at := config.value.runAt.value;
        if at > now then Some(at)
        else if lastRunAt.Some? then None
        else Some(now + 1000)
  }

  /** A schedule job follows its rule from its last run, or from now if it never ran. Without a next
      date from the rule it runs once: at its time if that is still to come, and a second from now if
      that has passed unused. No other job has a next run. */
  lemma NextRunIs(trigger: Trigger, config: Option<Config>, lastRunAt: Option<Instant>, now: Instant)
    ensures var next := ComputeNextRun(trigger, config, lastRunAt, now);
            var ruled := NextFromRrule(RuleOf(config), match lastRunAt case Some(t) => t case None => now);
            (trigger != Schedule || config.None? ==> next.None?) &&
            (trigger == Schedule && config.Some? && ruled.Some? ==> next == ruled) &&
            (trigger == Schedule && config.Some? && ruled.None? ==>
               match config.value.runAt
               case None => next.None?
               case Some(at) =>
                 if now < at then next == Some(at)
                 else if lastRunAt.None? then next == Some(now + 1000)
                 else next.None?)
  {
  }

  /** `if (lastError)`: an empty message counts as no error. */
  predicate Failing(error: Option<string>) {
    error.Some? && error.value != ""
  }

  /** What a finished run leaves behind: only a schedule job whose rule has a next date, or an
      event job that succeeded, waits for another run; nothing is left running. */
  function Settled(job: Job, error: Option<string>, now: Instant): Job {
    var next := if job.trigger == Schedule then NextFromRrule(RuleOf(job.config), now) else None;
    var status := match job.trigger
      case Schedule => if next.Some? then Scheduled else Completed
      case Manual => if Failing(error) then Failed else Completed
      case OnEvent => if Failing(error) then Failed else Scheduled;
    Job(status, job.trigger, job.config, next, Some(now), error, job.runCount + 1, job.pausedAt)
  }

  /** A finished run never leaves its job running; a scheduled job left waiting is due strictly
      later, by at least its interval; without a rule it is completed, error or not. A job of any
      other kind has failed if the run left an error message; otherwise a manual one is completed and
      one that waits for an event goes on waiting. What the run does not decide stays as it was. */
  lemma SettledJob(job: Job, error: Option<string>, now: Instant)
    requires LegalConfig(job.config)
    ensures var left := Settled(job, error, now);
            left.status != Running && left.lastRunAt == Some(now) && left.runCount == job.runCount + 1 &&
            (job.trigger == Schedule && left.status == Scheduled ==>
               left.nextRunAt.Some? && left.nextRunAt.value >= now + Gap(RuleOf(job.config))) &&
            (job.trigger == Schedule && RuleOf(job.config).None? ==>
               left.status == Completed && left.nextRunAt.None?) &&
            (left.nextRunAt.Some? ==> left.status == Scheduled && job.trigger == Schedule)
    ensures var left, failed := Settled(job, error, now), error.Some? && error.value != "";
            left.lastError == error && left.trigger == job.trigger && left.config == job.config &&
            left.pausedAt == job.pausedAt &&
            (job.trigger == Schedule ==>
               left.nextRunAt == NextFromRrule(RuleOf(job.config), now) &&
               (left.status == Completed <==> left.nextRunAt.None?)) &&
            (job.trigger == Manual ==> left.status == if failed then Failed else Completed) &&
            (job.trigger == OnEvent ==> left.status == if failed then Failed else Scheduled)
  {
    NextIsLater(RuleOf(job.config), now);
  }

  // ----- the job table

  /** Unless somebody has started it by hand since, only a schedule job waits, and one that waits
      after an earlier run is due at least its rule's gap after the recorded end of that run. */
  predicate WellTimed(job: Job, poked: bool) {
    LegalConfig(job.config) && (job.nextRunAt.Some? && !poked ==> job.trigger == Schedule) &&
    (job.trigger == Schedule && job.nextRunAt.Some? && job.lastRunAt.Some? && !poked ==>
       job.nextRunAt.value >= job.lastRunAt.value + Gap(RuleOf(job.config)))
  }

  datatype Patch = Patch(trigger: Option<Trigger>, config: Option<Config>, status: Option<Status>)

  class JobTable {
    var rows: map<string, Job>
    ghost var poked: set<string>   // started by hand since they were last timed
    ghost var stuck: set<string>   // marked running by an edit, or by a run whose saving failed
    var clock: Instant             // the latest instant seen

    ghost predicate Valid()
      reads this
    {
      forall id | id in rows ::
        WellTimed(rows[id], id in poked) && (rows[id].lastRunAt.Some? ==> rows[id].lastRunAt.value <= clock)
    }

    constructor ()
      ensures Valid() && rows == map[] && clock == 0 && poked == {} && stuck == {}
    {
      rows, poked, stuck, clock := map[], {}, {}, 0;
    }

    method Create(id: string, trigger: Trigger, config: Option<Config>, now: Instant)
      requires Valid() && id !in rows && LegalConfig(config) && now >= clock
      modifies this
      ensures Valid() && clock == now && stuck == old(stuck) && poked == old(poked) - {id}
      ensures rows == old(rows)[id := Job(if trigger == Manual then Pending else Scheduled, trigger, config,
                                          ComputeNextRun(trigger, config, None, now), None, None, 0, None)]
    {
      rows := rows[id := Job(if trigger == Manual then Pending else Scheduled, trigger, config,
                             ComputeNextRun(trigger, config, None, now), None, None, 0, None)];
      poked := poked - {id};
      clock := now;
    }

    /** An edit changes the named fields only, and recomputes the next run from the last one. */
    method Update(id: string, patch: Patch, now: Instant) returns (r: Result<Job>)
      requires Valid() && LegalConfig(patch.config) && now >= clock
      modifies this
      ensures Valid() && clock == now && stuck == old(stuck) + (if patch.status == Some(Running) then {id} else {})
      ensures poked == if id in old(rows) then old(poked) - {id} else old(poked)
      ensures id !in old(rows) ==> r == NotFound && rows == old(rows)
      ensures id in old(rows) ==>
                r.Ok? && rows == old(rows)[id := r.value] && IsEdit(old(rows)[id], patch, now, r.value)
    {
      hide WellTimed, IsEdit, LegalConfig;
      stuck := stuck + (if patch.status == Some(Running) then {id} else {});
      if id !in rows {
        clock := now;
        return NotFound;
      }
      var job := Edit(rows[id], patch, now);
      EditIsWellTimed(rows[id], id in poked, patch, job, now);
      Save(id, job, now, true);
      r := Ok(job);
    }

    method Cancel(id: string) returns (r: Result<Job>)
      requires Valid()
      modifies this
      ensures Valid() && clock == old(clock) && stuck == old(stuck) && poked == old(poked)
      ensures id !in old(rows) ==> r == NotFound && rows == old(rows)
      ensures id in old(rows) ==>
                r == Ok(old(rows)[id].(status := Cancelled, nextRunAt := None)) && rows == old(rows)[id := r.value]
    {
      if id !in rows {
        return NotFound;
      }
      r := Ok(rows[id].(status := Cancelled, nextRunAt := None));
      rows := rows[id := r.value];
    }

    /** Paused and cancelled jobs refuse; any other becomes due at once. */
    method TriggerNow(id: string, now: Instant) returns (r: Result<Job>)
      requires Valid() && now >= clock
      modifies this
      ensures Valid() && clock == now && stuck == old(stuck) && poked <= old(poked) + {id}
      ensures id !in old(rows) ==> r == NotFound && rows == old(rows)
      ensures id in old(rows) && old(rows)[id].status in {Paused, Cancelled} ==> r == BadRequest && rows == old(rows)
      ensures id in old(rows) && old(rows)[id].status !in {Paused, Cancelled} ==>
                r == Ok(old(rows)[id].(status := Scheduled, nextRunAt := Some(now), pausedAt := None)) &&
                rows == old(rows)[id := r.value]
    {
      clock := now;
      if id !in rows {
        return NotFound;
      }
      if rows[id].status == Paused || rows[id].status == Cancelled {
        return BadRequest;
      }
      r := Ok(rows[id].(status := Scheduled, nextRunAt := Some(now), pausedAt := None));
      rows := rows[id := r.value];
      poked := poked + {id};
    }

    method Save(id: string, job: Job, now: Instant, ghost timed: bool)
      requires Valid() && now >= clock && WellTimed(job, !timed && id in poked)
      requires job.lastRunAt.Some? ==> job.lastRunAt.value <= now
      modifies this
      ensures Valid() && clock == now && rows == old(rows)[id := job] && stuck == old(stuck)
      ensures poked == if timed then old(poked) - {id} else old(poked)
    {
      rows := rows[id := job];
      if timed {
        poked := poked - {id};
      }
      clock := now;
    }
  }

  /** What an edit may change. */
  predicate IsEdit(was: Job, patch: Patch, now: Instant, job: Job) {
    job.trigger == (if patch.trigger.Some? then patch.trigger.value else was.trigger) &&
    job.config == (if patch.config.Some? then patch.config else was.config) &&
    job.status == (if patch.status.Some? then patch.status.value else was.status) &&
    job.pausedAt == (match patch.status
                     case Some(Paused) => Some(now)
                     case Some(Scheduled) => None
                     case Some(Pending) => None
                     case _ => was.pausedAt) &&
    job.nextRunAt == ComputeNextRun(job.trigger, job.config, was.lastRunAt, now) &&
    job.lastRunAt == was.lastRunAt && job.lastError == was.lastError && job.runCount == was.runCount
  }

  method Edit(was: Job, patch: Patch, now: Instant) returns (job: Job)
    ensures IsEdit(was, patch, now, job)
  {
    job := was;
    if patch.trigger.Some? {
      job := job.(trigger := patch.trigger.value);
    }
    if patch.config.Some? {
      job := job.(config := patch.config);
    }
    if patch.status.Some? {
      job := job.(status := patch.status.value);
      if job.status == Paused {
        job := job.(pausedAt := Some(now));
      }
      if job.status == Scheduled || job.status == Pending {
        job := job.(pausedAt := None);
      }
    }
    job := job.(nextRunAt := ComputeNextRun(job.trigger, job.config, job.lastRunAt, now));
  }

  lemma EditIsWellTimed(was: Job, poked: bool, patch: Patch, job: Job, now: Instant)
    requires WellTimed(was, poked) && LegalConfig(patch.config) && IsEdit(was, patch, now, job)
    requires was.lastRunAt.Some? ==> was.lastRunAt.value <= now
    ensures WellTimed(job, false) && job.lastRunAt == was.lastRunAt
  {
    if job.trigger == Schedule && job.lastRunAt.Some? {
      NextIsLater(RuleOf(job.config), job.lastRunAt.value);
    }
  }

  /** A due job that waits after an earlier run starts no earlier than its rule allows. */
  lemma StartsLate(job: Job, poked: bool, at: Instant)
    requires WellTimed(job, poked) && Due(job, at) && job.trigger == Schedule && !poked && job.lastRunAt.Some?
    ensures at >= job.lastRunAt.value + Gap(RuleOf(job.config))
  {
  }

  lemma RunningIsWellTimed(job: Job, poked: bool)
    requires WellTimed(job, poked)
    ensures WellTimed(job.(status := Running), poked) && LegalConfig(job.config)
  {
  }

  predicate Due(job: Job, now: Instant) {
    job.status == Scheduled && job.nextRunAt.Some? && job.nextRunAt.value <= now
  }

  /** An answer of the due-jobs query: due jobs only, soonest first, at most ten, and nobody left
      out for the sake of a later one. */
  predicate DueQuery(rows: map<string, Job>, now: Instant, due: seq<string>) {
    Distinct(due) && |due| <= 10 &&
    (forall i | 0 <= i < |due| :: due[i] in rows && Due(rows[due[i]], now)) &&
    (forall i, j | 0 <= i < j < |due| :: rows[due[i]].nextRunAt.value <= rows[due[j]].nextRunAt.value) &&
    forall id | id in rows && Due(rows[id], now) && id !in due ::
      |due| == 10 && rows[due[9]].nextRunAt.value <= rows[id].nextRunAt.value
  }

  /** Only jobs that are scheduled, not paused or running, and whose time has come are answered, ten at
      most, soonest first; and a job of that kind is left out only for ten that are no later. */
  lemma DueJobsAreAnswered(rows: map<string, Job>, now: Instant, due: seq<string>)
    requires DueQuery(rows, now, due)
    ensures |due| <= 10 && forall i | 0 <= i < |due| ::
              due[i] in rows && rows[due[i]].status == Scheduled && rows[due[i]].nextRunAt.Some? &&
              rows[due[i]].nextRunAt.value <= now
    ensures forall i, j | 0 <= i < j < |due| ::
              due[i] != due[j] && rows[due[i]].nextRunAt.value <= rows[due[j]].nextRunAt.value
    ensures forall id | id in rows && id !in due && rows[id].status == Scheduled && rows[id].nextRunAt.Some? &&
                        rows[id].nextRunAt.value <= now ::
              |due| == 10 && forall i | 0 <= i < 10 :: rows[due[i]].nextRunAt.value <= rows[id].nextRunAt.value
  {
    forall id | id in rows && id !in due && Due(rows[id], now)
      ensures |due| == 10 && forall i | 0 <= i < 10 :: rows[due[i]].nextRunAt.value <= rows[id].nextRunAt.value
    {
      assert forall i | 0 <= i < 9 :: rows[due[i]].nextRunAt.value <= rows[due[9]].nextRunAt.value;
    }
  }

  // ----- runs in flight

  /** Where the promise of a run rejects, if it does. */
  datatype Fault = NoFault | AtCoworker | AtMark | AtCreateRun | AtUpdateRun | AtFinalSave | AtActivity

  /** A suspended `runJob`; once begun it holds its own copy of the job. */
  datatype Flight = Flight(id: string, copy: Option<Job>)

  function FlightId(f: Flight): string { f.id }

  function FlightIds(flights: seq<Flight>): seq<string> {
    Keys(flights, FlightId)
  }

  class JobDispatcher {
    const jobs: JobTable
    var running: set<string>
    var flights: seq<Flight>
    ghost var ends: map<string, Instant>   // when the last run of each job was over, saved or not

    /** The running set is exactly the set of jobs with a run in flight, and no job has two. */
    ghost predicate Valid()
      reads this, jobs
    {
      jobs.Valid() && SingleFlight() && RunningOnlyInFlight() &&
      (forall f | f in flights && f.copy.Some? :: LegalConfig(f.copy.value.config) && f.id in jobs.rows) &&
      forall id | id in ends :: id in jobs.rows && ends[id] <= jobs.clock
    }

    ghost predicate SingleFlight()
      reads this
    {
      Distinct(FlightIds(flights)) && running == Members(FlightIds(flights))
    }

    /** A row says running only while its run is in flight, or when it is stuck. */
    ghost predicate RunningOnlyInFlight()
      reads this, jobs
    {
      forall id | id in jobs.rows && jobs.rows[id].status == Running :: id in jobs.stuck || HasBegun(flights, id)
    }

    constructor (jobs: JobTable)
      requires jobs.Valid() && jobs.rows == map[]
      ensures Valid() && this.jobs == jobs && running == {} && flights == [] && ends == map[]
    {
      this.jobs := jobs;
      running, flights, ends := {}, [], map[];
    }

    /** A job is dispatched exactly when it has no run in flight. */
    method DispatchInternal(id: string) returns (dispatched: bool)
      requires Valid()
      modifies this
      ensures Valid() && ends == old(ends)
      ensures dispatched <==> id !in old(running)
      ensures running == old(running) + {id}
      ensures flights == if dispatched then old(flights) + [Flight(id, None)] else old(flights)
    {
      if id in running {
        return false;
      }
      KeysAppend(flights, Flight(id, None));
      assert forall k | HasBegun(flights, k) :: HasBegun(flights + [Flight(id, None)], k) by {
        forall k | HasBegun(flights, k)
          ensures HasBegun(flights + [Flight(id, None)], k)
        {
          var j :| 0 <= j < |flights| && flights[j].id == k && flights[j].copy.Some?;
          assert (flights + [Flight(id, None)])[j] == flights[j];
        }
      }
      running := running + {id};
      flights := flights + [Flight(id, None)];
      dispatched := true;
    }

    method DispatchNow(id: string, now: Instant) returns (r: Result<bool>)
      requires Valid() && now >= jobs.clock
      modifies this, jobs
      ensures Valid() && jobs.clock == now && jobs.stuck == old(jobs.stuck) && jobs.poked <= old(jobs.poked) + {id}
      ensures ends == old(ends)
      ensures r.Ok? <==> id in old(jobs.rows) && old(jobs.rows)[id].status !in {Paused, Cancelled}
      ensures r.Ok? ==> r.value == (id !in old(running)) && running == old(running) + {id} &&
                        flights == if r.value then old(flights) + [Flight(id, None)] else old(flights)
      ensures r.Ok? ==>
                jobs.rows == old(jobs.rows)[id := old(jobs.rows)[id].(status := Scheduled, nextRunAt := Some(now),
                                                                      pausedAt := None)]
      ensures !r.Ok? ==> running == old(running) && flights == old(flights) && jobs.rows == old(jobs.rows)
    {
      var job := jobs.TriggerNow(id, now);
      match job {
        case NotFound => r := NotFound;
        case BadRequest => r := BadRequest;
        case Ok(_) =>
          var dispatched := DispatchInternal(id);
          r := Ok(dispatched);
      }
    }

    /** `.finally`: the run is over, one way or the other. */
    method Release(i: nat)
      requires Valid() && i < |flights|
      requires flights[i].copy.Some? && flights[i].id in jobs.rows && jobs.rows[flights[i].id].status == Running ==>
                 flights[i].id in jobs.stuck
      modifies this
      ensures Valid() && ends == old(ends)
      ensures flights == old(flights[..i] + flights[i + 1..])
      ensures running == old(running) - {old(flights[i]).id}
    {
      ReleasedFlights(flights, i);
      forall id | HasBegun(flights, id) && (id != flights[i].id || flights[i].copy.None?)
        ensures HasBegun(flights[..i] + flights[i + 1..], id)
      {
        StillBegun(flights, i, id);
      }
      running := running - {flights[i].id};
      flights := flights[..i] + flights[i + 1..];
    }

    /** The run up to the engine session: the job is loaded and marked running. */
    method Begin(i: nat, now: Instant, fault: Fault)
      requires Valid() && i < |flights| && flights[i].copy.None? && now >= jobs.clock
      modifies this, jobs
      ensures Valid() && jobs.clock == now && jobs.poked == old(jobs.poked) && ends == old(ends)
      ensures jobs.stuck <= old(jobs.stuck) + (if fault == AtCreateRun then {old(flights)[i].id} else {})
      ensures var id := old(flights)[i].id;
              var stays := id !in old(jobs.rows) || old(jobs.rows)[id].status in {Paused, Cancelled} ||
                           fault in {AtCoworker, AtMark};
              jobs.rows == (if stays then old(jobs.rows)
                            else old(jobs.rows)[id := old(jobs.rows)[id].(status := Running)]) &&
              if stays || fault == AtCreateRun
              then flights == old(flights[..i] + flights[i + 1..]) && running == old(running) - {id}
              else flights == old(flights)[i := Flight(id, Some(jobs.rows[id]))] && running == old(running)
    {
      hide WellTimed, Distinct, Members, LegalConfig, HasBegun;
      var id := flights[i].id;
      jobs.clock := now;
      if id !in jobs.rows || jobs.rows[id].status == Paused || jobs.rows[id].status == Cancelled ||
         fault == AtCoworker || fault == AtMark {
        Release(i);
        return;
      }
      Mark(i, now, fault);
    }

    /** The job is marked running, and the run recorded. */
    method Mark(i: nat, now: Instant, fault: Fault)
      requires Valid() && i < |flights| && flights[i].copy.None? && now == jobs.clock
      requires flights[i].id in jobs.rows
      modifies this, jobs
      ensures Valid() && jobs.clock == now && jobs.poked == old(jobs.poked) && ends == old(ends)
      ensures jobs.stuck == old(jobs.stuck) + (if fault == AtCreateRun then {old(flights)[i].id} else {})
      ensures var id := old(flights)[i].id;
              jobs.rows == old(jobs.rows)[id := old(jobs.rows)[id].(status := Running)] &&
              if fault == AtCreateRun
              then flights == old(flights[..i] + flights[i + 1..]) && running == old(running) - {id}
              else flights == old(flights)[i := Flight(id, Some(jobs.rows[id]))] && running == old(running)
    {
      hide WellTimed, Distinct, Members, LegalConfig, HasBegun;
      var id := flights[i].id;
      RunningIsWellTimed(jobs.rows[id], id in jobs.poked);
      var job := jobs.rows[id].(status := Running);
      jobs.stuck := jobs.stuck + {id};
      jobs.Save(id, job, now, false);
      if fault == AtCreateRun {
        Release(i);
        return;
      }
      BegunFlights(flights, i, job);
      flights := flights[i := Flight(id, Some(job))];
      jobs.stuck := old(jobs.stuck);
    }

    /** The run's epilogue, from its own copy of the job. The row is left running exactly when
        one of the two saves before the end fails. */
    method Finish(i: nat, error: Option<string>, now: Instant, fault: Fault)
      requires Valid() && i < |flights| && flights[i].copy.Some? && now >= jobs.clock
      modifies this, jobs
      ensures Valid() && jobs.clock == now && ends == old(ends)[old(flights)[i].id := now]
      ensures flights == old(flights[..i] + flights[i + 1..]) && running == old(running) - {old(flights)[i].id}
      ensures var id, unsaved := old(flights)[i].id, fault in {AtUpdateRun, AtFinalSave};
              jobs.stuck == (if unsaved then old(jobs.stuck) + {id} else old(jobs.stuck) - {id}) &&
              jobs.poked == (if unsaved then old(jobs.poked) else old(jobs.poked) - {id})
      ensures var id, copy := old(flights)[i].id, old(flights)[i].copy.value;
              jobs.rows == if fault in {AtUpdateRun, AtFinalSave} then old(jobs.rows)
                           else old(jobs.rows)[id := Settled(copy, error, now)]
    {
      hide Settled, WellTimed, Distinct, Members, LegalConfig, HasBegun, Gap, RuleOf;
      var id, copy := flights[i].id, flights[i].copy.value;
      jobs.clock := now;
      jobs.stuck := jobs.stuck + {id};
      ends := ends[id := now];
      if fault == AtUpdateRun {
        Release(i);
        return;
      }
      var job := Settle(copy, error, now);
      SettledIsWellTimed(copy, error, now);
      if fault != AtFinalSave {
        jobs.Save(id, job, now, true);
      }
      Release(i);
      if fault != AtFinalSave {
        jobs.stuck := old(jobs.stuck) - {id};
      }
    }
  }

  /** The assignments of the epilogue. */
  method Settle(copy: Job, error: Option<string>, now: Instant) returns (job: Job)
    ensures job == Settled(copy, error, now)
  {
    job := copy.(lastRunAt := Some(now), runCount := copy.runCount + 1, lastError := error);
    if Failing(error) {
      job := job.(status := if job.trigger == Schedule then Scheduled else Failed);
    } else if job.trigger == Manual {
      job := job.(status := Completed);
    } else {
      job := job.(status := Scheduled);
    }
    if job.trigger == Schedule {
      job := job.(nextRunAt := NextFromRrule(RuleOf(job.config), now));
      if job.nextRunAt.None? {
        job := job.(status := Completed);
      }
    } else {
      job := job.(nextRunAt := None);
    }
  }

  lemma SettledIsWellTimed(copy: Job, error: Option<string>, now: Instant)
    requires LegalConfig(copy.config)
    ensures var job := Settled(copy, error, now);
            WellTimed(job, false) && job.status != Running && job.lastRunAt == Some(now)
  {
    SettledJob(copy, error, now);
  }

  ghost predicate HasBegun(flights: seq<Flight>, id: string) {
    exists i :: 0 <= i < |flights| && flights[i].id == id && flights[i].copy.Some?
  }

  lemma StillBegun(flights: seq<Flight>, i: nat, id: string)
    requires i < |flights| && HasBegun(flights, id) && (id != flights[i].id || flights[i].copy.None?)
    ensures HasBegun(flights[..i] + flights[i + 1..], id)
  {
    var rest := flights[..i] + flights[i + 1..];
    var j :| 0 <= j < |flights| && flights[j].id == id && flights[j].copy.Some?;
    assert rest[if j < i then j else j - 1] == flights[j];
  }

  lemma ReleasedFlights(flights: seq<Flight>, i: nat)
    requires i < |flights| && Distinct(FlightIds(flights))
    ensures var rest := FlightIds(flights[..i] + flights[i + 1..]);
            Distinct(rest) && Members(rest) == Members(FlightIds(flights)) - {flights[i].id}
  {
    var ids := FlightIds(flights);
    assert FlightIds(flights[..i] + flights[i + 1..]) == ids[..i] + ids[i + 1..];
    RemovedId(ids, i);
  }

  lemma RemovedId(ids: seq<string>, i: nat)
    requires i < |ids| && Distinct(ids)
    ensures Distinct(ids[..i] + ids[i + 1..]) && Members(ids[..i] + ids[i + 1..]) == Members(ids) - {ids[i]}
  {
    assert ids == ids[..i] + [ids[i]] + ids[i + 1..];
  }

  lemma BegunFlights(flights: seq<Flight>, i: nat, copy: Job)
    requires i < |flights| && flights[i].copy.None?
    ensures var begun := flights[i := Flight(flights[i].id, Some(copy))];
            FlightIds(begun) == FlightIds(flights) && HasBegun(begun, flights[i].id) &&
            forall id | HasBegun(flights, id) :: HasBegun(begun, id)
  {
    var begun := flights[i := Flight(flights[i].id, Some(copy))];
    assert begun[i].copy.Some?;
    forall id | HasBegun(flights, id)
      ensures HasBegun(begun, id)
    {
      var j :| 0 <= j < |flights| && flights[j].id == id && flights[j].copy.Some?;
      assert begun[j] == flights[j];
    }
  }

  lemma KeysAppend(flights: seq<Flight>, f: Flight)
    ensures FlightIds(flights + [f]) == FlightIds(flights) + [f.id]
  {
  }
}
