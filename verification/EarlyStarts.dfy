/** The three ways in which a start by the timer comes too early, each as concrete steps. */
module EarlyStarts {
  import opened OrderedMerge
  import opened Rrule
  import opened Jobs
  import opened Scheduler

  const JOB: string := "job"
  const HOURLY: Rule := Rule(Hourly, 1, None, None, None)
  const EVERY_HOUR: Option<Config> := Some(Config(Some(HOURLY), None))

  /** One hourly job, and nothing in flight. The job counts as disturbed from the start. */
  ghost predicate Idle(s: JobScheduler, job: Job)
    reads s, s.dispatcher, s.dispatcher.jobs
  {
    s.Valid() && !s.ticking && s.disturbed == {JOB} && s.dispatcher.flights == [] && s.dispatcher.running == {} &&
    s.dispatcher.jobs.rows == map[JOB := job] && job.trigger == Schedule && job.config == EVERY_HOUR
  }

  lemma OnlyJobDue(job: Job, now: Instant)
    requires Due(job, now)
    ensures DueQuery(map[JOB := job], now, [JOB])
  {
  }

  lemma OneDispatched(asked: map<string, Job>, now: Instant, ends: map<string, Instant>, disturbed: set<string>)
    requires JOB in asked
    ensures FlightIds([]) == [] && Without([JOB], []) == [JOB] && Members([JOB]) == {JOB}
    ensures [] + Dispatched([JOB]) == [Flight(JOB, None)]
    ensures StartsAt([JOB], now, ends, asked, disturbed) ==
            [Start(JOB, now, EndOf(ends, JOB), Gap(RuleOf(asked[JOB].config)), JOB in disturbed)]
  {
    assert Without([JOB], [])  == [JOB] by {
      WithoutAppend([], JOB, []);
      assert [] + [JOB] == [JOB];
    }
  }

  lemma HourlyGap(job: Job)
    requires job.config == EVERY_HOUR
    ensures Gap(RuleOf(job.config)) == HOUR && LegalConfig(job.config)
    ensures forall t: Instant :: NextFromRrule(RuleOf(job.config), t) == Some(t + HOUR)
  {
  }

  method OneJob() returns (s: JobScheduler, ghost job: Job)
    ensures fresh(s) && fresh(s.dispatcher) && fresh(s.dispatcher.jobs)
    ensures Idle(s, job) && s.starts == [] && s.dispatcher.ends == map[] && s.dispatcher.jobs.clock == 0
    ensures job.status == Scheduled && job.nextRunAt == Some(HOUR) && job.lastRunAt.None?
  {
    var table := new JobTable();
    var d := new JobDispatcher(table);
    s := new JobScheduler(d);
    job := Job(Scheduled, Schedule, EVERY_HOUR, Some(HOUR), None, None, 0, None);
    HourlyGap(job);
    table.Create(JOB, Schedule, EVERY_HOUR, 0);
    s.disturbed := {JOB};
    assert table.rows == map[JOB := job];
  }

  /** The timer starts the job, and the answer comes at once. */
  method Started(s: JobScheduler, now: Instant, ghost job: Job)
    requires Idle(s, job) && now >= s.dispatcher.jobs.clock && Due(job, now)
    modifies s, s.dispatcher, s.dispatcher.jobs
    ensures s.Valid() && !s.ticking && s.disturbed == {JOB} && s.dispatcher.jobs.rows == map[JOB := job]
    ensures s.dispatcher.flights == [Flight(JOB, None)] && s.dispatcher.running == {JOB}
    ensures s.dispatcher.ends == old(s.dispatcher.ends) && s.dispatcher.jobs.clock == now
    ensures s.starts == old(s.starts) + [Start(JOB, now, EndOf(old(s.dispatcher.ends), JOB), HOUR, true)]
  {
    hide DueQuery, Due, StartsAt, Dispatched, Without, Members, FlightIds, Gap, NextFromRrule;
    OnlyJobDue(job, now);
    s.TickBegins([JOB], now);
    OneDispatched(s.asked, now, s.dispatcher.ends, s.disturbed);
    HourlyGap(job);
    s.TickEnds(false, now);
  }

  /** The run that was started begins. */
  method Begun(s: JobScheduler, now: Instant, ghost job: Job)
    requires s.Valid() && s.disturbed == {JOB} && s.dispatcher.jobs.rows == map[JOB := job] && job.status == Scheduled
    requires s.dispatcher.flights == [Flight(JOB, None)] && s.dispatcher.running == {JOB} &&
             s.dispatcher.jobs.clock == now
    modifies s.dispatcher, s.dispatcher.jobs
    ensures s.Valid() && s.dispatcher.flights == [Flight(JOB, Some(job.(status := Running)))]
    ensures s.dispatcher.running == {JOB} && s.dispatcher.jobs.clock == now &&
            s.dispatcher.ends == old(s.dispatcher.ends)
    ensures s.dispatcher.jobs.rows == map[JOB := job.(status := Running)]
  {
    hide WellTimed, HasBegun, GapsKept, Recorded, AnswerInTime, FlightIds, Distinct, Members;
    OneRecord(s.dispatcher.jobs.rows, s.dispatcher.ends, s.dispatcher.jobs.poked, s.disturbed);
    s.dispatcher.Begin(0, now, NoFault);
    OneRecord(s.dispatcher.jobs.rows, s.dispatcher.ends, s.dispatcher.jobs.poked, s.disturbed);
  }

  /** And ends, its final save kept or lost. */
  method Ended(s: JobScheduler, now: Instant, ghost job: Job, fault: Fault)
    requires s.Valid() && s.disturbed == {JOB} && s.dispatcher.jobs.rows == map[JOB := job]
    requires s.dispatcher.flights == [Flight(JOB, Some(job))] && s.dispatcher.running == {JOB}
    requires s.dispatcher.jobs.clock == now && fault in {NoFault, AtFinalSave}
    modifies s.dispatcher, s.dispatcher.jobs
    ensures s.Valid() && s.dispatcher.flights == [] && s.dispatcher.running == {} && s.dispatcher.jobs.clock == now
    ensures s.dispatcher.ends == old(s.dispatcher.ends)[JOB := now]
    ensures s.dispatcher.jobs.rows == map[JOB := if fault == AtFinalSave then job else Settled(job, None, now)]
  {
    hide Settled, WellTimed, HasBegun, GapsKept, Recorded, AnswerInTime, FlightIds, Distinct, Members;
    OneRecord(s.dispatcher.jobs.rows, s.dispatcher.ends, s.dispatcher.jobs.poked, s.disturbed);
    if s.ticking {
      EndsElsewhere(s.dispatcher.ends, JOB, now);
      DisturbedAnswer(s.answer, s.asked, s.askedAt, s.dispatcher.ends, s.disturbed, JOB, s.dispatcher.ends[JOB := now]);
      assert s.disturbed + {JOB} == s.disturbed;
    }
    s.dispatcher.Finish(0, None, now, fault);
    OneRecord(s.dispatcher.jobs.rows, s.dispatcher.ends, s.dispatcher.jobs.poked, s.disturbed);
  }

  method Ran(s: JobScheduler, now: Instant, ghost job: Job, fault: Fault)
    requires s.Valid() && s.disturbed == {JOB} && s.dispatcher.jobs.rows == map[JOB := job] && job.status == Scheduled
    requires s.dispatcher.flights == [Flight(JOB, None)] && s.dispatcher.running == {JOB} &&
             s.dispatcher.jobs.clock == now
    requires fault in {NoFault, AtFinalSave}
    modifies s.dispatcher, s.dispatcher.jobs
    ensures s.Valid() && s.dispatcher.flights == [] && s.dispatcher.running == {} && s.dispatcher.jobs.clock == now
    ensures s.dispatcher.ends == old(s.dispatcher.ends)[JOB := now]
    ensures s.dispatcher.jobs.rows == map[JOB := if fault == AtFinalSave then job.(status := Running)
                                                 else Settled(job.(status := Running), None, now)]
  {
    hide *;
    Begun(s, now, job);
    Ended(s, now, job.(status := Running), fault);
  }

  /** Of the only job, disturbed as it is, nothing need be on record. */
  lemma OneRecord(rows: map<string, Job>, ends: map<string, Instant>, poked: set<string>, disturbed: set<string>)
    ensures rows.Keys == {JOB} && disturbed == {JOB} && poked <= disturbed ==> Recorded(rows, ends, poked, disturbed)
    ensures Recorded(rows, ends, poked, disturbed) ==> poked <= disturbed
  {
  }

  lemma SettledWaits(job: Job, now: Instant)
    requires job.trigger == Schedule && job.config == EVERY_HOUR
    ensures var left := Settled(job, None, now);
            left.status == Scheduled && left.nextRunAt == Some(now + HOUR) && left.lastRunAt == Some(now) &&
            left.trigger == Schedule && left.config == EVERY_HOUR
  {
    HourlyGap(job);
    hide NextFromRrule;
  }

  /** Started by hand, and over again before a query that lists it has been answered: the timer
      starts the job anew in the very same instant. */
  method HandStartEarly() returns (s: JobScheduler)
    ensures fresh(s) && s.Valid() && s.starts != [] && !KeepsGap(s.starts[|s.starts| - 1])
  {
    hide DueQuery, StartsAt, Dispatched, Without, Members, FlightIds, Gap, NextFromRrule, Settled, WellTimed, HasBegun,
      GapsKept, AnswerInTime;
    ghost var job;
    s, job := OneJob();
    HourlyGap(job);
    var r := s.dispatcher.DispatchNow(JOB, 0);
    ghost var poked := s.dispatcher.jobs.rows[JOB];
    OneRecord(s.dispatcher.jobs.rows, s.dispatcher.ends, s.dispatcher.jobs.poked, s.disturbed);
    assert s.dispatcher.jobs.rows == map[JOB := poked];
    OnlyJobDue(poked, 0);
    s.TickBegins([JOB], 0);
    Ran(s, 0, poked, NoFault);
    SettledWaits(poked.(status := Running), 0);
    OneDispatched(s.asked, 0, s.dispatcher.ends, s.disturbed);
    s.TickEnds(false, 0);
  }

  /** Nobody's hand in it: while a first run is still waiting to begin, a second query lists the
      job again; the run is over before the answer comes, and the timer starts another at once. */
  method SlowAnswerStartsEarly() returns (s: JobScheduler)
    ensures fresh(s) && s.Valid() && s.starts != [] && !KeepsGap(s.starts[|s.starts| - 1])
  {
    hide DueQuery, StartsAt, Dispatched, Without, Members, FlightIds, Gap, NextFromRrule, Settled, WellTimed, HasBegun,
      GapsKept, AnswerInTime, Recorded;
    ghost var job;
    s, job := OneJob();
    HourlyGap(job);
    assert Due(job, HOUR);
    Started(s, HOUR, job);
    OnlyJobDue(job, HOUR);
    s.TickBegins([JOB], HOUR);
    Ran(s, HOUR, job, NoFault);
    OneDispatched(s.asked, HOUR, s.dispatcher.ends, s.disturbed);
    s.TickEnds(false, HOUR);
  }

  lemma EditedJob(was: Job, patch: Patch, now: Instant, job: Job)
    requires was.trigger == Schedule && was.config == EVERY_HOUR && was.lastRunAt.Some?
    requires patch == Patch(None, None, Some(Scheduled)) && IsEdit(was, patch, now, job)
    ensures job.status == Scheduled && job.nextRunAt == Some(was.lastRunAt.value + HOUR)
    ensures job.trigger == Schedule && job.config == EVERY_HOUR
  {
    HourlyGap(was);
    hide NextFromRrule;
  }

  /** The second run's final save is lost. The user sees the job hang and puts it back on schedule:
      its next run is counted from the first, and the timer starts it in the same instant. */
  method LostSaveStartsEarly() returns (s: JobScheduler)
    ensures fresh(s) && s.Valid() && s.starts != [] && !KeepsGap(s.starts[|s.starts| - 1])
  {
    hide *;
    ghost var job;
    s, job := OneJob();
    FirstRun(s, job);
    ghost var waiting := Settled(job.(status := Running), None, HOUR);
    SecondRun(s, waiting);
    ThirdStart(s, waiting.(status := Running));
  }

  method FirstRun(s: JobScheduler, ghost job: Job)
    requires Idle(s, job) && s.dispatcher.jobs.clock == 0 && s.dispatcher.ends == map[]
    requires job.status == Scheduled && job.nextRunAt == Some(HOUR)
    modifies s, s.dispatcher, s.dispatcher.jobs
    ensures var waiting := Settled(job.(status := Running), None, HOUR);
            Idle(s, waiting) && waiting.status == Scheduled && waiting.nextRunAt == Some(2 * HOUR) &&
            waiting.lastRunAt == Some(HOUR)
    ensures s.dispatcher.jobs.clock == HOUR && s.dispatcher.ends == map[JOB := HOUR]
  {
    hide Settled, Gap, NextFromRrule, WellTimed, HasBegun, GapsKept, Recorded, AnswerInTime;
    SettledWaits(job.(status := Running), HOUR);
    Started(s, HOUR, job);
    Ran(s, HOUR, job, NoFault);
  }

  method SecondRun(s: JobScheduler, ghost job: Job)
    requires Idle(s, job) && s.dispatcher.jobs.clock == HOUR && s.dispatcher.ends == map[JOB := HOUR]
    requires job.status == Scheduled && job.nextRunAt == Some(2 * HOUR)
    modifies s, s.dispatcher, s.dispatcher.jobs
    ensures Idle(s, job.(status := Running))
    ensures s.dispatcher.jobs.clock == 2 * HOUR && s.dispatcher.ends == map[JOB := 2 * HOUR]
  {
    hide Settled, Gap, NextFromRrule, WellTimed, HasBegun, GapsKept, Recorded, AnswerInTime;
    Started(s, 2 * HOUR, job);
    Ran(s, 2 * HOUR, job, AtFinalSave);
  }

  method ThirdStart(s: JobScheduler, ghost job: Job)
    requires Idle(s, job) && s.dispatcher.jobs.clock == 2 * HOUR && s.dispatcher.ends == map[JOB := 2 * HOUR]
    requires job.lastRunAt == Some(HOUR)
    modifies s, s.dispatcher, s.dispatcher.jobs
    ensures s.Valid() && s.starts != [] && !KeepsGap(s.starts[|s.starts| - 1])
  {
    hide Gap, NextFromRrule, WellTimed, HasBegun, GapsKept, Recorded, AnswerInTime, IsEdit, LegalConfig;
    OneRecord(s.dispatcher.jobs.rows, s.dispatcher.ends, s.dispatcher.jobs.poked, s.disturbed);
    var patch := Patch(None, None, Some(Scheduled));
    NoConfig();
    var r := s.dispatcher.jobs.Update(JOB, patch, 2 * HOUR);
    EditedJob(job, patch, 2 * HOUR, r.value);
    OneRecord(s.dispatcher.jobs.rows, s.dispatcher.ends, s.dispatcher.jobs.poked, s.disturbed);
    Started(s, 2 * HOUR, r.value);
  }

  lemma NoConfig()
    ensures LegalConfig(None)
  {
  }
}
