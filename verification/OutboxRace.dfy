/** When a worker that settles a job finds that its row is gone. */
module OutboxRace {
  import opened Store
  import opened Outbox
  import opened OutboxSafety
  import opened OutboxBounds

  /** In some step the job is reserved while a worker still has it. */
  ghost predicate Overtaken(cfg: Config, s: State, steps: seq<Step>, id: JobId)
    requires ValidRun(cfg, s, steps)
    decreases |steps|
  {
    steps != [] && (Overtakes(s, steps[0], id) || Overtaken(cfg, Next(cfg, s, steps[0]), steps[1..], id))
  }

  ghost predicate Overtakes(s: State, step: Step, id: JobId) {
    Reserves(step) && step.id == id && SomeoneHolds(s, id)
  }

  /** At most one worker has the job, and while it does the row is there. */
  ghost predicate SoleHolder(s: State, id: JobId) {
    && (forall v, w |
          0 <= v < |s.workers| && 0 <= w < |s.workers| && Holds(s.workers[v], id) && Holds(s.workers[w], id) :: v == w)
    && (SomeoneHolds(s, id) ==> id in s.db.jobs)
  }

  lemma SoleHolderStep(cfg: Config, s: State, step: Step, id: JobId)
    requires Enabled(cfg, s, step) && SoleHolder(s, id) && !Overtakes(s, step, id)
    ensures SoleHolder(Next(cfg, s, step), id)
  {
    var t := Next(cfg, s, step);
    HistoryGrows(cfg, s, step);
    forall w: nat | w < |t.workers| && Holds(t.workers[w], id)
      ensures Holds(s.workers[w], id) || (step == Step.Reserve(w, id) && !SomeoneHolds(s, id))
    {
      if OwnStep(step, w) {
        OwnLease(cfg, s, step);
      }
    }
    forall w: nat | w < |t.workers| && Holds(t.workers[w], id)
      ensures id in t.db.jobs
    {
      RowOfHolderStays(cfg, s, step, id, w);
    }
  }

  lemma RowOfHolderStays(cfg: Config, s: State, step: Step, id: JobId, w: nat)
    requires Enabled(cfg, s, step) && SoleHolder(s, id) && !Overtakes(s, step, id)
    requires w < |s.workers| && w < |Next(cfg, s, step).workers| && Holds(Next(cfg, s, step).workers[w], id)
    ensures id in Next(cfg, s, step).db.jobs
  {
    HistoryGrows(cfg, s, step);
    if OwnStep(step, w) {
      OwnLease(cfg, s, step);
    }
    if step.Bury? {
      BuryEffect(cfg, s, step);
    }
  }

  lemma {:induction false} SoleHolderRun(cfg: Config, s: State, steps: seq<Step>, id: JobId)
    requires ValidRun(cfg, s, steps) && SoleHolder(s, id) && !Overtaken(cfg, s, steps, id)
    ensures SoleHolder(Final(cfg, s, steps), id)
    decreases |steps|
  {
    if steps != [] {
      SoleHolderStep(cfg, s, steps[0], id);
      SoleHolderRun(cfg, Next(cfg, s, steps[0]), steps[1..], id);
    }
  }

  /**
    As long as a job has never been reserved while a worker still had it, settling it works whenever no statement is
    lost: a deletion completes it, and a dead-lettering moves its row.
  */
  lemma SettlesUnlessOvertaken(cfg: Config, start: Time, steps: seq<Step>, w: nat)
    requires ValidRun(cfg, Init(cfg, start), steps)
    requires
      var s := Final(cfg, Init(cfg, start), steps);
      && w < |s.workers| && (s.workers[w].Deleting? || s.workers[w].Burying?)
      && !Overtaken(cfg, Init(cfg, start), steps, s.workers[w].lease.id)
    ensures
      var s := Final(cfg, Init(cfg, start), steps);
      var l := s.workers[w].lease;
      var step := if s.workers[w].Deleting? then Step.Delete(w, false) else Bury(w, true, false, false, true);
      var t := Next(cfg, s, step);
      && t.workers[w].Idle? && !Live(t, l.id)
      && if s.workers[w].Deleting? then Completed(t, l.id)
         else Buried(t, l.id) && t.db.failed == s.db.failed + [FailedJob(l.name, l.payload, s.workers[w].reason)]
  {
    var s := Final(cfg, Init(cfg, start), steps);
    assert Reaches(cfg, Init(cfg, start), s);
    SoleHolderRun(cfg, Init(cfg, start), steps, s.workers[w].lease.id);
    assert Holds(s.workers[w], s.workers[w].lease.id);
    if s.workers[w].Burying? {
      SettlersAreSound(cfg, s, w);
      BuryEffect(cfg, s, Bury(w, true, false, false, true));
    }
  }

  // ---------------------------------------------------------------- the race happens

  lemma Then(cfg: Config, s: State, step: Step) returns (t: State)
    requires Reachable(cfg, s) && Enabled(cfg, s, step)
    ensures Reachable(cfg, t) && t == Next(cfg, s, step)
  {
    ReachableStep(cfg, s, step);
    t := Next(cfg, s, step);
  }

  /** The lease of worker 0 runs out, and worker 1 reserves the row that worker 0 still has. */
  lemma SecondLease(cfg: Config, s: State, name: string) returns (t: State)
    requires Reachable(cfg, s) && Waits(cfg, s, name) && 2 <= cfg.workers && s.workers[1] == Idle
    ensures Reachable(cfg, t) && Waits(cfg, t, name) && t.workers[0] == s.workers[0]
    ensures t.workers[1].Held? && t.workers[1].lease.id == 0 && t.workers[1].lease.name == name
    ensures t.workers[1].lease.attempt == s.db.jobs[0].attempts + 1
  {
    t := Then(cfg, s, Tick(if s.now < s.db.jobs[0].reservedUntil then s.db.jobs[0].reservedUntil - s.now else 0));
    t := Then(cfg, t, Ask(1));
    t := Then(cfg, t, Step.Reserve(1, 0));
  }

  /** One worker is about to delete a live job that another one is about to dead-letter. */
  ghost predicate Race(cfg: Config, s: State, v: int, w: int) {
    && Reachable(cfg, s) && 0 <= v < |s.workers| && 0 <= w < |s.workers|
    && s.workers[v].Deleting? && s.workers[w].Burying? && s.workers[v].lease.id == s.workers[w].lease.id
    && s.workers[v].lease.id in s.db.jobs
  }

  lemma RaceHappens(cfg: Config, name: string) returns (s: State)
    requires 2 <= cfg.workers && name in cfg.jobs && name != ""
    ensures Race(cfg, s, 0, 1)
  {
    var calls := CallLimit(cfg.jobs[name]) - 1;
    var steps := ManyCalls(cfg, name, calls, 0);
    steps := OneCall(cfg, steps, name, calls, 0);
    s := Final(cfg, Init(cfg, 0), steps);
    assert Reaches(cfg, Init(cfg, 0), s);
    s := Then(cfg, s, HandleOk(0));
    s := SecondLease(cfg, s, name);
    s := Then(cfg, s, Call(1));
    s := Then(cfg, s, HandleErr(1, "error"));
  }

  lemma RaceNeeds(cfg: Config, s: State, v: int, w: int)
    requires Race(cfg, s, v, w)
    ensures 2 <= cfg.workers && s.workers[v].lease.name in cfg.jobs && s.workers[v].lease.name != ""
  {
    ReachableInv(cfg, s);
    assert WorkerOk(cfg, s, s.workers[v]);
  }

  /** The race needs a second worker and a job that can be handled, and these are enough, however leases are set. */
  lemma RaceHappensIffTwoWorkers(cfg: Config)
    ensures (exists s, v, w :: Race(cfg, s, v, w)) <==>
            2 <= cfg.workers && exists name :: name in cfg.jobs && name != ""
  {
    if s, v, w :| Race(cfg, s, v, w) {
      RaceNeeds(cfg, s, v, w);
    }
    if name :| 2 <= cfg.workers && name in cfg.jobs && name != "" {
      var s := RaceHappens(cfg, name);
    }
  }

  // ---------------------------------------------------------------- a worker stops although nothing is lost

  /** Dead-lettering stops its worker with an error, although none of its statements is lost. */
  ghost predicate StopsInVain(cfg: Config, s: State, w: int) {
    && Reachable(cfg, s) && 0 <= w < |s.workers| && s.workers[w].Burying?
    && Next(cfg, s, Bury(w, true, false, false, true)).workers[w].Stopped?
  }

  lemma {:induction false} LoneWorkerIsNotOvertaken(cfg: Config, s: State, steps: seq<Step>, id: JobId)
    requires ValidRun(cfg, s, steps) && |s.workers| <= 1
    ensures !Overtaken(cfg, s, steps, id)
    decreases |steps|
  {
    if steps != [] {
      HistoryGrows(cfg, s, steps[0]);
      LoneWorkerIsNotOvertaken(cfg, Next(cfg, s, steps[0]), steps[1..], id);
    }
  }

  /** A job without a handler: both workers that have reserved it go on to dead-letter it. */
  lemma StopsOnUnknownJob(cfg: Config, name: string) returns (s: State)
    requires 2 <= cfg.workers && name !in cfg.jobs && name != ""
    ensures StopsInVain(cfg, s, 1)
  {
    var steps := FirstPut(cfg, name);
    steps := OneReservation(cfg, steps, name, 0, 0);
    s := Final(cfg, Init(cfg, 0), steps);
    assert Reaches(cfg, Init(cfg, 0), s);
    s := SecondLease(cfg, s, name);
    s := Then(cfg, s, NotRegistered(0));
    s := Then(cfg, s, NotRegistered(1));
    BuryEffect(cfg, s, Bury(0, true, false, false, true));
    SettlersAreSound(cfg, s, 0);
    s := Then(cfg, s, Bury(0, true, false, false, true));
    BuryEffect(cfg, s, Bury(1, true, false, false, true));
  }

  lemma StopNeedsTwoWorkers(cfg: Config, s: State, w: int)
    requires StopsInVain(cfg, s, w)
    ensures 2 <= cfg.workers
  {
    var start :| Reaches(cfg, Init(cfg, start), s);
    var steps :| ValidRun(cfg, Init(cfg, start), steps) && Final(cfg, Init(cfg, start), steps) == s;
    if cfg.workers <= 1 {
      LoneWorkerIsNotOvertaken(cfg, Init(cfg, start), steps, s.workers[w].lease.id);
      SettlesUnlessOvertaken(cfg, start, steps, w);
      assert false;
    }
  }

  /**
    Exactly with two workers or more there is a run in which no statement is lost by a worker and it stops all the same,
    whatever jobs are registered and however long the leases are.
  */
  lemma StopsInVainIffTwoWorkers(cfg: Config)
    ensures (exists s, w :: StopsInVain(cfg, s, w)) <==> 2 <= cfg.workers
  {
    if s, w :| StopsInVain(cfg, s, w) {
      StopNeedsTwoWorkers(cfg, s, w);
    }
    if 2 <= cfg.workers {
      if "job" in cfg.jobs {
        var s := RaceHappens(cfg, "job");
        SecondSettlerFindsNoRow(cfg, s, 0, 1);
        s := Then(cfg, s, Step.Delete(0, false));
        assert StopsInVain(cfg, s, 1);
      } else {
        var s := StopsOnUnknownJob(cfg, "job");
      }
    }
  }
}
