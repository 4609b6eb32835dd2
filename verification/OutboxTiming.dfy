/** When the length of a lease keeps two handler calls of one job apart in time. */
module OutboxTiming {
  import opened Store
  import opened Outbox
  import opened OutboxSafety

  /**
    The timing assumptions: a handler has returned by the time its ExecutionTimeout is over, so the clock does not
    pass that point while it runs, and it is called at most `delay` after the end of its lease was computed.
  */
  ghost predicate Timely(cfg: Config, delay: nat, s: State, step: Step) {
    match step
    case Tick(d) =>
      forall w | 0 <= w < |s.workers| && s.workers[w].Running? && s.workers[w].lease.name in cfg.jobs ::
        s.now + d <= s.workers[w].started + cfg.jobs[s.workers[w].lease.name].timeout
    case Call(w) => w < |s.workers| && HasLease(s.workers[w]) && s.now <= s.workers[w].lease.asked + delay
    case _ => true
  }

  ghost predicate TimelyRun(cfg: Config, delay: nat, s: State, steps: seq<Step>)
    ensures TimelyRun(cfg, delay, s, steps) ==> ValidRun(cfg, s, steps)
    decreases |steps|
  {
    steps == [] ||
    (Enabled(cfg, s, steps[0]) && Timely(cfg, delay, s, steps[0])
        && TimelyRun(cfg, delay, Next(cfg, s, steps[0]), steps[1..]))
  }

  /** Two workers are inside the handler of one job at the same time. */
  predicate Overlap(s: State, v: nat, w: nat) {
    && v < |s.workers| && w < |s.workers| && v != w
    && s.workers[v].Running? && s.workers[w].Running?
    && s.workers[v].lease.id == s.workers[w].lease.id
  }

  ghost predicate HandlersNeverOverlap(cfg: Config, delay: nat) {
    forall start, steps, v, w :: TimelyRun(cfg, delay, Init(cfg, start), steps)
        ==> !Overlap(Final(cfg, Init(cfg, start), steps), v, w)
  }

  /** The lease outlasts every handler strictly. A single worker needs no lease at all. */
  predicate LeasesLongEnough(cfg: Config, delay: nat) {
    || cfg.workers <= 1
    || forall name | name in cfg.jobs && name != "" :: delay + cfg.jobs[name].timeout < cfg.reserveFor
  }

  ghost predicate OnTime(cfg: Config, delay: nat, s: State) {
    forall w | 0 <= w < |s.workers| && s.workers[w].Running? && s.workers[w].lease.name in cfg.jobs ::
      && s.workers[w].started <= s.workers[w].lease.asked + delay
      && s.now <= s.workers[w].started + cfg.jobs[s.workers[w].lease.name].timeout
  }

  lemma OnTimeStep(cfg: Config, delay: nat, s: State, step: Step)
    requires OnTime(cfg, delay, s) && Enabled(cfg, s, step) && Timely(cfg, delay, s, step)
    ensures OnTime(cfg, delay, Next(cfg, s, step))
  {
    var t := Next(cfg, s, step);
    HistoryGrows(cfg, s, step);
    if step.Bury? {
      BuryEffect(cfg, s, step);
    }
    forall w: nat | w < |t.workers| && t.workers[w].Running? && t.workers[w].lease.name in cfg.jobs
      ensures t.workers[w].started <= t.workers[w].lease.asked + delay
      ensures t.now <= t.workers[w].started + cfg.jobs[t.workers[w].lease.name].timeout
    {
      assert !OwnStep(step, w) ==> t.workers[w] == s.workers[w];
    }
  }

  lemma {:induction false} OnTimeRun(cfg: Config, delay: nat, s: State, steps: seq<Step>)
    requires Inv(cfg, s) && OnTime(cfg, delay, s) && TimelyRun(cfg, delay, s, steps)
    ensures Inv(cfg, Final(cfg, s, steps)) && OnTime(cfg, delay, Final(cfg, s, steps))
    decreases |steps|
  {
    if steps != [] {
      StepInv(cfg, s, steps[0]);
      OnTimeStep(cfg, delay, s, steps[0]);
      OnTimeRun(cfg, delay, Next(cfg, s, steps[0]), steps[1..]);
    }
  }

  lemma LongLeasesSeparateHandlers(cfg: Config, delay: nat, start: Time, steps: seq<Step>, v: nat, w: nat)
    requires LeasesLongEnough(cfg, delay) && TimelyRun(cfg, delay, Init(cfg, start), steps)
    ensures !Overlap(Final(cfg, Init(cfg, start), steps), v, w)
  {
    var s := Final(cfg, Init(cfg, start), steps);
    InitInv(cfg, start);
    OnTimeRun(cfg, delay, Init(cfg, start), steps);
    assert Reaches(cfg, Init(cfg, start), s);
    if Overlap(s, v, w) {
      assert WorkerOk(cfg, s, s.workers[v]) && WorkerOk(cfg, s, s.workers[w]);
      assert s.workers[v].lease.name != "" && s.workers[w].lease.name != "";
      AtMostOneUnexpiredLease(cfg, s, v, w);
    }
  }

  /** One more step at the end of a timely run. */
  lemma {:induction false} Extend(cfg: Config, delay: nat, from: State, steps: seq<Step>, step: Step)
    requires TimelyRun(cfg, delay, from, steps)
    requires var s := Final(cfg, from, steps); Enabled(cfg, s, step) && Timely(cfg, delay, s, step)
    ensures TimelyRun(cfg, delay, from, steps + [step])
    ensures Final(cfg, from, steps + [step]) == Next(cfg, Final(cfg, from, steps), step)
    decreases |steps|
  {
    if steps == [] {
      assert [step][1..] == [] && steps + [step] == [step];
      assert TimelyRun(cfg, delay, Next(cfg, from, step), []);
    } else {
      assert (steps + [step])[1..] == steps[1..] + [step];
      Extend(cfg, delay, Next(cfg, from, steps[0]), steps[1..], step);
    }
  }

  /** A worker uses up its delay and its whole execution time on the only job. */
  lemma FirstHandlerUsesItsTime(cfg: Config, delay: nat, name: string) returns (steps: seq<Step>)
    requires 2 <= cfg.workers && name in cfg.jobs && name != ""
    ensures TimelyRun(cfg, delay, Init(cfg, 0), steps)
    ensures
      var s := Final(cfg, Init(cfg, 0), steps);
      var l := Lease(0, name, "payload", 1, 0, cfg.reserveFor);
      && s.now == delay + cfg.jobs[name].timeout
      && s.db.jobs == map[0 := Job(name, "payload", 1, 0, cfg.reserveFor)]
      && |s.workers| == cfg.workers && s.workers[0] == Running(l, delay) && s.workers[1] == Idle
      && forall w | 1 <= w < |s.workers| :: s.workers[w] == Idle
  {
    var from := Init(cfg, 0);
    steps := [];
    Extend(cfg, delay, from, steps, Put(0, name, "payload", 0)); steps := steps + [Put(0, name, "payload", 0)];
    Extend(cfg, delay, from, steps, Ask(0)); steps := steps + [Ask(0)];
    Extend(cfg, delay, from, steps, Tick(delay)); steps := steps + [Tick(delay)];
    Extend(cfg, delay, from, steps, Step.Reserve(0, 0)); steps := steps + [Step.Reserve(0, 0)];
    Extend(cfg, delay, from, steps, Call(0)); steps := steps + [Call(0)];
    Extend(cfg, delay, from, steps, Tick(cfg.jobs[name].timeout)); steps := steps + [Tick(cfg.jobs[name].timeout)];
  }

  /** If the lease is not strictly longer, a second worker finds the row free at that very moment. */
  lemma ShortLeaseLetsSecondHandlerIn(cfg: Config, delay: nat, name: string) returns (steps: seq<Step>)
    requires 2 <= cfg.workers && name in cfg.jobs && name != "" && cfg.reserveFor <= delay + cfg.jobs[name].timeout
    ensures TimelyRun(cfg, delay, Init(cfg, 0), steps) && Overlap(Final(cfg, Init(cfg, 0), steps), 0, 1)
  {
    var from := Init(cfg, 0);
    steps := FirstHandlerUsesItsTime(cfg, delay, name);
    Extend(cfg, delay, from, steps, Ask(1)); steps := steps + [Ask(1)];
    Extend(cfg, delay, from, steps, Step.Reserve(1, 0)); steps := steps + [Step.Reserve(1, 0)];
    Extend(cfg, delay, from, steps, Call(1)); steps := steps + [Call(1)];
  }

  /**
    The exact condition. Equality of `delay + ExecutionTimeout` and `reserveFor` is not enough: the query takes a row
    whose reserved_until is the current time, at which the first handler may still be running.
  */
  lemma HandlersNeverOverlapIffLeasesLongEnough(cfg: Config, delay: nat)
    ensures HandlersNeverOverlap(cfg, delay) <==> LeasesLongEnough(cfg, delay)
  {
    if LeasesLongEnough(cfg, delay) {
      forall start, steps, v, w | TimelyRun(cfg, delay, Init(cfg, start), steps)
        ensures !Overlap(Final(cfg, Init(cfg, start), steps), v, w)
      {
        LongLeasesSeparateHandlers(cfg, delay, start, steps, v, w);
      }
    } else {
      var name :| name in cfg.jobs && name != "" && cfg.reserveFor <= delay + cfg.jobs[name].timeout;
      var steps := ShortLeaseLetsSecondHandlerIn(cfg, delay, name);
    }
  }
}
