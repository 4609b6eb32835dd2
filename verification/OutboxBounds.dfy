/** How often a handler is called for one job. */
module OutboxBounds {
  import opened Store
  import opened Outbox
  import opened OutboxSafety

  function Max(a: int, b: int): int { if a >= b then a else b }

  /** The number of calls a job with this setting is allowed; a limit below one still allows the first call. */
  function CallLimit(spec: JobSpec): nat { Max(1, spec.maxAttempts) }

  predicate Registered(cfg: Config, s: State, id: JobId) {
    id in s.hist.puts && s.hist.puts[id].name in cfg.jobs
  }

  function Limit(cfg: Config, s: State, id: JobId): nat
    requires Registered(cfg, s, id)
  {
    CallLimit(cfg.jobs[s.hist.puts[id].name])
  }

  predicate Holds(p: Phase, id: JobId) {
    HasLease(p) && p.lease.id == id
  }

  /** A worker that has called the handler and has not settled the job yet. */
  predicate Busy(p: Phase, id: JobId) {
    (p.Running? || p.Deleting? || p.Burying?) && p.lease.id == id
  }

  ghost predicate SomeoneBusy(s: State, id: JobId) {
    exists w :: 0 <= w < |s.workers| && Busy(s.workers[w], id)
  }

  ghost predicate SomeoneHolds(s: State, id: JobId) {
    exists w :: 0 <= w < |s.workers| && Holds(s.workers[w], id)
  }

  /**
    What may cost this job a call beyond its limit: its row is reserved while another worker still has it, the worker
    that has called its handler dies, or the statement that removes it or moves it to failed_jobs does not take effect.
    What happens to other jobs does not count.
  */
  ghost predicate Disturbs(s: State, step: Step, id: JobId) {
    match step
    case Reserve(_, i) => i == id && SomeoneHolds(s, id)
    case ReserveReplyLost(_, i) => i == id && SomeoneHolds(s, id)
    case Crash(w) => w < |s.workers| && Busy(s.workers[w], id)
    case Delete(w, fault) => w < |s.workers| && Holds(s.workers[w], id) && fault
    case Bury(w, beginOk, insertFault, deleteFault, commitOk) =>
      w < |s.workers| && Holds(s.workers[w], id) && !(beginOk && !insertFault && !deleteFault && commitOk)
    case _ => false
  }

  ghost function Disturbance(s: State, step: Step, id: JobId): nat {
    if Disturbs(s, step, id) then 1 else 0
  }

  ghost function Disturbances(cfg: Config, s: State, steps: seq<Step>, id: JobId): nat
    requires ValidRun(cfg, s, steps)
    decreases |steps|
  {
    if steps == [] then 0
    else Disturbance(s, steps[0], id) + Disturbances(cfg, Next(cfg, s, steps[0]), steps[1..], id)
  }

  // ---------------------------------------------------------------- attempts that are spent

  ghost predicate HeldBy(s: State, w: int, id: JobId, a: nat) {
    0 <= w < |s.workers| && Holds(s.workers[w], id) && s.workers[w].lease.attempt == a
  }

  ghost predicate IsHeld(s: State, id: JobId, a: nat) {
    exists w :: HeldBy(s, w, id, a)
  }

  /** The handler has been called under this number, or still may be. */
  ghost predicate Spent(s: State, id: JobId, a: nat) {
    HasRun(s.hist.runs, id, a) || IsHeld(s, id, a)
  }

  /** The number of spent attempts from `low` to `high`. */
  ghost function SpentFrom(s: State, id: JobId, low: nat, high: int): nat
    decreases high
  {
    if high < low then 0 else SpentFrom(s, id, low, high - 1) + (if Spent(s, id, high) then 1 else 0)
  }

  function Latest(s: State, id: JobId): nat {
    CountReservations(s.hist.reservations, id)
  }

  /**
    Beyond the limit every attempt but the latest is paid for by a disturbance, and so is the latest once nobody holds
    it any more and the row is still there.
  */
  ghost predicate Paid(cfg: Config, s: State, id: JobId, d: nat) {
    Registered(cfg, s, id) ==>
      var low, n := Limit(cfg, s, id), Latest(s, id);
      && SpentFrom(s, id, low, n - 1) <= d
      && (id in s.db.jobs && !IsHeld(s, id, n) ==> SpentFrom(s, id, low, n) <= d)
  }

  // ---------------------------------------------------------------- one step

  lemma LatestAfter(cfg: Config, s: State, step: Step, id: JobId)
    requires Enabled(cfg, s, step)
    ensures Latest(Next(cfg, s, step), id) == Latest(s, id) + (if Reserves(step) && step.id == id then 1 else 0)
  {
    if Reserves(step) {
      var ts := Next(cfg, s, step).hist.reservations;
      assert ts[..|ts| - 1] == s.hist.reservations;
    } else {
      HistoryGrows(cfg, s, step);
      if !step.Put? {
        QuietStep(cfg, s, step);
      }
    }
  }

  /** Only a reservation makes a new attempt possible. */
  lemma SpentStays(cfg: Config, s: State, step: Step, id: JobId, a: nat)
    requires Reachable(cfg, s) && Enabled(cfg, s, step)
    requires Reserves(step) && step.id == id ==> a <= Latest(s, id)
    ensures Spent(Next(cfg, s, step), id, a) ==> Spent(s, id, a)
  {
    ReachableInv(cfg, s);
    var t := Next(cfg, s, step);
    HistoryGrows(cfg, s, step);
    if HasRun(t.hist.runs, id, a) {
      var k :| 0 <= k < |t.hist.runs| && t.hist.runs[k].id == id && t.hist.runs[k].attempt == a;
      if k < |s.hist.runs| {
        assert s.hist.runs[k] == t.hist.runs[k];
      } else {
        assert step.Call? && HeldBy(s, step.w, id, a);
      }
    } else if IsHeld(t, id, a) {
      var w :| HeldBy(t, w, id, a);
      HeldBefore(cfg, s, step, id, a, w);
    }
  }

  lemma HeldBefore(cfg: Config, s: State, step: Step, id: JobId, a: nat, w: nat)
    requires Reachable(cfg, s) && Enabled(cfg, s, step) && HeldBy(Next(cfg, s, step), w, id, a)
    requires Reserves(step) && step.id == id ==> a <= Latest(s, id)
    ensures HeldBy(s, w, id, a)
  {
    ReachableInv(cfg, s);
    HistoryGrows(cfg, s, step);
    if OwnStep(step, w) {
      OwnLease(cfg, s, step);
    }
  }

  lemma {:induction false} SpentStaysFrom(cfg: Config, s: State, step: Step, id: JobId, low: nat, high: int)
    requires Reachable(cfg, s) && Enabled(cfg, s, step)
    requires Reserves(step) && step.id == id ==> high <= Latest(s, id)
    ensures SpentFrom(Next(cfg, s, step), id, low, high) <= SpentFrom(s, id, low, high)
    decreases high
  {
    if low <= high {
      SpentStaysFrom(cfg, s, step, id, low, high - 1);
      SpentStays(cfg, s, step, id, high);
    }
  }

  lemma PaidReserve(cfg: Config, s: State, step: Step, id: JobId, d: nat)
    requires Reachable(cfg, s) && Enabled(cfg, s, step) && Reserves(step) && step.id == id && Paid(cfg, s, id, d)
    requires Registered(cfg, s, id)
    ensures Paid(cfg, Next(cfg, s, step), id, d + Disturbance(s, step, id))
  {
    var t, low, n := Next(cfg, s, step), Limit(cfg, s, id), Latest(s, id);
    LatestAfter(cfg, s, step, id);
    SpentStaysFrom(cfg, s, step, id, low, n);
    NotYetRun(cfg, s, step, id);
    HeldIsDisturbed(s, step, id, n);
  }

  lemma HeldIsDisturbed(s: State, step: Step, id: JobId, n: nat)
    requires Reserves(step) && step.id == id
    ensures IsHeld(s, id, n) ==> Disturbs(s, step, id)
  {
    if IsHeld(s, id, n) {
      var w :| HeldBy(s, w, id, n);
    }
  }

  lemma NotYetRun(cfg: Config, s: State, step: Step, id: JobId)
    requires Reachable(cfg, s) && Enabled(cfg, s, step) && Reserves(step) && step.id == id
    ensures !HasRun(Next(cfg, s, step).hist.runs, id, Latest(s, id) + 1)
  {
    ReachableInv(cfg, s);
    FreshAttempt(cfg, s, step.w, id);
  }

  /** The only ways in which the latest attempt is let go of while the row stays. */
  lemma LetGo(cfg: Config, s: State, step: Step, id: JobId, n: nat)
    requires Reachable(cfg, s) && Enabled(cfg, s, step) && Registered(cfg, s, id)
    requires id in Next(cfg, s, step).db.jobs && IsHeld(s, id, n) && !IsHeld(Next(cfg, s, step), id, n)
    ensures Disturbs(s, step, id) || n < Limit(cfg, s, id) || !Spent(Next(cfg, s, step), id, n)
  {
    var w :| HeldBy(s, w, id, n);
    HistoryGrows(cfg, s, step);
    assert !HeldBy(Next(cfg, s, step), w, id, n);
    assert OwnStep(step, w);
    if step.Crash? {
      CrashLetsGo(cfg, s, w, id, n);
    } else if step.HandleErr? {
      ErrorLetsGo(cfg, s, step, id, n);
    } else {
      SettledOrDisturbed(cfg, s, step, id, n);
    }
  }

  lemma CrashLetsGo(cfg: Config, s: State, w: nat, id: JobId, n: nat)
    requires Reachable(cfg, s) && Enabled(cfg, s, Crash(w)) && HeldBy(s, w, id, n)
    requires !IsHeld(Next(cfg, s, Crash(w)), id, n)
    ensures Disturbs(s, Crash(w), id) || !Spent(Next(cfg, s, Crash(w)), id, n)
  {
    ReachableInv(cfg, s);
    assert WorkerOk(cfg, s, s.workers[w]);
  }

  lemma ErrorLetsGo(cfg: Config, s: State, step: Step, id: JobId, n: nat)
    requires Reachable(cfg, s) && Enabled(cfg, s, step) && Registered(cfg, s, id)
    requires step.HandleErr? && HeldBy(s, step.w, id, n) && !HeldBy(Next(cfg, s, step), step.w, id, n)
    ensures n < Limit(cfg, s, id)
  {
    ReachableInv(cfg, s);
    assert WorkerOk(cfg, s, s.workers[step.w]);
  }

  lemma SettledOrDisturbed(cfg: Config, s: State, step: Step, id: JobId, n: nat)
    requires Reachable(cfg, s) && Enabled(cfg, s, step) && Registered(cfg, s, id)
    requires !step.Tick? && !step.Put? && !step.Crash? && !step.HandleErr?
    requires HeldBy(s, step.w, id, n) && !HeldBy(Next(cfg, s, step), step.w, id, n)
    requires id in Next(cfg, s, step).db.jobs
    ensures Disturbs(s, step, id)
  {
    JobsComeOnlyFromPut(cfg, s, step, id);
    if step.Bury? {
      ReachableInv(cfg, s);
      assert WorkerOk(cfg, s, s.workers[step.w]);
      BuryEffect(cfg, s, step);
    }
  }

  lemma JobsComeOnlyFromPut(cfg: Config, s: State, step: Step, id: JobId)
    requires Enabled(cfg, s, step) && id in s.hist.puts
    ensures id in Next(cfg, s, step).db.jobs ==> id in s.db.jobs
  {
    if step.Bury? {
      BuryEffect(cfg, s, step);
    }
  }

  lemma PaidQuiet(cfg: Config, s: State, step: Step, id: JobId, d: nat)
    requires Reachable(cfg, s) && Enabled(cfg, s, step) && !(Reserves(step) && step.id == id) && Paid(cfg, s, id, d)
    requires Registered(cfg, s, id)
    ensures Paid(cfg, Next(cfg, s, step), id, d + Disturbance(s, step, id))
  {
    var t := Next(cfg, s, step);
    var n: int := Latest(s, id);
    HistoryGrows(cfg, s, step);
    LatestAfter(cfg, s, step, id);
    SpentStaysFrom(cfg, s, step, id, Limit(cfg, s, id), n - 1);
    if id in t.db.jobs && !IsHeld(t, id, n) {
      if IsHeld(s, id, n) {
        PaidWhenLetGo(cfg, s, step, id, n);
      } else {
        JobsComeOnlyFromPut(cfg, s, step, id);
        SpentStaysFrom(cfg, s, step, id, Limit(cfg, s, id), n);
      }
    }
  }

  lemma PaidWhenLetGo(cfg: Config, s: State, step: Step, id: JobId, n: nat)
    requires Reachable(cfg, s) && Enabled(cfg, s, step) && !(Reserves(step) && step.id == id) && Registered(cfg, s, id)
    requires id in Next(cfg, s, step).db.jobs && IsHeld(s, id, n) && !IsHeld(Next(cfg, s, step), id, n)
    ensures SpentFrom(Next(cfg, s, step), id, Limit(cfg, s, id), n)
            <= SpentFrom(s, id, Limit(cfg, s, id), n - 1) + Disturbance(s, step, id)
  {
    var t, low := Next(cfg, s, step), Limit(cfg, s, id);
    LetGo(cfg, s, step, id, n);
    SpentStaysFrom(cfg, s, step, id, low, n - 1);
  }

  lemma PaidStep(cfg: Config, s: State, step: Step, id: JobId, d: nat)
    requires Reachable(cfg, s) && Enabled(cfg, s, step) && Paid(cfg, s, id, d)
    ensures Paid(cfg, Next(cfg, s, step), id, d + Disturbance(s, step, id))
  {
    if Reserves(step) && step.id == id {
      assert Registered(cfg, Next(cfg, s, step), id) ==> Registered(cfg, s, id);
      if Registered(cfg, s, id) {
        PaidReserve(cfg, s, step, id, d);
      }
    } else if Registered(cfg, s, id) {
      PaidQuiet(cfg, s, step, id, d);
    } else if Registered(cfg, Next(cfg, s, step), id) {
      NewJob(cfg, s, step, id);
    }
  }

  lemma NewJob(cfg: Config, s: State, step: Step, id: JobId)
    requires Reachable(cfg, s) && Enabled(cfg, s, step) && !Registered(cfg, s, id)
        && Registered(cfg, Next(cfg, s, step), id)
    ensures Paid(cfg, Next(cfg, s, step), id, 0)
  {
    ReachableInv(cfg, s);
    HistoryGrows(cfg, s, step);
    LatestAfter(cfg, s, step, id);
    if !step.Put? {
      QuietStep(cfg, s, step);
    }
    assert s.hist.reservations[..|s.hist.reservations|] == s.hist.reservations;
    NeverReserved(s, id, |s.hist.reservations|);
  }

  // ---------------------------------------------------------------- runs

  lemma {:induction false} PaidRun(cfg: Config, s: State, steps: seq<Step>, id: JobId, d: nat)
    requires Reachable(cfg, s) && Paid(cfg, s, id, d) && ValidRun(cfg, s, steps)
    ensures Paid(cfg, Final(cfg, s, steps), id, d + Disturbances(cfg, s, steps, id))
    decreases |steps|
  {
    if steps != [] {
      ReachableStep(cfg, s, steps[0]);
      PaidStep(cfg, s, steps[0], id, d);
      PaidRun(cfg, Next(cfg, s, steps[0]), steps[1..], id, d + Disturbance(s, steps[0], id));
    }
  }

  lemma ReachableStep(cfg: Config, s: State, step: Step)
    requires Reachable(cfg, s) && Enabled(cfg, s, step)
    ensures Reachable(cfg, Next(cfg, s, step))
  {
    var start :| Reaches(cfg, Init(cfg, start), s);
    ReachesStep(cfg, s, step);
    ReachesTrans(cfg, Init(cfg, start), s, Next(cfg, s, step));
  }

  lemma CallsArePaid(cfg: Config, s: State, id: JobId, d: nat)
    requires Reachable(cfg, s) && Paid(cfg, s, id, d) && Registered(cfg, s, id)
    ensures CountRuns(s.hist.runs, id) <= Limit(cfg, s, id) + d
    ensures CountRuns(s.hist.runs, id) == Limit(cfg, s, id) + d && id in s.db.jobs ==> SomeoneBusy(s, id)
  {
    ReachableInv(cfg, s);
    var n := Latest(s, id);
    CallsAreSpent(s, id, Limit(cfg, s, id));
    if id in s.db.jobs && !SomeoneBusy(s, id) && IsHeld(s, id, n) {
      NotCalledYet(cfg, s, id, n);
    }
  }

  lemma CallsAreSpent(s: State, id: JobId, low: nat)
    requires Reservations(s) && Runs(s) && 1 <= low
    ensures
      var n, calls := Latest(s, id), CountRuns(s.hist.runs, id);
      && calls <= low - 1 + SpentFrom(s, id, low, n)
      && SpentFrom(s, id, low, n) <= SpentFrom(s, id, low, n - 1) + 1
      && (!HasRun(s.hist.runs, id, n) ==> calls <= low - 1 + SpentFrom(s, id, low, n - 1))
  {
    var n: int := Latest(s, id);
    DistinctRuns(s.hist.runs, id);
    CalledWithin(s, id, low, n);
    if !HasRun(s.hist.runs, id, n) {
      CalledWithin(s, id, low, n - 1);
    }
  }

  lemma NotCalledYet(cfg: Config, s: State, id: JobId, n: nat)
    requires Workers(cfg, s) && !SomeoneBusy(s, id) && IsHeld(s, id, n)
    ensures !HasRun(s.hist.runs, id, n)
  {
    var w :| HeldBy(s, w, id, n);
    assert !Busy(s.workers[w], id) && WorkerOk(cfg, s, s.workers[w]);
  }

  /** At most `low - 1` calls were free, and all others are spent attempts. */
  lemma CalledWithin(s: State, id: JobId, low: nat, high: int)
    requires Reservations(s) && Runs(s) && 1 <= low
    requires Latest(s, id) - 1 <= high <= Latest(s, id)
    requires high < Latest(s, id) ==> !HasRun(s.hist.runs, id, Latest(s, id))
    ensures |AttemptsRun(s.hist.runs, id)| <= low - 1 + SpentFrom(s, id, low, high)
  {
    var called := AttemptsRun(s.hist.runs, id);
    forall a | a in called
      ensures 1 <= a <= high && Spent(s, id, a)
    {
      CalledIsReserved(s, id, a);
    }
    CountSpent(s, id, called, low, high);
  }

  lemma {:induction false} CountSpent(s: State, id: JobId, xs: set<nat>, low: nat, high: int)
    requires 1 <= low && forall a | a in xs :: 1 <= a <= high && Spent(s, id, a)
    ensures |xs| <= low - 1 + SpentFrom(s, id, low, high)
    decreases high
  {
    if high < low {
      if high < 0 {
        assert xs == {};
      } else {
        SmallNumbers(xs, high);
      }
    } else if high in xs {
      CountSpent(s, id, xs - {high}, low, high - 1);
    } else {
      CountSpent(s, id, xs, low, high - 1);
    }
  }

  lemma CalledIsReserved(s: State, id: JobId, a: nat)
    requires Reservations(s) && Runs(s) && a in AttemptsRun(s.hist.runs, id)
    ensures 1 <= a <= Latest(s, id) && HasRun(s.hist.runs, id, a)
  {
    AttemptsRunMember(s.hist.runs, id, a);
    var k :| 0 <= k < |s.hist.runs| && s.hist.runs[k].id == id && s.hist.runs[k].attempt == a;
    var i := ReservationOfRun(s, k);
    NumberIsCounted(s, i);
  }

  lemma ReservationOfRun(s: State, k: nat) returns (i: nat)
    requires Runs(s) && k < |s.hist.runs|
    ensures i < |s.hist.reservations| && s.hist.reservations[i].id == s.hist.runs[k].id
    ensures s.hist.reservations[i].attempt == s.hist.runs[k].attempt
  {
    var r := s.hist.runs[k];
    assert RunReserved(s.hist.reservations, r);
    i :| i < |s.hist.reservations| && s.hist.reservations[i].id == r.id && s.hist.reservations[i].attempt == r.attempt
      && s.hist.reservations[i].at <= r.at;
  }

  lemma NumberIsCounted(s: State, i: nat)
    requires Reservations(s) && i < |s.hist.reservations|
    ensures 1 <= s.hist.reservations[i].attempt <= Latest(s, s.hist.reservations[i].id)
  {
    CountMonotone(s.hist.reservations, s.hist.reservations[i].id, i + 1);
  }

  /**
    In every run, a registered job is called at most max(1, MaxAttempts) times, and once more for each disturbance of
    that very job. When the calls are used up and nobody is at it any more, it has been completed or dead-lettered.
  */
  lemma CallsAreLimited(cfg: Config, start: Time, steps: seq<Step>, id: JobId)
    requires ValidRun(cfg, Init(cfg, start), steps) && Registered(cfg, Final(cfg, Init(cfg, start), steps), id)
    ensures
      var s := Final(cfg, Init(cfg, start), steps);
      var most := Limit(cfg, s, id) + Disturbances(cfg, Init(cfg, start), steps, id);
      && CountRuns(s.hist.runs, id) <= most
      && (CountRuns(s.hist.runs, id) == most && !SomeoneBusy(s, id) ==> Completed(s, id) || Buried(s, id))
  {
    ReachesSelf(cfg, Init(cfg, start));
    assert Reaches(cfg, Init(cfg, start), Final(cfg, Init(cfg, start), steps));
    ReachableInv(cfg, Final(cfg, Init(cfg, start), steps));
    PaidRun(cfg, Init(cfg, start), steps, id, 0);
    CallsArePaid(cfg, Final(cfg, Init(cfg, start), steps), id, Disturbances(cfg, Init(cfg, start), steps, id));
  }

  // ---------------------------------------------------------------- the bound is exact

  /** A run from the empty store. `calls` and `lost` are what it has cost job 0, and nobody is at work. */
  ghost predicate Idles(cfg: Config, steps: seq<Step>, name: string, calls: nat, lost: nat) {
    && ValidRun(cfg, Init(cfg, 0), steps) && Disturbances(cfg, Init(cfg, 0), steps, 0) == lost
    && var s := Final(cfg, Init(cfg, 0), steps);
       && Waits(cfg, s, name) && CountRuns(s.hist.runs, 0) == calls && s.db.jobs[0].attempts == calls
       && forall w | 0 <= w < |s.workers| :: s.workers[w] == Idle
  }

  /** Job 0 is still to be done. */
  ghost predicate Waits(cfg: Config, s: State, name: string) {
    && 0 in s.db.jobs && s.db.jobs[0].name == name && s.db.jobs[0].availableAt <= s.now
    && 0 in s.hist.puts && s.hist.puts[0].name == name
    && |s.workers| == cfg.workers > 0
  }

  /** As `Idles`, but worker 0 has just called the handler. */
  ghost predicate Calling(cfg: Config, steps: seq<Step>, name: string, calls: nat, lost: nat) {
    && ValidRun(cfg, Init(cfg, 0), steps) && Disturbances(cfg, Init(cfg, 0), steps, 0) == lost
    && var s := Final(cfg, Init(cfg, 0), steps);
       && Waits(cfg, s, name) && CountRuns(s.hist.runs, 0) == calls && s.db.jobs[0].attempts == calls
       && s.workers[0].Running? && s.workers[0].lease.id == 0 && s.workers[0].lease.name == name
       && s.workers[0].lease.attempt == calls
       && forall w | 1 <= w < |s.workers| :: s.workers[w] == Idle
  }

  lemma {:induction false} Longer(cfg: Config, from: State, steps: seq<Step>, step: Step, id: JobId)
    requires ValidRun(cfg, from, steps) && Enabled(cfg, Final(cfg, from, steps), step)
    ensures ValidRun(cfg, from, steps + [step])
    ensures Final(cfg, from, steps + [step]) == Next(cfg, Final(cfg, from, steps), step)
    ensures Disturbances(cfg, from, steps + [step], id)
            == Disturbances(cfg, from, steps, id) + Disturbance(Final(cfg, from, steps), step, id)
    decreases |steps|
  {
    if steps == [] {
      assert [step][1..] == [];
    } else {
      assert (steps + [step])[1..] == steps[1..] + [step];
      Longer(cfg, Next(cfg, from, steps[0]), steps[1..], step, id);
    }
  }

  lemma FirstPut(cfg: Config, name: string) returns (steps: seq<Step>)
    requires 1 <= cfg.workers && name != ""
    ensures Idles(cfg, steps, name, 0, 0)
  {
    Longer(cfg, Init(cfg, 0), [], Put(0, name, "payload", 0), 0);
    steps := [] + [Put(0, name, "payload", 0)];
  }

  /** The row is reserved as soon as it can be. */
  lemma OneReservation(cfg: Config, steps: seq<Step>, name: string, calls: nat, lost: nat) returns (more: seq<Step>)
    requires Idles(cfg, steps, name, calls, lost)
    ensures ValidRun(cfg, Init(cfg, 0), more) && Disturbances(cfg, Init(cfg, 0), more, 0) == lost
    ensures
      var s := Final(cfg, Init(cfg, 0), more);
      && Waits(cfg, s, name) && CountRuns(s.hist.runs, 0) == calls && s.db.jobs[0].attempts == calls + 1
      && s.workers[0].Held? && s.workers[0].lease.id == 0 && s.workers[0].lease.name == name
      && s.workers[0].lease.attempt == calls + 1
      && forall w | 1 <= w < |s.workers| :: s.workers[w] == Idle
  {
    var s := Final(cfg, Init(cfg, 0), steps);
    var wait := Tick(if s.now < s.db.jobs[0].reservedUntil then s.db.jobs[0].reservedUntil - s.now else 0);
    Longer(cfg, Init(cfg, 0), steps, wait, 0);
    more := steps + [wait];
    Longer(cfg, Init(cfg, 0), more, Ask(0), 0);
    more := more + [Ask(0)];
    Longer(cfg, Init(cfg, 0), more, Step.Reserve(0, 0), 0);
    more := more + [Step.Reserve(0, 0)];
  }

  /** The row is reserved and the handler is called. */
  lemma OneCall(cfg: Config, steps: seq<Step>, name: string, calls: nat, lost: nat) returns (more: seq<Step>)
    requires Idles(cfg, steps, name, calls, lost) && name in cfg.jobs
    ensures Calling(cfg, more, name, calls + 1, lost)
  {
    var leased := OneReservation(cfg, steps, name, calls, lost);
    Longer(cfg, Init(cfg, 0), leased, Call(0), 0);
    more := leased + [Call(0)];
    var rs := Final(cfg, Init(cfg, 0), more).hist.runs;
    assert rs[..|rs| - 1] == Final(cfg, Init(cfg, 0), leased).hist.runs;
  }

  lemma FailedCall(cfg: Config, steps: seq<Step>, name: string, calls: nat, lost: nat) returns (more: seq<Step>)
    requires Calling(cfg, steps, name, calls, lost) && name in cfg.jobs && calls < cfg.jobs[name].maxAttempts
    ensures Idles(cfg, more, name, calls, lost)
  {
    Longer(cfg, Init(cfg, 0), steps, HandleErr(0, "error"), 0);
    more := steps + [HandleErr(0, "error")];
  }

  lemma LostDeletion(cfg: Config, steps: seq<Step>, name: string, calls: nat, lost: nat) returns (more: seq<Step>)
    requires Calling(cfg, steps, name, calls, lost)
    ensures Idles(cfg, more, name, calls, lost + 1)
  {
    Longer(cfg, Init(cfg, 0), steps, HandleOk(0), 0);
    Longer(cfg, Init(cfg, 0), steps + [HandleOk(0)], Step.Delete(0, true), 0);
    more := steps + [HandleOk(0)] + [Step.Delete(0, true)];
  }

  /** First `failed` calls that fail below the limit, then `lost` successful ones whose deletion is lost. */
  lemma {:induction false} ManyCalls(cfg: Config, name: string, failed: nat, lost: nat) returns (steps: seq<Step>)
    requires 1 <= cfg.workers && name in cfg.jobs && name != "" && failed < CallLimit(cfg.jobs[name])
    ensures Idles(cfg, steps, name, failed + lost, lost)
    decreases failed + lost
  {
    if lost > 0 {
      steps := ManyCalls(cfg, name, failed, lost - 1);
      steps := OneCall(cfg, steps, name, failed + lost - 1, lost - 1);
      steps := LostDeletion(cfg, steps, name, failed + lost, lost - 1);
    } else if failed > 0 {
      steps := ManyCalls(cfg, name, failed - 1, 0);
      steps := OneCall(cfg, steps, name, failed - 1, 0);
      steps := FailedCall(cfg, steps, name, failed, 0);
    } else {
      steps := FirstPut(cfg, name);
    }
  }

  /** A job that always succeeds is called any number of times, and is still to be done, when its deletions are lost. */
  lemma LostDeletionsNeverEnd(cfg: Config, name: string, n: nat) returns (s: State)
    requires 1 <= cfg.workers && name in cfg.jobs && name != ""
    ensures Reaches(cfg, Init(cfg, 0), s) && Waits(cfg, s, name)
    ensures CountRuns(s.hist.runs, 0) == n && s.db.jobs[0].attempts == n
  {
    var steps := ManyCalls(cfg, name, 0, n);
    s := Final(cfg, Init(cfg, 0), steps);
  }

  /** `most` bounds the calls of every job of this name in all runs that disturb it at most `d` times. */
  ghost predicate BoundsCalls(cfg: Config, name: string, d: nat, most: nat) {
    forall start, steps, id |
      && ValidRun(cfg, Init(cfg, start), steps) && Disturbances(cfg, Init(cfg, start), steps, id) <= d
      && var s := Final(cfg, Init(cfg, start), steps); id in s.hist.puts && s.hist.puts[id].name == name ::
      CountRuns(Final(cfg, Init(cfg, start), steps).hist.runs, id) <= most
  }

  /** The limit on the calls of a job is exact, for every number of disturbances and for every setting. */
  lemma LimitOnCallsIsExact(cfg: Config, name: string, d: nat, most: nat)
    requires 1 <= cfg.workers && name in cfg.jobs && name != ""
    ensures BoundsCalls(cfg, name, d, most) <==> CallLimit(cfg.jobs[name]) + d <= most
  {
    var limit := CallLimit(cfg.jobs[name]);
    if limit + d <= most {
      forall start, steps, id |
        && ValidRun(cfg, Init(cfg, start), steps) && Disturbances(cfg, Init(cfg, start), steps, id) <= d
        && var s := Final(cfg, Init(cfg, start), steps); id in s.hist.puts && s.hist.puts[id].name == name
        ensures CountRuns(Final(cfg, Init(cfg, start), steps).hist.runs, id) <= most
      {
        CallsAreLimited(cfg, start, steps, id);
      }
    }
    if BoundsCalls(cfg, name, d, most) {
      var steps := ManyCalls(cfg, name, limit - 1, d);
      steps := OneCall(cfg, steps, name, limit - 1 + d, d);
      assert CountRuns(Final(cfg, Init(cfg, 0), steps).hist.runs, 0) <= most;
    }
  }
}
