/** What every reachable state of the outbox satisfies, for any number of workers and any run. */
module OutboxSafety {
  import opened Store
  import opened Outbox

  function CountReservations(rs: seq<Reservation>, id: JobId): nat {
    if rs == [] then 0
    else CountReservations(rs[..|rs| - 1], id) + (if rs[|rs| - 1].id == id then 1 else 0)
  }

  function CountRuns(rs: seq<HandlerRun>, id: JobId): nat {
    if rs == [] then 0
    else CountRuns(rs[..|rs| - 1], id) + (if rs[|rs| - 1].id == id then 1 else 0)
  }

  /** Each row is the job that was put under its id, and its counter is the number of its reservations. */
  ghost predicate Rows(s: State) {
    && (forall id | id in s.hist.puts :: s.hist.puts[id].name != "" && s.hist.puts[id].payload != "")
    && (forall id | id in s.db.jobs ::
          && id in s.hist.puts
          && s.db.jobs[id].name == s.hist.puts[id].name
          && s.db.jobs[id].payload == s.hist.puts[id].payload
          && s.db.jobs[id].availableAt == s.hist.puts[id].availableAt
          && s.db.jobs[id].attempts == CountReservations(s.hist.reservations, id))
  }

  predicate Live(s: State, id: JobId) { id in s.db.jobs }

  predicate Completed(s: State, id: JobId) { id in s.hist.completed }

  predicate Buried(s: State, id: JobId) { id in s.hist.buried }

  /** Every job put is in exactly one place, and failed_jobs lists each buried job once, under its name and payload. */
  ghost predicate Fates(s: State) {
    && (forall id :: id in s.hist.puts <==> Live(s, id) || Completed(s, id) || Buried(s, id))
    && (forall id ::
        !(Live(s, id) && Completed(s, id)) && !(Live(s, id) && Buried(s, id)) && !(Completed(s, id) && Buried(s, id)))
    && s.hist.completed <= s.hist.handled
    && (forall i, j | 0 <= i < j < |s.hist.buried| :: s.hist.buried[i] != s.hist.buried[j])
    && |s.db.failed| == |s.hist.buried|
    && (forall i | 0 <= i < |s.hist.buried| ::
          && s.hist.buried[i] in s.hist.puts
          && s.db.failed[i].name == s.hist.puts[s.hist.buried[i]].name
          && s.db.failed[i].payload == s.hist.puts[s.hist.buried[i]].payload)
  }

  /** Two reservations of one job: the later one begins when the earlier one has ended, under a higher number. */
  predicate InOrder(r: Reservation, q: Reservation) {
    r.id == q.id ==> r.attempt < q.attempt && r.until <= q.at
  }

  ghost predicate Reservations(s: State) {
    var rs := s.hist.reservations;
    && (forall i | 0 <= i < |rs| ::
          && rs[i].id in s.hist.puts
          && s.hist.puts[rs[i].id].availableAt <= rs[i].at <= s.now
          && 1 <= rs[i].attempt == CountReservations(rs[..i + 1], rs[i].id))
    && (forall i, j | 0 <= i < j < |rs| :: InOrder(rs[i], rs[j]))
    && (forall i | 0 <= i < |rs| && rs[i].id in s.db.jobs ::
          && rs[i].attempt <= s.db.jobs[rs[i].id].attempts
          && (rs[i].until <= s.now || rs[i].until == s.db.jobs[rs[i].id].reservedUntil))
  }

  ghost predicate WasReserved(rs: seq<Reservation>, l: Lease) {
    exists i :: 0 <= i < |rs| && rs[i].id == l.id && rs[i].attempt == l.attempt && rs[i].until == l.until
  }

  ghost predicate HasRun(rs: seq<HandlerRun>, id: JobId, attempt: nat) {
    exists k :: 0 <= k < |rs| && rs[k].id == id && rs[k].attempt == attempt
  }

  ghost predicate WorkerOk(cfg: Config, s: State, p: Phase) {
    && (p.Asked? ==> p.asked <= s.now)
    && (HasLease(p) ==>
          && p.lease.id in s.hist.puts
          && p.lease.name == s.hist.puts[p.lease.id].name
          && p.lease.payload == s.hist.puts[p.lease.id].payload
          && p.lease.asked <= s.now
          && p.lease.until == p.lease.asked + cfg.reserveFor
          && WasReserved(s.hist.reservations, p.lease))
    && (p.Held? ==> !HasRun(s.hist.runs, p.lease.id, p.lease.attempt))
    && (p.Running? ==>
        p.lease.name in cfg.jobs && p.started <= s.now && HasRun(s.hist.runs, p.lease.id, p.lease.attempt))
    && (p.Deleting? ==> p.lease.name in cfg.jobs && p.lease.id in s.hist.handled)
    && (p.Burying? ==> p.reason != "")
  }

  predicate DifferentLeases(p: Phase, q: Phase) {
    HasLease(p) && HasLease(q) && p.lease.id == q.lease.id ==> p.lease.attempt != q.lease.attempt
  }

  ghost predicate Workers(cfg: Config, s: State) {
    && |s.workers| == cfg.workers
    && (forall w | 0 <= w < |s.workers| :: WorkerOk(cfg, s, s.workers[w]))
    && (forall v, w | 0 <= v < |s.workers| && 0 <= w < |s.workers| && v != w ::
        DifferentLeases(s.workers[v], s.workers[w]))
  }

  predicate RunOk(s: State, r: HandlerRun) {
    && r.id in s.hist.puts
    && s.hist.puts[r.id].availableAt <= r.at <= s.now
  }

  ghost predicate RunReserved(rs: seq<Reservation>, r: HandlerRun) {
    exists i :: 0 <= i < |rs| && rs[i].id == r.id && rs[i].attempt == r.attempt && rs[i].at <= r.at
  }

  /** Each handler call belongs to a reservation of its own, not before the job is available. */
  ghost predicate Runs(s: State) {
    var rs := s.hist.runs;
    && (forall k | 0 <= k < |rs| :: RunOk(s, rs[k]) && RunReserved(s.hist.reservations, rs[k]))
    && (forall j, k | 0 <= j < k < |rs| :: rs[j].id == rs[k].id ==> rs[j].attempt != rs[k].attempt)
    && (forall id | id in s.hist.handled :: exists k :: 0 <= k < |rs| && rs[k].id == id)
  }

  ghost predicate Inv(cfg: Config, s: State) {
    Rows(s) && Fates(s) && Reservations(s) && Workers(cfg, s) && Runs(s)
  }

  lemma InitInv(cfg: Config, now: Time)
    ensures Inv(cfg, Init(cfg, now))
  {
  }

  predicate Reserves(step: Step) { step.Reserve? || step.ReserveReplyLost? }

  /** Steps other than putting and reserving touch neither the puts nor the reservations, and at most remove a row. */
  lemma QuietStep(cfg: Config, s: State, step: Step)
    requires Enabled(cfg, s, step) && !step.Put? && !Reserves(step)
    ensures
      var t := Next(cfg, s, step);
      && s.now <= t.now && t.hist.puts == s.hist.puts && t.hist.reservations == s.hist.reservations
      && (t.db.jobs == s.db.jobs || ((step.Delete? || step.Bury?)
          && t.db.jobs == s.db.jobs - {s.workers[step.w].lease.id}))
  {
    if step.Bury? {
      BuryEffect(cfg, s, step);
    }
  }

  lemma RowsStep(cfg: Config, s: State, step: Step)
    requires Inv(cfg, s) && Enabled(cfg, s, step)
    ensures Rows(Next(cfg, s, step))
  {
    var t := Next(cfg, s, step);
    if step.Put? {
      PutRows(cfg, s, step);
    } else if step.Reserve? {
      ReservedRows(cfg, s, step.w, step.id, Held(LeaseFor(cfg, s, step.w, step.id)));
    } else if step.ReserveReplyLost? {
      ReservedRows(cfg, s, step.w, step.id, Stopped);
    } else {
      QuietStep(cfg, s, step);
      RowsFrame(s, t);
    }
  }

  lemma RowsFrame(s: State, t: State)
    requires Rows(s) && t.hist.puts == s.hist.puts && t.hist.reservations == s.hist.reservations
    requires forall id | id in t.db.jobs :: id in s.db.jobs && t.db.jobs[id] == s.db.jobs[id]
    ensures Rows(t)
  {
  }

  lemma PutRows(cfg: Config, s: State, step: Step)
    requires Rows(s) && Reservations(s) && Enabled(cfg, s, step) && step.Put?
    ensures Rows(Next(cfg, s, step))
  {
    NeverReserved(s, step.id, |s.hist.reservations|);
    assert s.hist.reservations[..|s.hist.reservations|] == s.hist.reservations;
  }

  lemma ReservedRows(cfg: Config, s: State, w: nat, id: JobId, p: Phase)
    requires Rows(s) && w < |s.workers| && s.workers[w].Asked? && id in s.db.jobs
    ensures Rows(Reserved(cfg, s, w, id, p))
  {
    var t := Reserved(cfg, s, w, id, p);
    assert t.hist.reservations[..|t.hist.reservations| - 1] == s.hist.reservations;
  }

  lemma {:induction false} NeverReserved(s: State, id: JobId, n: nat)
    requires n <= |s.hist.reservations|
    requires forall i | 0 <= i < n :: s.hist.reservations[i].id != id
    ensures CountReservations(s.hist.reservations[..n], id) == 0
  {
    if n > 0 {
      assert s.hist.reservations[..n][..n - 1] == s.hist.reservations[..n - 1];
      NeverReserved(s, id, n - 1);
    }
  }

  /** The dead-letter transaction of this step goes through. */
  predicate BuryMoves(s: State, step: Step)
    requires step.Bury? && step.w < |s.workers| && s.workers[step.w].Burying?
  {
    var p := s.workers[step.w];
    && step.beginOk && !step.insertFault && !step.deleteFault && step.commitOk
    && p.lease.id in s.db.jobs && p.lease.name != "" && p.lease.payload != "" && p.reason != ""
  }

  /** What burying does, read off the dead-letter transaction. */
  lemma BuryEffect(cfg: Config, s: State, step: Step)
    requires Enabled(cfg, s, step) && step.Bury?
    ensures
      var l, reason, t := s.workers[step.w].lease, s.workers[step.w].reason, Next(cfg, s, step);
      var moved := BuryMoves(s, step);
      && t.now == s.now
      && t.workers == s.workers[step.w := if moved then Idle else Stopped]
      && t.db == (if moved then s.db.(jobs := s.db.jobs - {l.id},
          failed := s.db.failed + [FailedJob(l.name, l.payload, reason)]) else s.db)
      && t.hist == (if moved then s.hist.(buried := s.hist.buried + [l.id]) else s.hist)
  {
    DlqMovesOrDoesNothing(s.workers[step.w].lease, s.workers[step.w].reason,
                          step.beginOk, step.insertFault, step.deleteFault, step.commitOk, s.db);
  }

  lemma FatesStep(cfg: Config, s: State, step: Step)
    requires Inv(cfg, s) && Enabled(cfg, s, step)
    ensures Fates(Next(cfg, s, step))
  {
    var t := Next(cfg, s, step);
    match step
    case Bury(w, b, i, d, c) =>
      BuryEffect(cfg, s, step);
      FatesAfterRemoval(cfg, s, t, w);
    case Delete(w, fault) =>
      FatesAfterRemoval(cfg, s, t, w);
    case _ => FatesFrame(s, t);
  }

  lemma FatesFrame(s: State, t: State)
    requires Fates(s)
    requires t.hist.completed == s.hist.completed && t.hist.buried == s.hist.buried && t.db.failed == s.db.failed
    requires s.hist.handled <= t.hist.handled
    requires t.hist.puts.Keys - s.hist.puts.Keys == t.db.jobs.Keys - s.db.jobs.Keys && s.db.jobs.Keys <= t.db.jobs.Keys
    requires s.hist.puts.Keys <= t.hist.puts.Keys && forall id | id in s.hist.puts :: t.hist.puts[id] == s.hist.puts[id]
    ensures Fates(t)
  {
    forall id
      ensures id in t.hist.puts <==> Live(t, id) || Completed(t, id) || Buried(t, id)
      ensures !(Live(t, id) && Completed(t, id)) && !(Live(t, id) && Buried(t, id))
          && !(Completed(t, id) && Buried(t, id))
    {
      assert id in t.hist.puts.Keys - s.hist.puts.Keys <==> id in t.db.jobs.Keys - s.db.jobs.Keys;
      assert id in s.hist.puts <==> Live(s, id) || Completed(s, id) || Buried(s, id);
      assert !(Completed(s, id) && Buried(s, id));
      assert Completed(t, id) == Completed(s, id) && Buried(t, id) == Buried(s, id);
    }
  }

  /** A row goes away together with its move to `completed` or `buried`, or nothing happens at all. */
  lemma FatesAfterRemoval(cfg: Config, s: State, t: State, w: nat)
    requires Rows(s) && Fates(s) && Workers(cfg, s)
    requires w < |s.workers| && (s.workers[w].Deleting? || s.workers[w].Burying?)
    requires
      var l := s.workers[w].lease;
      || (t.db == s.db && t.hist == s.hist)
      || (&& l.id in s.db.jobs && t.db.jobs == s.db.jobs - {l.id}
          && if s.workers[w].Deleting?
             then t.db.failed == s.db.failed && t.hist == s.hist.(completed := s.hist.completed + {l.id})
             else && t.db.failed == s.db.failed + [FailedJob(l.name, l.payload, s.workers[w].reason)]
                  && t.hist == s.hist.(buried := s.hist.buried + [l.id]))
    ensures Fates(t)
  {
    var l := s.workers[w].lease;
    assert WorkerOk(cfg, s, s.workers[w]);
    forall id
      ensures id in t.hist.puts <==> Live(t, id) || Completed(t, id) || Buried(t, id)
      ensures !(Live(t, id) && Completed(t, id)) && !(Live(t, id) && Buried(t, id))
          && !(Completed(t, id) && Buried(t, id))
    {
      assert id in s.hist.puts <==> Live(s, id) || Completed(s, id) || Buried(s, id);
      assert !(Live(s, id) && Completed(s, id)) && !(Live(s, id) && Buried(s, id))
          && !(Completed(s, id) && Buried(s, id));
      if t.hist != s.hist {
        assert Live(s, l.id);
        assert Live(t, id) <==> Live(s, id) && id != l.id;
        assert Completed(t, id) || Buried(t, id) <==> Completed(s, id) || Buried(s, id) || id == l.id;
      }
    }
    if t.hist != s.hist && s.workers[w].Burying? {
      assert Live(s, l.id) && !Buried(s, l.id);
    }
  }

  lemma ReservationsStep(cfg: Config, s: State, step: Step)
    requires Inv(cfg, s) && Enabled(cfg, s, step)
    ensures Reservations(Next(cfg, s, step))
  {
    var t := Next(cfg, s, step);
    if step.Put? {
      PutReservations(cfg, s, step);
    } else if step.Reserve? {
      ReservedReservations(cfg, s, step.w, step.id, Held(LeaseFor(cfg, s, step.w, step.id)));
    } else if step.ReserveReplyLost? {
      ReservedReservations(cfg, s, step.w, step.id, Stopped);
    } else {
      QuietStep(cfg, s, step);
      ReservationsFrame(s, t);
    }
  }

  lemma ReservationsFrame(s: State, t: State)
    requires Reservations(s) && s.now <= t.now && t.hist.puts == s.hist.puts
        && t.hist.reservations == s.hist.reservations
    requires forall id | id in t.db.jobs :: id in s.db.jobs && t.db.jobs[id] == s.db.jobs[id]
    ensures Reservations(t)
  {
  }

  lemma PutReservations(cfg: Config, s: State, step: Step)
    requires Reservations(s) && Enabled(cfg, s, step) && step.Put?
    ensures Reservations(Next(cfg, s, step))
  {
  }

  /** The row predicate of the query is what keeps a new lease behind all earlier ones of the same job. */
  lemma NewLeaseComesLast(s: State, id: JobId, until: Time)
    requires Reservations(s) && id in s.db.jobs && Available(s.db.jobs[id], s.now)
    ensures
      var r := Reservation(id, s.db.jobs[id].attempts + 1, s.now, until);
      forall i | 0 <= i < |s.hist.reservations| :: InOrder(s.hist.reservations[i], r)
  {
  }

  /** Each reservation carries its own number; that of a new one is the next. */
  lemma NumbersStayRight(rs: seq<Reservation>, r: Reservation)
    requires forall i | 0 <= i < |rs| :: 1 <= rs[i].attempt == CountReservations(rs[..i + 1], rs[i].id)
    requires r.attempt == CountReservations(rs, r.id) + 1
    ensures
      var ts := rs + [r];
      forall i | 0 <= i < |ts| :: 1 <= ts[i].attempt == CountReservations(ts[..i + 1], ts[i].id)
  {
    var ts := rs + [r];
    forall i | 0 <= i < |ts|
      ensures 1 <= ts[i].attempt == CountReservations(ts[..i + 1], ts[i].id)
    {
      if i < |rs| {
        assert ts[..i + 1] == rs[..i + 1];
      } else {
        assert ts[..i + 1][..i] == rs;
      }
    }
  }

  lemma ReservedReservations(cfg: Config, s: State, w: nat, id: JobId, p: Phase)
    requires Rows(s) && Reservations(s) && w < |s.workers| && s.workers[w].Asked?
    requires id in s.db.jobs && Available(s.db.jobs[id], s.now)
    ensures Reservations(Reserved(cfg, s, w, id, p))
  {
    var t := Reserved(cfg, s, w, id, p);
    var rs, n := s.hist.reservations, |s.hist.reservations|;
    var r := t.hist.reservations[n];
    assert t.hist.reservations == rs + [r];
    NewLeaseComesLast(s, id, r.until);
    NumbersStayRight(rs, r);
  }

  lemma RunsStep(cfg: Config, s: State, step: Step)
    requires Inv(cfg, s) && Enabled(cfg, s, step)
    ensures Runs(Next(cfg, s, step))
  {
    HistoryGrows(cfg, s, step);
    if step.Call? {
      CallRuns(cfg, s, step);
    } else {
      HandledHaveRun(cfg, s, step);
      RunsFrame(s, Next(cfg, s, step));
    }
  }

  lemma RunsFrame(s: State, t: State)
    requires Runs(s) && s.now <= t.now && s.hist.reservations <= t.hist.reservations && t.hist.runs == s.hist.runs
    requires forall id | id in s.hist.puts :: id in t.hist.puts && t.hist.puts[id] == s.hist.puts[id]
    requires forall id | id in t.hist.handled :: exists k :: 0 <= k < |s.hist.runs| && s.hist.runs[k].id == id
    ensures Runs(t)
  {
    forall k | 0 <= k < |t.hist.runs|
      ensures RunOk(t, t.hist.runs[k]) && RunReserved(t.hist.reservations, t.hist.runs[k])
    {
      RunReservedGrows(s.hist.reservations, t.hist.reservations, s.hist.runs[k]);
    }
  }

  lemma RunReservedGrows(rs: seq<Reservation>, ts: seq<Reservation>, r: HandlerRun)
    requires RunReserved(rs, r) && rs <= ts
    ensures RunReserved(ts, r)
  {
    var i :| 0 <= i < |rs| && rs[i].id == r.id && rs[i].attempt == r.attempt && rs[i].at <= r.at;
    assert ts[i] == rs[i];
  }

  lemma CallRuns(cfg: Config, s: State, step: Step)
    requires Reservations(s) && Workers(cfg, s) && Runs(s) && Enabled(cfg, s, step) && step.Call?
    ensures Runs(Next(cfg, s, step))
  {
    var t := Next(cfg, s, step);
    var l := s.workers[step.w].lease;
    var r := HandlerRun(l.id, l.attempt, s.now);
    assert WorkerOk(cfg, s, s.workers[step.w]);
    LeaseIsReserved(s, l);
    RunsSnoc(s, t, r);
  }

  lemma LeaseIsReserved(s: State, l: Lease)
    requires Reservations(s) && WasReserved(s.hist.reservations, l)
    ensures var r := HandlerRun(l.id, l.attempt, s.now); RunOk(s, r) && RunReserved(s.hist.reservations, r)
  {
    var rs := s.hist.reservations;
    var i :| 0 <= i < |rs| && rs[i].id == l.id && rs[i].attempt == l.attempt && rs[i].until == l.until;
    assert rs[i].at <= s.now;
  }

  lemma RunsSnoc(s: State, t: State, r: HandlerRun)
    requires Runs(s) && RunOk(s, r) && RunReserved(s.hist.reservations, r) && !HasRun(s.hist.runs, r.id, r.attempt)
    requires t.hist == s.hist.(runs := s.hist.runs + [r]) && t.now == s.now
    ensures Runs(t)
  {
    var n := |s.hist.runs|;
    forall k | 0 <= k < |t.hist.runs|
      ensures RunOk(t, t.hist.runs[k]) && RunReserved(t.hist.reservations, t.hist.runs[k])
    {
      assert k < n ==> t.hist.runs[k] == s.hist.runs[k] && RunOk(s, s.hist.runs[k]);
    }
    forall id | id in t.hist.handled
      ensures exists k :: 0 <= k < |t.hist.runs| && t.hist.runs[k].id == id
    {
      var k :| 0 <= k < n && s.hist.runs[k].id == id;
      assert t.hist.runs[k].id == id;
    }
  }

  /** A worker that a step leaves alone stays consistent with the grown history. */
  lemma WorkerFrame(cfg: Config, s: State, t: State, p: Phase)
    requires WorkerOk(cfg, s, p)
    requires s.now <= t.now && s.hist.reservations <= t.hist.reservations && s.hist.handled <= t.hist.handled
    requires forall id | id in s.hist.puts :: id in t.hist.puts && t.hist.puts[id] == s.hist.puts[id]
    requires s.hist.runs <= t.hist.runs
    requires p.Held? ==> !HasRun(t.hist.runs, p.lease.id, p.lease.attempt)
    ensures WorkerOk(cfg, t, p)
  {
    if HasLease(p) {
      var i :| 0 <= i < |s.hist.reservations| && s.hist.reservations[i].id == p.lease.id
               && s.hist.reservations[i].attempt == p.lease.attempt && s.hist.reservations[i].until == p.lease.until;
      assert t.hist.reservations[i] == s.hist.reservations[i];
    }
    if p.Running? {
      var k :| 0 <= k < |s.hist.runs| && s.hist.runs[k].id == p.lease.id && s.hist.runs[k].attempt == p.lease.attempt;
      assert t.hist.runs[k] == s.hist.runs[k];
    }
  }

  predicate OwnStep(step: Step, v: nat) { !step.Tick? && !step.Put? && step.w == v }

  lemma HistoryGrows(cfg: Config, s: State, step: Step)
    requires Enabled(cfg, s, step)
    ensures
      var t := Next(cfg, s, step);
      && s.now <= t.now && s.hist.reservations <= t.hist.reservations && s.hist.runs <= t.hist.runs
      && s.hist.handled <= t.hist.handled && s.hist.completed <= t.hist.completed && s.hist.buried <= t.hist.buried
      && (forall id | id in s.hist.puts :: id in t.hist.puts && t.hist.puts[id] == s.hist.puts[id])
      && (!step.Call? ==> t.hist.runs == s.hist.runs)
      && |t.workers| == |s.workers|
      && (forall v: nat | v < |s.workers| && !OwnStep(step, v) :: t.workers[v] == s.workers[v])
  {
    if step.Bury? {
      BuryEffect(cfg, s, step);
    }
  }

  lemma HandledHaveRun(cfg: Config, s: State, step: Step)
    requires Workers(cfg, s) && Runs(s) && Enabled(cfg, s, step)
    ensures forall id | id in Next(cfg, s, step).hist.handled :: exists k ::
        0 <= k < |s.hist.runs| && s.hist.runs[k].id == id
  {
    if step.HandleOk? {
      assert WorkerOk(cfg, s, s.workers[step.w]);
    } else if step.Bury? {
      BuryEffect(cfg, s, step);
    }
  }

  /** A fresh reservation carries a number no worker holds and no handler call has used. */
  lemma FreshAttempt(cfg: Config, s: State, w: nat, id: JobId)
    requires Inv(cfg, s) && w < |s.workers| && s.workers[w].Asked? && id in s.db.jobs
    ensures
      var l := LeaseFor(cfg, s, w, id);
      && !HasRun(s.hist.runs, l.id, l.attempt)
      && forall v | 0 <= v < |s.workers| :: DifferentLeases(s.workers[v], Held(l))
  {
    var l := LeaseFor(cfg, s, w, id);
    forall k | 0 <= k < |s.hist.runs| && s.hist.runs[k].id == id
      ensures s.hist.runs[k].attempt != l.attempt
    {
      assert RunReserved(s.hist.reservations, s.hist.runs[k]);
    }
    forall v | 0 <= v < |s.workers|
      ensures DifferentLeases(s.workers[v], Held(l))
    {
      assert WorkerOk(cfg, s, s.workers[v]);
    }
  }

  lemma WorkersStep(cfg: Config, s: State, step: Step)
    requires Inv(cfg, s) && Enabled(cfg, s, step)
    ensures Workers(cfg, Next(cfg, s, step))
  {
    var t := Next(cfg, s, step);
    HistoryGrows(cfg, s, step);
    forall v: nat | v < |s.workers|
      ensures WorkerOk(cfg, t, t.workers[v])
    {
      if OwnStep(step, v) {
        OwnPhase(cfg, s, step);
      } else {
        OtherPhase(cfg, s, step, v);
      }
    }
    forall u, v | 0 <= u < |t.workers| && 0 <= v < |t.workers| && u != v
      ensures DifferentLeases(t.workers[u], t.workers[v])
    {
      LeasesStayDifferent(cfg, s, step, u, v);
    }
  }

  lemma OtherPhase(cfg: Config, s: State, step: Step, v: nat)
    requires Inv(cfg, s) && Enabled(cfg, s, step) && v < |s.workers| && !OwnStep(step, v)
    ensures var t := Next(cfg, s, step); v < |t.workers| && WorkerOk(cfg, t, t.workers[v])
  {
    HistoryGrows(cfg, s, step);
    assert WorkerOk(cfg, s, s.workers[v]);
    if step.Call? {
      assert DifferentLeases(s.workers[v], s.workers[step.w]);
    }
    WorkerFrame(cfg, s, Next(cfg, s, step), s.workers[v]);
  }

  /** The step's own worker keeps its lease, loses it, or gets a fresh one. */
  lemma OwnLease(cfg: Config, s: State, step: Step)
    requires Enabled(cfg, s, step) && !step.Tick? && !step.Put?
    ensures
      var p, q := s.workers[step.w], Next(cfg, s, step).workers[step.w];
      || !HasLease(q)
      || (HasLease(p) && q.lease == p.lease)
      || (step.Reserve? && q == Held(LeaseFor(cfg, s, step.w, step.id)))
  {
    if step.Bury? {
      BuryEffect(cfg, s, step);
    }
  }

  lemma LeasesStayDifferent(cfg: Config, s: State, step: Step, u: nat, v: nat)
    requires Inv(cfg, s) && Enabled(cfg, s, step) && u < |s.workers| && v < |s.workers| && u != v
    ensures var t := Next(cfg, s, step); |t.workers| == |s.workers| && DifferentLeases(t.workers[u], t.workers[v])
  {
    HistoryGrows(cfg, s, step);
    assert DifferentLeases(s.workers[u], s.workers[v]);
    if OwnStep(step, u) || OwnStep(step, v) {
      OwnLease(cfg, s, step);
      if step.Reserve? {
        FreshAttempt(cfg, s, step.w, step.id);
      }
    }
  }

  lemma OwnPhase(cfg: Config, s: State, step: Step)
    requires Inv(cfg, s) && Enabled(cfg, s, step) && !step.Tick? && !step.Put?
    ensures WorkerOk(cfg, Next(cfg, s, step), Next(cfg, s, step).workers[step.w])
  {
    var t := Next(cfg, s, step);
    assert WorkerOk(cfg, s, s.workers[step.w]);
    match step
    case Reserve(w, id) =>
      FreshAttempt(cfg, s, w, id);
      var i := |s.hist.reservations|;
      assert t.hist.reservations[i].id == id && t.hist.reservations[i].attempt == t.workers[w].lease.attempt;
    case Call(w) =>
      assert t.hist.runs[|s.hist.runs|].id == s.workers[w].lease.id;
    case Bury(w, b, i, d, c) => BuryEffect(cfg, s, step);
    case _ =>
  }

  lemma StepInv(cfg: Config, s: State, step: Step)
    requires Inv(cfg, s) && Enabled(cfg, s, step)
    ensures Inv(cfg, Next(cfg, s, step))
  {
    RowsStep(cfg, s, step);
    FatesStep(cfg, s, step);
    ReservationsStep(cfg, s, step);
    RunsStep(cfg, s, step);
    WorkersStep(cfg, s, step);
  }

  lemma {:induction false} RunInv(cfg: Config, s: State, steps: seq<Step>)
    requires Inv(cfg, s) && ValidRun(cfg, s, steps)
    ensures Inv(cfg, Final(cfg, s, steps))
    decreases |steps|
  {
    if steps != [] {
      StepInv(cfg, s, steps[0]);
      RunInv(cfg, Next(cfg, s, steps[0]), steps[1..]);
    }
  }

  /** The states of all runs that begin with empty tables. */
  ghost predicate Reachable(cfg: Config, s: State) {
    exists start :: Reaches(cfg, Init(cfg, start), s)
  }

  lemma ReachableInv(cfg: Config, s: State)
    requires Reachable(cfg, s)
    ensures Inv(cfg, s)
  {
    var start :| Reaches(cfg, Init(cfg, start), s);
    var steps :| ValidRun(cfg, Init(cfg, start), steps) && Final(cfg, Init(cfg, start), steps) == s;
    InitInv(cfg, start);
    RunInv(cfg, Init(cfg, start), steps);
  }

  /** A lease is in force for as long as the clock has not reached its end. */
  predicate Unexpired(p: Phase, now: Time) {
    HasLease(p) && now < p.lease.until
  }

  /**
    Mutual exclusion. Two workers never hold unexpired leases on one job, and whoever holds one on a row that is
    still there made the latest reservation of that row.
  */
  lemma AtMostOneUnexpiredLease(cfg: Config, s: State, v: nat, w: nat)
    requires Reachable(cfg, s)
    requires v < |s.workers| && w < |s.workers|
    requires Unexpired(s.workers[v], s.now) && Unexpired(s.workers[w], s.now)
    requires s.workers[v].lease.id == s.workers[w].lease.id
    ensures v == w
    ensures
      var l := s.workers[v].lease;
      l.id in s.db.jobs ==> l.attempt == s.db.jobs[l.id].attempts && l.until == s.db.jobs[l.id].reservedUntil
  {
    ReachableInv(cfg, s);
    var rs := s.hist.reservations;
    var l, m := s.workers[v].lease, s.workers[w].lease;
    assert WorkerOk(cfg, s, s.workers[v]) && WorkerOk(cfg, s, s.workers[w]);
    assert DifferentLeases(s.workers[v], s.workers[w]) || v == w;
    var i :| 0 <= i < |rs| && rs[i].id == l.id && rs[i].attempt == l.attempt && rs[i].until == l.until;
    var j :| 0 <= j < |rs| && rs[j].id == m.id && rs[j].attempt == m.attempt && rs[j].until == m.until;
    assert i < j ==> InOrder(rs[i], rs[j]);
    assert j < i ==> InOrder(rs[j], rs[i]);
    if l.id in s.db.jobs {
      LatestReservation(cfg, s, i);
    }
  }

  /** A reservation of a live row whose end is still ahead is the last one of that row. */
  lemma LatestReservation(cfg: Config, s: State, i: nat)
    requires Inv(cfg, s) && i < |s.hist.reservations|
    requires s.hist.reservations[i].id in s.db.jobs && s.now < s.hist.reservations[i].until
    ensures s.hist.reservations[i].attempt == s.db.jobs[s.hist.reservations[i].id].attempts
  {
    var rs := s.hist.reservations;
    NoneLater(rs, rs[i].id, i + 1, |rs|) by {
      forall j | i < j < |rs|
        ensures rs[j].id != rs[i].id
      {
        assert InOrder(rs[i], rs[j]);
      }
    }
    assert rs[..|rs|] == rs;
  }

  lemma {:induction false} NoneLater(rs: seq<Reservation>, id: JobId, from: nat, n: nat)
    requires from <= n <= |rs|
    requires forall j | from <= j < n :: rs[j].id != id
    ensures CountReservations(rs[..n], id) == CountReservations(rs[..from], id)
    decreases n
  {
    if from < n {
      assert rs[..n][..n - 1] == rs[..n - 1];
      NoneLater(rs, id, from, n - 1);
    }
  }

  /**
    The same over the whole history, lost replies and crashes included: the n-th reservation of a job carries the
    number n, and it begins only when all earlier ones have ended.
  */
  lemma ReservationsNeverOverlap(cfg: Config, s: State, i: nat, j: nat)
    requires Reachable(cfg, s)
    requires i < j < |s.hist.reservations| && s.hist.reservations[i].id == s.hist.reservations[j].id
    ensures s.hist.reservations[i].until <= s.hist.reservations[j].at
    ensures s.hist.reservations[i].attempt < s.hist.reservations[j].attempt
    ensures s.hist.reservations[j].attempt == CountReservations(s.hist.reservations[..j + 1], s.hist.reservations[j].id)
  {
    ReachableInv(cfg, s);
    assert InOrder(s.hist.reservations[i], s.hist.reservations[j]);
  }

  /**
    Conservation. A job that was put is live, completed or buried, never two of these and never none; a completed one
    has had a handler call that returned nil; a buried one occupies exactly one failed row, with its name and payload.
  */
  lemma ExactlyOneFate(cfg: Config, s: State, id: JobId)
    requires Reachable(cfg, s)
    ensures id in s.hist.puts <==> Live(s, id) || Completed(s, id) || Buried(s, id)
    ensures !(Live(s, id) && Completed(s, id)) && !(Live(s, id) && Buried(s, id))
        && !(Completed(s, id) && Buried(s, id))
    ensures Completed(s, id) ==> id in s.hist.handled && exists k :: 0 <= k < |s.hist.runs| && s.hist.runs[k].id == id
    ensures |s.db.failed| == |s.hist.buried|
    ensures Buried(s, id) ==> exists i ::
      && 0 <= i < |s.hist.buried| && s.hist.buried[i] == id
      && s.db.failed[i].name == s.hist.puts[id].name && s.db.failed[i].payload == s.hist.puts[id].payload
      && forall j | 0 <= j < |s.hist.buried| && s.hist.buried[j] == id :: j == i
  {
    ReachableInv(cfg, s);
    if Buried(s, id) {
      var i :| 0 <= i < |s.hist.buried| && s.hist.buried[i] == id;
      assert forall j | 0 <= j < |s.hist.buried| && s.hist.buried[j] == id :: j == i;
    }
  }

  /** A fate is final: what is completed or buried stays so in every continuation, and never comes back as a row. */
  lemma FateIsFinal(cfg: Config, s: State, t: State, id: JobId)
    requires Reachable(cfg, s) && Reaches(cfg, s, t)
    ensures Completed(s, id) ==> Completed(t, id) && !Live(t, id)
    ensures Buried(s, id) ==> Buried(t, id) && !Live(t, id)
  {
    ReachableInv(cfg, s);
    var steps :| ValidRun(cfg, s, steps) && Final(cfg, s, steps) == t;
    RunInv(cfg, s, steps);
    RunGrows(cfg, s, steps);
    assert !(Live(t, id) && Completed(t, id)) && !(Live(t, id) && Buried(t, id));
  }

  lemma {:induction false} RunGrows(cfg: Config, s: State, steps: seq<Step>)
    requires Inv(cfg, s) && ValidRun(cfg, s, steps)
    ensures
      var t := Final(cfg, s, steps);
      s.hist.completed <= t.hist.completed && s.hist.buried <= t.hist.buried
    decreases |steps|
  {
    if steps != [] {
      HistoryGrows(cfg, s, steps[0]);
      StepInv(cfg, s, steps[0]);
      RunGrows(cfg, Next(cfg, s, steps[0]), steps[1..]);
    }
  }

  function AttemptsRun(rs: seq<HandlerRun>, id: JobId): set<nat> {
    if rs == [] then {}
    else AttemptsRun(rs[..|rs| - 1], id) + (if rs[|rs| - 1].id == id then {rs[|rs| - 1].attempt} else {})
  }

  lemma {:induction false} AttemptsRunMember(rs: seq<HandlerRun>, id: JobId, a: nat)
    requires a in AttemptsRun(rs, id)
    ensures exists k :: 0 <= k < |rs| && rs[k].id == id && rs[k].attempt == a
  {
    var n := |rs| - 1;
    if a in AttemptsRun(rs[..n], id) {
      AttemptsRunMember(rs[..n], id, a);
      var k :| 0 <= k < n && rs[..n][k].id == id && rs[..n][k].attempt == a;
      assert rs[k] == rs[..n][k];
    } else {
      assert rs[n].id == id && rs[n].attempt == a;
    }
  }

  lemma {:induction false} DistinctRuns(rs: seq<HandlerRun>, id: JobId)
    requires forall j, k | 0 <= j < k < |rs| :: rs[j].id == rs[k].id ==> rs[j].attempt != rs[k].attempt
    ensures |AttemptsRun(rs, id)| == CountRuns(rs, id)
  {
    if rs != [] {
      var n := |rs| - 1;
      DistinctRuns(rs[..n], id);
      if rs[n].id == id && rs[n].attempt in AttemptsRun(rs[..n], id) {
        AttemptsRunMember(rs[..n], id, rs[n].attempt);
        assert false;
      }
    }
  }

  lemma {:induction false} SmallNumbers(xs: set<nat>, n: nat)
    requires forall x | x in xs :: 1 <= x <= n
    ensures |xs| <= n
  {
    if n == 0 {
      assert xs == {};
    } else {
      SmallNumbers(xs - {n}, n - 1);
    }
  }

  /** A handler is called at most once for each reservation, so never more often than the counter says. */
  lemma RunsWithinAttempts(cfg: Config, s: State, id: JobId)
    requires Reachable(cfg, s)
    ensures CountRuns(s.hist.runs, id) <= CountReservations(s.hist.reservations, id)
    ensures id in s.db.jobs ==> s.db.jobs[id].attempts == CountReservations(s.hist.reservations, id)
  {
    ReachableInv(cfg, s);
    CountedRuns(s, id);
  }

  lemma CountedRuns(s: State, id: JobId)
    requires Reservations(s) && Runs(s)
    ensures CountRuns(s.hist.runs, id) <= CountReservations(s.hist.reservations, id)
  {
    var rs := s.hist.reservations;
    DistinctRuns(s.hist.runs, id);
    forall a | a in AttemptsRun(s.hist.runs, id)
      ensures 1 <= a <= CountReservations(rs, id)
    {
      AttemptsRunMember(s.hist.runs, id, a);
      var k :| 0 <= k < |s.hist.runs| && s.hist.runs[k].id == id && s.hist.runs[k].attempt == a;
      assert RunReserved(rs, s.hist.runs[k]);
      var i :| 0 <= i < |rs| && rs[i].id == id && rs[i].attempt == a;
      CountMonotone(rs, id, i + 1);
    }
    SmallNumbers(AttemptsRun(s.hist.runs, id), CountReservations(rs, id));
  }

  lemma {:induction false} CountMonotone(rs: seq<Reservation>, id: JobId, n: nat)
    requires n <= |rs|
    ensures CountReservations(rs[..n], id) <= CountReservations(rs, id)
  {
    if n < |rs| {
      assert rs[..|rs| - 1][..n] == rs[..n];
      CountMonotone(rs[..|rs| - 1], id, n);
    } else {
      assert rs[..n] == rs;
    }
  }

  /** No handler is called before its job is available, and none without a reservation that is at least as old. */
  lemma NeverBeforeAvailable(cfg: Config, s: State, k: nat)
    requires Reachable(cfg, s) && k < |s.hist.runs|
    ensures s.hist.runs[k].id in s.hist.puts
    ensures s.hist.puts[s.hist.runs[k].id].availableAt <= s.hist.runs[k].at
    ensures RunReserved(s.hist.reservations, s.hist.runs[k])
  {
    ReachableInv(cfg, s);
    assert RunOk(s, s.hist.runs[k]);
  }

  /** What two workers about to settle one live job rely on. */
  lemma SettlersAreSound(cfg: Config, s: State, w: nat)
    requires Reachable(cfg, s) && w < |s.workers| && s.workers[w].Burying? && Live(s, s.workers[w].lease.id)
    ensures var p := s.workers[w]; p.lease.name != "" && p.lease.payload != "" && p.reason != ""
    ensures !Completed(s, s.workers[w].lease.id) && !Buried(s, s.workers[w].lease.id)
  {
    ReachableInv(cfg, s);
    assert WorkerOk(cfg, s, s.workers[w]);
  }

  /**
    The race for a row between a worker whose handler returned nil and one that is about to dead-letter the same job. No
    statement is lost, and still whoever comes second finds no row: the deleting worker carries on, but the
    dead-lettering one takes its insert back and stops with an error. Either way the job has one fate.
  */
  lemma SecondSettlerFindsNoRow(cfg: Config, s: State, v: nat, w: nat)
    requires Reachable(cfg, s) && v < |s.workers| && w < |s.workers|
    requires s.workers[v].Deleting? && s.workers[w].Burying? && s.workers[v].lease.id == s.workers[w].lease.id
    requires s.workers[v].lease.id in s.db.jobs
    ensures
      var id := s.workers[v].lease.id;
      var delete, bury := Step.Delete(v, false), Bury(w, true, false, false, true);
      var a := Next(cfg, Next(cfg, s, delete), bury);
      var b := Next(cfg, Next(cfg, s, bury), delete);
      && Completed(a, id) && !Buried(a, id) && a.db.failed == s.db.failed && a.workers[v].Idle? && a.workers[w].Stopped?
      && Buried(b, id) && !Completed(b, id) && |b.db.failed| == |s.db.failed| + 1 && b.workers[v].Idle?
          && b.workers[w].Idle?
      && a.db.jobs == b.db.jobs == s.db.jobs - {id}
  {
    var delete, bury := Step.Delete(v, false), Bury(w, true, false, false, true);
    SettlersAreSound(cfg, s, w);
    BuryEffect(cfg, Next(cfg, s, delete), bury);
    BuryEffect(cfg, s, bury);
  }

  /** Why a job may be dead-lettered, and what the failed row says about it. */
  predicate SaysWhy(cfg: Config, name: string, reason: string) {
    if name in cfg.jobs then "max attempts exceeded: " <= reason else reason == "unknown job"
  }

  ghost predicate Reasons(cfg: Config, s: State) {
    && (forall i | 0 <= i < |s.db.failed| :: SaysWhy(cfg, s.db.failed[i].name, s.db.failed[i].reason))
    && (forall w | 0 <= w < |s.workers| && s.workers[w].Burying? ::
          && SaysWhy(cfg, s.workers[w].lease.name, s.workers[w].reason)
          && (s.workers[w].lease.name in cfg.jobs ==>
                s.workers[w].lease.attempt >= cfg.jobs[s.workers[w].lease.name].maxAttempts))
  }

  lemma ReasonsStep(cfg: Config, s: State, step: Step)
    requires Reasons(cfg, s) && Enabled(cfg, s, step)
    ensures Reasons(cfg, Next(cfg, s, step))
  {
    if step.Bury? {
      BuryEffect(cfg, s, step);
    }
  }

  lemma {:induction false} ReasonsRun(cfg: Config, s: State, steps: seq<Step>)
    requires Reasons(cfg, s) && ValidRun(cfg, s, steps)
    ensures Reasons(cfg, Final(cfg, s, steps))
    decreases |steps|
  {
    if steps != [] {
      ReasonsStep(cfg, s, steps[0]);
      ReasonsRun(cfg, Next(cfg, s, steps[0]), steps[1..]);
    }
  }

  /**
    A failed row tells why it is there: a job without a handler is an unknown job, and any other one has used up its
    attempts, with the error of the last one appended. Nobody is about to dead-letter a job that has attempts left.
  */
  lemma FailedRowsSayWhy(cfg: Config, s: State)
    requires Reachable(cfg, s)
    ensures Reasons(cfg, s)
  {
    var start :| Reaches(cfg, Init(cfg, start), s);
    var steps :| ValidRun(cfg, Init(cfg, start), steps) && Final(cfg, Init(cfg, start), steps) == s;
    ReasonsRun(cfg, Init(cfg, start), steps);
  }
}
