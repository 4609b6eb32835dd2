/**
  The code of one outbox worker among any number of them. It works on the database and the clock; beside them a ghost
  state of the step system is carried along, which shows that everything the code does, together with whatever the
  others do in between, is a run of that system.
*/
module OutboxService {
  import opened Wrappers
  import opened Store
  import opened Transactions
  import opened Outbox
  import OutboxSafety

  datatype ReservedJob = ReservedJob(id: JobId, name: string, payload: string, attempts: nat)

  datatype FindError = ErrNoJobs | ErrQuery | ErrScan

  /** What `findAndProcessJob` returns: nil, an error that wraps ErrNoJobs, or another error. */
  datatype Return = Nil | NothingFound | Error

  /** How many more failed calls a row can take, one more for its removal included. */
  function Remaining(cfg: Config, row: Job): nat {
    1 + (if row.name in cfg.jobs && row.attempts < cfg.jobs[row.name].maxAttempts
         then cfg.jobs[row.name].maxAttempts - row.attempts else 0)
  }

  /** The sum of `Remaining` over all rows. */
  ghost function Budget(cfg: Config, jobs: map<JobId, Job>): nat
    decreases |jobs|
  {
    if jobs == map[] then 0
    else
      var id :| id in jobs;
      Remaining(cfg, jobs[id]) + Budget(cfg, jobs - {id})
  }

  lemma {:induction false} BudgetSplit(cfg: Config, jobs: map<JobId, Job>, id: JobId)
    requires id in jobs
    ensures Budget(cfg, jobs) == Remaining(cfg, jobs[id]) + Budget(cfg, jobs - {id})
    decreases |jobs|
  {
    var k :| k in jobs && Budget(cfg, jobs) == Remaining(cfg, jobs[k]) + Budget(cfg, jobs - {k});
    if k != id {
      assert jobs - {k} - {id} == jobs - {id} - {k};
      BudgetSplit(cfg, jobs - {k}, id);
      BudgetSplit(cfg, jobs - {id}, k);
    }
  }

  /** No row is new, and none has lost attempts or changed its name. */
  predicate Drained(before: map<JobId, Job>, after: map<JobId, Job>) {
    && after.Keys <= before.Keys
    && forall id | id in after :: after[id].name == before[id].name && before[id].attempts <= after[id].attempts
  }

  /** A row is gone, or has an attempt less. */
  predicate Lessened(cfg: Config, before: map<JobId, Job>, after: map<JobId, Job>, id: JobId) {
    id in before && (id !in after || Remaining(cfg, after[id]) < Remaining(cfg, before[id]))
  }

  /** Without new rows the budget never rises, and it falls if and only if some row is gone or has an attempt less. */
  lemma {:induction false} BudgetFalls(cfg: Config, before: map<JobId, Job>, after: map<JobId, Job>)
    requires Drained(before, after)
    ensures Budget(cfg, after) <= Budget(cfg, before)
    ensures Budget(cfg, after) < Budget(cfg, before) <==> exists id :: Lessened(cfg, before, after, id)
    decreases |before|
  {
    if before == map[] {
      assert after == map[];
    } else {
      var k :| k in before;
      BudgetSplit(cfg, before, k);
      BudgetFalls(cfg, before - {k}, after - {k});
      if k in after {
        BudgetSplit(cfg, after, k);
      } else {
        assert after - {k} == after;
        assert Lessened(cfg, before, after, k);
      }
      LessenedElsewhere(cfg, before, after, k);
    }
  }

  lemma LessenedElsewhere(cfg: Config, before: map<JobId, Job>, after: map<JobId, Job>, k: JobId)
    requires k in before
    ensures (exists id :: Lessened(cfg, before, after, id)) <==>
            Lessened(cfg, before, after, k) || exists id :: Lessened(cfg, before - {k}, after - {k}, id)
  {
    if id :| Lessened(cfg, before, after, id) && id != k {
      assert Lessened(cfg, before - {k}, after - {k}, id);
    }
    if id :| Lessened(cfg, before - {k}, after - {k}, id) {
      assert Lessened(cfg, before, after, id);
    }
  }

  lemma BudgetAfterJob(cfg: Config, before: map<JobId, Job>, rows: map<JobId, Job>, leased: map<JobId, Job>,
      after: map<JobId, Job>, id: JobId, until: Time, settled: bool)
    requires Drained(before, rows) && id in rows && leased == rows[id := ReserveRow(rows[id], until)]
    requires Drained(leased, after)
    requires settled && id in after ==>
      rows[id].name in cfg.jobs && rows[id].attempts + 1 < cfg.jobs[rows[id].name].maxAttempts
    ensures Budget(cfg, after) <= Budget(cfg, before)
    ensures settled ==> Budget(cfg, after) < Budget(cfg, before)
  {
    BudgetFalls(cfg, before, after);
    if settled {
      assert Lessened(cfg, before, after, id);
    }
  }

  // ---------------------------------------------------------------- what others do

  /** What may happen between two actions of a worker: the clock moves, other workers act, jobs are put. */
  datatype Environment = Environment(ticks: bool, workers: bool, puts: bool)

  predicate Alone(env: Environment) { !env.workers && !env.puts }

  predicate Foreign(me: nat, env: Environment, step: Step) {
    match step
    case Tick(_) => env.ticks
    case Put(_, _, _, _) => env.puts
    case _ => env.workers && step.w != me
  }

  ghost predicate Meanwhile(cfg: Config, me: nat, env: Environment, s: State, t: State) {
    exists steps :: IsMeanwhile(cfg, me, env, s, steps, t)
  }

  ghost predicate IsMeanwhile(cfg: Config, me: nat, env: Environment, s: State, steps: seq<Step>, t: State) {
    && ValidRun(cfg, s, steps) && Final(cfg, s, steps) == t
    && forall i | 0 <= i < |steps| :: Foreign(me, env, steps[i])
  }

  /** What a worker can rely on whatever others do. */
  ghost predicate Drift(me: nat, env: Environment, s: State, t: State) {
    && s.now <= t.now && (!env.ticks ==> t.now == s.now)
    && |t.workers| == |s.workers| && (me < |s.workers| ==> t.workers[me] == s.workers[me])
    && (!env.puts ==> Drained(s.db.jobs, t.db.jobs))
    && (!env.workers ==> s.db.jobs.Keys <= t.db.jobs.Keys)
    && (WellFormed(s.db.jobs) ==> WellFormed(t.db.jobs))
    && s.hist.runs <= t.hist.runs && s.hist.handled <= t.hist.handled && s.hist.buried <= t.hist.buried
    && (Alone(env) ==> t == s.(now := t.now))
  }

  /** The validators of `CreateJob` let no other row in. */
  predicate WellFormed(jobs: map<JobId, Job>) {
    forall id | id in jobs :: jobs[id].name != "" && jobs[id].payload != ""
  }

  /** What goes wrong in one round of a worker: the query, reading its reply, the deletion, the move to failed_jobs. */
  datatype Faults = Faults(query: bool, scan: bool, delete: bool, dlq: TxFaults)

  /** Some call of the handler of this job under this number has been added. */
  ghost predicate Called(before: seq<HandlerRun>, after: seq<HandlerRun>, id: JobId, attempt: nat) {
    exists k :: |before| <= k < |after| && after[k].id == id && after[k].attempt == attempt
  }

  /** The row under its lease, with one more attempt. */
  function Leased(row: Job, until: Time): Job {
    Job(row.name, row.payload, row.attempts + 1, row.availableAt, until)
  }

  /** What the query replies about a row. */
  predicate IsReserved(job: ReservedJob, row: Job) {
    job.name == row.name && job.payload == row.payload && job.attempts == row.attempts + 1
  }

  /**
    What a reserved job comes to when nobody else acts: `leased` are the rows as reserved, and `answer` is what the
    handler returns, None for nil. A registered job is called once, under the number of the attempt, and an unknown one
    not at all. Nil removes the row, unless that is lost; an error leaves it for later, or moves it to failed_jobs with
    the reason when the attempts are used up; and an unknown job is moved at once.
  */
  ghost predicate JobDone(specs: map<string, JobSpec>, job: ReservedJob, answer: Option<string>, lost: bool,
      leased: map<JobId, Job>, before: State, after: State) {
    var registered := job.name in specs;
    && (if registered then exists t :: after.hist.runs == before.hist.runs + [HandlerRun(job.id, job.attempts, t)]
        else after.hist.runs == before.hist.runs)
    && (if registered && answer.None? then
          && after.db.failed == before.db.failed && after.hist.buried == before.hist.buried
          && (if lost then after.db.jobs == leased && after.hist.completed == before.hist.completed
              else after.db.jobs == leased - {job.id} && after.hist.completed == before.hist.completed + {job.id})
        else if registered && job.attempts < specs[job.name].maxAttempts then
          && after.db.jobs == leased && after.db.failed == before.db.failed
          && after.hist.completed == before.hist.completed && after.hist.buried == before.hist.buried
        else
          && after.db.jobs == leased - {job.id} && after.hist.completed == before.hist.completed
          && after.db.failed == before.db.failed + [FailedJob(job.name, job.payload,
               if registered then "max attempts exceeded: " + answer.value else "unknown job")]
          && after.hist.buried == before.hist.buried + [job.id])
  }

  lemma ForeignStep(cfg: Config, me: nat, env: Environment, s: State, step: Step)
    requires Enabled(cfg, s, step) && Foreign(me, env, step)
    ensures Drift(me, env, s, Next(cfg, s, step))
  {
    if step.Bury? {
      OutboxSafety.BuryEffect(cfg, s, step);
    }
  }

  lemma {:induction false} MeanwhileDrifts(cfg: Config, me: nat, env: Environment, s: State, steps: seq<Step>, t: State)
    requires IsMeanwhile(cfg, me, env, s, steps, t)
    ensures Drift(me, env, s, t)
    decreases |steps|
  {
    if steps != [] {
      ForeignStep(cfg, me, env, s, steps[0]);
      MeanwhileDrifts(cfg, me, env, Next(cfg, s, steps[0]), steps[1..], t);
    }
  }

  lemma AfterMeanwhile(cfg: Config, from: State, me: nat, env: Environment, s: State, t: State)
    requires Reaches(cfg, from, s) && Meanwhile(cfg, me, env, s, t)
    ensures Reaches(cfg, from, t) && Drift(me, env, s, t)
  {
    var steps :| IsMeanwhile(cfg, me, env, s, steps, t);
    MeanwhileDrifts(cfg, me, env, s, steps, t);
    assert Reaches(cfg, s, t);
    ReachesTrans(cfg, from, s, t);
  }

  // ---------------------------------------------------------------- the query

  /** The row `id` is gone or leased until `until`, and no other row has changed. */
  predicate Settled(before: map<JobId, Job>, after: map<JobId, Job>, id: JobId, until: Time) {
    id in before && (after == before - {id} || after == before[id := ReserveRow(before[id], until)])
  }

  /**
    `FindAndReserveJob`: one statement that leases a row the caller cannot choose. It skips the rows that other
    statements under way have locked.
  */
  method FindAndReserveJob(db: Database, now: Time, until: Time, locked: set<JobId>, queryFault: bool, scanFault: bool)
    returns (r: Result<ReservedJob, FindError>, ghost picked: JobId)
    modifies db
    ensures r.Success? || r == Failure(ErrScan) ==>
      && picked in old(db.stored).jobs && picked !in locked && Available(old(db.stored).jobs[picked], now)
      && db.stored == old(db.stored).(jobs := old(db.stored).jobs[picked := ReserveRow(old(db.stored).jobs[picked],
          until)])
    ensures r.Success? ==>
      var row := old(db.stored).jobs[picked];
      r.value == ReservedJob(picked, row.name, row.payload, row.attempts + 1)
    ensures r == Failure(ErrNoJobs) || r == Failure(ErrQuery) ==> db.stored == old(db.stored)
    ensures r == Failure(ErrNoJobs) ==>
      forall id | id in db.stored.jobs && id !in locked :: !Available(db.stored.jobs[id], now)
    ensures r == Failure(ErrScan) ==> scanFault
    ensures r == Failure(ErrQuery) <==> queryFault
  {
    picked := 0;
    if queryFault {
      return Failure(ErrQuery), picked;
    }
    var candidates := set id | id in db.stored.jobs && id !in locked && Available(db.stored.jobs[id], now);
    if candidates == {} {
      assert forall id | id in db.stored.jobs ::
        id !in locked && Available(db.stored.jobs[id], now) ==> id in candidates;
      return Failure(ErrNoJobs), picked;
    }
    var id :| id in candidates;
    var row := ReserveRow(db.stored.jobs[id], until);
    db.stored := db.stored.(jobs := db.stored.jobs[id := row]);
    if scanFault {
      return Failure(ErrScan), id;
    }
    return Success(ReservedJob(id, row.name, row.payload, row.attempts)), id;
  }

  lemma CalledSince(first: seq<HandlerRun>, before: seq<HandlerRun>, after: seq<HandlerRun>, job: ReservedJob)
    requires first <= before
    ensures Called(before, after, job.id, job.attempts) ==> Called(first, after, job.id, job.attempts)
  {
  }

  /** A whole round of a worker that is alone: one row is reserved and comes to what its job comes to. */
  ghost predicate RoundDone(specs: map<string, JobSpec>, job: ReservedJob, answer: Option<string>, lost: bool,
      until: Time, before: State, after: State) {
    && job.id in before.db.jobs && IsReserved(job, before.db.jobs[job.id])
    && JobDone(specs, job, answer, lost, before.db.jobs[job.id := Leased(before.db.jobs[job.id], until)], before, after)
  }

  predicate NewReservation(s: State, t: State, id: JobId) {
    && |t.hist.reservations| == |s.hist.reservations| + 1
    && t.hist.reservations[..|s.hist.reservations|] == s.hist.reservations
    && t.hist.reservations[|s.hist.reservations|].id == id
  }

  /** One row has been reserved and is gone or leased, and no other row has changed. */
  predicate OneReserved(s: State, t: State, id: JobId, until: Time) {
    Settled(s.db.jobs, t.db.jobs, id, until) && NewReservation(s, t, id)
  }

  lemma RoundOfJob(specs: map<string, JobSpec>, job: ReservedJob, answer: Option<string>, lost: bool, until: Time,
      first: State, before: State, after: State)
    requires job.id in first.db.jobs && IsReserved(job, first.db.jobs[job.id])
    requires before.db.jobs == first.db.jobs[job.id := ReserveRow(first.db.jobs[job.id], until)]
    requires JobDone(specs, job, answer, lost, before.db.jobs, before, after) && SameButRows(first, before)
    ensures RoundDone(specs, job, answer, lost, until, first, after)
    ensures Settled(first.db.jobs, after.db.jobs, job.id, until)
  {
    if job.id !in after.db.jobs {
      assert before.db.jobs - {job.id} == first.db.jobs - {job.id};
    }
  }

  /** Nothing but the rows, this worker's lease and the reservations differs; the clock may have moved. */
  predicate SameButRows(s: State, t: State) {
    && t.db.failed == s.db.failed && t.db.messages == s.db.messages
    && t.hist == s.hist.(reservations := t.hist.reservations)
  }

  /** The row has become a failed one, with this reason. */
  predicate Moved(s: State, t: State, job: ReservedJob, reason: string) {
    && job.id in s.db.jobs && t.db.jobs == s.db.jobs - {job.id}
    && t.db.failed == s.db.failed + [FailedJob(job.name, job.payload, reason)]
    && t.hist.buried == s.hist.buried + [job.id] && t.hist.completed == s.hist.completed
  }

  class Service {
    const workers: nat
    const me: nat
    const reserveFor: int
    const db: Database
    var jobs: map<string, JobSpec>
    var now: Time
    ghost var st: State

    function Cfg(): Config
      reads this`jobs
    {
      Config(workers, reserveFor, jobs)
    }

    /** The ghost state describes the database, the clock and the workers. */
    ghost predicate Valid()
      reads this, db
    {
      st.db == db.stored && st.now == now && me < |st.workers| && WellFormed(st.db.jobs)
    }

    ghost predicate Ready()
      reads this, db
    {
      Valid() && st.workers[me] == Idle
    }

    constructor (db: Database, workers: nat, me: nat, reserveFor: int, now: Time)
      requires db.stored == Db(map[], [], map[]) && me < workers
      ensures Ready() && this.db == db && this.workers == workers && this.me == me && this.reserveFor == reserveFor
      ensures this.now == now && jobs == map[] && st == Init(Cfg(), now)
    {
      this.db := db;
      this.workers := workers;
      this.me := me;
      this.reserveFor := reserveFor;
      this.jobs := map[];
      this.now := now;
      this.st := Init(Config(workers, reserveFor, map[]), now);
    }

    /** A name can be registered once; a second attempt is an error and changes nothing. */
    method RegisterJob(name: string, spec: JobSpec) returns (ok: bool)
      requires Ready()
      modifies this`jobs
      ensures ok <==> name !in old(jobs)
      ensures jobs == if ok then old(jobs)[name := spec] else old(jobs)
      ensures Ready()
    {
      if name in jobs {
        return false;
      }
      jobs := jobs[name := spec];
      return true;
    }

    ghost method Advance(from: State, step: Step)
      requires Reaches(Cfg(), from, st) && Enabled(Cfg(), st, step)
      modifies this`st
      ensures st == Next(Cfg(), old(st), step)
      ensures Reaches(Cfg(), from, st)
    {
      ReachesStep(Cfg(), st, step);
      ReachesTrans(Cfg(), from, st, Next(Cfg(), st, step));
      st := Next(Cfg(), st, step);
    }

    /** Whatever the environment does between two actions of this worker. Callers rely on the contract alone. */
    method Interfere(ghost from: State, env: Environment)
      requires Valid() && Reaches(Cfg(), from, st)
      modifies this`now, this`st, db
      ensures Valid() && Reaches(Cfg(), from, st)
      ensures Meanwhile(Cfg(), me, env, old(st), st) && Drift(me, env, old(st), st)
    {
      assert IsMeanwhile(Cfg(), me, env, st, [], st);
      AfterMeanwhile(Cfg(), from, me, env, st, st);
    }

    /**
      `findAndProcessJob`. What the handler would answer and what goes wrong are given; what others do is not determined
      by the code. `lost` tells that the row of a job whose handler returned nil could not be deleted.
    */
    method FindAndProcessJob(env: Environment, answer: Option<string>, f: Faults)
        returns (r: Return, lost: bool, ghost job: ReservedJob)
      requires Ready()
      modifies this`now, this`st, db
      ensures Valid() && Reaches(Cfg(), old(st), st)
      ensures r != Error ==> Ready()
      ensures old(now) <= now && (!env.ticks ==> now == old(now))
      ensures r == Nil ==> (lost <==> job.name in jobs && answer.None? && f.delete)
      ensures lost ==> r == Nil
      ensures r == Nil && job.name in jobs ==> Called(old(st).hist.runs, st.hist.runs, job.id, job.attempts)
      ensures r == Nil && job.name in jobs && answer.None? && !f.delete ==> job.id !in db.stored.jobs
      ensures r == Error && !env.workers ==> f.query || f.scan || !Faultless(f.dlq)
      ensures r == Nil && !env.puts ==>
        && Budget(Cfg(), db.stored.jobs) <= Budget(Cfg(), old(db.stored).jobs)
        && (!lost ==> Budget(Cfg(), db.stored.jobs) < Budget(Cfg(), old(db.stored).jobs))
      ensures r == Nil && Alone(env) ==>
        && RoundDone(jobs, job, answer, lost, old(now) + reserveFor, old(st), st)
        && OneReserved(old(st), st, job.id, old(now) + reserveFor)
        && (!env.ticks ==> Available(old(st).db.jobs[job.id], now))
      ensures r == NothingFound && Alone(env) ==>
        st == old(st).(now := now) && forall id | id in db.stored.jobs :: !Available(db.stored.jobs[id], now)
    {
      ghost var s0, until := st, now + reserveFor;
      ReachesSelf(Cfg(), s0);
      var found;
      ghost var picked, rows;
      found, picked, rows := AskAndReserve(s0, env, f);
      lost, job := false, ReservedJob(picked, "", "", 0);
      match found
      case Failure(ErrNoJobs) => r := NothingFound;
      case Failure(_) => r := Error;
      case Success(reserved) =>
        job := reserved;
        r, lost := ProcessReserved(s0, rows, until, reserved, env, answer, f);
    }

    /** The rest of the round, seen from its start: `rows` are the rows that the query found. */
    method ProcessReserved(ghost s0: State, ghost rows: map<JobId, Job>, ghost until: Time, job: ReservedJob,
                           env: Environment, answer: Option<string>, f: Faults) returns (r: Return, lost: bool)
      requires Valid() && Reaches(Cfg(), s0, st) && st.workers[me].Held?
      requires var l := st.workers[me].lease; job == ReservedJob(l.id, l.name, l.payload, l.attempt)
      requires job.name != "" && job.payload != "" && s0.hist.runs <= st.hist.runs
      requires job.id in rows && IsReserved(job, rows[job.id])
      requires st.db.jobs == rows[job.id := ReserveRow(rows[job.id], until)]
      requires !env.puts ==> Drained(s0.db.jobs, rows)
      requires Alone(env) ==> rows == s0.db.jobs && SameButRows(s0, st) && NewReservation(s0, st, job.id)
      modifies this`now, this`st, db
      ensures Valid() && Reaches(Cfg(), s0, st)
      ensures r == Nil || r == Error
      ensures r == Nil ==> Ready()
      ensures old(now) <= now && (!env.ticks ==> now == old(now))
      ensures r == Nil ==> (lost <==> job.name in jobs && answer.None? && f.delete)
      ensures lost ==> r == Nil
      ensures job.name in jobs ==> Called(s0.hist.runs, st.hist.runs, job.id, job.attempts)
      ensures r == Nil && job.name in jobs && answer.None? && !f.delete ==> job.id !in db.stored.jobs
      ensures r == Error && !env.workers ==> !Faultless(f.dlq)
      ensures r == Nil && !env.puts ==>
        && Budget(Cfg(), db.stored.jobs) <= Budget(Cfg(), s0.db.jobs)
        && (!lost ==> Budget(Cfg(), db.stored.jobs) < Budget(Cfg(), s0.db.jobs))
      ensures r == Nil && Alone(env) ==>
        RoundDone(jobs, job, answer, lost, until, s0, st) && OneReserved(s0, st, job.id, until)
    {
      ghost var leased, mid := db.stored.jobs, st;
      r, lost := Execute(s0, job, env, answer, f);
      CalledSince(s0.hist.runs, mid.hist.runs, st.hist.runs, job);
      if r == Nil && Alone(env) {
        RoundOfJob(jobs, job, answer, lost, until, s0, mid, st);
      }
      if r == Nil && !env.puts {
        BudgetAfterJob(Cfg(), s0.db.jobs, rows, leased, db.stored.jobs, job.id, until, !lost);
      }
    }

    /** The end of the lease is computed, and some time later the query runs on the rows there are then. */
    method AskAndReserve(ghost from: State, env: Environment, f: Faults)
        returns (found: Result<ReservedJob, FindError>, ghost picked: JobId, ghost rows: map<JobId, Job>)
      requires Ready() && Reaches(Cfg(), from, st)
      modifies this`now, this`st, db
      ensures Valid() && Reaches(Cfg(), from, st)
      ensures old(now) <= now && (!env.ticks ==> now == old(now))
      ensures (!env.puts ==> Drained(old(db.stored).jobs, rows)) && (Alone(env) ==> rows == old(db.stored).jobs)
      ensures old(st).hist.runs <= st.hist.runs
      ensures found == Failure(ErrQuery) <==> f.query
      ensures found == Failure(ErrScan) ==> f.scan
      ensures found == Failure(ErrNoJobs) ==>
        && Ready() && db.stored.jobs == rows
        && (Alone(env) ==> st == old(st).(now := now) && forall id | id in rows :: !Available(rows[id], now))
      ensures found.Success? ==>
        var until, job := old(now) + reserveFor, found.value;
        && picked == job.id && picked in rows && Available(rows[picked], now)
        && db.stored.jobs == rows[picked := ReserveRow(rows[picked], until)]
        && job == ReservedJob(picked, rows[picked].name, rows[picked].payload, rows[picked].attempts + 1)
        && job.name != "" && job.payload != ""
        && st.workers[me] == Phase.Held(Lease(job.id, job.name, job.payload, job.attempts, old(now), until))
        && (Alone(env) ==>
              SameButRows(old(st), st) && NewReservation(old(st), st, picked))
    {
      var until := now + reserveFor;
      Advance(from, Ask(me));
      Interfere(from, env);
      rows := db.stored.jobs;
      var locked: set<JobId> := *;
      if !env.workers {
        locked := {};
      }
      found, picked := Query(from, until, locked, f);
    }

    /** The query and what its reply means to the worker. */
    method Query(ghost from: State, until: Time, locked: set<JobId>, f: Faults)
        returns (found: Result<ReservedJob, FindError>, ghost picked: JobId)
      requires Valid() && Reaches(Cfg(), from, st)
      requires st.workers[me].Asked? && until == st.workers[me].asked + reserveFor
      modifies this`st, db
      ensures Valid() && Reaches(Cfg(), from, st)
      ensures st.hist.runs == old(st).hist.runs
      ensures found == Failure(ErrQuery) <==> f.query
      ensures found == Failure(ErrScan) ==> f.scan
      ensures found == Failure(ErrNoJobs) ==>
        && st == old(st).(workers := old(st).workers[me := Idle])
        && forall id | id in db.stored.jobs && id !in locked :: !Available(db.stored.jobs[id], now)
      ensures found.Success? ==>
        var rows, asked, job := old(db.stored).jobs, old(st).workers[me].asked, found.value;
        && picked == job.id && picked in rows && picked !in locked && Available(rows[picked], now)
        && db.stored.jobs == rows[picked := ReserveRow(rows[picked], until)]
        && job == ReservedJob(picked, rows[picked].name, rows[picked].payload, rows[picked].attempts + 1)
        && SameButRows(old(st), st)
        && st.workers[me] == Phase.Held(Lease(job.id, job.name, job.payload, job.attempts, asked, until))
        && st.hist.reservations == old(st).hist.reservations + [Reservation(picked, job.attempts, now, until)]
    {
      found, picked := FindAndReserveJob(db, now, until, locked, f.query, f.scan);
      match found
      case Failure(ErrNoJobs) => Advance(from, NoJobs(me));
      case Failure(ErrQuery) => Advance(from, AskFails(me));
      case Failure(ErrScan) => Advance(from, ReserveReplyLost(me, picked));
      case Success(job) => Advance(from, Step.Reserve(me, job.id));
    }

    /** The part of `findAndProcessJob` after the reservation: the handler call and what its answer leads to. */
    method Execute(ghost from: State, job: ReservedJob, env: Environment, answer: Option<string>, f: Faults)
        returns (r: Return, lost: bool)
      requires Valid() && Reaches(Cfg(), from, st) && st.workers[me].Held?
      requires var l := st.workers[me].lease; job == ReservedJob(l.id, l.name, l.payload, l.attempt)
      requires job.name != "" && job.payload != ""
      modifies this`now, this`st, db
      ensures Valid() && Reaches(Cfg(), from, st)
      ensures old(now) <= now && (!env.ticks ==> now == old(now))
      ensures r == Nil || r == Error
      ensures r == Nil ==> Ready()
      ensures job.name in jobs ==> Called(old(st).hist.runs, st.hist.runs, job.id, job.attempts)
      ensures lost <==> job.name in jobs && answer.None? && f.delete
      ensures job.name in jobs && (answer.None? || job.attempts < jobs[job.name].maxAttempts) ==> r == Nil
      ensures job.name in jobs && answer.None? ==>
        job.id in st.hist.handled && (!f.delete ==> job.id !in db.stored.jobs)
      ensures r == Nil && (job.name !in jobs || (answer.Some? && job.attempts >= jobs[job.name].maxAttempts)) ==>
        job.id in st.hist.buried && job.id !in db.stored.jobs
      ensures r == Error && !env.workers && job.id in old(db.stored).jobs ==> !Faultless(f.dlq)
      ensures !env.puts ==> Drained(old(db.stored).jobs, db.stored.jobs)
      ensures Alone(env) ==> st.hist.reservations == old(st).hist.reservations
      ensures Alone(env) && r == Nil && job.id in old(db.stored).jobs ==>
        JobDone(jobs, job, answer, lost, old(db.stored).jobs, old(st), st)
    {
      if job.name !in jobs {
        Advance(from, NotRegistered(me));
        r := Dlq(from, job.id, job.name, job.payload, UNKNOWN_JOB, f.dlq);
        return r, false;
      }
      ghost var before := st;
      var err := Handle(from, env, answer);
      r, lost := Settle(from, job, err, f);
    }

    /** After the handler: a retry later, the dead-letter table, or the deletion. */
    method Settle(ghost from: State, job: ReservedJob, err: Option<string>, f: Faults)
        returns (r: Return, lost: bool)
      requires Valid() && Reaches(Cfg(), from, st) && st.workers[me].Running? && job.name in jobs
      requires var l := st.workers[me].lease; job == ReservedJob(l.id, l.name, l.payload, l.attempt)
      requires job.name != "" && job.payload != ""
      modifies this`st, db
      ensures Valid() && Reaches(Cfg(), from, st)
      ensures r == Nil || r == Error
      ensures r == Nil ==> Ready()
      ensures lost <==> err.None? && f.delete
      ensures st.hist.reservations == old(st).hist.reservations && st.hist.runs == old(st).hist.runs
      ensures err.None? ==>
        && r == Nil && db.stored.failed == old(db.stored).failed && st.hist.buried == old(st).hist.buried
        && st.hist.handled == old(st).hist.handled + {job.id}
        && (if f.delete || job.id !in old(db.stored).jobs then
              db.stored == old(db.stored) && st.hist.completed == old(st).hist.completed
            else
              && db.stored.jobs == old(db.stored).jobs - {job.id}
              && st.hist.completed == old(st).hist.completed + {job.id})
      ensures err.Some? && job.attempts < jobs[job.name].maxAttempts ==>
        && r == Nil && db.stored == old(db.stored) && st.hist == old(st).hist
      ensures err.Some? && job.attempts >= jobs[job.name].maxAttempts ==>
        && (r == Nil <==> Faultless(f.dlq) && job.id in old(db.stored).jobs)
        && (r == Nil ==> Moved(old(st), st, job, "max attempts exceeded: " + err.value))
        && (r == Error ==> db.stored == old(db.stored))
    {
      if err.Some? {
        Advance(from, HandleErr(me, err.value));
        if job.attempts >= jobs[job.name].maxAttempts {
          r := Dlq(from, job.id, job.name, job.payload, MAX_ATTEMPTS_EXCEEDED + err.value, f.dlq);
          return r, false;
        }
        return Nil, false;
      }
      Advance(from, HandleOk(me));
      var o := db.Statement(null, DeleteJob(job.id), f.delete);
      Advance(from, Step.Delete(me, f.delete));
      return Nil, f.delete;
    }

    /** The call of the handler. It may take any time, and others go on meanwhile; what it answers is given. */
    method Handle(ghost from: State, env: Environment, answer: Option<string>) returns (err: Option<string>)
      requires Valid() && Reaches(Cfg(), from, st)
      requires st.workers[me].Held? && st.workers[me].lease.name in jobs
      modifies this`now, this`st, db
      ensures Valid() && Reaches(Cfg(), from, st)
      ensures err == answer
      ensures old(now) <= now && (!env.ticks ==> now == old(now))
      ensures st.workers[me].Running? && st.workers[me].lease == old(st).workers[me].lease
      ensures
        var l := old(st).workers[me].lease;
        && Called(old(st).hist.runs, st.hist.runs, l.id, l.attempt)
        && (Alone(env) ==> exists t ::
              && st.hist == old(st).hist.(runs := old(st).hist.runs + [HandlerRun(l.id, l.attempt, t)])
              && st.db == old(st).db)
      ensures !env.puts ==> Drained(old(db.stored).jobs, db.stored.jobs)
      ensures !env.workers ==> old(db.stored).jobs.Keys <= db.stored.jobs.Keys
    {
      ghost var first := st;
      Interfere(from, env);
      ghost var n := |st.hist.runs|;
      Advance(from, Call(me));
      ghost var called := st;
      Interfere(from, env);
      assert st.hist.runs[n] == called.hist.runs[n];
      err := answer;
    }

    /** `dlq`: the job moves to failed_jobs in one transaction, or the error of the transaction is returned. */
    method Dlq(ghost from: State, id: JobId, name: string, payload: string, reason: string, f: TxFaults)
        returns (r: Return)
      requires Valid() && Reaches(Cfg(), from, st)
      requires st.workers[me].Burying? && st.workers[me].reason == reason
      requires var l := st.workers[me].lease; l.id == id && l.name == name && l.payload == payload
      modifies this`st, db
      ensures Valid() && Reaches(Cfg(), from, st)
      ensures r == Nil <==>
        Faultless(f) && id in old(db.stored).jobs && name != "" && payload != "" && reason != ""
      ensures r == Nil ==> Ready() && Moved(old(st), st, ReservedJob(id, name, payload, 0), reason)
      ensures r != Nil ==> r == Error && st.workers[me] == Stopped && db.stored == old(db.stored)
      ensures st.hist == old(st).hist.(buried := st.hist.buried)
    {
      ghost var step := Bury(me, !f.begin, f.first, f.second, !f.commit);
      DlqMovesOrDoesNothing(st.workers[me].lease, reason, !f.begin, f.first, f.second, !f.commit, st.db);
      var o := db.InTx(null, !f.begin, !f.commit,
                       Seq(Do(CreateFailedJob(name, payload, reason), f.first), Do(DeleteJob(id), f.second)));
      Advance(from, step);
      r := if o.Ok? then Nil else Error;
    }

    /**
      `processAvailableJobs`: it comes to an end however the clock advances, whatever the handlers answer and whatever
      the other workers do, as long as jobs are put in no more than `putRounds` rounds and no more than `deleteFaults`
      deletions are lost. Unless its context ends it goes on until nothing is found or something fails, and for a lone
      worker nothing fails by itself. When it ends because nothing was found, no row is available at that time; with the
      clock held and a positive reservation time every row that was available has been reserved exactly once and is now
      gone or leased, and every other row is as before.
    */
    method ProcessAvailableJobs(ticks: bool, others: bool, putRounds: nat, deleteFaults: nat, ends: bool, faulty: bool)
        returns (r: Return)
      requires Ready()
      modifies this`now, this`st, db
      ensures Valid() && Reaches(Cfg(), old(st), st)
      ensures r != Error ==> Ready()
      ensures r == Nil ==> ends
      ensures r == Error ==> others || faulty
      ensures r == NothingFound && !others && putRounds == 0 ==>
        forall id | id in db.stored.jobs :: !Available(db.stored.jobs[id], now)
      ensures r == NothingFound && !others && putRounds == 0 && !ticks && 0 < reserveFor ==>
        now == old(now) && CompleteSweep(old(st), st, now, reserveFor)
    {
      var faultsLeft, putsLeft := deleteFaults, putRounds;
      ghost var s0, picks, sweep := st, {}, Sweeps(Environment(ticks, others, putRounds > 0));
      ReachesSelf(Cfg(), st);
      while true
        invariant Ready() && Reaches(Cfg(), s0, st) && 0 <= faultsLeft && 0 <= putsLeft <= putRounds
        invariant sweep ==> now == old(now) && Sweeping(s0, st, picks, now, reserveFor)
        decreases faultsLeft + putsLeft, Budget(Cfg(), db.stored.jobs)
      {
        var done, puts: bool, answer: Option<string>, f: Faults := *, *, *, *;
        if done && ends {
          return Nil;
        }
        puts := puts && putsLeft > 0;
        f := f.(delete := f.delete && faultsLeft > 0);
        if !faulty {
          f := Faults(false, false, f.delete, TxFaults(false, false, false, false));
        }
        var lost;
        r, lost, picks := NextJob(s0, picks, sweep, Environment(ticks, others, puts), answer, f);
        if r != Nil {
          return;
        }
        if lost {
          faultsLeft := faultsLeft - 1;
        }
        if puts {
          putsLeft := putsLeft - 1;
        }
      }
    }

    /** Nothing moves but this worker, and its leases last. */
    predicate Sweeps(env: Environment) { Alone(env) && !env.ticks && 0 < reserveFor }

    /** One round of the loop, seen from the state `s0` in which the loop was entered. */
    method NextJob(ghost s0: State, ghost picks: set<JobId>, ghost sweep: bool, env: Environment,
                   answer: Option<string>, f: Faults) returns (r: Return, lost: bool, ghost more: set<JobId>)
      requires Ready() && Reaches(Cfg(), s0, st)
      requires sweep ==> Sweeps(env) && Sweeping(s0, st, picks, now, reserveFor)
      modifies this`now, this`st, db
      ensures Valid() && Reaches(Cfg(), s0, st)
      ensures r != Error ==> Ready()
      ensures lost ==> f.delete && r == Nil
      ensures r == Error && !env.workers ==> f.query || f.scan || !Faultless(f.dlq)
      ensures r == Nil && !env.puts ==>
        && Budget(Cfg(), db.stored.jobs) <= Budget(Cfg(), old(db.stored).jobs)
        && (!lost ==> Budget(Cfg(), db.stored.jobs) < Budget(Cfg(), old(db.stored).jobs))
      ensures r == NothingFound && Alone(env) ==>
        forall id | id in db.stored.jobs :: !Available(db.stored.jobs[id], now)
      ensures sweep ==>
        && now == old(now)
        && (r == Nil ==> Sweeping(s0, st, more, now, reserveFor))
        && (r == NothingFound ==> CompleteSweep(s0, st, now, reserveFor))
    {
      ghost var before, job := st, ReservedJob(0, "", "", 0);
      r, lost, job := FindAndProcessJob(env, answer, f);
      ReachesTrans(Cfg(), s0, before, st);
      more := picks + {job.id};
      if sweep && r == Nil {
        SweepGoesOn(s0, before, st, picks, job.id, now, reserveFor);
      } else if sweep && r == NothingFound {
        SweepIsComplete(s0, st, picks, now, reserveFor);
      }
    }
  }

  /** The rows that were picked were available and are gone or leased; the rest is untouched. */
  ghost predicate SweepSoFar(before: map<JobId, Job>, after: map<JobId, Job>, picks: set<JobId>, now: Time,
      reserveFor: int) {
    && after.Keys <= before.Keys
    && (forall id | id in picks ::
          && id in before && Available(before[id], now)
          && (id !in after || after[id] == ReserveRow(before[id], now + reserveFor)))
    && (forall id | id in before && id !in picks :: id in after && after[id] == before[id])
  }

  lemma SweepExtends(rows: map<JobId, Job>, before: map<JobId, Job>, after: map<JobId, Job>, picks: set<JobId>,
      id: JobId, now: Time, reserveFor: int)
    requires 0 < reserveFor && SweepSoFar(rows, before, picks, now, reserveFor)
    requires id in before && Available(before[id], now) && Settled(before, after, id, now + reserveFor)
    ensures id !in picks && SweepSoFar(rows, after, picks + {id}, now, reserveFor)
  {
  }

  /** Since `first` each picked job, and no other, has been reserved once more. */
  ghost predicate PickedOnce(first: seq<Reservation>, rs: seq<Reservation>, picks: set<JobId>) {
    forall id :: OutboxSafety.CountReservations(rs, id)
        == OutboxSafety.CountReservations(first, id) + (if id in picks then 1 else 0)
  }

  lemma PickedOnceExtends(first: seq<Reservation>, before: seq<Reservation>, after: seq<Reservation>, picks: set<JobId>,
      id: JobId)
    requires PickedOnce(first, before, picks) && id !in picks
    requires |after| == |before| + 1 && after[..|before|] == before && after[|before|].id == id
    ensures PickedOnce(first, after, picks + {id})
  {
    forall k
      ensures OutboxSafety.CountReservations(after, k) == OutboxSafety.CountReservations(first, k)
          + (if k in picks + {id} then 1 else 0)
    {
      assert OutboxSafety.CountReservations(before, k) == OutboxSafety.CountReservations(first, k) + (if k in picks
          then 1 else 0);
    }
  }

  ghost predicate Sweeping(s: State, t: State, picks: set<JobId>, now: Time, reserveFor: int) {
    && SweepSoFar(s.db.jobs, t.db.jobs, picks, now, reserveFor)
    && PickedOnce(s.hist.reservations, t.hist.reservations, picks)
  }

  lemma SweepGoesOn(s: State, t: State, u: State, picks: set<JobId>, id: JobId, now: Time, reserveFor: int)
    requires 0 < reserveFor && Sweeping(s, t, picks, now, reserveFor)
    requires OneReserved(t, u, id, now + reserveFor) && Available(t.db.jobs[id], now)
    ensures Sweeping(s, u, picks + {id}, now, reserveFor)
  {
    SweepExtends(s.db.jobs, t.db.jobs, u.db.jobs, picks, id, now, reserveFor);
    PickedOnceExtends(s.hist.reservations, t.hist.reservations, u.hist.reservations, picks, id);
  }

  /** Every row that was available has been reserved once and is gone or leased; all others are as before. */
  ghost predicate CompleteSweep(s: State, t: State, now: Time, reserveFor: int) {
    && t.db.jobs.Keys <= s.db.jobs.Keys
    && forall id | id in s.db.jobs ::
         && SweptRow(s.db.jobs[id], id, t.db.jobs, now, reserveFor)
         && OutboxSafety.CountReservations(t.hist.reservations, id)
            == OutboxSafety.CountReservations(s.hist.reservations, id) + (if Available(s.db.jobs[id], now) then 1
                else 0)
  }

  lemma SweepIsComplete(s: State, t: State, picks: set<JobId>, now: Time, reserveFor: int)
    requires 0 < reserveFor && Sweeping(s, t, picks, now, reserveFor)
    requires forall id | id in t.db.jobs :: !Available(t.db.jobs[id], now)
    ensures CompleteSweep(s, t, now, reserveFor)
  {
  }

  /** What a complete sweep makes of one row. */
  predicate SweptRow(row: Job, id: JobId, after: map<JobId, Job>, now: Time, reserveFor: int) {
    if Available(row, now) then id !in after || after[id] == ReserveRow(row, now + reserveFor)
    else id in after && after[id] == row
  }
}
