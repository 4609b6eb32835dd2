/**
  The outbox as a step system: any number of workers, each going through `findAndProcessJob` again and again, over
  one `jobs` table and one `failed_jobs` table.

  One clock stands for the service's `time.Now()` and the database's `now()`. A step is one atomic action: one
  statement, one transaction, one handler call beginning or ending. What the source leaves to the outside (which
  row the query picks, whether a handler fails, which statement is lost, when a process dies) is a label of the
  step, so that the next state is a function of the state and the step.
*/
module Outbox {
  import opened Store
  import opened Transactions

  /** What a registered job answers to `ExecutionTimeout` and `MaxAttempts`. */
  datatype JobSpec = JobSpec(timeout: nat, maxAttempts: int)

  datatype Config = Config(workers: nat, reserveFor: int, jobs: map<string, JobSpec>)

  /** What a worker knows of the row it has reserved. `asked` is the clock when `until` was computed. */
  datatype Lease = Lease(id: JobId, name: string, payload: string, attempt: nat, asked: Time, until: Time)

  /** How far a worker is in `findAndProcessJob`. */
  datatype Phase =
    | Idle
    | Asked(asked: Time)                       // the end of the lease is computed, the query has not run yet
    | Held(lease: Lease)                       // the row is reserved, its handler has not been called
    | Running(lease: Lease, started: Time)
    | Deleting(lease: Lease)                   // the handler returned nil
    | Burying(lease: Lease, reason: string)    // the job is to be moved to failed_jobs
    | Stopped                                  // the worker returned an error

  datatype PutRecord = PutRecord(name: string, payload: string, availableAt: Time)

  datatype Reservation = Reservation(id: JobId, attempt: nat, at: Time, until: Time)

  datatype HandlerRun = HandlerRun(id: JobId, attempt: nat, at: Time)

  /** What has happened so far; no step depends on it except that identifiers are never used twice. */
  datatype History = History(
    puts: map<JobId, PutRecord>,
    reservations: seq<Reservation>,   // also those whose reply was lost
    runs: seq<HandlerRun>,            // handler calls
    handled: set<JobId>,              // some handler call returned nil
    completed: set<JobId>,            // removed after a handler call that returned nil
    buried: seq<JobId>)               // buried[i] is the job that failed row i stands for

  datatype State = State(db: Db, now: Time, workers: seq<Phase>, hist: History)

  datatype Step =
    | Tick(d: nat)
    | Put(id: JobId, name: string, payload: string, availableAt: Time)
    | Ask(w: nat)
    | Reserve(w: nat, id: JobId)
    | ReserveReplyLost(w: nat, id: JobId)
    | NoJobs(w: nat)
    | AskFails(w: nat)
    | Call(w: nat)
    | NotRegistered(w: nat)
    | HandleOk(w: nat)
    | HandleErr(w: nat, msg: string)
    | Delete(w: nat, fault: bool)
    | Bury(w: nat, beginOk: bool, insertFault: bool, deleteFault: bool, commitOk: bool)
    | Crash(w: nat)

  const UNKNOWN_JOB := "unknown job"
  const MAX_ATTEMPTS_EXCEEDED := "max attempts exceeded: "

  predicate Available(row: Job, now: Time) {
    row.availableAt <= now && row.reservedUntil <= now
  }

  predicate HasLease(p: Phase) {
    p.Held? || p.Running? || p.Deleting? || p.Burying?
  }

  /** The body of `dlq`. */
  function DlqBody(l: Lease, reason: string, insertFault: bool, deleteFault: bool): Prog {
    Seq(Do(CreateFailedJob(l.name, l.payload, reason), insertFault), Do(DeleteJob(l.id), deleteFault))
  }

  function ReserveRow(row: Job, until: Time): Job {
    row.(attempts := row.attempts + 1, reservedUntil := until)
  }

  function Init(cfg: Config, now: Time): State {
    State(Db(map[], [], map[]), now, seq(cfg.workers, _ => Idle), History(map[], [], [], {}, {}, []))
  }

  predicate Enabled(cfg: Config, s: State, step: Step) {
    match step
    case Tick(_) => true
    case Put(id, name, payload, _) => id !in s.hist.puts && name != "" && payload != ""
    case Ask(w) => w < |s.workers| && s.workers[w].Idle?
    case Reserve(w, id) => w < |s.workers| && s.workers[w].Asked? && id in s.db.jobs && Available(s.db.jobs[id], s.now)
    case ReserveReplyLost(w, id) => w < |s.workers| && s.workers[w].Asked? && id in s.db.jobs
        && Available(s.db.jobs[id], s.now)
    case NoJobs(w) => w < |s.workers| && s.workers[w].Asked?
    case AskFails(w) => w < |s.workers| && s.workers[w].Asked?
    case Call(w) => w < |s.workers| && s.workers[w].Held? && s.workers[w].lease.name in cfg.jobs
    case NotRegistered(w) => w < |s.workers| && s.workers[w].Held? && s.workers[w].lease.name !in cfg.jobs
    case HandleOk(w) => w < |s.workers| && s.workers[w].Running?
    case HandleErr(w, _) => w < |s.workers| && s.workers[w].Running? && s.workers[w].lease.name in cfg.jobs
    case Delete(w, _) => w < |s.workers| && s.workers[w].Deleting?
    case Bury(w, _, _, _, _) => w < |s.workers| && s.workers[w].Burying?
    case Crash(w) => w < |s.workers|
  }

  /** The row is leased; `s.workers[w]` gets the phase `p`. */
  function Reserved(cfg: Config, s: State, w: nat, id: JobId, p: Phase): State
    requires w < |s.workers| && s.workers[w].Asked? && id in s.db.jobs
  {
    var row := ReserveRow(s.db.jobs[id], s.workers[w].asked + cfg.reserveFor);
    s.(db := s.db.(jobs := s.db.jobs[id := row]),
       workers := s.workers[w := p],
       hist := s.hist.(reservations := s.hist.reservations + [Reservation(id, row.attempts, s.now, row.reservedUntil)]))
  }

  function LeaseFor(cfg: Config, s: State, w: nat, id: JobId): Lease
    requires w < |s.workers| && s.workers[w].Asked? && id in s.db.jobs
  {
    var row := s.db.jobs[id];
    var asked := s.workers[w].asked;
    Lease(id, row.name, row.payload, row.attempts + 1, asked, asked + cfg.reserveFor)
  }

  function Next(cfg: Config, s: State, step: Step): State
    requires Enabled(cfg, s, step)
  {
    match step
    case Tick(d) => s.(now := s.now + d)
    case Put(id, name, payload, availableAt) =>
      s.(db := s.db.(jobs := s.db.jobs[id := Job(name, payload, 0, availableAt, s.now)]),
         hist := s.hist.(puts := s.hist.puts[id := PutRecord(name, payload, availableAt)]))
    case Ask(w) => s.(workers := s.workers[w := Asked(s.now)])
    case Reserve(w, id) => Reserved(cfg, s, w, id, Held(LeaseFor(cfg, s, w, id)))
    case ReserveReplyLost(w, id) => Reserved(cfg, s, w, id, Stopped)
    case NoJobs(w) => s.(workers := s.workers[w := Idle])
    case AskFails(w) => s.(workers := s.workers[w := Stopped])
    case Call(w) =>
      var l := s.workers[w].lease;
      s.(workers := s.workers[w := Running(l, s.now)],
         hist := s.hist.(runs := s.hist.runs + [HandlerRun(l.id, l.attempt, s.now)]))
    case NotRegistered(w) => s.(workers := s.workers[w := Burying(s.workers[w].lease, UNKNOWN_JOB)])
    case HandleOk(w) =>
      var l := s.workers[w].lease;
      s.(workers := s.workers[w := Deleting(l)], hist := s.hist.(handled := s.hist.handled + {l.id}))
    case HandleErr(w, msg) =>
      var l := s.workers[w].lease;
      s.(workers := s.workers[w := if l.attempt >= cfg.jobs[l.name].maxAttempts
                                   then Burying(l, MAX_ATTEMPTS_EXCEEDED + msg)
                                   else Idle])
    case Delete(w, fault) =>
      var l := s.workers[w].lease;
      var (o, d) := Exec(Do(DeleteJob(l.id), fault), false, s.db);
      s.(db := d, workers := s.workers[w := Idle],
         hist := if o.Ok? then s.hist.(completed := s.hist.completed + {l.id}) else s.hist)
    case Bury(w, beginOk, insertFault, deleteFault, commitOk) =>
      var l := s.workers[w].lease;
      var (o, d) := Exec(RunInTx(beginOk, commitOk, DlqBody(l, s.workers[w].reason, insertFault, deleteFault)), false,
          s.db);
      s.(db := d, workers := s.workers[w := if o.Ok? then Idle else Stopped],
         hist := if o.Ok? then s.hist.(buried := s.hist.buried + [l.id]) else s.hist)
    case Crash(w) => s.(workers := s.workers[w := Idle])
  }

  predicate ValidRun(cfg: Config, s: State, steps: seq<Step>)
    decreases |steps|
  {
    steps == [] || (Enabled(cfg, s, steps[0]) && ValidRun(cfg, Next(cfg, s, steps[0]), steps[1..]))
  }

  function Final(cfg: Config, s: State, steps: seq<Step>): State
    requires ValidRun(cfg, s, steps)
    decreases |steps|
  {
    if steps == [] then s else Final(cfg, Next(cfg, s, steps[0]), steps[1..])
  }

  ghost predicate Reaches(cfg: Config, s: State, t: State) {
    exists steps :: ValidRun(cfg, s, steps) && Final(cfg, s, steps) == t
  }

  lemma {:induction false} RunConcat(cfg: Config, s: State, a: seq<Step>, b: seq<Step>)
    requires ValidRun(cfg, s, a) && ValidRun(cfg, Final(cfg, s, a), b)
    ensures ValidRun(cfg, s, a + b) && Final(cfg, s, a + b) == Final(cfg, Final(cfg, s, a), b)
    decreases |a|
  {
    if a == [] {
      assert a + b == b;
    } else {
      assert (a + b)[1..] == a[1..] + b;
      RunConcat(cfg, Next(cfg, s, a[0]), a[1..], b);
    }
  }

  lemma ReachesTrans(cfg: Config, s: State, t: State, u: State)
    requires Reaches(cfg, s, t) && Reaches(cfg, t, u)
    ensures Reaches(cfg, s, u)
  {
    var a :| ValidRun(cfg, s, a) && Final(cfg, s, a) == t;
    var b :| ValidRun(cfg, t, b) && Final(cfg, t, b) == u;
    RunConcat(cfg, s, a, b);
  }

  lemma ReachesSelf(cfg: Config, s: State)
    ensures Reaches(cfg, s, s)
  {
    assert ValidRun(cfg, s, []) && Final(cfg, s, []) == s;
  }

  lemma ReachesStep(cfg: Config, s: State, step: Step)
    requires Enabled(cfg, s, step)
    ensures Reaches(cfg, s, Next(cfg, s, step))
  {
    var t := Next(cfg, s, step);
    assert [step][1..] == [];
    assert ValidRun(cfg, t, []) && Final(cfg, t, []) == t;
    assert ValidRun(cfg, s, [step]) && Final(cfg, s, [step]) == t;
  }

  /**
    The dead-letter transaction moves the row or does nothing, and it does nothing when the row is gone, because
    deleting no row is an error that takes the insert back.
  */
  lemma DlqMovesOrDoesNothing(l: Lease, reason: string, beginOk: bool, insertFault: bool, deleteFault: bool,
      commitOk: bool, db: Db)
    ensures
      var (o, d) := Exec(RunInTx(beginOk, commitOk, DlqBody(l, reason, insertFault, deleteFault)), false, db);
      && (o.Ok? <==>
          && beginOk && !insertFault && !deleteFault && commitOk
          && l.id in db.jobs && l.name != "" && l.payload != "" && reason != "")
      && d == (if o.Ok? then db.(jobs := db.jobs - {l.id}, failed := db.failed + [FailedJob(l.name, l.payload, reason)])
          else db)
  {
    var (o1, d1) := Exec(Do(CreateFailedJob(l.name, l.payload, reason), insertFault), true, db);
    var (o2, d2) := Exec(Do(DeleteJob(l.id), deleteFault), true, d1);
    assert o1.Ok? ==> d1.jobs == db.jobs;
    assert Exec(DlqBody(l, reason, insertFault, deleteFault), true, db) == (if o1.Ok? then (o2, d2) else (o1, d1));
  }

  /** A worker may die at any point, and what it has done to the tables stays; so does every lease it has taken. */
  lemma CrashesAreAllowed(cfg: Config, s: State, w: nat)
    requires w < |s.workers|
    ensures Enabled(cfg, s, Crash(w))
    ensures
      var t := Next(cfg, s, Crash(w));
      t.db == s.db && t.hist == s.hist && t.now == s.now && t.workers == s.workers[w := Idle]
  {
  }

  /** The reply of a reservation may be lost at any time: the row is leased, and the worker stops without knowing it. */
  lemma LostRepliesAreAllowed(cfg: Config, s: State, w: nat, id: JobId)
    requires Enabled(cfg, s, Step.Reserve(w, id))
    ensures Enabled(cfg, s, ReserveReplyLost(w, id))
    ensures
      var t, u := Next(cfg, s, ReserveReplyLost(w, id)), Next(cfg, s, Step.Reserve(w, id));
      t.db == u.db && t.hist == u.hist && t.workers[w] == Stopped
  {
  }
}
