/** Values that a call may fail to produce. */
module Wrappers {
  datatype Option<+T> = None | Some(value: T)

  datatype Result<+T, +E> = Success(value: T) | Failure(error: E)
}

/**
  The tables of the chat service that the outbox and the verdict consumer share, and the single statements
  that the repositories issue against them. Identifiers are plain numbers; their uniqueness is enforced by
  `CreateJob` as the primary key enforces it.
*/
module Store {
  import opened Wrappers

  type JobId = nat
  type MessageId = nat
  type Time = int

  datatype Job = Job(name: string, payload: string, attempts: nat, availableAt: Time, reservedUntil: Time)

  datatype FailedJob = FailedJob(name: string, payload: string, reason: string)

  datatype Message = Message(visibleForManager: bool, blocked: bool, checkedAt: Option<Time>)

  datatype Db = Db(jobs: map<JobId, Job>, failed: seq<FailedJob>, messages: map<MessageId, Message>)

  datatype Error =
    | Validation            // a field validator of the generated builder rejected a value
    | Constraint            // a unique key is already taken
    | NotFound              // an update or delete of one row met no row
    | Fault                 // the statement did not reach the database, or was refused by it
    | BeginFailed           // the transaction could not be opened
    | CommitFailed          // the transaction could not be committed
    | Returned(reason: string) // any other error value that a body returns

  /** One statement. `at` is the wall clock read while the statement is built. */
  datatype Op =
    | CreateJob(id: JobId, name: string, payload: string, availableAt: Time, at: Time)
    | CreateFailedJob(name: string, payload: string, reason: string)
    | DeleteJob(id: JobId)
    | MarkAsVisibleForManager(msg: MessageId, at: Time)
    | BlockMessage(msg: MessageId, at: Time)

  function Apply(op: Op, db: Db): Result<Db, Error> {
    match op
    case CreateJob(id, name, payload, availableAt, at) =>
      if name == "" || payload == "" then Failure(Validation)
      else if id in db.jobs then Failure(Constraint)
      else Success(db.(jobs := db.jobs[id := Job(name, payload, 0, availableAt, at)]))
    case CreateFailedJob(name, payload, reason) =>
      if name == "" || payload == "" || reason == "" then Failure(Validation)
      else Success(db.(failed := db.failed + [FailedJob(name, payload, reason)]))
    case DeleteJob(id) =>
      if id !in db.jobs then Failure(NotFound)
      else Success(db.(jobs := db.jobs - {id}))
    case MarkAsVisibleForManager(msg, at) =>
      if msg !in db.messages then Failure(NotFound)
      else Success(db.(messages := db.messages[msg := db.messages[msg].(visibleForManager := true,
          checkedAt := Some(at))]))
    case BlockMessage(msg, at) =>
      if msg !in db.messages then Failure(NotFound)
      else Success(db.(messages := db.messages[msg := db.messages[msg].(blocked := true, checkedAt := Some(at))]))
  }

  /** Issues the statements one after the other; the whole list fails if one of them does. */
  function Replay(ops: seq<Op>, db: Db): Option<Db> {
    if ops == [] then Some(db)
    else match Apply(ops[0], db)
      case Success(d) => Replay(ops[1..], d)
      case Failure(_) => None
  }

  lemma {:induction false} ReplayConcat(a: seq<Op>, b: seq<Op>, db: Db)
    ensures Replay(a + b, db) == (match Replay(a, db) case Some(d) => Replay(b, d) case None => None)
  {
    if a == [] {
      assert a + b == b;
    } else {
      assert (a + b)[1..] == a[1..] + b;
      match Apply(a[0], db)
      case Success(d) => ReplayConcat(a[1..], b, d);
      case Failure(_) =>
    }
  }

  /**
    When a statement is refused: a value that a validator rejects, a primary key that is taken, a row that is not there.
    The fields of a new job are its name, its payload, no attempts, the time it becomes available, and a reservation
    that ends at once.
  */
  lemma RefusedExactly(op: Op, db: Db)
    ensures Apply(op, db) == Failure(Validation) <==>
      || (op.CreateJob? && (op.name == "" || op.payload == ""))
      || (op.CreateFailedJob? && (op.name == "" || op.payload == "" || op.reason == ""))
    ensures Apply(op, db) == Failure(Constraint) <==>
      op.CreateJob? && op.name != "" && op.payload != "" && op.id in db.jobs
    ensures Apply(op, db) == Failure(NotFound) <==>
      || (op.DeleteJob? && op.id !in db.jobs)
      || ((op.MarkAsVisibleForManager? || op.BlockMessage?) && op.msg !in db.messages)
    ensures Apply(op, db).Success? && op.CreateJob? ==>
      op.id in Apply(op, db).value.jobs
      && Apply(op, db).value.jobs[op.id] == Job(op.name, op.payload, 0, op.availableAt, op.at)
  {
  }

  /** A statement that is not refused touches one row of one table. */
  lemma TouchesOneRow(op: Op, db: Db)
    requires Apply(op, db).Success?
    ensures
      var d := Apply(op, db).value;
      && (op.CreateJob? || op.DeleteJob? ==>
            d.failed == db.failed && d.messages == db.messages && d.jobs - {op.id} == db.jobs - {op.id}
            && (op.id in d.jobs <==> op.CreateJob?))
      && (op.CreateFailedJob? ==>
            d.jobs == db.jobs && d.messages == db.messages
            && d.failed == db.failed + [FailedJob(op.name, op.payload, op.reason)])
      && (op.MarkAsVisibleForManager? || op.BlockMessage? ==>
            && d.jobs == db.jobs && d.failed == db.failed && d.messages - {op.msg} == db.messages - {op.msg}
            && op.msg in d.messages && d.messages[op.msg].checkedAt == Some(op.at)
            && d.messages[op.msg].visibleForManager == (db.messages[op.msg].visibleForManager
                                                        || op.MarkAsVisibleForManager?)
            && d.messages[op.msg].blocked == (db.messages[op.msg].blocked || op.BlockMessage?))
  {
  }
}
