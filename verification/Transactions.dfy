/**
  `Database.RunInTx` and the bodies that are passed to it.

  A body is a Go closure; here it is a `Prog`, the tree of the statements and control flow one execution of the
  closure goes through. The two booleans of `RunInTx` say whether opening and committing succeed, and `fault`
  says whether a statement is lost before it takes effect, so a `Prog` also fixes every failure of that execution.
*/
module Transactions {
  import opened Wrappers
  import opened Store

  datatype Prog =
    | Do(op: Op, fault: bool)
    | Fail(reason: string)                                   // return an error
    | Panic
    | Skip
    | Seq(first: Prog, second: Prog)                         // if err := first; err != nil { return err }; second
    | Catch(body: Prog)                                      // the error of body is dropped
    | Recover(body: Prog)                                    // a panic of body is recovered and dropped
    | RunInTx(beginOk: bool, commitOk: bool, body: Prog)

  datatype Outcome = Ok | Err(error: Error) | Panicked

  /** What goes wrong in one transaction of two statements: opening it, a statement that is lost, or committing it. */
  datatype TxFaults = TxFaults(begin: bool, first: bool, second: bool, commit: bool)

  predicate Faultless(f: TxFaults) { !f.begin && !f.first && !f.second && !f.commit }

  /**
    Executes `p` with a context that carries a transaction (`inTx`) or not. With a transaction `db` is its
    working copy; without one it is the database itself, and each statement is committed at once.
  */
  function Exec(p: Prog, inTx: bool, db: Db): (Outcome, Db) {
    match p
    case Do(op, fault) =>
      if fault then (Err(Fault), db)
      else (match Apply(op, db)
            case Success(d) => (Ok, d)
            case Failure(e) => (Err(e), db))
    case Fail(reason) => (Err(Returned(reason)), db)
    case Panic => (Panicked, db)
    case Skip => (Ok, db)
    case Seq(first, second) =>
      var (o, d) := Exec(first, inTx, db);
      if o.Ok? then Exec(second, inTx, d) else (o, d)
    case Catch(body) =>
      var (o, d) := Exec(body, inTx, db);
      (if o.Err? then Ok else o, d)
    case Recover(body) =>
      var (o, d) := Exec(body, inTx, db);
      (if o.Panicked? then Ok else o, d)
    case RunInTx(beginOk, commitOk, body) =>
      if inTx then Exec(body, true, db)
      else if !beginOk then (Err(BeginFailed), db)
      else
        var (o, d) := Exec(body, true, db);
        if !o.Ok? then (o, db)
        else if !commitOk then (Err(CommitFailed), db)
        else (Ok, d)
  }

  /** The body with every inner `RunInTx` replaced by its own body. */
  function Flatten(p: Prog): Prog {
    match p
    case Seq(first, second) => Seq(Flatten(first), Flatten(second))
    case Catch(body) => Catch(Flatten(body))
    case Recover(body) => Recover(Flatten(body))
    case RunInTx(_, _, body) => Flatten(body)
    case _ => p
  }

  /** The statements that take effect when `p` runs inside a transaction, in order. */
  function Performed(p: Prog, db: Db): seq<Op> {
    match p
    case Do(op, fault) => if !fault && Apply(op, db).Success? then [op] else []
    case Seq(first, second) =>
      var (o, d) := Exec(first, true, db);
      Performed(first, db) + (if o.Ok? then Performed(second, d) else [])
    case Catch(body) => Performed(body, db)
    case Recover(body) => Performed(body, db)
    case RunInTx(_, _, body) => Performed(body, db)
    case _ => []
  }

  predicate NoTx(p: Prog) {
    match p
    case Seq(first, second) => NoTx(first) && NoTx(second)
    case Catch(body) => NoTx(body)
    case Recover(body) => NoTx(body)
    case RunInTx(_, _, _) => false
    case _ => true
  }

  predicate NoHandler(p: Prog) {
    match p
    case Seq(first, second) => NoHandler(first) && NoHandler(second)
    case Catch(_) => false
    case Recover(_) => false
    case RunInTx(_, _, body) => NoHandler(body)
    case _ => true
  }

  /** A failing or panicking leaf occurs somewhere in `p`, at any depth. */
  predicate HasFailure(p: Prog) {
    match p
    case Do(_, fault) => fault
    case Fail(_) => true
    case Panic => true
    case Skip => false
    case Seq(first, second) => HasFailure(first) || HasFailure(second)
    case Catch(body) => HasFailure(body)
    case Recover(body) => HasFailure(body)
    case RunInTx(_, _, body) => HasFailure(body)
  }

  /** Every statement that is written in `p`, in order, whether or not it is reached. */
  function Statements(p: Prog): seq<Op> {
    match p
    case Do(op, _) => [op]
    case Seq(first, second) => Statements(first) + Statements(second)
    case Catch(body) => Statements(body)
    case Recover(body) => Statements(body)
    case RunInTx(_, _, body) => Statements(body)
    case _ => []
  }

  /** Inside a transaction an inner `RunInTx` is invisible. */
  lemma {:induction false} FlattenInTx(p: Prog, db: Db)
    ensures Exec(Flatten(p), true, db) == Exec(p, true, db)
    ensures NoTx(Flatten(p))
  {
    match p
    case Seq(first, second) =>
      FlattenInTx(first, db);
      FlattenInTx(second, Exec(first, true, db).1);
    case Catch(body) => FlattenInTx(body, db);
    case Recover(body) => FlattenInTx(body, db);
    case RunInTx(_, _, body) => FlattenInTx(body, db);
    case _ =>
  }

  /** The working copy is always what the performed statements make of the snapshot. */
  lemma {:induction false} PerformedReplays(p: Prog, db: Db)
    ensures Replay(Performed(p, db), db) == Some(Exec(p, true, db).1)
  {
    match p
    case Do(op, fault) =>
      if !fault && Apply(op, db).Success? {
        var d := Apply(op, db).value;
        assert [op][1..] == [];
        assert Replay([], d) == Some(d);
      }
    case Seq(first, second) =>
      var (o, d) := Exec(first, true, db);
      PerformedReplays(first, db);
      if o.Ok? {
        PerformedReplays(second, d);
        ReplayConcat(Performed(first, db), Performed(second, d), db);
      } else {
        assert Performed(first, db) + [] == Performed(first, db);
      }
    case Catch(body) => PerformedReplays(body, db);
    case Recover(body) => PerformedReplays(body, db);
    case RunInTx(_, _, body) => PerformedReplays(body, db);
    case _ =>
  }

  /**
    `RunInTx` with any nesting below it is the flattened body in one transaction. The database afterwards is
    either the result of everything the body performed or the database from before, and which of the two is
    decided by the outcome that the caller sees. A panic is passed on after the rollback.
  */
  lemma RunInTxIsOneTransaction(beginOk: bool, commitOk: bool, body: Prog, db: Db)
    ensures
      var r := Exec(RunInTx(beginOk, commitOk, body), false, db);
      var o := Exec(Flatten(body), true, db).0;
      && NoTx(Flatten(body))
      && r == Exec(RunInTx(beginOk, commitOk, Flatten(body)), false, db)
      && (r.0.Ok? <==> beginOk && o.Ok? && commitOk)
      && (r.0 == Err(BeginFailed) <==> !beginOk)
      && (r.0 == Err(CommitFailed) <==> beginOk && o.Ok? && !commitOk)
      && (beginOk && !o.Ok? ==> r.0 == o)
      && Some(r.1) == (if r.0.Ok? then Replay(Performed(Flatten(body), db), db) else Some(db))
  {
    FlattenInTx(body, db);
    FlattenInTx(Flatten(body), db);
    PerformedReplays(Flatten(body), db);
    NoBoundaryErrors(Flatten(body), db);
  }

  /** Inside a transaction nothing is opened or committed, so nothing of that kind fails. */
  lemma {:induction false} NoBoundaryErrors(p: Prog, db: Db)
    ensures Exec(p, true, db).0 != Err(BeginFailed) && Exec(p, true, db).0 != Err(CommitFailed)
  {
    match p
    case Seq(first, second) =>
      NoBoundaryErrors(first, db);
      NoBoundaryErrors(second, Exec(first, true, db).1);
    case Catch(body) => NoBoundaryErrors(body, db);
    case Recover(body) => NoBoundaryErrors(body, db);
    case RunInTx(_, _, body) => NoBoundaryErrors(body, db);
    case _ =>
  }

  /** Without `Catch` and `Recover` a body succeeds just when all its statements apply in order. */
  lemma {:induction false} UncaughtBody(p: Prog, db: Db)
    requires NoHandler(p)
    ensures Exec(p, true, db).0.Ok? <==> !HasFailure(p) && Replay(Statements(p), db).Some?
    ensures Exec(p, true, db).0.Ok? ==> Replay(Statements(p), db) == Some(Exec(p, true, db).1)
  {
    match p
    case Do(op, fault) =>
      if Apply(op, db).Success? {
        var d := Apply(op, db).value;
        assert [op][1..] == [];
        assert Replay([], d) == Some(d);
      }
    case Seq(first, second) =>
      var (o, d) := Exec(first, true, db);
      UncaughtBody(first, db);
      UncaughtBody(second, d);
      ReplayConcat(Statements(first), Statements(second), db);
    case RunInTx(_, _, body) => UncaughtBody(body, db);
    case _ =>
  }

  /**
    All or nothing: with nothing caught on the way, the database afterwards holds every statement that the body
    contains at any depth, or none; and one failing leaf anywhere is enough for none.
  */
  lemma UncaughtFailureLeavesDatabaseUnchanged(beginOk: bool, commitOk: bool, body: Prog, db: Db)
    requires NoHandler(body)
    ensures
      var (o, d) := Exec(RunInTx(beginOk, commitOk, body), false, db);
      && (o.Ok? <==> beginOk && commitOk && !HasFailure(body) && Replay(Statements(body), db).Some?)
      && (if o.Ok? then Some(d) == Replay(Statements(body), db) else d == db)
  {
    UncaughtBody(body, db);
  }

  /** The reference semantics with real nested transactions: an inner one that fails takes its own writes back. */
  function ExecNested(p: Prog, db: Db): (Outcome, Db) {
    match p
    case Seq(first, second) =>
      var (o, d) := ExecNested(first, db);
      if o.Ok? then ExecNested(second, d) else (o, d)
    case Catch(body) =>
      var (o, d) := ExecNested(body, db);
      (if o.Err? then Ok else o, d)
    case Recover(body) =>
      var (o, d) := ExecNested(body, db);
      (if o.Panicked? then Ok else o, d)
    case RunInTx(_, _, body) =>
      var (o, d) := ExecNested(body, db);
      if o.Ok? then (o, d) else (o, db)
    case _ => Exec(p, true, db)
  }

  /** No inner transaction sits below a handler. */
  predicate NoTxBelowHandler(p: Prog) {
    match p
    case Seq(first, second) => NoTxBelowHandler(first) && NoTxBelowHandler(second)
    case Catch(body) => NoTx(body)
    case Recover(body) => NoTx(body)
    case RunInTx(_, _, body) => NoTxBelowHandler(body)
    case _ => true
  }

  lemma {:induction false} NestedWithoutTx(p: Prog, db: Db)
    requires NoTx(p)
    ensures ExecNested(p, db) == Exec(p, true, db)
  {
    match p
    case Seq(first, second) =>
      NestedWithoutTx(first, db);
      NestedWithoutTx(second, Exec(first, true, db).1);
    case Catch(body) => NestedWithoutTx(body, db);
    case Recover(body) => NestedWithoutTx(body, db);
    case _ =>
  }

  lemma {:induction false} NestedAgreesInTx(p: Prog, db: Db)
    requires NoTxBelowHandler(p)
    ensures ExecNested(p, db).0 == Exec(p, true, db).0
    ensures Exec(p, true, db).0.Ok? ==> ExecNested(p, db) == Exec(p, true, db)
  {
    match p
    case Seq(first, second) =>
      NestedAgreesInTx(first, db);
      NestedAgreesInTx(second, Exec(first, true, db).1);
    case Catch(body) => NestedWithoutTx(body, db);
    case Recover(body) => NestedWithoutTx(body, db);
    case RunInTx(_, _, body) => NestedAgreesInTx(body, db);
    case _ =>
  }

  /** Flattening is as good as real nested transactions as long as no handler encloses an inner `RunInTx`. */
  lemma FlatteningRefinesNestedTransactions(body: Prog, db: Db)
    requires NoTxBelowHandler(body)
    ensures Exec(RunInTx(true, true, body), false, db) == ExecNested(RunInTx(true, true, body), db)
  {
    NestedAgreesInTx(body, db);
  }

  /** Where a handler does enclose one, the write of the failed inner call is committed all the same. */
  lemma CaughtInnerFailureKeepsItsWrite(op: Op, reason: string, db: Db)
    requires Apply(op, db).Success?
    ensures
      var body := Catch(RunInTx(true, true, Seq(Do(op, false), Fail(reason))));
      && Exec(RunInTx(true, true, body), false, db) == (Ok, Apply(op, db).value)
      && ExecNested(RunInTx(true, true, body), db) == (Ok, db)
  {
    var d := Apply(op, db).value;
    var inner := Seq(Do(op, false), Fail(reason));
    assert Exec(Do(op, false), true, db) == (Ok, d);
    assert Exec(inner, true, db) == (Err(Returned(reason)), d);
    assert Exec(RunInTx(true, true, inner), true, db) == (Err(Returned(reason)), d);
    assert Exec(Catch(RunInTx(true, true, inner)), true, db) == (Ok, d);
    assert ExecNested(Do(op, false), db) == (Ok, d);
    assert ExecNested(inner, db) == (Err(Returned(reason)), d);
    assert ExecNested(RunInTx(true, true, inner), db) == (Err(Returned(reason)), db);
  }

  /** Inside one transaction, a handler around an inner `RunInTx`, under both semantics. */
  predicate CannotBeTold(p: Prog, db: Db) {
    Exec(RunInTx(true, true, p), false, db) == ExecNested(RunInTx(true, true, p), db)
  }

  /**
    A handler around an inner `RunInTx` tells flattening from nesting on a database if and only if the inner body fails
    in the way that the handler drops after it has changed something.
  */
  lemma ToldApartIffFailureLeavesAWrite(inner: Prog, db: Db)
    requires NoTxBelowHandler(inner)
    ensures
      var (o, d) := Exec(inner, true, db);
      && (CannotBeTold(Catch(RunInTx(true, true, inner)), db) <==> (o.Err? ==> d == db))
      && (CannotBeTold(Recover(RunInTx(true, true, inner)), db) <==> (o.Panicked? ==> d == db))
  {
    NestedAgreesInTx(inner, db);
    var (o, d) := Exec(inner, true, db);
    assert Exec(RunInTx(true, true, inner), true, db) == (o, d);
    assert ExecNested(RunInTx(true, true, inner), db) == if o.Ok? then (o, d) else (o, db);
    var caught, recovered := Catch(RunInTx(true, true, inner)), Recover(RunInTx(true, true, inner));
    assert Exec(caught, true, db) == (if o.Err? then Ok else o, d);
    assert Exec(recovered, true, db) == (if o.Panicked? then Ok else o, d);
    assert ExecNested(caught, db) == (if o.Err? then Ok else o, if o.Ok? then d else db);
    assert ExecNested(recovered, db) == (if o.Panicked? then Ok else o, if o.Ok? then d else db);
  }

  /** A list of statements, each of which is lost or not. */
  function Body(ops: seq<Op>, faults: seq<bool>): Prog
    requires |faults| == |ops|
  {
    if ops == [] then Skip else Seq(Do(ops[0], faults[0]), Body(ops[1..], faults[1..]))
  }

  /** Some fault on some database lets the caller see that the inner transaction is not one of its own. */
  ghost predicate MayBeTold(ops: seq<Op>) {
    exists faults, db :: |faults| == |ops| && !CannotBeTold(Catch(RunInTx(true, true, Body(ops, faults))), db)
  }

  /** The field validators let this statement through. */
  predicate Acceptable(op: Op) {
    match op
    case CreateJob(_, name, payload, _, _) => name != "" && payload != ""
    case CreateFailedJob(name, payload, reason) => name != "" && payload != "" && reason != ""
    case _ => true
  }

  /** A database on which an acceptable statement succeeds and changes something. */
  function Fertile(op: Op): Db {
    match op
    case DeleteJob(id) => Db(map[id := Job("job", "payload", 0, 0, 0)], [], map[])
    case MarkAsVisibleForManager(msg, _) => Db(map[], [], map[msg := Message(false, false, None)])
    case BlockMessage(msg, _) => Db(map[], [], map[msg := Message(false, false, None)])
    case _ => Db(map[], [], map[])
  }

  lemma FertileChanges(op: Op)
    requires Acceptable(op)
    ensures Apply(op, Fertile(op)).Success? && Apply(op, Fertile(op)).value != Fertile(op)
  {
    var db, d := Fertile(op), Apply(op, Fertile(op)).value;
    match op
    case CreateJob(id, _, _, _, _) => assert id in d.jobs && id !in db.jobs;
    case CreateFailedJob(_, _, _) => assert |d.failed| == |db.failed| + 1;
    case DeleteJob(id) => assert id !in d.jobs && id in db.jobs;
    case MarkAsVisibleForManager(msg, _) => assert d.messages[msg] != db.messages[msg];
    case BlockMessage(msg, _) => assert d.messages[msg] != db.messages[msg];
  }

  /**
    For a body that is a list of statements this can be seen from the list: dropping the error of the inner `RunInTx`
    is safe, whatever fails and whatever the database holds, if and only if there is at most one statement or the
    validators never let the first one through.
  */
  lemma MayBeToldIffWriteCanPrecedeFailure(ops: seq<Op>)
    ensures MayBeTold(ops) <==> |ops| >= 2 && Acceptable(ops[0])
  {
    if |ops| >= 2 && Acceptable(ops[0]) {
      ToldByLosingTheSecond(ops);
    } else {
      forall faults, db | |faults| == |ops|
        ensures CannotBeTold(Catch(RunInTx(true, true, Body(ops, faults))), db)
      {
        StatementsHaveNoHandler(ops, faults);
        ToldApartIffFailureLeavesAWrite(Body(ops, faults), db);
        FailsCleanly(ops, faults, db);
      }
    }
  }

  lemma ToldByLosingTheSecond(ops: seq<Op>)
    requires |ops| >= 2 && Acceptable(ops[0])
    ensures MayBeTold(ops)
  {
    var faults, db := seq(|ops|, i => i == 1), Fertile(ops[0]);
    var d, rest, left := Apply(ops[0], db).value, ops[1..], faults[1..];
    FertileChanges(ops[0]);
    assert Exec(Do(ops[0], false), true, db) == (Ok, d);
    assert Exec(Body(rest, left), true, d) == (Err(Fault), d);
    assert Exec(Body(ops, faults), true, db) == (Err(Fault), d);
    StatementsHaveNoHandler(ops, faults);
    ToldApartIffFailureLeavesAWrite(Body(ops, faults), db);
  }

  lemma {:induction false} StatementsHaveNoHandler(ops: seq<Op>, faults: seq<bool>)
    requires |faults| == |ops|
    ensures NoTxBelowHandler(Body(ops, faults))
  {
    if ops != [] {
      StatementsHaveNoHandler(ops[1..], faults[1..]);
    }
  }

  lemma FailsCleanly(ops: seq<Op>, faults: seq<bool>, db: Db)
    requires |faults| == |ops| && (|ops| < 2 || !Acceptable(ops[0]))
    ensures var (o, d) := Exec(Body(ops, faults), true, db); o.Err? ==> d == db
  {
    if |ops| == 1 {
      assert Body(ops[1..], faults[1..]) == Skip;
    } else if |ops| > 1 {
      assert Exec(Do(ops[0], faults[0]), true, db).0.Err?;
    }
  }

  /** The transaction that a context carries. */
  class Tx {
    var working: Db
    constructor (snapshot: Db)
      ensures working == snapshot
    {
      working := snapshot;
    }
  }

  /** The handle on the database. `stored` is what every other session sees. */
  class Database {
    var stored: Db

    constructor (initial: Db)
      ensures stored == initial
    {
      stored := initial;
    }

    /** Runs a body with the context that carries `tx`, or with none. */
    method Run(tx: Tx?, p: Prog) returns (o: Outcome)
      modifies this, tx
      ensures tx == null ==> (o, stored) == Exec(p, false, old(stored))
      ensures tx != null ==> stored == old(stored) && (o, tx.working) == Exec(p, true, old(tx.working))
      decreases p, 1
    {
      match p
      case Do(op, fault) => o := Statement(tx, op, fault);
      case Fail(reason) => o := Err(Returned(reason));
      case Panic => o := Panicked;
      case Skip => o := Ok;
      case Seq(first, second) =>
        o := Run(tx, first);
        if o.Ok? {
          o := Run(tx, second);
        }
      case Catch(body) =>
        o := Run(tx, body);
        if o.Err? {
          o := Ok;
        }
      case Recover(body) =>
        o := Run(tx, body);
        if o.Panicked? {
          o := Ok;
        }
      case RunInTx(beginOk, commitOk, body) => o := InTx(tx, beginOk, commitOk, body);
    }

    /** One statement through the client that the context selects. */
    method Statement(tx: Tx?, op: Op, fault: bool) returns (o: Outcome)
      modifies this, tx
      ensures tx == null ==> (o, stored) == Exec(Do(op, fault), false, old(stored))
      ensures tx != null ==> stored == old(stored) && (o, tx.working) == Exec(Do(op, fault), true, old(tx.working))
    {
      if fault {
        return Err(Fault);
      }
      if tx != null {
        match Apply(op, tx.working)
        case Success(d) => tx.working := d; o := Ok;
        case Failure(e) => o := Err(e);
      } else {
        match Apply(op, stored)
        case Success(d) => stored := d; o := Ok;
        case Failure(e) => o := Err(e);
      }
    }

    /** `RunInTx`: an enclosing transaction is reused, otherwise one is opened and closed according to the outcome. */
    method InTx(tx: Tx?, beginOk: bool, commitOk: bool, body: Prog) returns (o: Outcome)
      modifies this, tx
      ensures tx == null ==> (o, stored) == Exec(RunInTx(beginOk, commitOk, body), false, old(stored))
      ensures tx != null ==> stored == old(stored) && (o, tx.working) == Exec(body, true, old(tx.working))
      decreases body, 2
    {
      if tx != null {
        o := Run(tx, body);
        return;
      }
      if !beginOk {
        return Err(BeginFailed);
      }
      var txn := new Tx(stored);
      o := Run(txn, body);
      if o.Ok? {
        if commitOk {
          stored := txn.working;
        } else {
          o := Err(CommitFailed);
        }
      }
    }
  }
}
