/**
  The commit and rollback middleware of `Tx`. Commit and rollback run the same code over two separate hook lists,
  so one chain of finishers describes both.
*/
module CommitHooks {

  /**
    What a registered hook does around the next finisher: whether it calls it at all, whether it returns at once
    when that call fails (the documented shape) or carries on, and whether its own part after the call fails.
  */
  datatype Hook = Hook(id: nat, callsNext: bool, propagates: bool, fails: bool)

  datatype Event = Before(id: nat) | Real | After(id: nat)

  /** A composed finisher: the driver's own commit or rollback, or a hook around another finisher. */
  datatype Finisher = Driver | Wrapped(hook: Hook, next: Finisher)

  /** Runs a finisher: whether it returns nil, and what happens on the way. */
  function Invoke(f: Finisher, driverOk: bool): (bool, seq<Event>) {
    match f
    case Driver => (driverOk, [Real])
    case Wrapped(h, next) =>
      if !h.callsNext then (!h.fails, [Before(h.id), After(h.id)])
      else
        var (ok, trace) := Invoke(next, driverOk);
        if !ok && h.propagates then (false, [Before(h.id)] + trace)
        else (!h.fails, [Before(h.id)] + trace + [After(h.id)])
  }

  /** The first registered hook is the outermost one. */
  function Chain(hooks: seq<Hook>): Finisher {
    if hooks == [] then Driver else Wrapped(hooks[0], Chain(hooks[1..]))
  }

  function Befores(hooks: seq<Hook>): seq<Event> {
    if hooks == [] then [] else [Before(hooks[0].id)] + Befores(hooks[1..])
  }

  function AftersReversed(hooks: seq<Hook>): seq<Event> {
    if hooks == [] then [] else AftersReversed(hooks[1..]) + [After(hooks[0].id)]
  }

  function Count(e: Event, trace: seq<Event>): nat {
    if trace == [] then 0 else (if trace[0] == e then 1 else 0) + Count(e, trace[1..])
  }

  predicate AllCallNext(hooks: seq<Hook>) {
    forall i | 0 <= i < |hooks| :: hooks[i].callsNext
  }

  lemma {:induction false} CountConcat(e: Event, a: seq<Event>, b: seq<Event>)
    ensures Count(e, a + b) == Count(e, a) + Count(e, b)
  {
    if a == [] {
      assert a + b == b;
    } else {
      assert (a + b)[1..] == a[1..] + b;
      CountConcat(e, a[1..], b);
    }
  }

  /** The parts before in the order of registration, the driver, the parts after in the reverse order. */
  function Onion(hooks: seq<Hook>): seq<Event> {
    Befores(hooks) + [Real] + AftersReversed(hooks)
  }

  /**
    No hook gives up on an error from further in: not the innermost one on that of the driver, and no other one on that
    of the last part of the next hook.
  */
  predicate NoneGivesUp(hooks: seq<Hook>, driverOk: bool) {
    && (hooks != [] && hooks[|hooks| - 1].propagates ==> driverOk)
    && (forall i | 0 <= i < |hooks| - 1 :: hooks[i + 1].fails ==> !hooks[i].propagates)
  }

  lemma NoneGivesUpInTail(hooks: seq<Hook>, driverOk: bool)
    requires hooks != []
    ensures NoneGivesUp(hooks, driverOk) <==>
      && NoneGivesUp(hooks[1..], driverOk)
      && (hooks[0].propagates ==> if |hooks| == 1 then driverOk else !hooks[1].fails)
  {
    var rest := hooks[1..];
    assert forall i | 0 <= i < |rest| :: rest[i] == hooks[i + 1];
    if NoneGivesUp(rest, driverOk) && (hooks[0].propagates ==> if |hooks| == 1 then driverOk else !hooks[1].fails) {
      forall i | 0 <= i < |hooks| - 1
        ensures hooks[i + 1].fails ==> !hooks[i].propagates
      {
        assert i > 0 ==> hooks[i] == rest[i - 1] && hooks[i + 1] == rest[i];
      }
    }
  }

  /** Hooks that all call next: the first half is always complete, the second one unless some hook gives up. */
  lemma {:induction false} TraceOfCallers(hooks: seq<Hook>, driverOk: bool)
    requires AllCallNext(hooks)
    ensures
      var (ok, trace) := Invoke(Chain(hooks), driverOk);
      && Befores(hooks) + [Real] <= trace
      && if NoneGivesUp(hooks, driverOk)
         then trace == Onion(hooks) && ok == (if hooks == [] then driverOk else !hooks[0].fails)
         else |trace| < |Onion(hooks)|
  {
    if hooks != [] {
      var (ok, trace) := Invoke(Chain(hooks[1..]), driverOk);
      TraceOfCallers(hooks[1..], driverOk);
      NoneGivesUpInTail(hooks, driverOk);
      var b, a := Befores(hooks[1..]), AftersReversed(hooks[1..]);
      var e, f := Before(hooks[0].id), After(hooks[0].id);
      assert [e] + (b + [Real]) == ([e] + b) + [Real];
      assert [e] + (b + [Real] + a) + [f] == ([e] + b) + [Real] + (a + [f]);
      assert |Onion(hooks)| == |Onion(hooks[1..])| + 2;
    }
  }

  /**
    Whatever the hooks do and whatever the driver answers, the trace is the onion if and only if every hook calls next
    and none gives up on an error; the result is then that of the outermost hook.
  */
  lemma OnionIffNoneSkipsOrGivesUp(hooks: seq<Hook>, driverOk: bool)
    ensures
      var (ok, trace) := Invoke(Chain(hooks), driverOk);
      && (trace == Onion(hooks) <==> AllCallNext(hooks) && NoneGivesUp(hooks, driverOk))
      && (trace == Onion(hooks) ==> ok == if hooks == [] then driverOk else !hooks[0].fails)
  {
    DriverCalledOnceUnlessSkipped(hooks, driverOk);
    DriverInOnion(hooks);
    if AllCallNext(hooks) {
      TraceOfCallers(hooks, driverOk);
    }
  }

  lemma {:induction false} DriverInOnion(hooks: seq<Hook>)
    ensures Count(Real, Onion(hooks)) == 1
  {
    NoDriverInParts(hooks);
    CountConcat(Real, Befores(hooks) + [Real], AftersReversed(hooks));
    CountConcat(Real, Befores(hooks), [Real]);
    assert Count(Real, [Real]) == 1;
  }

  lemma {:induction false} NoDriverInParts(hooks: seq<Hook>)
    ensures Count(Real, Befores(hooks)) == 0 && Count(Real, AftersReversed(hooks)) == 0
  {
    if hooks != [] {
      NoDriverInParts(hooks[1..]);
      CountConcat(Real, [Before(hooks[0].id)], Befores(hooks[1..]));
      CountConcat(Real, AftersReversed(hooks[1..]), [After(hooks[0].id)]);
    }
  }

  /** When the driver fails below hooks of the documented shape, no part after it runs and the error comes out. */
  lemma {:induction false} FailureSkipsAfterParts(hooks: seq<Hook>)
    requires AllCallNext(hooks)
    requires forall i | 0 <= i < |hooks| :: hooks[i].propagates
    ensures Invoke(Chain(hooks), false) == (false, Befores(hooks) + [Real])
  {
    if hooks == [] {
      assert [] + [Real] == [Real];
    } else {
      FailureSkipsAfterParts(hooks[1..]);
      var b := Befores(hooks[1..]);
      var e := Before(hooks[0].id);
      assert [e] + (b + [Real]) == ([e] + b) + [Real];
    }
  }

  /** Whatever else the hooks do, the driver is called exactly once, or never if one of them skips next. */
  lemma {:induction false} DriverCalledOnceUnlessSkipped(hooks: seq<Hook>, driverOk: bool)
    ensures Count(Real, Invoke(Chain(hooks), driverOk).1) == (if AllCallNext(hooks) then 1 else 0)
  {
    if hooks == [] {
      assert Invoke(Chain(hooks), driverOk).1 == [Real];
    } else {
      var h, rest := hooks[0], hooks[1..];
      var trace := Invoke(Chain(rest), driverOk).1;
      DriverCalledOnceUnlessSkipped(rest, driverOk);
      assert AllCallNext(hooks) <==> h.callsNext && AllCallNext(rest) by {
        assert AllCallNext(rest) ==> forall i | 1 <= i < |hooks| :: hooks[i] == rest[i - 1];
        assert AllCallNext(hooks) ==> forall i | 0 <= i < |rest| :: rest[i] == hooks[i + 1];
      }
      CountConcat(Real, [Before(h.id)], trace);
      CountConcat(Real, [Before(h.id)] + trace, [After(h.id)]);
    }
  }

  /** Where an error may start: hook `i` itself, or the driver below all hooks. */
  predicate Fails(hooks: seq<Hook>, driverOk: bool, i: nat) {
    i <= |hooks| && if i == |hooks| then !driverOk else hooks[i].fails
  }

  /** It comes out if every hook outside of it calls next and returns what it gets. */
  predicate ComesOut(hooks: seq<Hook>, i: nat) {
    i <= |hooks| && forall j | 0 <= j < i :: hooks[j].callsNext && hooks[j].propagates
  }

  /**
    Whatever the hooks do, an error is returned if and only if one starts somewhere and every hook further out calls
    next and gives up on it; a hook that skips next answers for itself.
  */
  lemma {:induction false} ErrorIffOneComesOut(hooks: seq<Hook>, driverOk: bool)
    ensures !Invoke(Chain(hooks), driverOk).0 <==>
            exists i: nat :: Fails(hooks, driverOk, i) && ComesOut(hooks, i)
  {
    if hooks == [] {
      assert ComesOut(hooks, 0);
      assert Fails(hooks, driverOk, 0) <==> !driverOk;
    } else {
      var rest := hooks[1..];
      ErrorIffOneComesOut(rest, driverOk);
      assert ComesOut(hooks, 0);
      assert Fails(hooks, driverOk, 0) <==> hooks[0].fails;
      forall i: nat
        ensures Fails(hooks, driverOk, i + 1) <==> Fails(rest, driverOk, i)
        ensures ComesOut(hooks, i + 1) <==> hooks[0].callsNext && hooks[0].propagates && ComesOut(rest, i)
      {
        ComesOutLater(hooks, i);
      }
      if i: nat :| Fails(hooks, driverOk, i) && ComesOut(hooks, i) && i > 0 {
        assert Fails(rest, driverOk, i - 1) && ComesOut(rest, i - 1);
      }
      if i: nat :| Fails(rest, driverOk, i) && ComesOut(rest, i) {
        assert Fails(hooks, driverOk, i + 1);
      }
    }
  }

  lemma ComesOutLater(hooks: seq<Hook>, i: nat)
    requires hooks != []
    ensures ComesOut(hooks, i + 1) <==> hooks[0].callsNext && hooks[0].propagates && ComesOut(hooks[1..], i)
  {
    if ComesOut(hooks, i + 1) {
      forall j | 0 <= j < i
        ensures hooks[1..][j].callsNext && hooks[1..][j].propagates
      {
        assert hooks[1..][j] == hooks[j + 1];
      }
    }
    if hooks[0].callsNext && hooks[0].propagates && ComesOut(hooks[1..], i) {
      forall j | 0 <= j < i + 1
        ensures hooks[j].callsNext && hooks[j].propagates
      {
        assert j > 0 ==> hooks[j] == hooks[1..][j - 1];
      }
    }
  }

  lemma {:induction false} ChainSnoc(hooks: seq<Hook>, i: nat)
    requires i < |hooks|
    ensures Chain(hooks[i..]) == Wrapped(hooks[i], Chain(hooks[i + 1..]))
  {
    assert hooks[i..][1..] == hooks[i + 1..];
  }

  class Tx {
    var onCommit: seq<Hook>
    var onRollback: seq<Hook>

    constructor ()
      ensures onCommit == [] && onRollback == []
    {
      onCommit, onRollback := [], [];
    }

    method OnCommit(h: Hook)
      modifies this`onCommit
      ensures onCommit == old(onCommit) + [h]
    {
      onCommit := onCommit + [h];
    }

    method OnRollback(h: Hook)
      modifies this`onRollback
      ensures onRollback == old(onRollback) + [h]
    {
      onRollback := onRollback + [h];
    }

    method Commit(driverOk: bool) returns (ok: bool, trace: seq<Event>)
      ensures (ok, trace) == Invoke(Chain(onCommit), driverOk)
    {
      ok, trace := Finish(onCommit, driverOk);
    }

    method Rollback(driverOk: bool) returns (ok: bool, trace: seq<Event>)
      ensures (ok, trace) == Invoke(Chain(onRollback), driverOk)
    {
      ok, trace := Finish(onRollback, driverOk);
    }

    /** The reverse loop that both share. */
    static method Finish(registered: seq<Hook>, driverOk: bool) returns (ok: bool, trace: seq<Event>)
      ensures (ok, trace) == Invoke(Chain(registered), driverOk)
    {
      var fn := Driver;
      var hooks := registered;
      for i := |hooks| downto 0
        invariant fn == Chain(hooks[i..])
      {
        ChainSnoc(hooks, i);
        fn := Wrapped(hooks[i], fn);
      }
      assert hooks[0..] == hooks;
      var r := Invoke(fn, driverOk);
      return r.0, r.1;
    }
  }
}
