/**
  The code of one verdict consumer. It works on the database, the dead-letter topic and the committed offset; beside
  them a ghost state of the pipeline is carried along, which shows that everything the code does, together with
  whatever else goes on, is a run of that system.
*/
module VerdictService {
  import opened Wrappers
  import opened Store
  import opened Transactions
  import opened Signing
  import opened Verdicts
  import opened VerdictSafety
  import opened Pipeline

  /** Everything of a consumer that only its own processing loop changes. */
  predicate SameLoopState(k: Consumer, l: Consumer) {
    && l.phase == k.phase && l.base == k.base && l.buffer == k.buffer && l.committed == k.committed
    && l.life == k.life && l.batches == k.batches && l.dlq == k.dlq
  }

  /** The place in the partition and the batches so far are the same. */
  predicate SamePlace(k: Consumer, l: Consumer) {
    l.base == k.base && l.committed == k.committed && l.life == k.life && l.batches == k.batches
  }

  /** The batch follows in the partition, and nothing beyond is committed. */
  predicate Placed(k: Consumer) {
    && k.committed <= k.base <= k.base + |k.buffer| <= |k.log|
    && (forall j | 0 <= j < |k.buffer| :: k.buffer[j].offset == k.base + j)
    && k.buffer == k.log[k.base..k.base + |k.buffer|]
  }

  lemma ReachableTrans(cfg: Config, w: World, u: World)
    requires Reachable(cfg, w) && Reaches(cfg, w, u)
    ensures Reachable(cfg, u)
  {
    var consumers, start :| Reaches(cfg, Verdicts.Init(cfg, consumers, start), w);
    ReachesTrans(cfg, Verdicts.Init(cfg, consumers, start), w, u);
  }

  lemma ReachableIsPlaced(cfg: Config, w: World, c: nat)
    requires Options(cfg) && Reachable(cfg, w) && c < |w.consumers|
    ensures Placed(w.consumers[c])
  {
    ReachableInv(cfg, w);
    assert ConsumerOk(cfg, w.consumers[c]);
  }

  /** The partition only grows. */
  lemma LogGrows(cfg: Config, w: World, u: World, c: nat)
    requires Options(cfg) && Reachable(cfg, w) && Reaches(cfg, w, u) && c < |w.consumers| && c < |u.consumers|
    ensures w.consumers[c].log <= u.consumers[c].log
  {
    ReachableInv(cfg, w);
    var steps :| ValidRun(cfg, w, steps) && Final(cfg, w, steps) == u;
    RunGrows(cfg, w, steps);
  }

  /** A batch that has just been finished is the part of the partition that was passed. */
  lemma Passed(cfg: Config, w: World, u: World, c: nat, stretch: seq<KafkaMessage>)
    requires Options(cfg) && Reachable(cfg, w) && Reaches(cfg, w, u) && c < |w.consumers| && c < |u.consumers|
    requires
      var k, l := w.consumers[c], u.consumers[c];
      l.base == k.base + |stretch| && (stretch == [] || l.batches == k.batches + [stretch])
    ensures
      var k, l := w.consumers[c], u.consumers[c];
      k.log <= l.log && l.base <= |l.log| && stretch == l.log[k.base..l.base]
  {
    var k, l := w.consumers[c], u.consumers[c];
    LogGrows(cfg, w, u, c);
    ReachableTrans(cfg, w, u);
    ReachableInv(cfg, u);
    assert ConsumerOk(cfg, l);
    if stretch != [] {
      assert l.batches[..|l.batches| - 1] == k.batches;
      assert Concat(l.batches) == Concat(k.batches) + stretch;
      assert stretch == Concat(l.batches)[|Concat(k.batches)|..];
    }
  }

  /**
    What one pass of a message through `processBatch` may come to: a verdict of status ok or suspicious takes effect
    within the tries allowed, or the message is written to the dead-letter topic.
  */
  predicate Handled(cfg: Config, m: KafkaMessage, d: Delivery) {
    && d.msg == m
    && match d.fate
       case Effect(id, kind, _) =>
         var r := DecodeMsg(cfg.codec, m.value);
         && r.Success? && r.value.1 == id && 1 <= d.tries <= cfg.retries
         && r.value.0.status == (if kind.Approved? then "ok" else "suspicious")
       case DeadLettered(out) => WrittenAs(cfg, m, out, d.tries)
       case Lost(out) => WrittenAs(cfg, m, out, d.tries)
  }

  /** What goes wrong for one message: in the transaction of each try, and when writing to the dead-letter topic. */
  datatype Trouble = Trouble(tries: nat -> TxFaults, dlq: bool)

  /** Each of the first n tries has a fault. */
  ghost predicate NoneWorks(t: Trouble, n: int) {
    forall j | 0 <= j < n :: !Faultless(t.tries(j))
  }

  /** A verdict of a known status, on a message among `known`. */
  predicate Doable(cfg: Config, known: set<MessageId>, m: KafkaMessage) {
    var r := DecodeMsg(cfg.codec, m.value);
    && r.Success? && (r.value.0.status == "ok" || r.value.0.status == "suspicious")
    && r.value.0.messageId != "" && r.value.1 in known
  }

  /**
    What the trouble lets a message come to. An effect takes a try without a fault; if the verdict can be carried out,
    one such try is enough, and it is the first one that takes effect. Only a failing write loses a message.
  */
  ghost predicate Fitting(cfg: Config, known: set<MessageId>, t: Trouble, d: Delivery) {
    && (d.fate.Lost? ==> t.dlq) && (d.fate.DeadLettered? ==> !t.dlq)
    && (d.fate.Effect? ==> 1 <= d.tries && Faultless(t.tries(d.tries - 1)))
    && (Doable(cfg, known, d.msg) ==> d.fate.Effect? || NoneWorks(t, cfg.retries))
    && (Doable(cfg, known, d.msg) && d.fate.Effect? ==> NoneWorks(t, d.tries - 1))
  }

  /** The deliveries from the n-th on are what the troubles let them be, one trouble for each. */
  ghost predicate AllFitting(cfg: Config, known: set<MessageId>, troubles: nat -> Trouble, ds: seq<Delivery>, n: nat) {
    forall i | n <= i < |ds| :: Fitting(cfg, known, troubles(i - n), ds[i])
  }

  /**
    How it goes when nothing goes wrong: no message is lost, and every verdict of status ok or suspicious on a message
    among `known` takes effect, at the first try.
  */
  ghost predicate Went(cfg: Config, known: set<MessageId>, d: Delivery) {
    !d.fate.Lost? && (Doable(cfg, known, d.msg) ==> d.fate.Effect? && d.tries == 1)
  }

  ghost predicate AllWent(cfg: Config, known: set<MessageId>, ds: seq<Delivery>, n: nat) {
    forall i | n <= i < |ds| :: Went(cfg, known, ds[i])
  }

  const NO_TROUBLE: Trouble := Trouble(_ => TxFaults(false, false, false, false), false)

  lemma WithoutTrouble(cfg: Config, known: set<MessageId>, ds: seq<Delivery>, n: nat)
    requires Options(cfg) && AllFitting(cfg, known, _ => NO_TROUBLE, ds, n)
    ensures AllWent(cfg, known, ds, n)
  {
    assert Faultless(NO_TROUBLE.tries(0));
    forall i | n <= i < |ds|
      ensures Went(cfg, known, ds[i])
    {
      assert Fitting(cfg, known, NO_TROUBLE, ds[i]);
      if ds[i].fate.Effect? && ds[i].tries > 1 {
        assert Faultless(NO_TROUBLE.tries(0));
      }
    }
  }

  lemma WentOn(cfg: Config, known: set<MessageId>, more: set<MessageId>, ds: seq<Delivery>, es: seq<Delivery>, n: nat)
    requires n <= |ds| <= |es| && es[..|ds|] == ds && known <= more
    requires AllWent(cfg, known, ds, n) && AllWent(cfg, more, es, |ds|)
    ensures AllWent(cfg, known, es, n)
  {
    forall i | n <= i < |es|
      ensures Went(cfg, known, es[i])
    {
      if i < |ds| {
        assert es[i] == es[..|ds|][i];
      }
    }
  }

  /**
    `after` adds to `before` one delivery for each of the messages, in their order, and the topic has received the
    rejected ones, in that order too.
  */
  predicate BatchHandled(cfg: Config, messages: seq<KafkaMessage>, before: seq<Delivery>, after: seq<Delivery>,
                         dlqBefore: seq<KafkaMessage>, dlqAfter: seq<KafkaMessage>) {
    && |after| == |before| + |messages|
    && after[..|before|] == before
    && (forall i | 0 <= i < |messages| :: Handled(cfg, messages[i], after[|before| + i]))
    && dlqAfter == dlqBefore + Rejected(after[|before|..])
  }

  lemma BatchSnoc(cfg: Config, messages: seq<KafkaMessage>, i: nat, before: seq<Delivery>, mid: seq<Delivery>,
      after: seq<Delivery>, dlq0: seq<KafkaMessage>, dlq1: seq<KafkaMessage>, dlq2: seq<KafkaMessage>)
    requires i < |messages| && BatchHandled(cfg, messages[..i], before, mid, dlq0, dlq1)
    requires |after| == |mid| + 1 && after[..|mid|] == mid && Handled(cfg, messages[i], after[|mid|])
    requires dlq2 == if after[|mid|].fate.DeadLettered? then dlq1 + [after[|mid|].fate.out] else dlq1
    ensures BatchHandled(cfg, messages[..i + 1], before, after, dlq0, dlq2)
  {
    var n := |before|;
    HandledSnoc(cfg, messages[..i], messages[..i + 1], mid, after, n);
    RejectedSnoc(mid[n..], after[|mid|]);
    assert after == mid + [after[|mid|]];
    assert after[n..] == mid[n..] + [after[|mid|]];
    assert after[..n] == mid[..n];
  }

  lemma FittingSnoc(cfg: Config, known: set<MessageId>, more: set<MessageId>, troubles: nat -> Trouble,
      mid: seq<Delivery>, after: seq<Delivery>, n: nat)
    requires n <= |mid| && |after| == |mid| + 1 && after[..|mid|] == mid && known <= more
    requires AllFitting(cfg, known, troubles, mid, n) && Fitting(cfg, more, troubles(|mid| - n), after[|mid|])
    ensures AllFitting(cfg, known, troubles, after, n)
  {
    forall i | n <= i < |after|
      ensures Fitting(cfg, known, troubles(i - n), after[i])
    {
      if i < |mid| {
        assert after[i] == after[..|mid|][i];
      }
    }
  }

  lemma HandledSnoc(cfg: Config, init: seq<KafkaMessage>, ms: seq<KafkaMessage>, mid: seq<Delivery>,
      after: seq<Delivery>, n: nat)
    requires |ms| == |init| + 1 && ms[..|init|] == init
    requires |mid| == n + |init| && |after| == |mid| + 1 && after[..|mid|] == mid
    requires forall k | 0 <= k < |init| :: Handled(cfg, init[k], mid[n + k])
    requires Handled(cfg, ms[|init|], after[|mid|])
    ensures forall k | 0 <= k < |ms| :: Handled(cfg, ms[k], after[n + k])
  {
    forall k | 0 <= k < |ms|
      ensures Handled(cfg, ms[k], after[n + k])
    {
      if k < |init| {
        assert ms[k] == init[k] && after[n + k] == mid[n + k];
      }
    }
  }

  lemma {:induction false} RejectedConcat(a: seq<Delivery>, b: seq<Delivery>)
    ensures Rejected(a + b) == Rejected(a) + Rejected(b)
  {
    if b == [] {
      assert a + b == a;
    } else {
      var init, d := b[..|b| - 1], b[|b| - 1];
      assert a + b == (a + init) + [d] && b == init + [d];
      RejectedSnoc(a + init, d);
      RejectedConcat(a, init);
    }
  }

  /** Two stretches of the partition, one after the other. */
  lemma BatchConcat(cfg: Config, ms: seq<KafkaMessage>, ns: seq<KafkaMessage>, before: seq<Delivery>,
      mid: seq<Delivery>, after: seq<Delivery>, dlq0: seq<KafkaMessage>, dlq1: seq<KafkaMessage>,
      dlq2: seq<KafkaMessage>)
    requires BatchHandled(cfg, ms, before, mid, dlq0, dlq1) && BatchHandled(cfg, ns, mid, after, dlq1, dlq2)
    ensures BatchHandled(cfg, ms + ns, before, after, dlq0, dlq2)
  {
    var n := |before|;
    assert after[..n] == after[..|mid|][..n];
    assert after[n..] == mid[n..] + after[|mid|..];
    RejectedConcat(mid[n..], after[|mid|..]);
    forall i | 0 <= i < |ms + ns|
      ensures Handled(cfg, (ms + ns)[i], after[n + i])
    {
      if i < |ms| {
        assert after[n + i] == after[..|mid|][n + i];
      } else {
        assert after[n + i] == after[|mid| + (i - |ms|)];
      }
    }
  }

  lemma BatchGrows(cfg: Config, log: seq<KafkaMessage>, longer: seq<KafkaMessage>, a: nat, b: nat, e: nat,
      before: seq<Delivery>, mid: seq<Delivery>, after: seq<Delivery>, dlq0: seq<KafkaMessage>,
      dlq1: seq<KafkaMessage>, dlq2: seq<KafkaMessage>)
    requires log <= longer && a <= b <= |log| && b <= e <= |longer|
    requires BatchHandled(cfg, log[a..b], before, mid, dlq0, dlq1)
    requires BatchHandled(cfg, longer[b..e], mid, after, dlq1, dlq2)
    ensures BatchHandled(cfg, longer[a..e], before, after, dlq0, dlq2)
  {
    BatchConcat(cfg, log[a..b], longer[b..e], before, mid, after, dlq0, dlq1, dlq2);
    assert longer[a..e] == log[a..b] + longer[b..e];
  }

  lemma StepReaches(cfg: Config, from: World, w: World, step: Step)
    requires Reaches(cfg, from, w) && Reachable(cfg, w) && Enabled(cfg, w, step)
    ensures Reaches(cfg, from, Next(cfg, w, step)) && Reachable(cfg, Next(cfg, w, step))
  {
    ReachesStep(cfg, w, step);
    ReachesTrans(cfg, from, w, Next(cfg, w, step));
    ReachableTrans(cfg, w, Next(cfg, w, step));
  }

  function ErrorOf(o: Outcome): Option<ProcessError> {
    match o case Err(e) => Some(TxError(e)) case _ => None
  }

  /**
    The database after a verdict has been carried out: one message has its flag and the time of the check, one job for
    it is new, and nothing else has changed.
  */
  function DbAfter(before: Db, id: MessageId, v: Verdict, job: JobId, now: Time): Db
    requires id in before.messages
  {
    var m := before.messages[id];
    if v.status == "ok" then
      before.(messages := before.messages[id := Message(true, m.blocked, Some(now))],
              jobs := before.jobs[job := Job("client-message-sent", v.messageId, 0, now, now)])
    else
      before.(messages := before.messages[id := Message(m.visibleForManager, true, Some(now))],
              jobs := before.jobs[job := Job("client-message-blocked", v.messageId, 0, now, now)])
  }

  /** Where a consumer is after a call of `processVerdict`. */
  function PhaseAfter(cfg: Config, i: nat, tries: nat, m: KafkaMessage, err: Option<ProcessError>): Phase {
    match err
    case None => Processing(i + 1, 0)
    case Some(UnknownStatus) => Rejecting(i, 1, DlqMessage(m, err))
    case Some(TxError(_)) =>
      if tries + 1 < cfg.retries then Processing(i, tries + 1) else Rejecting(i, tries + 1, DlqMessage(m, err))
  }

  /** The consumer itself after such a call. */
  function AfterCall(cfg: Config, k: Consumer, err: Option<ProcessError>): Consumer
    requires AtMessage(k)
  {
    k.(phase := PhaseAfter(cfg, k.phase.i, k.phase.tries, k.buffer[k.phase.i], err))
  }

  /** The delivery that this try completes. */
  function DeliveryNow(k: Consumer, c: nat, fate: Fate): Delivery
    requires AtMessage(k)
  {
    Delivery(c, k.buffer[k.phase.i], k.phase.tries + 1, fate)
  }

  /** What one transaction means to the consumer it is for. */
  lemma AfterTransaction(cfg: Config, from: World, w: World, c: nat, kind: Kind, v: Verdict, id: MessageId, job: JobId,
      f: TxFaults) returns (u: World, o: Outcome, d: Db)
    requires Reaches(cfg, from, w) && Reachable(cfg, w) && c < |w.consumers| && AtMessage(w.consumers[c])
    requires w.consumers[c].phase.tries < cfg.retries && job !in w.outbox.hist.puts && job !in w.outbox.db.jobs
    requires Current(cfg, w.consumers[c]) == Some((v, id, kind))
    ensures Reaches(cfg, from, u) && Reachable(cfg, u)
    ensures u.outbox.now == w.outbox.now && |u.consumers| == |w.consumers|
    ensures u.outbox.hist.puts.Keys <= w.outbox.hist.puts.Keys + {job}
    ensures u.outbox.db.jobs.Keys <= w.outbox.db.jobs.Keys + {job}
    ensures
      var body := VerdictBody(kind, v, id, job, w.outbox.now, f.first, f.second);
      (o, d) == Exec(RunInTx(!f.begin, !f.commit, body), false, w.outbox.db)
    ensures u.outbox.db == d && !o.Panicked?
    ensures o.Ok? <==> Faultless(f) && id in w.outbox.db.messages && v.messageId != ""
    ensures u.consumers[c] == AfterCall(cfg, w.consumers[c], ErrorOf(o))
    ensures o.Err? ==> u.deliveries == w.deliveries && d == w.outbox.db
    ensures o.Ok? ==>
      && u.deliveries == w.deliveries + [DeliveryNow(w.consumers[c], c, Effect(id, kind, job))]
      && VerdictApplied(w.outbox.db, d, kind, id, v.messageId, job, w.outbox.now)
  {
    var step := Try(c, job, !f.begin, f.first, f.second, !f.commit);
    TryMeans(cfg, w, step, kind, v, id);
    StepReaches(cfg, from, w, step);
    u, o, d := AfterTry(cfg, w, step), TryOutcome(cfg, w, step).0, TryOutcome(cfg, w, step).1;
  }

  lemma TryMeans(cfg: Config, w: World, step: Step, kind: Kind, v: Verdict, id: MessageId)
    requires Enabled(cfg, w, step) && step.Try? && step.job !in w.outbox.db.jobs
    requires Current(cfg, w.consumers[step.c]) == Some((v, id, kind))
    ensures
      var k, u, (o, d) := w.consumers[step.c], AfterTry(cfg, w, step), TryOutcome(cfg, w, step);
      && u.outbox.now == w.outbox.now && |u.consumers| == |w.consumers|
      && u.outbox.hist.puts.Keys <= w.outbox.hist.puts.Keys + {step.job}
      && u.outbox.db.jobs.Keys <= w.outbox.db.jobs.Keys + {step.job}
      && u.outbox.db == d && !o.Panicked?
      && (o.Ok? <==>
          step.beginOk && step.commitOk && !step.updateFault && !step.putFault && id in w.outbox.db.messages
          && v.messageId != "")
      && u.consumers[step.c] == AfterCall(cfg, k, ErrorOf(o))
      && (o.Err? ==> u.deliveries == w.deliveries && d == w.outbox.db)
      && (o.Ok? ==>
            && u.deliveries == w.deliveries + [DeliveryNow(k, step.c, Effect(id, kind, step.job))]
            && VerdictApplied(w.outbox.db, d, kind, id, v.messageId, step.job, w.outbox.now))
  {
    TryIsAllOrNothing(cfg, w, step);
  }

  lemma AfterDlqWrite(cfg: Config, from: World, w: World, c: nat, ok: bool) returns (u: World)
    requires Reaches(cfg, from, w) && Reachable(cfg, w) && c < |w.consumers|
    requires w.consumers[c].phase.Rejecting? && w.consumers[c].phase.i < |w.consumers[c].buffer|
    ensures Reaches(cfg, from, u) && Reachable(cfg, u)
    ensures u.outbox == w.outbox && |u.consumers| == |w.consumers|
    ensures
      var k := w.consumers[c];
      var fate := if ok then DeadLettered(k.phase.out) else Lost(k.phase.out);
      && u.consumers[c] == k.(phase := Processing(k.phase.i + 1, 0), dlq := if ok then k.dlq + [k.phase.out] else k.dlq)
      && Own(u.deliveries, c) == Own(w.deliveries, c) + [Delivery(c, k.buffer[k.phase.i], k.phase.tries, fate)]
  {
    StepReaches(cfg, from, w, WriteDlq(c, ok));
    u := AfterWriteDlq(w, c, ok);
    OwnSnoc(w.deliveries, u.deliveries[|w.deliveries|], c);
  }

  /** One delivery more, of this message, and it took effect. */
  ghost predicate OneEffect(cfg: Config, m: KafkaMessage, known: set<MessageId>, t: Trouble, before: seq<Delivery>,
      after: seq<Delivery>) {
    && |after| == |before| + 1 && after[..|before|] == before && after[|before|].fate.Effect?
    && Handled(cfg, m, after[|before|]) && Fitting(cfg, known, t, after[|before|])
  }

  /** The effect that the status asks for, on the message that the verdict names. */
  predicate EffectOf(v: Verdict, id: MessageId, f: Fate) {
    && f.Effect? && f.msg == id
    && ((v.status == "ok" && f.kind == Approved) || (v.status == "suspicious" && f.kind == Verdicts.Suspicious))
  }

  lemma EffectHandled(cfg: Config, own: seq<Delivery>, m: KafkaMessage, v: Verdict, id: MessageId, j: nat, d: Delivery,
      known: set<MessageId>, t: Trouble)
    requires DecodeMsg(cfg.codec, m.value) == Success((v, id)) && j < cfg.retries
    requires d.msg == m && d.tries == j + 1 && EffectOf(v, id, d.fate) && Faultless(t.tries(j))
    requires id in known && v.messageId != "" ==> NoneWorks(t, j)
    ensures OneEffect(cfg, m, known, t, own, own + [d])
  {
  }

  /** A message without effect, written or lost. */
  function Rejection(c: nat, m: KafkaMessage, tries: nat, err: Option<ProcessError>, fails: bool): Delivery {
    Delivery(c, m, tries, if fails then Lost(DlqMessage(m, err)) else DeadLettered(DlqMessage(m, err)))
  }

  lemma UndecodedHandled(cfg: Config, c: nat, m: KafkaMessage, known: set<MessageId>, t: Trouble)
    requires DecodeMsg(cfg.codec, m.value).Failure?
    ensures var d := Rejection(c, m, 0, None, t.dlq); Handled(cfg, m, d) && Fitting(cfg, known, t, d)
  {
  }

  lemma RejectionHandled(cfg: Config, c: nat, m: KafkaMessage, v: Verdict, id: MessageId, err: ProcessError,
      known: set<MessageId>, t: Trouble)
    requires DecodeMsg(cfg.codec, m.value) == Success((v, id))
    requires err == UnknownStatus <==> v.status != "ok" && v.status != "suspicious"
    requires id in known && v.messageId != "" && err != UnknownStatus ==> NoneWorks(t, cfg.retries)
    ensures
      var d := Rejection(c, m, if err == UnknownStatus then 1 else cfg.retries, Some(err), t.dlq);
      Handled(cfg, m, d) && Fitting(cfg, known, t, d)
  {
  }

  lemma NothingHandled(cfg: Config, ds: seq<Delivery>, dlq: seq<KafkaMessage>)
    ensures BatchHandled(cfg, [], ds, ds, dlq, dlq)
  {
    assert ds[|ds|..] == [];
  }

  class Service {
    const cfg: Config
    const c: nat
    const db: Database
    var now: Time
    var nextJob: nat                     // the source of fresh job identifiers, shared with everybody
    var msgCh: Option<KafkaMessage>      // what the fetching goroutine offers
    var dlq: seq<KafkaMessage>
    var committed: nat
    ghost var world: World

    constructor (cfg: Config, c: nat, consumers: nat, db: Database, now: Time)
      requires Options(cfg) && c < consumers && db.stored == Db(map[], [], map[])
      ensures Valid() && this.cfg == cfg && this.c == c && this.db == db
      ensures world == Verdicts.Init(cfg, consumers, now)
    {
      this.cfg := cfg;
      this.c := c;
      this.db := db;
      this.now := now;
      this.nextJob := 0;
      this.msgCh := None;
      this.dlq := [];
      this.committed := 0;
      this.world := Verdicts.Init(cfg, consumers, now);
      ReachesSelf(cfg, Verdicts.Init(cfg, consumers, now));
    }

    /** The ghost state describes the database, the clock, the topic, the channel and the offset. */
    ghost predicate Valid()
      reads this, db
    {
      && c < |world.consumers|
      && world.outbox.db == db.stored && world.outbox.now == now
      && (forall job | job in world.outbox.hist.puts :: job < nextJob)
      && (forall job | job in world.outbox.db.jobs :: job < nextJob)
      && Options(cfg) && Reachable(cfg, world)
      && world.consumers[c].fetched == msgCh
      && world.consumers[c].dlq == dlq
      && world.consumers[c].committed == committed
    }

    ghost function Me(): Consumer
      requires c < |world.consumers|
      reads this
    {
      world.consumers[c]
    }

    ghost method Advance(from: World, step: Step)
      requires c < |world.consumers| && Reaches(cfg, from, world) && Enabled(cfg, world, step)
      requires Reachable(cfg, world)
      modifies this`world
      ensures world == Next(cfg, old(world), step) && Reaches(cfg, from, world) && Reachable(cfg, world)
    {
      StepReaches(cfg, from, world, step);
      world := Next(cfg, world, step);
    }

    /**
      Whatever else goes on between two actions of this loop: time passes, the goroutine fetches, producers, the outbox
      and other consumers act. Callers rely on the contract alone, which leaves all of that open.
    */
    method Interfere(ghost from: World)
      requires Valid() && Reaches(cfg, from, world)
      modifies this`now, this`nextJob, this`msgCh, this`world, db
      ensures Valid() && Reaches(cfg, from, world)
      ensures SameLoopState(old(Me()), Me()) && old(db.stored).messages.Keys <= db.stored.messages.Keys
      ensures Own(world.deliveries, c) == Own(old(world).deliveries, c)
    {
    }

    /** `processVerdict`: one transaction for a verdict of a known status, an error otherwise. */
    method ProcessVerdict(ghost from: World, v: Verdict, id: MessageId, f: TxFaults)
        returns (err: Option<ProcessError>)
      requires Valid() && Reaches(cfg, from, world)
      requires AtMessage(Me()) && DecodeMsg(cfg.codec, Me().buffer[Me().phase.i].value) == Success((v, id))
      requires Me().phase.tries < cfg.retries
      modifies this`nextJob, this`world, db
      ensures Valid() && Reaches(cfg, from, world)
      ensures err == Some(UnknownStatus) <==> v.status != "ok" && v.status != "suspicious"
      ensures v.status == "ok" || v.status == "suspicious" ==>
        (err.None? <==> Faultless(f) && id in old(db.stored).messages && v.messageId != "")
      ensures Me() == AfterCall(cfg, old(Me()), err) && db.stored.messages.Keys == old(db.stored).messages.Keys
      ensures err.Some? ==> world.deliveries == old(world).deliveries && db.stored == old(db.stored)
      ensures err.None? ==>
        && id in old(db.stored).messages
        && db.stored == DbAfter(old(db.stored), id, v, old(nextJob), now)
        && world.deliveries == old(world).deliveries
           + [DeliveryNow(old(Me()), c,
                          Effect(id, if v.status == "ok" then Approved else Verdicts.Suspicious, old(nextJob)))]
    {
      if v.status == STATUS_OK {
        err := Transact(from, Approved, v, id, f);
      } else if v.status == STATUS_SUSPICIOUS {
        err := Transact(from, Verdicts.Suspicious, v, id, f);
      } else {
        Advance(from, Refuse(c));
        err := Some(UnknownStatus);
      }
    }

    /** The call of `RunInTx` for a verdict of a known kind, with a fresh job identifier. */
    method Transact(ghost from: World, kind: Kind, v: Verdict, id: MessageId, f: TxFaults)
        returns (err: Option<ProcessError>)
      requires Valid() && Reaches(cfg, from, world)
      requires AtMessage(Me()) && Current(cfg, Me()) == Some((v, id, kind)) && Me().phase.tries < cfg.retries
      modifies this`nextJob, this`world, db
      ensures Valid() && Reaches(cfg, from, world)
      ensures err.None? || err.value.TxError?
      ensures err.None? <==> Faultless(f) && id in old(db.stored).messages && v.messageId != ""
      ensures Me() == AfterCall(cfg, old(Me()), err)
      ensures err.Some? ==> world.deliveries == old(world).deliveries && db.stored == old(db.stored)
      ensures err.None? ==>
        && world.deliveries == old(world).deliveries + [DeliveryNow(old(Me()), c, Effect(id, kind, old(nextJob)))]
        && VerdictApplied(old(db.stored), db.stored, kind, id, v.messageId, old(nextJob), now)
    {
      var job := nextJob;
      nextJob := nextJob + 1;
      ghost var o1, d;
      world, o1, d := AfterTransaction(cfg, from, world, c, kind, v, id, job, f);
      var o := db.InTx(null, !f.begin, !f.commit, VerdictBody(kind, v, id, job, now, f.first, f.second));
      assert o == o1 && db.stored == d;
      err := ErrorOf(o);
    }

    /** The retry loop of `processBatch` for one decoded message. */
    method Retry(ghost from: World, i: nat, v: Verdict, id: MessageId, t: Trouble) returns (err: Option<ProcessError>)
      requires Valid() && Reaches(cfg, from, world)
      requires Me().phase == Processing(i, 0) && i < |Me().buffer|
      requires DecodeMsg(cfg.codec, Me().buffer[i].value) == Success((v, id))
      modifies this`now, this`nextJob, this`msgCh, this`world, db
      ensures Valid() && Reaches(cfg, from, world) && old(db.stored).messages.Keys <= db.stored.messages.Keys
      ensures SamePlace(old(Me()), Me()) && Me().buffer == old(Me()).buffer && Me().dlq == old(Me()).dlq
      ensures err == Some(UnknownStatus) <==> v.status != "ok" && v.status != "suspicious"
      ensures
        var m := old(Me()).buffer[i];
        var before, after := Own(old(world).deliveries, c), Own(world.deliveries, c);
        if err.None? then
          Me().phase == Processing(i + 1, 0) && OneEffect(cfg, m, old(db.stored).messages.Keys, t, before, after)
        else
          && after == before
          && (id in old(db.stored).messages && v.messageId != "" && err != Some(UnknownStatus) ==>
                NoneWorks(t, cfg.retries))
          && Me().phase == Rejecting(i, if err == Some(UnknownStatus) then 1 else cfg.retries, DlqMessage(m, err))
    {
      ghost var m, known := Me().buffer[i], db.stored.messages.Keys;
      err := None;
      var j := 0;
      while j < cfg.retries
        invariant 0 <= j < cfg.retries || (j == cfg.retries && err.Some?)
        invariant Valid() && Reaches(cfg, from, world) && known <= db.stored.messages.Keys
        invariant SamePlace(old(Me()), Me()) && Me().buffer == old(Me()).buffer && Me().dlq == old(Me()).dlq
        invariant Own(world.deliveries, c) == Own(old(world).deliveries, c)
        invariant 0 < j ==> err.Some? && err.value.TxError? && (v.status == "ok" || v.status == "suspicious")
        invariant Me().phase == if j < cfg.retries then Processing(i, j) else Rejecting(i, j, DlqMessage(m, err))
        invariant id in known && v.messageId != "" ==> NoneWorks(t, j)
      {
        ghost var d;
        err, d := TryOnce(from, i, j, m, v, id, t.tries(j));
        if err.Some? && err.value != UnknownStatus {
          j := j + 1;
          continue;
        }
        if err.None? {
          EffectHandled(cfg, Own(old(world).deliveries, c), m, v, id, j, d, known, t);
        }
        return;
      }
    }

    /** One try, after whatever others have done in the meantime. */
    method TryOnce(ghost from: World, ghost i: nat, ghost j: nat, ghost m: KafkaMessage, v: Verdict, id: MessageId,
                   f: TxFaults) returns (err: Option<ProcessError>, ghost d: Delivery)
      requires Valid() && Reaches(cfg, from, world)
      requires Me().phase == Processing(i, j) && j < cfg.retries && i < |Me().buffer| && Me().buffer[i] == m
      requires DecodeMsg(cfg.codec, m.value) == Success((v, id))
      modifies this`now, this`nextJob, this`msgCh, this`world, db
      ensures Valid() && Reaches(cfg, from, world) && old(db.stored).messages.Keys <= db.stored.messages.Keys
      ensures SamePlace(old(Me()), Me()) && Me().buffer == old(Me()).buffer && Me().dlq == old(Me()).dlq
      ensures err == Some(UnknownStatus) <==> v.status != "ok" && v.status != "suspicious"
      ensures err.Some? && err != Some(UnknownStatus) && id in old(db.stored).messages && v.messageId != "" ==>
        !Faultless(f)
      ensures Me().phase == PhaseAfter(cfg, i, j, m, err)
      ensures Own(world.deliveries, c) == Own(old(world).deliveries, c) + (if err.None? then [d] else [])
      ensures err.None? ==>
        Faultless(f) && d.consumer == c && d.msg == m && d.tries == j + 1 && EffectOf(v, id, d.fate)
    {
      Interfere(from);
      ghost var ds := world.deliveries;
      d := Rejection(c, m, 0, None, true);
      err := ProcessVerdict(from, v, id, f);
      if err.None? {
        d := world.deliveries[|ds|];
        OwnSnoc(ds, d, c);
      }
    }

    /** A write to the dead-letter topic; when it fails the message is given up. */
    method WriteDlqMessage(ghost from: World, i: nat, out: KafkaMessage, fails: bool)
      requires Valid() && Reaches(cfg, from, world)
      requires Me().phase.Rejecting? && Me().phase.i == i < |Me().buffer| && Me().phase.out == out
      modifies this`dlq, this`world
      ensures Valid() && Reaches(cfg, from, world)
      ensures dlq == if fails then old(dlq) else old(dlq) + [out]
      ensures Me() == old(Me()).(phase := Processing(i + 1, 0), dlq := dlq)
      ensures
        Own(world.deliveries, c) == Own(old(world).deliveries, c)
            + [Delivery(c, old(Me()).buffer[i], old(Me()).phase.tries, if fails then Lost(out) else DeadLettered(out))]
    {
      if !fails {
        dlq := dlq + [out];
      }
      world := AfterDlqWrite(cfg, from, world, c, !fails);
    }

    /** The body of the loop of `processBatch`. */
    method ProcessMessage(ghost from: World, i: nat, msg: KafkaMessage, t: Trouble)
      requires Valid() && Reaches(cfg, from, world)
      requires Me().phase == Processing(i, 0) && i < |Me().buffer| && Me().buffer[i] == msg
      modifies this`now, this`nextJob, this`msgCh, this`dlq, this`world, db
      ensures Valid() && Reaches(cfg, from, world) && old(db.stored).messages.Keys <= db.stored.messages.Keys
      ensures SamePlace(old(Me()), Me()) && Me().buffer == old(Me()).buffer
      ensures Me().phase == Processing(i + 1, 0)
      ensures
        var before, after := Own(old(world).deliveries, c), Own(world.deliveries, c);
        && |after| == |before| + 1 && after[..|before|] == before && Handled(cfg, msg, after[|before|])
        && Fitting(cfg, old(db.stored).messages.Keys, t, after[|before|])
        && dlq == (if after[|before|].fate.DeadLettered? then old(dlq) + [after[|before|].fate.out] else old(dlq))
    {
      var out := msg;
      ghost var known := db.stored.messages.Keys;
      match DecodeMsg(cfg.codec, msg.value)
      case Failure(_) =>
        out := out.(topic := "");
        UndecodedHandled(cfg, c, msg, known, t);
        Advance(from, Refuse(c));
        WriteDlqMessage(from, i, out, t.dlq);
      case Success((v, id)) =>
        var err := Retry(from, i, v, id, t);
        if err.Some? {
          out := out.(headers := out.headers + FormHeaders(err.value, msg.partition));
          out := out.(topic := "");
          RejectionHandled(cfg, c, msg, v, id, err.value, known, t);
          WriteDlqMessage(from, i, out, t.dlq);
        }
    }

    /** `processBatch`: every message is delivered once, in order, whatever happens to the ones before it. */
    method ProcessBatch(ghost from: World, messages: seq<KafkaMessage>, troubles: nat -> Trouble)
      requires Valid() && Reaches(cfg, from, world)
      requires Me().phase == Processing(0, 0) && Me().buffer == messages
      modifies this`now, this`nextJob, this`msgCh, this`dlq, this`world, db
      ensures Valid() && Reaches(cfg, from, world) && old(db.stored).messages.Keys <= db.stored.messages.Keys
      ensures SamePlace(old(Me()), Me()) && Me().buffer == messages
      ensures Me().phase == Processing(|messages|, 0)
      ensures
        var before, after := Own(old(world).deliveries, c), Own(world.deliveries, c);
        && BatchHandled(cfg, messages, before, after, old(dlq), dlq)
        && AllFitting(cfg, old(db.stored).messages.Keys, troubles, after, |before|)
    {
      ghost var before, dlq0, known := Own(world.deliveries, c), dlq, db.stored.messages.Keys;
      assert before[|before|..] == [];
      for i := 0 to |messages|
        invariant Valid() && Reaches(cfg, from, world) && known <= db.stored.messages.Keys
        invariant SamePlace(old(Me()), Me()) && Me().buffer == messages
        invariant Me().phase == Processing(i, 0)
        invariant BatchHandled(cfg, messages[..i], before, Own(world.deliveries, c), dlq0, dlq)
        invariant AllFitting(cfg, known, troubles, Own(world.deliveries, c), |before|)
      {
        ghost var mid, dlq1, more := Own(world.deliveries, c), dlq, db.stored.messages.Keys;
        ProcessMessage(from, i, messages[i], troubles(i));
        BatchSnoc(cfg, messages, i, before, mid, Own(world.deliveries, c), dlq0, dlq1, dlq);
        FittingSnoc(cfg, known, more, troubles, mid, Own(world.deliveries, c), |before|);
      }
      assert messages[..|messages|] == messages;
    }

    /**
      `processMessages` until the context is done or fetching fails, and for at most `rounds` batches. Every message
      the loop has moved past has been delivered exactly once by it, and nothing beyond is committed. Nothing but
      `ends` cuts it short, and if all works every known verdict takes effect and everything is committed.
    */
    method ProcessMessages(rounds: nat, works: bool, ends: bool)
      requires Valid()
      requires Me().phase == Collecting && Me().buffer == []
      modifies this`now, this`nextJob, this`msgCh, this`dlq, this`committed, this`world, db
      ensures Valid() && Reaches(cfg, old(world), world)
      ensures Me().phase == Stopped
      ensures |Me().batches| <= |old(Me()).batches| + rounds && old(Me()).batches <= Me().batches
      ensures !ends ==> |Me().batches| == |old(Me()).batches| + rounds
      ensures committed <= Me().base && old(Me()).base <= Me().base <= |Me().log|
      ensures
        var before, after := Own(old(world).deliveries, c), Own(world.deliveries, c);
        && BatchHandled(cfg, Me().log[old(Me()).base..Me().base], before, after, old(dlq), dlq)
        && (works ==> AllWent(cfg, old(db.stored).messages.Keys, after, |before|))
      ensures works && old(Me()).base < Me().base ==> committed == Me().base
    {
      ghost var from, before, base, dlq0 := world, Own(world.deliveries, c), Me().base, dlq;
      ghost var known := db.stored.messages.Keys;
      ReachesSelf(cfg, from);
      ReachableIsPlaced(cfg, world, c);
      assert before[|before|..] == [] && Me().log[base..base] == [];
      for round := 0 to rounds
        invariant Valid() && Reaches(cfg, from, world) && known <= db.stored.messages.Keys
        invariant Me().phase == Collecting && Me().buffer == []
        invariant |Me().batches| == |old(Me()).batches| + round && old(Me()).batches <= Me().batches
        invariant base <= Me().base <= |Me().log|
        invariant BatchHandled(cfg, Me().log[base..Me().base], before, Own(world.deliveries, c), dlq0, dlq)
        invariant works ==> AllWent(cfg, known, Own(world.deliveries, c), |before|)
        invariant works && base < Me().base ==> committed == Me().base
      {
        ghost var k, mid, dlq1, more := Me(), Own(world.deliveries, c), dlq, db.stored.messages.Keys;
        ghost var stretch;
        var stopped;
        stopped, stretch := ProcessRound(from, works, ends);
        BatchGrows(cfg, k.log, Me().log, base, k.base, Me().base, before, mid, Own(world.deliveries, c), dlq0, dlq1,
            dlq);
        if works {
          WentOn(cfg, known, more, mid, Own(world.deliveries, c), |before|);
        }
        if stopped {
          ReachableIsPlaced(cfg, world, c);
          return;
        }
      }
      Advance(from, Stop(c));
      ReachableIsPlaced(cfg, world, c);
    }

    /**
      One round of the loop: a batch is collected, processed and committed, or the loop is left. `stretch` is the part
      of the partition that has been passed.
    */
    method ProcessRound(ghost from: World, works: bool, ends: bool)
        returns (stopped: bool, ghost stretch: seq<KafkaMessage>)
      requires Valid() && Reaches(cfg, from, world)
      requires Me().phase == Collecting && Me().buffer == []
      modifies this`now, this`nextJob, this`msgCh, this`dlq, this`committed, this`world, db
      ensures Valid() && Reaches(cfg, from, world) && old(db.stored).messages.Keys <= db.stored.messages.Keys
      ensures old(Me()).log <= Me().log && old(Me()).base <= Me().base <= |Me().log|
      ensures stretch == Me().log[old(Me()).base..Me().base]
      ensures BatchHandled(cfg, stretch, Own(old(world).deliveries, c), Own(world.deliveries, c), old(dlq), dlq)
      ensures works ==>
        && AllWent(cfg, old(db.stored).messages.Keys, Own(world.deliveries, c), |Own(old(world).deliveries, c)|)
        && committed == if stretch == [] then old(committed) else Me().base
      ensures stopped ==> ends
      ensures if stopped then stretch == [] && Me().phase == Stopped && Me().batches == old(Me()).batches
              else Me().phase == Collecting && Me().buffer == [] && Me().batches == old(Me()).batches + [stretch]
    {
      ghost var start := world;
      ReachesSelf(cfg, start);
      ReachableIsPlaced(cfg, world, c);
      NothingHandled(cfg, Own(world.deliveries, c), dlq);
      var messages, failed := Collect(start, ends);
      var done: bool := *;
      stopped, stretch := failed || (done && ends), [];
      if stopped {
        Advance(start, Stop(c));
      } else {
        ProcessAndCommit(start, messages, works);
        stretch := messages;
      }
      ReachesTrans(cfg, from, start, world);
      Passed(cfg, start, world, c, stretch);
    }

    /** A collected batch is processed, and then its offsets are committed, or not. */
    method ProcessAndCommit(ghost from: World, messages: seq<KafkaMessage>, works: bool)
      requires Valid() && Reaches(cfg, from, world)
      requires Me().phase == Collecting && Me().buffer == messages
      modifies this`now, this`nextJob, this`msgCh, this`dlq, this`committed, this`world, db
      ensures Valid() && Reaches(cfg, from, world) && old(db.stored).messages.Keys <= db.stored.messages.Keys
      ensures Me().phase == Collecting && Me().buffer == []
      ensures Me().base == old(Me()).base + |messages| && Me().batches == old(Me()).batches + [messages]
      ensures BatchHandled(cfg, messages, Own(old(world).deliveries, c), Own(world.deliveries, c), old(dlq), dlq)
      ensures works ==>
        && AllWent(cfg, old(db.stored).messages.Keys, Own(world.deliveries, c), |Own(old(world).deliveries, c)|)
        && committed == if messages == [] then old(committed) else Me().base
    {
      ghost var known, n := db.stored.messages.Keys, |Own(world.deliveries, c)|;
      var troubles: nat -> Trouble := *;
      var fails: bool := *;
      if works {
        troubles, fails := _ => NO_TROUBLE, false;
      }
      Advance(from, CloseBatch(c));
      ProcessBatch(from, messages, troubles);
      if works {
        WithoutTrouble(cfg, known, Own(world.deliveries, c), n);
      }
      Interfere(from);
      CommitMessages(from, messages, fails);
    }

    /**
      Filling the reused buffer: up to the batch size, until the time is over or fetching has failed. It is left early
      only if nothing is on offer.
    */
    method Collect(ghost from: World, ends: bool) returns (messages: seq<KafkaMessage>, failed: bool)
      requires Valid() && Reaches(cfg, from, world)
      requires Me().phase == Collecting && Me().buffer == []
      modifies this`now, this`nextJob, this`msgCh, this`world, db
      ensures Valid() && Reaches(cfg, from, world) && old(db.stored).messages.Keys <= db.stored.messages.Keys
      ensures Me().phase == Collecting && Me().buffer == messages && |messages| <= cfg.batchSize
      ensures SamePlace(old(Me()), Me()) && Me().dlq == old(Me()).dlq
      ensures Own(world.deliveries, c) == Own(old(world).deliveries, c)
      ensures failed ==> ends
      ensures !failed && |messages| < cfg.batchSize ==> msgCh == None
    {
      messages, failed := [], false;
      for j := 0 to cfg.batchSize
        invariant Valid() && Reaches(cfg, from, world) && old(db.stored).messages.Keys <= db.stored.messages.Keys
        invariant Me().phase == Collecting && Me().buffer == messages && |messages| == j
        invariant SamePlace(old(Me()), Me()) && Me().dlq == old(Me()).dlq
        invariant Own(world.deliveries, c) == Own(old(world).deliveries, c)
      {
        Interfere(from);
        var fetchFailed: bool := *;
        if fetchFailed && ends {
          return messages, true;
        }
        match msgCh
        case None => return;   // the time for this message is over
        case Some(msg) =>
          messages := messages + [msg];
          msgCh := None;
          Advance(from, Receive(c));
      }
    }

    /** Committing the batch; a failure is logged and the loop goes on. */
    method CommitMessages(ghost from: World, messages: seq<KafkaMessage>, fails: bool)
      requires Valid() && Reaches(cfg, from, world)
      requires Me().phase == Processing(|messages|, 0) && Me().buffer == messages
      modifies this`committed, this`world
      ensures Valid() && Reaches(cfg, from, world)
      ensures Me() == AfterCommit(old(Me()), !fails)
      ensures committed == if fails || messages == [] then old(committed) else old(Me()).base + |messages|
      ensures world.deliveries == old(world).deliveries
    {
      ReachableIsPlaced(cfg, world, c);
      if !fails && messages != [] {
        committed := messages[|messages| - 1].offset + 1;
      }
      Advance(from, Commit(c, !fails));
    }
  }
}
