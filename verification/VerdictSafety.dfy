/** What every reachable state of the delivery pipeline satisfies. */
module VerdictSafety {
  import opened Wrappers
  import opened Store
  import opened Signing
  import opened Verdicts
  import Outbox
  import OutboxSafety

  function Concat<T>(xss: seq<seq<T>>): seq<T> {
    if xss == [] then [] else Concat(xss[..|xss| - 1]) + xss[|xss| - 1]
  }

  /** The deliveries of consumer `c`. */
  function Own(ds: seq<Delivery>, c: nat): seq<Delivery> {
    if ds == [] then []
    else Own(ds[..|ds| - 1], c) + (if ds[|ds| - 1].consumer == c then [ds[|ds| - 1]] else [])
  }

  lemma OwnSnoc(ds: seq<Delivery>, d: Delivery, c: nat)
    ensures Own(ds + [d], c) == Own(ds, c) + (if d.consumer == c then [d] else [])
  {
    assert (ds + [d])[..|ds|] == ds;
  }

  /** The messages of the deliveries that were written to the dead-letter topic. */
  function Rejected(ds: seq<Delivery>): seq<KafkaMessage> {
    if ds == [] then []
    else Rejected(ds[..|ds| - 1]) + (if ds[|ds| - 1].fate.DeadLettered? then [ds[|ds| - 1].fate.out] else [])
  }

  lemma RejectedSnoc(ds: seq<Delivery>, d: Delivery)
    ensures Rejected(ds + [d]) == Rejected(ds) + (if d.fate.DeadLettered? then [d.fate.out] else [])
  {
    assert (ds + [d])[..|ds|] == ds;
  }

  predicate DeliveredBy(d: Delivery, c: nat, o: nat) {
    d.consumer == c && d.msg.offset == o
  }

  ghost predicate Delivered(ds: seq<Delivery>, c: nat, o: nat) {
    exists j :: 0 <= j < |ds| && DeliveredBy(ds[j], c, o)
  }

  /** All messages before this offset have been through `processBatch` at least once. */
  function Done(k: Consumer): nat {
    if k.phase.Processing? || k.phase.Rejecting? then k.base + k.phase.i else k.base
  }

  predicate LogOk(log: seq<KafkaMessage>) {
    forall o | 0 <= o < |log| :: log[o].offset == o
  }

  /** The batch and the fetched message follow each other in the partition. */
  predicate BufferOk(log: seq<KafkaMessage>, base: nat, buffer: seq<KafkaMessage>, fetched: Option<KafkaMessage>) {
    && base + |buffer| + (if fetched.Some? then 1 else 0) <= |log|
    && buffer == log[base..base + |buffer|]
    && (fetched.Some? ==> fetched.value == log[base + |buffer|])
  }

  /** The batches since the last restart are the partition up to the current place. */
  predicate BatchesOk(cfg: Config, log: seq<KafkaMessage>, life: nat, committed: nat, base: nat,
      batches: seq<seq<KafkaMessage>>) {
    && life <= committed <= base <= |log|
    && Concat(batches) == log[life..base]
    && (forall b | 0 <= b < |batches| :: |batches[b]| <= cfg.batchSize)
  }

  ghost predicate PhaseInBatch(cfg: Config, buffer: seq<KafkaMessage>, phase: Verdicts.Phase) {
    && (phase.Processing? ==> phase.i <= |buffer| && phase.tries < cfg.retries)
    && (phase.Rejecting? ==> phase.i < |buffer| && RejectedAs(cfg, buffer[phase.i], phase.out, phase.tries))
  }

  /** The consumer and its partition. */
  ghost predicate ConsumerOk(cfg: Config, k: Consumer) {
    && LogOk(k.log)
    && |k.buffer| <= cfg.batchSize && BufferOk(k.log, k.base, k.buffer, k.fetched)
    && BatchesOk(cfg, k.log, k.life, k.committed, k.base, k.batches)
    && PhaseInBatch(cfg, k.buffer, k.phase)
  }

  /** The last deliveries are those of the messages since the last restart, each once and in their order. */
  predicate InOrderSinceRestart(k: Consumer, own: seq<Delivery>) {
    && k.life <= Done(k) <= k.life + |own|
    && AreFrom(own[|own| - (Done(k) - k.life)..], k.life)
  }

  /** Deliveries of successive messages. */
  predicate AreFrom(ds: seq<Delivery>, o: nat) {
    forall i | 0 <= i < |ds| :: ds[i].msg.offset == o + i
  }

  /** Its deliveries cover everything it is past, and its dead-letter messages are those of its deliveries. */
  ghost predicate Covered(k: Consumer, ds: seq<Delivery>, c: nat) {
    && (forall o: nat | o < Done(k) :: Delivered(ds, c, o))
    && InOrderSinceRestart(k, Own(ds, c))
    && k.dlq == Rejected(Own(ds, c))
  }

  /**
    `out` is what becomes of a message without effect: key and value untouched, after as many tries as the reason
    takes.
  */
  ghost predicate RejectedAs(cfg: Config, m: KafkaMessage, out: KafkaMessage, tries: nat) {
    && out.key == m.key && out.value == m.value && out.topic == "" && out.partition == m.partition
        && out.offset == m.offset
    && match DecodeMsg(cfg.codec, m.value)
       case Failure(_) => tries == 0 && out.headers == m.headers
       case Success((v, _)) =>
         if KindOf(v.status).None? then tries == 1 && out.headers == m.headers + FormHeaders(UnknownStatus, m.partition)
         else tries == cfg.retries && exists e :: out.headers == m.headers + FormHeaders(TxError(e), m.partition)
  }

  predicate FlagSet(m: Message, kind: Kind) {
    match kind
    case Approved => m.visibleForManager
    case Suspicious => m.blocked
  }

  /** The message carries a verdict of this kind on this chat message. */
  predicate VerdictOf(cfg: Config, m: KafkaMessage, id: MessageId, kind: Kind) {
    var r := DecodeMsg(cfg.codec, m.value);
    r.Success? && r.value.1 == id && KindOf(r.value.0.status) == Some(kind)
  }

  /** A delivery took effect for the message its verdict names, or was rejected. */
  ghost predicate DeliveryOk(cfg: Config, w: World, d: Delivery) {
    && d.consumer < |w.consumers|
    && d.msg.offset < |w.consumers[d.consumer].log|
    && w.consumers[d.consumer].log[d.msg.offset] == d.msg
    && match d.fate
       case Effect(id, kind, job) =>
         && 1 <= d.tries <= cfg.retries
         && VerdictOf(cfg, d.msg, id, kind)
         && job in w.outbox.hist.puts
         && w.outbox.hist.puts[job].name == JobName(kind)
         && w.outbox.hist.puts[job].payload == DecodeMsg(cfg.codec, d.msg.value).value.0.messageId
         && id in w.outbox.db.messages && FlagSet(w.outbox.db.messages[id], kind)
       case DeadLettered(out) => RejectedAs(cfg, d.msg, out, d.tries)
       case Lost(out) => RejectedAs(cfg, d.msg, out, d.tries)
  }

  predicate HasEffect(d: Delivery, job: JobId) {
    d.fate.Effect? && d.fate.job == job
  }

  ghost predicate CameFromVerdict(ds: seq<Delivery>, job: JobId) {
    exists j :: 0 <= j < |ds| && HasEffect(ds[j], job)
  }

  ghost predicate FlaggedBy(ds: seq<Delivery>, id: MessageId, kind: Kind) {
    exists j :: 0 <= j < |ds| && ds[j].fate.Effect? && ds[j].fate.msg == id && ds[j].fate.kind == kind
  }

  /** Verdict jobs and flags come from effects, and different effects have different jobs. */
  ghost predicate Effects(w: World) {
    && (forall i, j | 0 <= i < j < |w.deliveries| && w.deliveries[i].fate.Effect? && w.deliveries[j].fate.Effect? ::
          w.deliveries[i].fate.job != w.deliveries[j].fate.job)
    && (forall job | job in w.outbox.hist.puts && IsVerdictJob(w.outbox.hist.puts[job].name) ::
        CameFromVerdict(w.deliveries, job))
    && (forall id, kind | id in w.outbox.db.messages && FlagSet(w.outbox.db.messages[id], kind) ::
        FlaggedBy(w.deliveries, id, kind))
  }

  ghost predicate Inv(cfg: Config, w: World) {
    && OutboxSafety.Inv(cfg.outbox, w.outbox)
    && (forall c | 0 <= c < |w.consumers| ::
        ConsumerOk(cfg, w.consumers[c]) && Covered(w.consumers[c], w.deliveries, c))
    && (forall j | 0 <= j < |w.deliveries| :: DeliveryOk(cfg, w, w.deliveries[j]))
    && Effects(w)
  }

  lemma InitInv(cfg: Config, consumers: nat, now: Time)
    ensures Inv(cfg, Init(cfg, consumers, now))
  {
    OutboxSafety.InitInv(cfg.outbox, now);
  }

  /** The outbox does not look at messages. */
  lemma OutboxIgnoresMessages(cfg: Outbox.Config, s: Outbox.State, t: Outbox.State)
    requires OutboxSafety.Inv(cfg, s)
    requires exists ms :: t == s.(db := s.db.(messages := ms))
    ensures OutboxSafety.Inv(cfg, t)
  {
    forall w | 0 <= w < |s.workers|
      ensures OutboxSafety.WorkerOk(cfg, t, t.workers[w])
    {
      assert OutboxSafety.WorkerOk(cfg, s, s.workers[w]);
    }
    forall k | 0 <= k < |s.hist.runs|
      ensures OutboxSafety.RunOk(t, t.hist.runs[k])
    {
      assert OutboxSafety.RunOk(s, s.hist.runs[k]);
    }
    forall id
      ensures id in t.hist.puts <==>
          OutboxSafety.Live(t, id) || OutboxSafety.Completed(t, id) || OutboxSafety.Buried(t, id)
      ensures !(OutboxSafety.Live(t, id) && OutboxSafety.Completed(t, id))
      ensures !(OutboxSafety.Live(t, id) && OutboxSafety.Buried(t, id))
      ensures !(OutboxSafety.Completed(t, id) && OutboxSafety.Buried(t, id))
    {
      assert OutboxSafety.Live(t, id) == OutboxSafety.Live(s, id);
      assert OutboxSafety.Completed(t, id) == OutboxSafety.Completed(s, id);
      assert OutboxSafety.Buried(t, id) == OutboxSafety.Buried(s, id);
    }
  }

  /** A fresh identifier is in no table. */
  lemma FreshJob(cfg: Config, w: World, job: JobId)
    requires Inv(cfg, w) && job !in w.outbox.hist.puts
    ensures job !in w.outbox.db.jobs && !CameFromVerdict(w.deliveries, job)
  {
    assert !OutboxSafety.Live(w.outbox, job);
    forall j | 0 <= j < |w.deliveries|
      ensures !HasEffect(w.deliveries[j], job)
    {
      assert DeliveryOk(cfg, w, w.deliveries[j]);
    }
  }

  /** To the outbox a try that takes effect is a put. */
  lemma TryOutboxInv(cfg: Config, w: World, step: Step)
    requires Inv(cfg, w) && Enabled(cfg, w, step) && step.Try?
    ensures OutboxSafety.Inv(cfg.outbox, Next(cfg, w, step).outbox)
  {
    var u := Next(cfg, w, step);
    var (v, id, kind) := Current(cfg, w.consumers[step.c]).value;
    FreshJob(cfg, w, step.job);
    TryIsAllOrNothing(cfg, w, step);
    if TryOutcome(cfg, w, step).0.Ok? {
      var touched := w.outbox.(db := w.outbox.db.(messages := u.outbox.db.messages));
      var put := Outbox.Put(step.job, JobName(kind), v.messageId, w.outbox.now);
      OutboxIgnoresMessages(cfg.outbox, w.outbox, touched);
      OutboxSafety.StepInv(cfg.outbox, touched, put);
      assert u.outbox == Outbox.Next(cfg.outbox, touched, put);
    } else {
      assert u.outbox == w.outbox;
    }
  }

  lemma OutboxStepInv(cfg: Config, w: World, step: Step)
    requires Inv(cfg, w) && Enabled(cfg, w, step)
    ensures OutboxSafety.Inv(cfg.outbox, Next(cfg, w, step).outbox)
  {
    match step
    case OutboxStep(st) => OutboxSafety.StepInv(cfg.outbox, w.outbox, st);
    case NewMessage(_) => OutboxIgnoresMessages(cfg.outbox, w.outbox, Next(cfg, w, step).outbox);
    case Try(_, _, _, _, _, _) => TryOutboxInv(cfg, w, step);
    case _ => assert Next(cfg, w, step).outbox == w.outbox;
  }

  /** Puts, messages with their flags, deliveries and partitions only ever grow. */
  ghost predicate Grows(w: World, u: World) {
    && (forall job | job in w.outbox.hist.puts ::
        job in u.outbox.hist.puts && u.outbox.hist.puts[job] == w.outbox.hist.puts[job])
    && (forall id | id in w.outbox.db.messages :: id in u.outbox.db.messages)
    && (forall id, kind | id in w.outbox.db.messages && FlagSet(w.outbox.db.messages[id], kind) ::
        FlagSet(u.outbox.db.messages[id], kind))
    && w.deliveries <= u.deliveries
    && |u.consumers| == |w.consumers|
    && (forall c | 0 <= c < |w.consumers| :: w.consumers[c].log <= u.consumers[c].log)
  }

  lemma StepGrows(cfg: Config, w: World, step: Step)
    requires Enabled(cfg, w, step) && (step.Try? ==> step.job !in w.outbox.db.jobs)
    ensures Grows(w, Next(cfg, w, step))
  {
    match step
    case OutboxStep(st) => OutboxStepKeepsMessages(cfg, w, st);
    case Try(_, _, _, _, _, _) => TryIsAllOrNothing(cfg, w, step);
    case _ =>
  }

  lemma OutboxStepKeepsMessages(cfg: Config, w: World, st: Outbox.Step)
    requires Enabled(cfg, w, OutboxStep(st))
    ensures
      var t := Outbox.Next(cfg.outbox, w.outbox, st);
      && t.db.messages == w.outbox.db.messages
      && (forall job | job in w.outbox.hist.puts :: job in t.hist.puts && t.hist.puts[job] == w.outbox.hist.puts[job])
      && (forall job | job in t.hist.puts && job !in w.outbox.hist.puts :: !IsVerdictJob(t.hist.puts[job].name))
  {
    if st.Bury? {
      OutboxSafety.BuryEffect(cfg.outbox, w.outbox, st);
    }
  }

  lemma DeliveryFrame(cfg: Config, w: World, u: World, d: Delivery)
    requires DeliveryOk(cfg, w, d) && Grows(w, u)
    ensures DeliveryOk(cfg, u, d)
  {
    assert w.consumers[d.consumer].log <= u.consumers[d.consumer].log;
  }

  /** The new delivery of a step, if it makes one. */
  ghost predicate AddsDelivery(cfg: Config, w: World, u: World, c: nat) {
    && c < |w.consumers| && |u.deliveries| == |w.deliveries| + 1
    && u.deliveries[..|w.deliveries|] == w.deliveries
    && DeliveryOk(cfg, u, u.deliveries[|w.deliveries|])
    && DeliveredBy(u.deliveries[|w.deliveries|], c, Done(w.consumers[c]))
  }

  lemma NewEffect(cfg: Config, w: World, step: Step)
    requires Enabled(cfg, w, step) && step.Try? && step.job !in w.outbox.db.jobs && ConsumerOk(cfg, w.consumers[step.c])
    ensures var u := Next(cfg, w, step); u.deliveries == w.deliveries || AddsDelivery(cfg, w, u, step.c)
  {
    TryIsAllOrNothing(cfg, w, step);
  }

  lemma NewRejection(cfg: Config, w: World, step: Step)
    requires Enabled(cfg, w, step) && step.WriteDlq? && ConsumerOk(cfg, w.consumers[step.c])
    ensures AddsDelivery(cfg, w, Next(cfg, w, step), step.c)
  {
  }

  /** A step adds at most one delivery, which is sound. */
  lemma NewDelivery(cfg: Config, w: World, step: Step)
    requires Inv(cfg, w) && Enabled(cfg, w, step)
    ensures AtMostOneDelivery(cfg, w, step)
  {
    if step.Try? {
      FreshJob(cfg, w, step.job);
      NewEffect(cfg, w, step);
    } else if step.WriteDlq? {
      NewRejection(cfg, w, step);
    }
  }

  lemma DeliveriesStep(cfg: Config, w: World, step: Step)
    requires Enabled(cfg, w, step) && Grows(w, Next(cfg, w, step))
    requires forall j | 0 <= j < |w.deliveries| :: DeliveryOk(cfg, w, w.deliveries[j])
    requires var u := Next(cfg, w, step); u.deliveries == w.deliveries || exists c :: AddsDelivery(cfg, w, u, c)
    ensures
      var u := Next(cfg, w, step);
      forall j | 0 <= j < |u.deliveries| :: DeliveryOk(cfg, u, u.deliveries[j])
  {
    var u := Next(cfg, w, step);
    forall j | 0 <= j < |u.deliveries|
      ensures DeliveryOk(cfg, u, u.deliveries[j])
    {
      if j < |w.deliveries| {
        assert u.deliveries[j] == w.deliveries[j];
        DeliveryFrame(cfg, w, u, w.deliveries[j]);
      }
    }
  }

  lemma EffectsStep(cfg: Config, w: World, step: Step)
    requires Inv(cfg, w) && Enabled(cfg, w, step)
    ensures Effects(Next(cfg, w, step))
  {
    match step
    case OutboxStep(st) =>
      OutboxStepKeepsMessages(cfg, w, st);
      EffectsFrame(w, Next(cfg, w, step));
    case Try(_, _, _, _, _, _) => TryEffects(cfg, w, step);
    case _ => EffectsFrame(w, Next(cfg, w, step));
  }

  lemma EffectsFrame(w: World, u: World)
    requires Effects(w)
    requires w.deliveries <= u.deliveries && forall j | |w.deliveries| <= j < |u.deliveries| ::
        !u.deliveries[j].fate.Effect?
    requires forall job | job in u.outbox.hist.puts && IsVerdictJob(u.outbox.hist.puts[job].name) ::
               job in w.outbox.hist.puts && IsVerdictJob(w.outbox.hist.puts[job].name)
    requires forall id, kind | id in u.outbox.db.messages && FlagSet(u.outbox.db.messages[id], kind) ::
               id in w.outbox.db.messages && FlagSet(w.outbox.db.messages[id], kind)
    ensures Effects(u)
  {
    forall job | job in u.outbox.hist.puts && IsVerdictJob(u.outbox.hist.puts[job].name)
      ensures CameFromVerdict(u.deliveries, job)
    {
      var j :| 0 <= j < |w.deliveries| && HasEffect(w.deliveries[j], job);
      assert HasEffect(u.deliveries[j], job);
    }
    forall id, kind | id in u.outbox.db.messages && FlagSet(u.outbox.db.messages[id], kind)
      ensures FlaggedBy(u.deliveries, id, kind)
    {
      assert FlaggedBy(w.deliveries, id, kind);
      var j :| 0 <= j < |w.deliveries| && w.deliveries[j].fate.Effect? && w.deliveries[j].fate.msg == id
          && w.deliveries[j].fate.kind == kind;
      assert u.deliveries[j] == w.deliveries[j];
    }
  }

  lemma TryEffects(cfg: Config, w: World, step: Step)
    requires Inv(cfg, w) && Enabled(cfg, w, step) && step.Try?
    ensures Effects(Next(cfg, w, step))
  {
    var u := Next(cfg, w, step);
    var (v, id, kind) := Current(cfg, w.consumers[step.c]).value;
    FreshJob(cfg, w, step.job);
    TryIsAllOrNothing(cfg, w, step);
    if TryOutcome(cfg, w, step).0.Ok? {
      EffectAdded(w, u, u.deliveries[|w.deliveries|]);
    } else {
      EffectsFrame(w, u);
    }
  }

  lemma EffectAdded(w: World, u: World, d: Delivery)
    requires Effects(w) && d.fate.Effect? && u.deliveries == w.deliveries + [d]
        && !CameFromVerdict(w.deliveries, d.fate.job)
    requires u.outbox.hist.puts.Keys == w.outbox.hist.puts.Keys + {d.fate.job}
    requires forall job | job in w.outbox.hist.puts && job != d.fate.job ::
        u.outbox.hist.puts[job] == w.outbox.hist.puts[job]
    requires forall id, kind | id in u.outbox.db.messages && FlagSet(u.outbox.db.messages[id], kind) ::
               (id == d.fate.msg && kind == d.fate.kind)
                   || (id in w.outbox.db.messages && FlagSet(w.outbox.db.messages[id], kind))
    ensures Effects(u)
  {
    var n := |w.deliveries|;
    assert HasEffect(u.deliveries[n], d.fate.job);
    forall job | job in u.outbox.hist.puts && IsVerdictJob(u.outbox.hist.puts[job].name)
      ensures CameFromVerdict(u.deliveries, job)
    {
      if job != d.fate.job {
        assert CameFromVerdict(w.deliveries, job);
        var j :| 0 <= j < n && HasEffect(w.deliveries[j], job);
        assert HasEffect(u.deliveries[j], job);
      }
    }
    forall x, y | x in u.outbox.db.messages && FlagSet(u.outbox.db.messages[x], y)
      ensures FlaggedBy(u.deliveries, x, y)
    {
      if x == d.fate.msg && y == d.fate.kind {
        assert u.deliveries[n] == d;
      } else {
        assert FlaggedBy(w.deliveries, x, y);
        var j :| 0 <= j < n && w.deliveries[j].fate.Effect? && w.deliveries[j].fate.msg == x
            && w.deliveries[j].fate.kind == y;
        assert u.deliveries[j] == w.deliveries[j];
      }
    }
    forall i | 0 <= i < n && u.deliveries[i].fate.Effect?
      ensures u.deliveries[i].fate.job != d.fate.job
    {
      assert !HasEffect(w.deliveries[i], d.fate.job);
    }
  }

  lemma SliceOfLonger(log: seq<KafkaMessage>, m: KafkaMessage, a: nat, b: nat)
    requires a <= b <= |log|
    ensures (log + [m])[a..b] == log[a..b]
  {
  }

  lemma ProduceOk(cfg: Config, k: Consumer, m: KafkaMessage)
    requires ConsumerOk(cfg, k) && m.offset == |k.log|
    ensures ConsumerOk(cfg, k.(log := k.log + [m]))
  {
    LongerLog(k.log, m);
    LongerBuffer(k.log, m, k.base, k.buffer, k.fetched);
    LongerBatches(cfg, k.log, m, k.life, k.committed, k.base, k.batches);
  }

  lemma LongerLog(log: seq<KafkaMessage>, m: KafkaMessage)
    requires LogOk(log) && m.offset == |log|
    ensures LogOk(log + [m])
  {
  }

  lemma LongerBuffer(log: seq<KafkaMessage>, m: KafkaMessage, base: nat, buffer: seq<KafkaMessage>,
      fetched: Option<KafkaMessage>)
    requires BufferOk(log, base, buffer, fetched)
    ensures BufferOk(log + [m], base, buffer, fetched)
  {
    SliceOfLonger(log, m, base, base + |buffer|);
  }

  lemma LongerBatches(cfg: Config, log: seq<KafkaMessage>, m: KafkaMessage, life: nat, committed: nat, base: nat,
      batches: seq<seq<KafkaMessage>>)
    requires BatchesOk(cfg, log, life, committed, base, batches)
    ensures BatchesOk(cfg, log + [m], life, committed, base, batches)
  {
    SliceOfLonger(log, m, life, base);
  }

  lemma ReceiveOk(cfg: Config, k: Consumer)
    requires ConsumerOk(cfg, k) && k.phase.Collecting? && k.fetched.Some? && |k.buffer| < cfg.batchSize
    ensures ConsumerOk(cfg, k.(buffer := k.buffer + [k.fetched.value], fetched := None))
  {
    FetchedJoins(k.log, k.base, k.buffer, k.fetched.value);
  }

  lemma FetchedJoins(log: seq<KafkaMessage>, base: nat, buffer: seq<KafkaMessage>, m: KafkaMessage)
    requires BufferOk(log, base, buffer, Some(m))
    ensures BufferOk(log, base, buffer + [m], None)
  {
    SliceSnoc(log, base, base + |buffer|);
  }

  lemma SliceSnoc(log: seq<KafkaMessage>, a: nat, b: nat)
    requires a <= b < |log|
    ensures log[a..b + 1] == log[a..b] + [log[b]]
  {
  }

  lemma CommitOk(cfg: Config, k: Consumer, ok: bool)
    requires ConsumerOk(cfg, k) && k.phase.Processing?
    ensures ConsumerOk(cfg, AfterCommit(k, ok))
  {
    BatchFinished(cfg, k.log, k.life, k.committed, k.base, k.batches, k.buffer);
  }

  lemma BatchFinished(cfg: Config, log: seq<KafkaMessage>, life: nat, committed: nat, base: nat,
      batches: seq<seq<KafkaMessage>>, buffer: seq<KafkaMessage>)
    requires BatchesOk(cfg, log, life, committed, base, batches) && |buffer| <= cfg.batchSize
    requires base + |buffer| <= |log| && buffer == log[base..base + |buffer|]
    ensures BatchesOk(cfg, log, life, committed, base + |buffer|, batches + [buffer])
    ensures BatchesOk(cfg, log, life, base + |buffer|, base + |buffer|, batches + [buffer])
  {
    assert (batches + [buffer])[..|batches|] == batches;
    assert log[life..base] + log[base..base + |buffer|] == log[life..base + |buffer|];
  }

  lemma RestartOk(cfg: Config, k: Consumer)
    requires ConsumerOk(cfg, k)
    ensures ConsumerOk(cfg, AfterRestart(k))
  {
    assert k.log[k.committed..k.committed] == [];
  }

  lemma RefuseOk(cfg: Config, k: Consumer)
    requires ConsumerOk(cfg, k) && AtMessage(k) && Current(cfg, k).None?
    ensures ConsumerOk(cfg, AfterRefuse(cfg, k))
  {
  }

  lemma FetchOk(cfg: Config, k: Consumer)
    requires ConsumerOk(cfg, k) && k.fetched.None? && Position(k) < |k.log|
    ensures ConsumerOk(cfg, k.(fetched := Some(k.log[Position(k)])))
  {
  }

  lemma PhaseOk(cfg: Config, k: Consumer, phase: Verdicts.Phase, dlq: seq<KafkaMessage>)
    requires Options(cfg) && ConsumerOk(cfg, k)
    requires phase.Stopped? || (phase.Processing? && phase.i <= |k.buffer| && phase.tries == 0)
    ensures ConsumerOk(cfg, k.(phase := phase, dlq := dlq))
  {
  }

  lemma TryOk(cfg: Config, w: World, step: Step)
    requires Options(cfg) && Enabled(cfg, w, step) && step.Try? && step.job !in w.outbox.db.jobs
        && ConsumerOk(cfg, w.consumers[step.c])
    ensures ConsumerOk(cfg, Next(cfg, w, step).consumers[step.c])
  {
    TryIsAllOrNothing(cfg, w, step);
  }

  predicate IsReaderStep(step: Step) {
    step.Produce? || step.Fetch? || step.Receive? || step.CloseBatch? || step.Stop? || step.Restart?
  }

  lemma ConsumerStep(cfg: Config, w: World, step: Step, c: nat)
    requires Options(cfg) && Enabled(cfg, w, step) && (step.Try? ==> step.job !in w.outbox.db.jobs)
    requires c < |w.consumers| && ConsumerOk(cfg, w.consumers[c])
    ensures var u := Next(cfg, w, step); c < |u.consumers| && ConsumerOk(cfg, u.consumers[c])
  {
    if step.OutboxStep? || step.NewMessage? || step.c != c {
      OtherConsumer(cfg, w, step, c);
    } else if IsReaderStep(step) {
      ReaderStep(cfg, w, step);
    } else {
      BatchStep(cfg, w, step);
    }
  }

  lemma WriteDlqOk(cfg: Config, w: World, step: Step)
    requires Options(cfg) && Enabled(cfg, w, step) && step.WriteDlq? && ConsumerOk(cfg, w.consumers[step.c])
    ensures ConsumerOk(cfg, Next(cfg, w, step).consumers[step.c])
  {
    PhaseOk(cfg, w.consumers[step.c], Processing(w.consumers[step.c].phase.i + 1, 0),
        Next(cfg, w, step).consumers[step.c].dlq);
  }

  lemma ReaderStep(cfg: Config, w: World, step: Step)
    requires Options(cfg) && Enabled(cfg, w, step) && IsReaderStep(step) && ConsumerOk(cfg, w.consumers[step.c])
    ensures ConsumerOk(cfg, Next(cfg, w, step).consumers[step.c])
  {
    var k, l := w.consumers[step.c], Next(cfg, w, step).consumers[step.c];
    match step
    case Produce(_, m) => ProduceOk(cfg, k, m); assert l == k.(log := k.log + [m]);
    case Fetch(_) => FetchOk(cfg, k); assert l == k.(fetched := Some(k.log[Position(k)]));
    case Receive(_) => ReceiveOk(cfg, k); assert l == k.(buffer := k.buffer + [k.fetched.value], fetched := None);
    case Restart(_) => RestartOk(cfg, k); assert l == AfterRestart(k);
    case CloseBatch(_) => PhaseOk(cfg, k, Processing(0, 0), k.dlq); assert l == k.(phase := Processing(0, 0));
    case Stop(_) => PhaseOk(cfg, k, Stopped, k.dlq); assert l == k.(phase := Stopped);
  }

  lemma BatchStep(cfg: Config, w: World, step: Step)
    requires Options(cfg) && Enabled(cfg, w, step) && (step.Try? ==> step.job !in w.outbox.db.jobs)
    requires !step.OutboxStep? && !step.NewMessage? && !IsReaderStep(step) && ConsumerOk(cfg, w.consumers[step.c])
    ensures ConsumerOk(cfg, Next(cfg, w, step).consumers[step.c])
  {
    if step.Try? {
      TryOk(cfg, w, step);
    } else if step.Refuse? {
      RefuseOk(cfg, w.consumers[step.c]);
    } else if step.WriteDlq? {
      WriteDlqOk(cfg, w, step);
    } else {
      CommitOk(cfg, w.consumers[step.c], step.ok);
    }
  }

  lemma OtherConsumer(cfg: Config, w: World, step: Step, c: nat)
    requires Enabled(cfg, w, step) && c < |w.consumers| && (step.OutboxStep? || step.NewMessage? || step.c != c)
    ensures var u := Next(cfg, w, step); |u.consumers| == |w.consumers| && u.consumers[c] == w.consumers[c]
  {
  }

  lemma DeliveredGrows(ds: seq<Delivery>, es: seq<Delivery>, c: nat, o: nat)
    requires ds <= es && Delivered(ds, c, o)
    ensures Delivered(es, c, o)
  {
    var j :| 0 <= j < |ds| && DeliveredBy(ds[j], c, o);
    assert DeliveredBy(es[j], c, o);
  }

  lemma CoveredStep(cfg: Config, w: World, step: Step, c: nat)
    requires Enabled(cfg, w, step) && (step.Try? ==> step.job !in w.outbox.db.jobs)
    requires c < |w.consumers| && ConsumerOk(cfg, w.consumers[c]) && Covered(w.consumers[c], w.deliveries, c)
    requires AtMostOneDelivery(cfg, w, step)
    ensures var u := Next(cfg, w, step); c < |u.consumers| && Covered(u.consumers[c], u.deliveries, c)
  {
    var u := Next(cfg, w, step);
    DoneMoves(cfg, w, step, c);
    CoverageGrows(w.consumers[c], u.consumers[c], w.deliveries, u.deliveries, c);
  }

  lemma CoverageGrows(k: Consumer, l: Consumer, ds: seq<Delivery>, es: seq<Delivery>, c: nat)
    requires Covered(k, ds, c)
    requires Moves(k, l, ds, es, c) || (es == ds && Restarted(k, l))
    ensures Covered(l, es, c)
  {
    OffsetsGrow(k, l, ds, es, c);
    OwnMoves(k, l, ds, es, c);
  }

  lemma OwnMoves(k: Consumer, l: Consumer, ds: seq<Delivery>, es: seq<Delivery>, c: nat)
    requires InOrderSinceRestart(k, Own(ds, c)) && k.dlq == Rejected(Own(ds, c))
    requires Moves(k, l, ds, es, c) || (es == ds && Restarted(k, l))
    ensures InOrderSinceRestart(l, Own(es, c)) && l.dlq == Rejected(Own(es, c))
  {
    if es != ds {
      OwnGrows(ds, es, c);
      if es[|ds|].consumer == c {
        OrderGrows(k, l, Own(ds, c), es[|ds|]);
        RejectedSnoc(Own(ds, c), es[|ds|]);
      }
    }
  }

  lemma OffsetsGrow(k: Consumer, l: Consumer, ds: seq<Delivery>, es: seq<Delivery>, c: nat)
    requires forall o: nat | o < Done(k) :: Delivered(ds, c, o)
    requires Moves(k, l, ds, es, c) || (es == ds && Restarted(k, l))
    ensures forall o: nat | o < Done(l) :: Delivered(es, c, o)
  {
    forall o: nat | o < Done(l)
      ensures Delivered(es, c, o)
    {
      if o < Done(k) {
        DeliveredGrows(ds, es, c, o);
      } else {
        assert DeliveredBy(es[|ds|], c, o);
      }
    }
  }

  lemma OwnGrows(ds: seq<Delivery>, es: seq<Delivery>, c: nat)
    requires |es| == |ds| + 1 && es[..|ds|] == ds
    ensures Own(es, c) == if es[|ds|].consumer == c then Own(ds, c) + [es[|ds|]] else Own(ds, c)
  {
  }

  lemma OrderGrows(k: Consumer, l: Consumer, own: seq<Delivery>, d: Delivery)
    requires InOrderSinceRestart(k, own) && d.msg.offset == Done(k) && Done(l) == Done(k) + 1 && l.life == k.life
    ensures InOrderSinceRestart(l, own + [d])
  {
    var n := Done(k) - k.life;
    assert (own + [d])[|own| - n..] == own[|own| - n..] + [d];
  }

  /** Nothing is delivered to the end, and the place in the partition is the same. */
  predicate Still(k: Consumer, l: Consumer) {
    Done(l) == Done(k) && l.life == k.life && l.dlq == k.dlq
  }

  predicate AddsOwn(k: Consumer, l: Consumer, ds: seq<Delivery>, es: seq<Delivery>, c: nat) {
    && |es| == |ds| + 1 && es[..|ds|] == ds && DeliveredBy(es[|ds|], c, Done(k))
    && Done(l) == Done(k) + 1 && l.life == k.life
    && l.dlq == k.dlq + (if es[|ds|].fate.DeadLettered? then [es[|ds|].fate.out] else [])
  }

  predicate AddsOther(k: Consumer, l: Consumer, ds: seq<Delivery>, es: seq<Delivery>, c: nat) {
    |es| == |ds| + 1 && es[..|ds|] == ds && es[|ds|].consumer != c && Still(k, l)
  }

  /** What a step other than a restart means to a consumer: `Done` moves with its own deliveries. */
  predicate Moves(k: Consumer, l: Consumer, ds: seq<Delivery>, es: seq<Delivery>, c: nat) {
    (es == ds && Still(k, l)) || AddsOwn(k, l, ds, es, c) || AddsOther(k, l, ds, es, c)
  }

  /** A restart goes back to the committed offset. */
  predicate Restarted(k: Consumer, l: Consumer) {
    l.life == Done(l) <= Done(k) && l.dlq == k.dlq
  }

  ghost predicate AtMostOneDelivery(cfg: Config, w: World, step: Step)
    requires Enabled(cfg, w, step)
  {
    var u := Next(cfg, w, step);
    u.deliveries == w.deliveries || ((step.Try? || step.WriteDlq?) && AddsDelivery(cfg, w, u, step.c))
  }

  lemma DoneMoves(cfg: Config, w: World, step: Step, c: nat)
    requires Enabled(cfg, w, step) && (step.Try? ==> step.job !in w.outbox.db.jobs)
    requires c < |w.consumers| && ConsumerOk(cfg, w.consumers[c]) && AtMostOneDelivery(cfg, w, step)
    ensures
      var u := Next(cfg, w, step);
      && c < |u.consumers|
      && if step == Restart(c) then u.deliveries == w.deliveries && Restarted(w.consumers[c], u.consumers[c])
         else Moves(w.consumers[c], u.consumers[c], w.deliveries, u.deliveries, c)
  {
    if step.OutboxStep? || step.NewMessage? || step.c != c {
      OtherConsumer(cfg, w, step, c);
    } else if step.Try? {
      TryMoves(cfg, w, step);
    } else if step.WriteDlq? {
      WriteDlqMoves(cfg, w, step);
    } else if IsReaderStep(step) {
      ReaderMoves(cfg, w, step);
    } else {
      RefuseOrCommitMoves(cfg, w, step);
    }
  }

  lemma TryMoves(cfg: Config, w: World, step: Step)
    requires Enabled(cfg, w, step) && step.Try? && step.job !in w.outbox.db.jobs && AtMostOneDelivery(cfg, w, step)
    ensures
      var u := Next(cfg, w, step);
      step.c < |u.consumers| && Moves(w.consumers[step.c], u.consumers[step.c], w.deliveries, u.deliveries, step.c)
  {
    TryIsAllOrNothing(cfg, w, step);
  }

  lemma WriteDlqMoves(cfg: Config, w: World, step: Step)
    requires Enabled(cfg, w, step) && step.WriteDlq? && AtMostOneDelivery(cfg, w, step)
    ensures
      var u := Next(cfg, w, step);
      step.c < |u.consumers| && Moves(w.consumers[step.c], u.consumers[step.c], w.deliveries, u.deliveries, step.c)
  {
  }

  lemma ReaderMoves(cfg: Config, w: World, step: Step)
    requires Enabled(cfg, w, step) && IsReaderStep(step) && ConsumerOk(cfg, w.consumers[step.c])
    ensures
      var u := Next(cfg, w, step);
      && step.c < |u.consumers| && u.deliveries == w.deliveries
      && if step.Restart? then Restarted(w.consumers[step.c], u.consumers[step.c])
         else Still(w.consumers[step.c], u.consumers[step.c])
  {
  }

  lemma RefuseOrCommitMoves(cfg: Config, w: World, step: Step)
    requires Enabled(cfg, w, step) && (step.Refuse? || step.Commit?)
    ensures
      var u := Next(cfg, w, step);
      step.c < |u.consumers| && u.deliveries == w.deliveries && Still(w.consumers[step.c], u.consumers[step.c])
  {
  }

  lemma StepInv(cfg: Config, w: World, step: Step)
    requires Options(cfg) && Inv(cfg, w) && Enabled(cfg, w, step)
    ensures Inv(cfg, Next(cfg, w, step))
  {
    var u := Next(cfg, w, step);
    if step.Try? {
      FreshJob(cfg, w, step.job);
    }
    OutboxStepInv(cfg, w, step);
    StepGrows(cfg, w, step);
    NewDelivery(cfg, w, step);
    DeliveriesStep(cfg, w, step);
    EffectsStep(cfg, w, step);
    ConsumersStep(cfg, w, step);
  }

  lemma ConsumersStep(cfg: Config, w: World, step: Step)
    requires Options(cfg) && Enabled(cfg, w, step) && (step.Try? ==> step.job !in w.outbox.db.jobs)
    requires forall c | 0 <= c < |w.consumers| ::
        ConsumerOk(cfg, w.consumers[c]) && Covered(w.consumers[c], w.deliveries, c)
    requires |Next(cfg, w, step).consumers| == |w.consumers| && AtMostOneDelivery(cfg, w, step)
    ensures
      var u := Next(cfg, w, step);
      forall c | 0 <= c < |u.consumers| :: ConsumerOk(cfg, u.consumers[c]) && Covered(u.consumers[c], u.deliveries, c)
  {
    var u := Next(cfg, w, step);
    forall c | 0 <= c < |u.consumers|
      ensures ConsumerOk(cfg, u.consumers[c]) && Covered(u.consumers[c], u.deliveries, c)
    {
      ConsumerStep(cfg, w, step, c);
      CoveredStep(cfg, w, step, c);
    }
  }

  lemma {:induction false} RunInv(cfg: Config, w: World, steps: seq<Step>)
    requires Options(cfg) && Inv(cfg, w) && ValidRun(cfg, w, steps)
    ensures Inv(cfg, Final(cfg, w, steps))
    decreases |steps|
  {
    if steps != [] {
      StepInv(cfg, w, steps[0]);
      RunInv(cfg, Next(cfg, w, steps[0]), steps[1..]);
    }
  }
}
