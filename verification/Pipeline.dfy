/** The promises of the delivery pipeline from the committed offset to the fate of the notification job. */
module Pipeline {
  import opened Wrappers
  import opened Store
  import opened Signing
  import opened Verdicts
  import opened VerdictSafety
  import Outbox
  import OutboxSafety

  ghost predicate Reachable(cfg: Config, w: World) {
    exists consumers, start :: Reaches(cfg, Init(cfg, consumers, start), w)
  }

  lemma ReachableInv(cfg: Config, w: World)
    requires Options(cfg) && Reachable(cfg, w)
    ensures Inv(cfg, w)
  {
    var consumers, start :| Reaches(cfg, Init(cfg, consumers, start), w);
    var steps :| ValidRun(cfg, Init(cfg, consumers, start), steps)
        && Final(cfg, Init(cfg, consumers, start), steps) == w;
    InitInv(cfg, consumers, start);
    RunInv(cfg, Init(cfg, consumers, start), steps);
  }

  /**
    The verdict took effect. For status ok the message is visible for the manager and a client-message-sent job was
    created; for status suspicious it is blocked and a client-message-blocked job was created. The job is in exactly
    one place now.
  */
  ghost predicate TookEffect(cfg: Config, w: World, m: KafkaMessage, id: MessageId, job: JobId) {
    var r := DecodeMsg(cfg.codec, m.value);
    && r.Success? && r.value.1 == id
    && id in w.outbox.db.messages && job in w.outbox.hist.puts
    && w.outbox.hist.puts[job].payload == r.value.0.messageId
    && (|| (&& r.value.0.status == "ok" && w.outbox.db.messages[id].visibleForManager
            && w.outbox.hist.puts[job].name == "client-message-sent")
        || (&& r.value.0.status == "suspicious" && w.outbox.db.messages[id].blocked
            && w.outbox.hist.puts[job].name == "client-message-blocked"))
    && ExactlyOne(OutboxSafety.Live(w.outbox, job), OutboxSafety.Completed(w.outbox, job),
        OutboxSafety.Buried(w.outbox, job))
  }

  /**
    How a message is written to the dead-letter topic: key, value, partition and offset are its own. One that does not
    decode keeps its headers; any other one has two more, the error of the last try and the partition it came from. A
    known status is given up after all tries, an unknown one after the first.
  */
  predicate WrittenAs(cfg: Config, m: KafkaMessage, out: KafkaMessage, tries: nat) {
    && out.key == m.key && out.value == m.value && out.topic == "" && out.partition == m.partition
    && out.offset == m.offset
    && var r := DecodeMsg(cfg.codec, m.value);
       if r.Failure? then tries == 0 && out.headers == m.headers
       else
         && |out.headers| == |m.headers| + 2 && out.headers[..|m.headers|] == m.headers
         && out.headers[|m.headers|].key == "LAST_ERROR" && out.headers[|m.headers|].value.ErrorText?
         && out.headers[|m.headers| + 1].key == "ORIGINAL_PARTITION"
         && out.headers[|m.headers| + 1].value == PartitionText(m.partition)
         && if r.value.0.status == "ok" || r.value.0.status == "suspicious"
            then tries == cfg.retries && out.headers[|m.headers|].value.error.TxError?
            else tries == 1 && out.headers[|m.headers|].value.error == UnknownStatus
  }

  lemma RejectedIsWritten(cfg: Config, m: KafkaMessage, out: KafkaMessage, tries: nat)
    requires RejectedAs(cfg, m, out, tries)
    ensures WrittenAs(cfg, m, out, tries)
  {
  }

  predicate ExactlyOne(a: bool, b: bool, c: bool) {
    (a || b || c) && !(a && b) && !(a && c) && !(b && c)
  }

  ghost predicate Accounted(cfg: Config, w: World, c: nat, d: Delivery) {
    c < |w.consumers| &&
    match d.fate
    case Effect(id, _, job) => 1 <= d.tries <= cfg.retries && TookEffect(cfg, w, d.msg, id, job)
    case DeadLettered(out) => out in w.consumers[c].dlq && WrittenAs(cfg, d.msg, out, d.tries)
    case Lost(out) => WrittenAs(cfg, d.msg, out, d.tries)
  }

  /**
    Every message before the committed offset has been through `processBatch`, and that delivery ended in one of three
    ways: the flag is set and its job was created in the same transaction and is live, completed or in failed_jobs; or
    the message is on the dead-letter topic with its key and value; or the write to that topic failed.
  */
  lemma CommittedMeansAccounted(cfg: Config, w: World, c: nat, o: nat)
    requires Options(cfg) && Reachable(cfg, w) && c < |w.consumers| && o < w.consumers[c].committed
    ensures o < |w.consumers[c].log|
    ensures exists j ::
      && 0 <= j < |w.deliveries| && DeliveredBy(w.deliveries[j], c, o)
      && w.deliveries[j].msg == w.consumers[c].log[o]
      && Accounted(cfg, w, c, w.deliveries[j])
  {
    ReachableInv(cfg, w);
    assert ConsumerOk(cfg, w.consumers[c]) && Covered(w.consumers[c], w.deliveries, c);
    assert Delivered(w.deliveries, c, o);
    var j :| 0 <= j < |w.deliveries| && DeliveredBy(w.deliveries[j], c, o);
    assert DeliveryOk(cfg, w, w.deliveries[j]);
    DeliveryAccounted(cfg, w, j);
  }

  lemma DeliveryAccounted(cfg: Config, w: World, j: nat)
    requires OutboxSafety.Fates(w.outbox) && j < |w.deliveries| && DeliveryOk(cfg, w, w.deliveries[j])
    requires w.consumers[w.deliveries[j].consumer].dlq == Rejected(Own(w.deliveries, w.deliveries[j].consumer))
    ensures Accounted(cfg, w, w.deliveries[j].consumer, w.deliveries[j])
  {
    var d := w.deliveries[j];
    match d.fate
    case Effect(id, kind, job) =>
      DecodedId(cfg.codec, d.msg.value);
      OneFate(w.outbox, job);
    case DeadLettered(out) => InDlq(w.deliveries, d.consumer, j);
    case Lost(_) =>
  }

  lemma OneFate(s: Outbox.State, job: JobId)
    requires OutboxSafety.Fates(s) && job in s.hist.puts
    ensures ExactlyOne(OutboxSafety.Live(s, job), OutboxSafety.Completed(s, job), OutboxSafety.Buried(s, job))
  {
    assert !(OutboxSafety.Live(s, job) && OutboxSafety.Completed(s, job));
  }

  lemma {:induction false} InDlq(ds: seq<Delivery>, c: nat, j: nat)
    requires j < |ds| && ds[j].consumer == c && ds[j].fate.DeadLettered?
    ensures ds[j].fate.out in Rejected(Own(ds, c))
  {
    var n := |ds| - 1;
    if j < n {
      InDlq(ds[..n], c, j);
    }
    OwnGrows(ds[..n], ds, c);
    if ds[n].consumer == c {
      RejectedSnoc(Own(ds[..n], c), ds[n]);
    }
  }

  /**
    End to end: a committed verdict of a known status has been delivered, and unless a write of that very message to the
    dead-letter topic failed, the delivery ended in one of two ways. It took effect on the chat message that the verdict
    names, with a job of its own that is now live, completed or in failed_jobs; or the verdict is on the dead-letter
    topic after as many tries as are configured.
  */
  lemma EndToEnd(cfg: Config, consumers: nat, start: Time, steps: seq<Step>, c: nat, o: nat, v: Verdict,
      id: MessageId)
    requires Options(cfg) && ValidRun(cfg, Init(cfg, consumers, start), steps)
    requires !DlqWriteFailed(cfg, Init(cfg, consumers, start), steps, c, o)
    requires
      var w := Final(cfg, Init(cfg, consumers, start), steps);
      c < |w.consumers| && o < w.consumers[c].committed && o < |w.consumers[c].log|
          && DecodeMsg(cfg.codec, w.consumers[c].log[o].value) == Success((v, id))
    requires v.status == "ok" || v.status == "suspicious"
    ensures
      var w := Final(cfg, Init(cfg, consumers, start), steps);
      exists j ::
        0 <= j < |w.deliveries| && DeliveredBy(w.deliveries[j], c, o) && CarriedOut(cfg, w, w.deliveries[j], id)
  {
    var w0 := Init(cfg, consumers, start);
    var w := Final(cfg, w0, steps);
    assert Reaches(cfg, w0, w);
    CommittedMeansAccounted(cfg, w, c, o);
    var j :| 0 <= j < |w.deliveries| && DeliveredBy(w.deliveries[j], c, o)
        && w.deliveries[j].msg == w.consumers[c].log[o] && Accounted(cfg, w, c, w.deliveries[j]);
    InitInv(cfg, consumers, start);
    LostIffWriteFailed(cfg, w0, steps, c, o);
    assert !IsLost(w.deliveries[j], c, o);
  }

  /** The delivery did what the verdict asks for, or gave it to the dead-letter topic. */
  ghost predicate CarriedOut(cfg: Config, w: World, d: Delivery, id: MessageId) {
    match d.fate
    case Effect(i, _, job) => i == id && TookEffect(cfg, w, d.msg, id, job)
    case DeadLettered(out) =>
      d.consumer < |w.consumers| && out in w.consumers[d.consumer].dlq && WrittenAs(cfg, d.msg, out, cfg.retries)
    case Lost(_) => false
  }

  /** Somewhere in the run a write of the message at offset `o` to the dead-letter topic fails. */
  ghost predicate DlqWriteFailed(cfg: Config, w: World, steps: seq<Step>, c: nat, o: nat)
    requires ValidRun(cfg, w, steps)
    decreases |steps|
  {
    steps != [] &&
    ((steps[0] == WriteDlq(c, false) && Done(w.consumers[c]) == o)
     || DlqWriteFailed(cfg, Next(cfg, w, steps[0]), steps[1..], c, o))
  }

  predicate IsLost(d: Delivery, c: nat, o: nat) {
    DeliveredBy(d, c, o) && d.fate.Lost?
  }

  ghost predicate LostAt(ds: seq<Delivery>, c: nat, o: nat) {
    exists j :: 0 <= j < |ds| && IsLost(ds[j], c, o)
  }

  lemma LossOfStep(cfg: Config, w: World, step: Step)
    requires Inv(cfg, w) && Enabled(cfg, w, step)
    ensures
      var ds, es := w.deliveries, Next(cfg, w, step).deliveries;
      if step.WriteDlq? then
        && |es| == |ds| + 1 && es[..|ds|] == ds && DeliveredBy(es[|ds|], step.c, Done(w.consumers[step.c]))
        && (es[|ds|].fate.Lost? <==> !step.ok)
      else es == ds || (|es| == |ds| + 1 && es[..|ds|] == ds && es[|ds|].fate.Effect?)
  {
    NewDelivery(cfg, w, step);
    if step.Try? {
      FreshJob(cfg, w, step.job);
      TryIsAllOrNothing(cfg, w, step);
    }
  }

  lemma LostSnoc(ds: seq<Delivery>, es: seq<Delivery>, c: nat, o: nat)
    requires |es| == |ds| + 1 && es[..|ds|] == ds
    ensures LostAt(es, c, o) <==> LostAt(ds, c, o) || IsLost(es[|ds|], c, o)
  {
    if LostAt(ds, c, o) {
      var j :| 0 <= j < |ds| && IsLost(ds[j], c, o);
      assert es[j] == es[..|ds|][j];
    }
    if LostAt(es, c, o) {
      var j :| 0 <= j < |es| && IsLost(es[j], c, o);
      assert j < |ds| ==> es[j] == es[..|ds|][j];
    }
  }

  lemma LostByStep(cfg: Config, w: World, step: Step, c: nat, o: nat)
    requires Inv(cfg, w) && Enabled(cfg, w, step)
    ensures LostAt(Next(cfg, w, step).deliveries, c, o) <==>
            LostAt(w.deliveries, c, o) || (step == WriteDlq(c, false) && Done(w.consumers[c]) == o)
  {
    LossOfStep(cfg, w, step);
    if Next(cfg, w, step).deliveries != w.deliveries {
      LostSnoc(w.deliveries, Next(cfg, w, step).deliveries, c, o);
    }
  }

  /** A message is given up in a delivery if and only if a write of it to the dead-letter topic fails. */
  lemma {:induction false} LostIffWriteFailed(cfg: Config, w: World, steps: seq<Step>, c: nat, o: nat)
    requires Options(cfg) && Inv(cfg, w) && ValidRun(cfg, w, steps)
    ensures LostAt(Final(cfg, w, steps).deliveries, c, o) <==>
            LostAt(w.deliveries, c, o) || DlqWriteFailed(cfg, w, steps, c, o)
    decreases |steps|
  {
    if steps != [] {
      LostByStep(cfg, w, steps[0], c, o);
      StepInv(cfg, w, steps[0]);
      LostIffWriteFailed(cfg, Next(cfg, w, steps[0]), steps[1..], c, o);
    }
  }

  // ---------------------------------------------------------------- one life of a consumer

  predicate NoRestart(steps: seq<Step>, c: nat) {
    forall i | 0 <= i < |steps| :: steps[i] != Restart(c)
  }

  /** Everything this consumer has delivered, it has delivered in its present life. */
  ghost predicate FirstLife(w: World, c: nat) {
    c < |w.consumers| && w.consumers[c].life == 0 && |Own(w.deliveries, c)| == Done(w.consumers[c])
  }

  lemma {:induction false} StillFirstLife(cfg: Config, w: World, steps: seq<Step>, c: nat)
    requires Options(cfg) && Inv(cfg, w) && ValidRun(cfg, w, steps) && NoRestart(steps, c) && FirstLife(w, c)
    ensures FirstLife(Final(cfg, w, steps), c)
    decreases |steps|
  {
    if steps != [] {
      FirstLifeStep(cfg, w, steps[0], c);
      StepInv(cfg, w, steps[0]);
      StillFirstLife(cfg, Next(cfg, w, steps[0]), steps[1..], c);
    }
  }

  lemma FirstLifeStep(cfg: Config, w: World, step: Step, c: nat)
    requires Inv(cfg, w) && Enabled(cfg, w, step) && step != Restart(c) && FirstLife(w, c)
    ensures FirstLife(Next(cfg, w, step), c)
  {
    if step.Try? {
      FreshJob(cfg, w, step.job);
    }
    NewDelivery(cfg, w, step);
    DoneMoves(cfg, w, step, c);
    var es := Next(cfg, w, step).deliveries;
    if es != w.deliveries {
      OwnGrows(w.deliveries, es, c);
    }
  }

  /**
    A consumer that has not been restarted delivers each message exactly once, in their order; and a committed message
    is lost, with neither an effect nor a place on the dead-letter topic, if and only if its own write to that topic
    failed.
  */
  lemma LostIffItsOwnWriteFailed(cfg: Config, consumers: nat, start: Time, steps: seq<Step>, c: nat, o: nat)
    requires Options(cfg) && ValidRun(cfg, Init(cfg, consumers, start), steps) && NoRestart(steps, c) && c < consumers
    requires
      var w := Final(cfg, Init(cfg, consumers, start), steps);
      c < |w.consumers| && o < w.consumers[c].committed
    ensures
      var w := Final(cfg, Init(cfg, consumers, start), steps);
      var k, own := w.consumers[c], Own(w.deliveries, c);
      && k.committed <= |own| && o < |k.log| && (forall i | 0 <= i < |own| :: own[i].msg.offset == i)
      && own[o].msg == k.log[o]
      && Accounted(cfg, w, c, own[o])
      && (own[o].fate.Lost? <==> DlqWriteFailed(cfg, Init(cfg, consumers, start), steps, c, o))
  {
    var w0 := Init(cfg, consumers, start);
    var w := Final(cfg, w0, steps);
    InitInv(cfg, consumers, start);
    RunInv(cfg, w0, steps);
    StillFirstLife(cfg, w0, steps, c);
    OwnInFirstLife(cfg, w, c, o);
    LostIffWriteFailed(cfg, w0, steps, c, o);
  }

  lemma OwnInFirstLife(cfg: Config, w: World, c: nat, o: nat)
    requires Inv(cfg, w) && FirstLife(w, c) && o < Done(w.consumers[c])
    ensures
      var k, own := w.consumers[c], Own(w.deliveries, c);
      && k.committed <= |own| && o < |k.log| && (forall i | 0 <= i < |own| :: own[i].msg.offset == i)
      && own[o].msg == k.log[o]
      && Accounted(cfg, w, c, own[o])
      && (own[o].fate.Lost? <==> LostAt(w.deliveries, c, o))
  {
    var own := Own(w.deliveries, c);
    assert Covered(w.consumers[c], w.deliveries, c);
    assert own[|own| - Done(w.consumers[c])..] == own;
    var j := OwnIsDelivery(w.deliveries, c, o);
    DeliveryAccounted(cfg, w, j);
    assert own[o].fate.Lost? ==> IsLost(w.deliveries[j], c, o);
    if LostAt(w.deliveries, c, o) {
      var i :| 0 <= i < |w.deliveries| && IsLost(w.deliveries[i], c, o);
      DeliveryIsOwn(w.deliveries, c, i);
    }
  }

  lemma {:induction false} OwnIsDelivery(ds: seq<Delivery>, c: nat, i: nat) returns (j: nat)
    requires i < |Own(ds, c)|
    ensures j < |ds| && ds[j] == Own(ds, c)[i] && ds[j].consumer == c
  {
    var n := |ds| - 1;
    if i < |Own(ds[..n], c)| {
      j := OwnIsDelivery(ds[..n], c, i);
    } else {
      j := n;
    }
  }

  lemma {:induction false} DeliveryIsOwn(ds: seq<Delivery>, c: nat, j: nat)
    requires j < |ds| && ds[j].consumer == c
    ensures ds[j] in Own(ds, c)
  {
    if j < |ds| - 1 {
      DeliveryIsOwn(ds[..|ds| - 1], c, j);
    }
  }

  // ---------------------------------------------------------------- a run that loses a message

  /**
    For every message there is a run that loses it: it does not decode, or all its tries fail, then the write to the
    dead-letter topic does, and the offset is committed all the same.
  */
  lemma FailedDlqWriteLosesTheVerdict(cfg: Config, m: KafkaMessage) returns (w: World)
    requires Options(cfg) && m.offset == 0
    ensures Reaches(cfg, Init(cfg, 1, 0), w)
    ensures |w.consumers| == 1 && w.consumers[0].log == [m] && w.consumers[0].committed == 1
    ensures w.consumers[0].dlq == [] && |w.deliveries| == 1 && IsLost(w.deliveries[0], 0, 0)
    ensures w.outbox.hist.puts == map[] && w.deliveries[0].msg == m
  {
    w := OneMessageAtHand(cfg, m);
    if Current(cfg, w.consumers[0]).None? {
      w := Then(cfg, Init(cfg, 1, 0), w, Refuse(0));
    } else {
      w := TriesFail(cfg, m, w, 0);
    }
    w := Then(cfg, Init(cfg, 1, 0), w, WriteDlq(0, false));
    w := Then(cfg, Init(cfg, 1, 0), w, Commit(0, true));
  }

  /** Consumer 0 has read the one message of its partition and nothing has come of it yet. */
  ghost predicate AtHand(cfg: Config, w: World, m: KafkaMessage) {
    && Reaches(cfg, Init(cfg, 1, 0), w)
    && |w.consumers| == 1 && w.deliveries == [] && w.outbox.hist.puts == map[] && w.outbox.db.jobs == map[]
    && var k := w.consumers[0]; k.log == [m] && k.buffer == [m] && k.base == 0 && k.dlq == []
  }

  lemma OneMessageAtHand(cfg: Config, m: KafkaMessage) returns (w: World)
    requires Options(cfg) && m.offset == 0
    ensures AtHand(cfg, w, m) && w.consumers[0].phase == Processing(0, 0)
  {
    ReachesSelf(cfg, Init(cfg, 1, 0));
    w := Then(cfg, Init(cfg, 1, 0), Init(cfg, 1, 0), Produce(0, m));
    w := Then(cfg, Init(cfg, 1, 0), w, Fetch(0));
    w := Then(cfg, Init(cfg, 1, 0), w, Receive(0));
    w := Then(cfg, Init(cfg, 1, 0), w, CloseBatch(0));
  }

  lemma {:induction false} TriesFail(cfg: Config, m: KafkaMessage, w: World, tries: nat) returns (u: World)
    requires Options(cfg) && AtHand(cfg, w, m) && tries < cfg.retries
    requires w.consumers[0].phase == Processing(0, tries) && Current(cfg, w.consumers[0]).Some?
    ensures AtHand(cfg, u, m) && u.consumers[0].phase.Rejecting? && u.consumers[0].phase.i == 0
    decreases cfg.retries - tries
  {
    TryIsAllOrNothing(cfg, w, Try(0, 0, false, false, false, false));
    u := Then(cfg, Init(cfg, 1, 0), w, Try(0, 0, false, false, false, false));
    if tries + 1 < cfg.retries {
      u := TriesFail(cfg, m, u, tries + 1);
    }
  }

  lemma Then(cfg: Config, from: World, w: World, step: Step) returns (u: World)
    requires Reaches(cfg, from, w) && Enabled(cfg, w, step)
    ensures u == Next(cfg, w, step) && Reaches(cfg, from, u)
  {
    u := Next(cfg, w, step);
    ReachesStep(cfg, w, step);
    ReachesTrans(cfg, from, w, u);
  }

  /** Within one life the finished batches are the partition from the restart on, in order, none of them too long. */
  lemma BatchesAreThePartition(cfg: Config, w: World, c: nat)
    requires Options(cfg) && Reachable(cfg, w) && c < |w.consumers|
    ensures
      var k := w.consumers[c];
      && k.life <= k.committed <= k.base <= |k.log|
      && Concat(k.batches) == k.log[k.life..k.base]
      && forall b | 0 <= b < |k.batches| :: |k.batches[b]| <= cfg.batchSize
  {
    ReachableInv(cfg, w);
    assert ConsumerOk(cfg, w.consumers[c]);
  }

  /**
    The dead-letter messages of a consumer are those of its rejected deliveries, in their order, with key and value
    kept.
  */
  lemma DlqIsTheRejected(cfg: Config, w: World, c: nat)
    requires Options(cfg) && Reachable(cfg, w) && c < |w.consumers|
    ensures w.consumers[c].dlq == Rejected(Own(w.deliveries, c))
    ensures forall j | 0 <= j < |w.deliveries| && w.deliveries[j].fate.DeadLettered? ::
              WrittenAs(cfg, w.deliveries[j].msg, w.deliveries[j].fate.out, w.deliveries[j].tries)
  {
    ReachableInv(cfg, w);
    assert Covered(w.consumers[c], w.deliveries, c);
    forall j | 0 <= j < |w.deliveries| && w.deliveries[j].fate.DeadLettered?
      ensures WrittenAs(cfg, w.deliveries[j].msg, w.deliveries[j].fate.out, w.deliveries[j].tries)
    {
      assert DeliveryOk(cfg, w, w.deliveries[j]);
      RejectedIsWritten(cfg, w.deliveries[j].msg, w.deliveries[j].fate.out, w.deliveries[j].tries);
    }
  }

  function CountEffects(ds: seq<Delivery>, id: MessageId, kind: Kind): nat {
    if ds == [] then 0
    else
      var f := ds[|ds| - 1].fate;
      CountEffects(ds[..|ds| - 1], id, kind) + (if f.Effect? && f.msg == id && f.kind == kind then 1 else 0)
  }

  function JobsOfEffects(ds: seq<Delivery>, id: MessageId, kind: Kind): set<JobId> {
    if ds == [] then {}
    else
      var f := ds[|ds| - 1].fate;
      JobsOfEffects(ds[..|ds| - 1], id, kind) + (if f.Effect? && f.msg == id && f.kind == kind then {f.job} else {})
  }

  /** All jobs of this kind that were ever created for this chat message. */
  function JobsFor(cfg: Config, w: World, id: MessageId, kind: Kind): set<JobId> {
    set job | job in w.outbox.hist.puts
              && w.outbox.hist.puts[job].name
                 == (if kind.Approved? then "client-message-sent" else "client-message-blocked")
              && cfg.codec.parse(w.outbox.hist.puts[job].payload) == Some(id)
  }

  predicate IsEffect(d: Delivery, id: MessageId, kind: Kind) {
    d.fate.Effect? && d.fate.msg == id && d.fate.kind == kind
  }

  lemma {:induction false} EffectOfJob(ds: seq<Delivery>, id: MessageId, kind: Kind, job: JobId) returns (j: nat)
    requires job in JobsOfEffects(ds, id, kind)
    ensures j < |ds| && IsEffect(ds[j], id, kind) && ds[j].fate.job == job
  {
    var n := |ds| - 1;
    if job in JobsOfEffects(ds[..n], id, kind) {
      j := EffectOfJob(ds[..n], id, kind, job);
    } else {
      j := n;
    }
  }

  lemma {:induction false} JobOfEffect(ds: seq<Delivery>, id: MessageId, kind: Kind, j: nat)
    requires j < |ds| && IsEffect(ds[j], id, kind)
    ensures ds[j].fate.job in JobsOfEffects(ds, id, kind)
  {
    if j < |ds| - 1 {
      JobOfEffect(ds[..|ds| - 1], id, kind, j);
    }
  }

  lemma LastJobIsNew(ds: seq<Delivery>, id: MessageId, kind: Kind)
    requires ds != [] && IsEffect(ds[|ds| - 1], id, kind)
    requires forall i | 0 <= i < |ds| - 1 && ds[i].fate.Effect? :: ds[i].fate.job != ds[|ds| - 1].fate.job
    ensures ds[|ds| - 1].fate.job !in JobsOfEffects(ds[..|ds| - 1], id, kind)
  {
    var job := ds[|ds| - 1].fate.job;
    if job in JobsOfEffects(ds[..|ds| - 1], id, kind) {
      var j := EffectOfJob(ds[..|ds| - 1], id, kind, job);
      assert false;
    }
  }

  lemma {:induction false} EffectsHaveOwnJobs(ds: seq<Delivery>, id: MessageId, kind: Kind)
    requires forall i, j | 0 <= i < j < |ds| && ds[i].fate.Effect? && ds[j].fate.Effect? ::
        ds[i].fate.job != ds[j].fate.job
    ensures |JobsOfEffects(ds, id, kind)| == CountEffects(ds, id, kind)
  {
    if ds != [] {
      var n := |ds| - 1;
      EffectsHaveOwnJobs(ds[..n], id, kind);
      if IsEffect(ds[n], id, kind) {
        LastJobIsNew(ds, id, kind);
      }
    }
  }

  ghost predicate Sound(cfg: Config, w: World) {
    Effects(w) && forall j | 0 <= j < |w.deliveries| :: DeliveryOk(cfg, w, w.deliveries[j])
  }

  lemma JobsAreThoseOfEffects(cfg: Config, w: World, id: MessageId, kind: Kind)
    requires Sound(cfg, w)
    ensures JobsFor(cfg, w, id, kind) == JobsOfEffects(w.deliveries, id, kind)
  {
    var ds := w.deliveries;
    forall job | job in JobsFor(cfg, w, id, kind)
      ensures job in JobsOfEffects(ds, id, kind)
    {
      assert CameFromVerdict(ds, job);
      var j :| 0 <= j < |ds| && HasEffect(ds[j], job);
      assert DeliveryOk(cfg, w, ds[j]);
      DecodedId(cfg.codec, ds[j].msg.value);
      JobOfEffect(ds, id, kind, j);
    }
    forall job | job in JobsOfEffects(ds, id, kind)
      ensures job in JobsFor(cfg, w, id, kind)
    {
      var j := EffectOfJob(ds, id, kind, job);
      assert DeliveryOk(cfg, w, ds[j]);
      DecodedId(cfg.codec, ds[j].msg.value);
    }
  }

  lemma FlagNeedsEffect(cfg: Config, w: World, id: MessageId, kind: Kind)
    requires Sound(cfg, w) && id in w.outbox.db.messages
    ensures FlagSet(w.outbox.db.messages[id], kind) <==> JobsOfEffects(w.deliveries, id, kind) != {}
  {
    var ds := w.deliveries;
    if FlagSet(w.outbox.db.messages[id], kind) {
      assert FlaggedBy(ds, id, kind);
      var j :| 0 <= j < |ds| && ds[j].fate.Effect? && ds[j].fate.msg == id && ds[j].fate.kind == kind;
      JobOfEffect(ds, id, kind, j);
    }
    if JobsOfEffects(ds, id, kind) != {} {
      var job :| job in JobsOfEffects(ds, id, kind);
      var j := EffectOfJob(ds, id, kind, job);
      assert DeliveryOk(cfg, w, ds[j]);
    }
  }

  /**
    Redelivery included, the jobs of a kind created for a chat message are as many as the verdicts of that kind that
    took effect on it, and the flag is set just when there is such a job.
  */
  lemma JobsEqualEffects(cfg: Config, w: World, id: MessageId, kind: Kind)
    requires Options(cfg) && Reachable(cfg, w)
    ensures |JobsFor(cfg, w, id, kind)| == CountEffects(w.deliveries, id, kind)
    ensures id in w.outbox.db.messages ==> (FlagSet(w.outbox.db.messages[id], kind)
        <==> JobsFor(cfg, w, id, kind) != {})
  {
    ReachableInv(cfg, w);
    JobsAreThoseOfEffects(cfg, w, id, kind);
    EffectsHaveOwnJobs(w.deliveries, id, kind);
    if id in w.outbox.db.messages {
      FlagNeedsEffect(cfg, w, id, kind);
    }
  }

  lemma {:induction false} RunGrows(cfg: Config, w: World, steps: seq<Step>)
    requires Options(cfg) && Inv(cfg, w) && ValidRun(cfg, w, steps)
    ensures Grows(w, Final(cfg, w, steps))
    decreases |steps|
  {
    if steps != [] {
      var u := Next(cfg, w, steps[0]);
      if steps[0].Try? {
        FreshJob(cfg, w, steps[0].job);
      }
      StepGrows(cfg, w, steps[0]);
      StepInv(cfg, w, steps[0]);
      RunGrows(cfg, u, steps[1..]);
      GrowsTransitive(w, u, Final(cfg, w, steps));
    }
  }

  lemma GrowsTransitive(u: World, v: World, w: World)
    requires Grows(u, v) && Grows(v, w)
    ensures Grows(u, w)
  {
    forall c | 0 <= c < |u.consumers|
      ensures u.consumers[c].log <= w.consumers[c].log
    {
      assert u.consumers[c].log <= v.consumers[c].log && v.consumers[c].log <= w.consumers[c].log;
    }
  }

  /** A message that is visible to managers or blocked stays so for ever. */
  lemma FlagsNeverRevert(cfg: Config, w: World, u: World, id: MessageId, kind: Kind)
    requires Options(cfg) && Reachable(cfg, w) && Reaches(cfg, w, u)
    requires id in w.outbox.db.messages && FlagSet(w.outbox.db.messages[id], kind)
    ensures id in u.outbox.db.messages && FlagSet(u.outbox.db.messages[id], kind)
  {
    ReachableInv(cfg, w);
    var steps :| ValidRun(cfg, w, steps) && Final(cfg, w, steps) == u;
    RunGrows(cfg, w, steps);
  }
}
