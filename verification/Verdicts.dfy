/**
  The verdict consumers, joined with the outbox over one database into the whole delivery pipeline, as a step system.

  Each consumer reads one partition of the verdict topic. A step is one fetched message, one transaction, one write to
  the dead-letter topic, one commit of offsets, or any step of the outbox. A restart forgets everything but the
  tables, the topics and the committed offset.
*/
module Verdicts {
  import opened Wrappers
  import opened Store
  import opened Transactions
  import opened Signing
  import Outbox

  const STATUS_OK := "ok"
  const STATUS_SUSPICIOUS := "suspicious"
  const CLIENT_MESSAGE_SENT := "client-message-sent"
  const CLIENT_MESSAGE_BLOCKED := "client-message-blocked"

  datatype Config = Config(codec: Codec, batchSize: nat, retries: nat, outbox: Outbox.Config)

  /** What option validation guarantees. */
  predicate Options(cfg: Config) {
    1 <= cfg.batchSize <= 1000 && 1 <= cfg.retries <= 10
  }

  datatype Kind = Approved | Suspicious

  datatype ProcessError = UnknownStatus | TxError(error: Store.Error)

  datatype HeaderValue = Raw(bytes: Bytes) | ErrorText(error: ProcessError) | PartitionText(partition: int)

  datatype Header = Header(key: string, value: HeaderValue)

  datatype KafkaMessage = KafkaMessage(topic: string, partition: int, offset: nat, key: Bytes, value: Bytes,
      headers: seq<Header>)

  datatype Phase =
    | Collecting
    | Processing(i: nat, tries: nat)                        // message i of the batch, after `tries` failed tries
    | Rejecting(i: nat, tries: nat, out: KafkaMessage)      // `out` is about to be written to the dead-letter topic
    | Stopped                                               // processMessages has returned

  /**
    `log` is the partition. `base` is the offset of the first message of the current batch `buffer`, `fetched` the
    message the fetching goroutine holds. `life` is the offset of the first message since the last restart and
    `batches` are the batches finished since then; `dlq` is what this consumer has written to the dead-letter topic.
  */
  datatype Consumer = Consumer(
    log: seq<KafkaMessage>, committed: nat,
    base: nat, buffer: seq<KafkaMessage>, fetched: Option<KafkaMessage>, phase: Phase,
    life: nat, batches: seq<seq<KafkaMessage>>, dlq: seq<KafkaMessage>)

  datatype Fate =
    | Effect(msg: MessageId, kind: Kind, job: JobId)  // the transaction was committed
    | DeadLettered(out: KafkaMessage)
    | Lost(out: KafkaMessage)                         // the write to the dead-letter topic failed

  /** One message going through `processBatch` to its end. */
  datatype Delivery = Delivery(consumer: nat, msg: KafkaMessage, tries: nat, fate: Fate)

  datatype World = World(outbox: Outbox.State, consumers: seq<Consumer>, deliveries: seq<Delivery>)

  datatype Step =
    | OutboxStep(step: Outbox.Step)
    | NewMessage(msg: MessageId)
    | Produce(c: nat, message: KafkaMessage)
    | Fetch(c: nat)
    | Receive(c: nat)
    | CloseBatch(c: nat)
    | Stop(c: nat)
    | Try(c: nat, job: JobId, beginOk: bool, updateFault: bool, putFault: bool, commitOk: bool)
    | Refuse(c: nat)
    | WriteDlq(c: nat, ok: bool)
    | Commit(c: nat, ok: bool)
    | Restart(c: nat)

  function KindOf(status: string): Option<Kind> {
    if status == STATUS_OK then Some(Approved)
    else if status == STATUS_SUSPICIOUS then Some(Suspicious)
    else None
  }

  function JobName(kind: Kind): string {
    match kind
    case Approved => CLIENT_MESSAGE_SENT
    case Suspicious => CLIENT_MESSAGE_BLOCKED
  }

  predicate IsVerdictJob(name: string) {
    name == CLIENT_MESSAGE_SENT || name == CLIENT_MESSAGE_BLOCKED
  }

  /** The body `processVerdict` passes to `RunInTx`. */
  function VerdictBody(kind: Kind, v: Verdict, msg: MessageId, job: JobId, now: Time, updateFault: bool,
      putFault: bool): Prog {
    var update := match kind
      case Approved => MarkAsVisibleForManager(msg, now)
      case Suspicious => BlockMessage(msg, now);
    Seq(Do(update, updateFault), Do(CreateJob(job, JobName(kind), v.messageId, now, now), putFault))
  }

  function FormHeaders(e: ProcessError, partition: int): seq<Header> {
    [Header("LAST_ERROR", ErrorText(e)), Header("ORIGINAL_PARTITION", PartitionText(partition))]
  }

  /** The message written to the dead-letter topic; only a processing error is recorded in the headers. */
  function DlqMessage(m: KafkaMessage, e: Option<ProcessError>): KafkaMessage {
    match e
    case Some(err) => m.(topic := "", headers := m.headers + FormHeaders(err, m.partition))
    case None => m.(topic := "")
  }

  function Position(k: Consumer): nat {
    k.base + |k.buffer| + (if k.fetched.Some? then 1 else 0)
  }

  function InitConsumer(): Consumer {
    Consumer([], 0, 0, [], None, Collecting, 0, [], [])
  }

  function Init(cfg: Config, consumers: nat, now: Time): World {
    World(Outbox.Init(cfg.outbox, now), seq(consumers, _ => InitConsumer()), [])
  }

  /** The message that is being processed, if it decodes to a verdict of a known kind. */
  function Current(cfg: Config, k: Consumer): Option<(Verdict, MessageId, Kind)>
    requires k.phase.Processing? && k.phase.i < |k.buffer|
  {
    match DecodeMsg(cfg.codec, k.buffer[k.phase.i].value)
    case Failure(_) => None
    case Success((v, id)) =>
      match KindOf(v.status)
      case None => None
      case Some(kind) => Some((v, id, kind))
  }

  predicate AtMessage(k: Consumer) {
    k.phase.Processing? && k.phase.i < |k.buffer|
  }

  predicate Enabled(cfg: Config, w: World, step: Step) {
    match step
    case OutboxStep(st) => Outbox.Enabled(cfg.outbox, w.outbox, st) && (st.Put? ==> !IsVerdictJob(st.name))
    case NewMessage(msg) => msg !in w.outbox.db.messages
    case Produce(c, m) => c < |w.consumers| && m.offset == |w.consumers[c].log|
    case Fetch(c) =>
      && c < |w.consumers| && !w.consumers[c].phase.Stopped? && w.consumers[c].fetched.None?
      && Position(w.consumers[c]) < |w.consumers[c].log|
    case Receive(c) =>
      && c < |w.consumers| && w.consumers[c].phase.Collecting? && w.consumers[c].fetched.Some?
      && |w.consumers[c].buffer| < cfg.batchSize
    case CloseBatch(c) => c < |w.consumers| && w.consumers[c].phase.Collecting?
    case Stop(c) => c < |w.consumers| && w.consumers[c].phase.Collecting?
    case Try(c, job, _, _, _, _) =>
      && c < |w.consumers| && AtMessage(w.consumers[c]) && Current(cfg, w.consumers[c]).Some?
      && w.consumers[c].phase.tries < cfg.retries && job !in w.outbox.hist.puts
    case Refuse(c) => c < |w.consumers| && AtMessage(w.consumers[c]) && Current(cfg, w.consumers[c]).None?
    case WriteDlq(c, _) => c < |w.consumers| && w.consumers[c].phase.Rejecting?
        && w.consumers[c].phase.i < |w.consumers[c].buffer|
    case Commit(c, _) => c < |w.consumers| && w.consumers[c].phase.Processing?
        && w.consumers[c].phase.i == |w.consumers[c].buffer|
    case Restart(c) => c < |w.consumers|
  }

  function SetConsumer(w: World, c: nat, k: Consumer): World
    requires c < |w.consumers|
  {
    w.(consumers := w.consumers[c := k])
  }

  /** The outcome of one transaction for the message consumer `c` is at. */
  function TryOutcome(cfg: Config, w: World, step: Step): (Outcome, Db)
    requires Enabled(cfg, w, step) && step.Try?
  {
    var (v, id, kind) := Current(cfg, w.consumers[step.c]).value;
    Exec(RunInTx(step.beginOk, step.commitOk, VerdictBody(kind, v, id, step.job, w.outbox.now, step.updateFault,
        step.putFault)),
         false, w.outbox.db)
  }

  function AfterTry(cfg: Config, w: World, step: Step): World
    requires Enabled(cfg, w, step) && step.Try?
  {
    var k := w.consumers[step.c];
    var m, i, tries := k.buffer[k.phase.i], k.phase.i, k.phase.tries + 1;
    var (v, id, kind) := Current(cfg, k).value;
    var (o, d) := TryOutcome(cfg, w, step);
    match o
    case Ok =>
      var outbox := w.outbox.(db := d,
          hist := w.outbox.hist.(puts := w.outbox.hist.puts[step.job := Outbox.PutRecord(JobName(kind), v.messageId,
          w.outbox.now)]));
      World(outbox, w.consumers[step.c := k.(phase := Processing(i + 1, 0))],
            w.deliveries + [Delivery(step.c, m, tries, Effect(id, kind, step.job))])
    case Err(e) =>
      var phase := if tries < cfg.retries then Processing(i, tries)
          else Rejecting(i, tries, DlqMessage(m, Some(TxError(e))));
      SetConsumer(w.(outbox := w.outbox.(db := d)), step.c, k.(phase := phase))
    case Panicked => w
  }

  function AfterRefuse(cfg: Config, k: Consumer): Consumer
    requires AtMessage(k)
  {
    var m := k.buffer[k.phase.i];
    match DecodeMsg(cfg.codec, m.value)
    case Failure(_) => k.(phase := Rejecting(k.phase.i, 0, DlqMessage(m, None)))
    case Success(_) => k.(phase := Rejecting(k.phase.i, 1, DlqMessage(m, Some(UnknownStatus))))
  }

  function AfterWriteDlq(w: World, c: nat, ok: bool): World
    requires c < |w.consumers| && w.consumers[c].phase.Rejecting? && w.consumers[c].phase.i < |w.consumers[c].buffer|
  {
    var k := w.consumers[c];
    var out := k.phase.out;
    World(w.outbox,
          w.consumers[c := k.(phase := Processing(k.phase.i + 1, 0), dlq := if ok then k.dlq + [out] else k.dlq)],
          w.deliveries + [Delivery(c, k.buffer[k.phase.i], k.phase.tries, if ok then DeadLettered(out) else Lost(out))])
  }

  /** Committing a batch commits the offset after its last message; an empty batch commits nothing. */
  function AfterCommit(k: Consumer, ok: bool): Consumer
    requires k.phase.Processing?
  {
    var end := k.base + |k.buffer|;
    k.(committed := if ok && k.buffer != [] then end else k.committed,
       base := end, buffer := [], phase := Collecting, batches := k.batches + [k.buffer])
  }

  function AfterRestart(k: Consumer): Consumer {
    k.(base := k.committed, buffer := [], fetched := None, phase := Collecting, life := k.committed, batches := [])
  }

  function Next(cfg: Config, w: World, step: Step): World
    requires Enabled(cfg, w, step)
  {
    match step
    case OutboxStep(st) => w.(outbox := Outbox.Next(cfg.outbox, w.outbox, st))
    case NewMessage(msg) =>
      w.(outbox := w.outbox.(db := w.outbox.db.(messages := w.outbox.db.messages[msg := Message(false, false, None)])))
    case Produce(c, m) => SetConsumer(w, c, w.consumers[c].(log := w.consumers[c].log + [m]))
    case Fetch(c) => SetConsumer(w, c, w.consumers[c].(fetched := Some(w.consumers[c].log[Position(w.consumers[c])])))
    case Receive(c) =>
      SetConsumer(w, c, w.consumers[c].(buffer := w.consumers[c].buffer + [w.consumers[c].fetched.value],
          fetched := None))
    case CloseBatch(c) => SetConsumer(w, c, w.consumers[c].(phase := Processing(0, 0)))
    case Stop(c) => SetConsumer(w, c, w.consumers[c].(phase := Stopped))
    case Try(_, _, _, _, _, _) => AfterTry(cfg, w, step)
    case Refuse(c) => SetConsumer(w, c, AfterRefuse(cfg, w.consumers[c]))
    case WriteDlq(c, ok) => AfterWriteDlq(w, c, ok)
    case Commit(c, ok) => SetConsumer(w, c, AfterCommit(w.consumers[c], ok))
    case Restart(c) => SetConsumer(w, c, AfterRestart(w.consumers[c]))
  }

  predicate ValidRun(cfg: Config, w: World, steps: seq<Step>)
    decreases |steps|
  {
    steps == [] || (Enabled(cfg, w, steps[0]) && ValidRun(cfg, Next(cfg, w, steps[0]), steps[1..]))
  }

  function Final(cfg: Config, w: World, steps: seq<Step>): World
    requires ValidRun(cfg, w, steps)
    decreases |steps|
  {
    if steps == [] then w else Final(cfg, Next(cfg, w, steps[0]), steps[1..])
  }

  ghost predicate Reaches(cfg: Config, w: World, u: World) {
    exists steps :: ValidRun(cfg, w, steps) && Final(cfg, w, steps) == u
  }

  lemma {:induction false} RunConcat(cfg: Config, w: World, a: seq<Step>, b: seq<Step>)
    requires ValidRun(cfg, w, a) && ValidRun(cfg, Final(cfg, w, a), b)
    ensures ValidRun(cfg, w, a + b) && Final(cfg, w, a + b) == Final(cfg, Final(cfg, w, a), b)
    decreases |a|
  {
    if a == [] {
      assert a + b == b;
    } else {
      assert (a + b)[1..] == a[1..] + b;
      RunConcat(cfg, Next(cfg, w, a[0]), a[1..], b);
    }
  }

  lemma ReachesTrans(cfg: Config, u: World, v: World, w: World)
    requires Reaches(cfg, u, v) && Reaches(cfg, v, w)
    ensures Reaches(cfg, u, w)
  {
    var a :| ValidRun(cfg, u, a) && Final(cfg, u, a) == v;
    var b :| ValidRun(cfg, v, b) && Final(cfg, v, b) == w;
    RunConcat(cfg, u, a, b);
  }

  lemma ReachesSelf(cfg: Config, w: World)
    ensures Reaches(cfg, w, w)
  {
    assert ValidRun(cfg, w, []) && Final(cfg, w, []) == w;
  }

  lemma ReachesStep(cfg: Config, w: World, step: Step)
    requires Enabled(cfg, w, step)
    ensures Reaches(cfg, w, Next(cfg, w, step))
  {
    var u := Next(cfg, w, step);
    assert [step][1..] == [];
    assert ValidRun(cfg, u, []) && Final(cfg, u, []) == u;
    assert ValidRun(cfg, w, [step]) && Final(cfg, w, [step]) == u;
  }

  /** The flag is set and the job is there, and nothing else has changed. */
  predicate VerdictApplied(before: Db, after: Db, kind: Kind, id: MessageId, messageId: string, job: JobId, now: Time) {
    && id in before.messages
    && after.failed == before.failed
    && after.jobs == before.jobs[job := Job(JobName(kind), messageId, 0, now, now)]
    && after.messages == before.messages[id := if kind.Approved?
        then before.messages[id].(visibleForManager := true, checkedAt := Some(now))
                                               else before.messages[id].(blocked := true, checkedAt := Some(now))]
  }

  /**
    One try either sets the flag and creates the job together, or leaves the database as it was; it works just when
    nothing fails and the message exists.
  */
  lemma TryIsAllOrNothing(cfg: Config, w: World, step: Step)
    requires Enabled(cfg, w, step) && step.Try? && step.job !in w.outbox.db.jobs
    ensures
      var (v, id, kind) := Current(cfg, w.consumers[step.c]).value;
      var (o, d) := TryOutcome(cfg, w, step);
      var db, now := w.outbox.db, w.outbox.now;
      && (o.Ok? <==>
          step.beginOk && step.commitOk && !step.updateFault && !step.putFault && id in db.messages
          && v.messageId != "")
      && !o.Panicked?
      && (o.Err? ==> d == db)
      && (o.Ok? ==> VerdictApplied(db, d, kind, id, v.messageId, step.job, now))
  {
    var (v, id, kind) := Current(cfg, w.consumers[step.c]).value;
    var body := VerdictBody(kind, v, id, step.job, w.outbox.now, step.updateFault, step.putFault);
    var (o1, d1) := Exec(body.first, true, w.outbox.db);
    assert o1.Ok? ==> d1.jobs == w.outbox.db.jobs && d1.failed == w.outbox.db.failed;
    assert Exec(body, true, w.outbox.db) == (if o1.Ok? then Exec(body.second, true, d1) else (o1, d1));
  }

  /**
    A consumer may be restarted at any point. It goes on at the committed offset with nothing in hand, and everything
    that has been written stays: the tables, the topics and the offset itself.
  */
  lemma RestartsAreAllowed(cfg: Config, w: World, c: nat)
    requires c < |w.consumers|
    ensures Enabled(cfg, w, Restart(c))
    ensures
      var u := Next(cfg, w, Restart(c));
      var k, l := w.consumers[c], u.consumers[c];
      && u.outbox == w.outbox && u.deliveries == w.deliveries
      && l.log == k.log && l.dlq == k.dlq && l.committed == k.committed
      && Position(l) == k.committed && l.buffer == [] && l.phase == Collecting
  {
  }

  /** The outbox goes on meanwhile as if it were alone, and messages and verdicts may arrive at any time. */
  lemma OthersGoOn(cfg: Config, w: World, st: Outbox.Step, msg: MessageId, c: nat, m: KafkaMessage)
    ensures Outbox.Enabled(cfg.outbox, w.outbox, st)
            && (st.Put? ==> st.name != "client-message-sent" && st.name != "client-message-blocked") ==>
      Enabled(cfg, w, OutboxStep(st)) && Next(cfg, w, OutboxStep(st)).outbox == Outbox.Next(cfg.outbox, w.outbox, st)
    ensures msg !in w.outbox.db.messages ==> Enabled(cfg, w, NewMessage(msg))
    ensures c < |w.consumers| && m.offset == |w.consumers[c].log| ==> Enabled(cfg, w, Produce(c, m))
  {
  }
}
