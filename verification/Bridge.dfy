/**
 The running bridge: the store, the outbound loop, the delivery loop, the turntf client and the gateway event consumer,
 interleaved one atomic step at a time, with any write failing and the process restarting at any point.
 */
module Bridge {
  import opened Options
  import opened Strings
  import opened Envelopes
  import opened JobKeys
  import opened Queues
  import opened Tables
  import opened Effects

  /** `archives[k]` remembers the message archive as it stood when event `k` was stored; only proofs read it. */
  datatype Sys = Sys(db: Db, out: Worker<OutboundItem>, del: Worker<DeliveryItem>, archives: seq<seq<MessageRow>>)

  const INITIAL := Sys(EMPTY_DB, Worker(Idle, [], []), Worker(Idle, [], []), [])

  datatype Op =
    | OnMessage(message: Message, at: int, fate: Fate)   // the turntf client saves a message
    | OnCursor(cursor: Cursor, at: int, fate: Fate)      // the turntf client saves a cursor
    | OnEvent(event: GatewayEvent, at: int, fate: Fate)  // the consumer stores a gateway event
    | Outbound(step: WorkerStep)                         // a step of the outbound loop
    | Deliver(step: WorkerStep)                          // a step of the delivery loop
    | Reopen(at: int)                                    // the process restarts on the same database

  function TimeOf(op: Op): int {
    if op.Outbound? || op.Deliver? then op.step.at else op.at
  }

  function OutQ(s: Sys): Queue<OutboundItem> {
    Queue(true, s.db.outbound, s.out)
  }

  function DelQ(s: Sys): Queue<DeliveryItem> {
    Queue(false, s.db.deliveries, s.del)
  }

  /** The receipt for a terminal refusal. */
  function DeliveryReceiptItem(job: HeldJob<OutboundItem>, error: BridgeError): DeliveryItem {
    ReceiptItem(job.item.sender, job.item.envelope.conversation, job.item.envelope.messageRef, error.code,
                ErrorText(error), ReceiptKey(job.item.source, DeliveryReceipt))
  }

  /** The `QueueReceipt` transaction as the outbound loop calls it. */
  function QueueReceipt(db: Db, job: HeldJob<OutboundItem>, error: BridgeError, now: int): Tx {
    var e := job.item.envelope;
    EnqueueReceipt(db, job.item.sender, e.conversation, e.messageRef, error.code, ErrorText(error), now,
                   Print(ReceiptKey(job.item.source, DeliveryReceipt)))
  }

  /** The tables after a transaction: what it commits, unless it fails or the write does not land. */
  function Landed(db: Db, fate: Fate, tx: Tx): Db {
    if fate.Fails? || tx.Failure? then db else tx.value
  }

  ghost function Step(cfg: Config, s: Sys, op: Op): Sys {
    match op
    case OnMessage(m, at, fate) => s.(db := Landed(s.db, fate, SaveMessage(cfg, s.db, m, at)))
    case OnCursor(c, at, fate) => s.(db := Landed(s.db, fate, Success(SaveCursor(s.db, c))))
    case OnEvent(event, at, fate) =>
      var db := Landed(s.db, fate, EnqueueEvent(cfg, s.db, event, at));
      s.(db := db, archives := if |db.events| > |s.db.events| then s.archives + [s.db.messages] else s.archives)
    case Outbound(step) =>
      var q := WorkStep(OutQ(s), step);
      var db := s.db.(outbound := q.rows);
      var reported := if step.Report? && s.out.pc.Reporting?
        then Landed(db, step.fate, QueueReceipt(db, s.out.pc.job, s.out.pc.error, step.at)) else db;
      s.(db := reported, out := q.worker)
    case Deliver(step) =>
      var q := WorkStep(DelQ(s), step);
      s.(db := s.db.(deliveries := q.rows), del := q.worker)
    case Reopen(at) => s.(out := s.out.(pc := Idle), del := s.del.(pc := Idle))
  }

  ghost function Run(cfg: Config, s: Sys, ops: seq<Op>): Sys
    decreases |ops|
  {
    if ops == [] then s else Run(cfg, Step(cfg, s, ops[0]), ops[1..])
  }

  // --- What a step adds --------------------------------------------------------------------------

  /** The rows a step appends to each table; queue rows by what they carry. */
  datatype Delta = Delta(messages: seq<MessageRow>, outbound: seq<OutboundItem>, events: seq<EventRow>,
                         orphans: seq<OrphanRow>, deliveries: seq<DeliveryItem>)

  const NOTHING := Delta([], [], [], [], [])

  /** A plain description of each step, free of conflicts: see `StepAddsDelta`. */
  ghost function DeltaOf(cfg: Config, s: Sys, op: Op): Delta {
    match op
    case OnMessage(m, at, fate) =>
      if fate.Fails? || HasMessage(s.db, m.cursor) then NOTHING
      else NOTHING.(messages := [MessageRow(m, at)], outbound := ChatItem(cfg, m), deliveries := IngestReceipt(cfg, m))
    case OnEvent(event, at, fate) =>
      var normal := NormalizeEnvelope(event.envelope);
      if fate.Fails? || normal.Failure? || normal.value.kind != Chat then NOTHING
      else
        var e := normal.value;
        var id := EventId(cfg, event.gatewayMessageId, e, at);
        var users := UsersFor(cfg, s.db, e);
        if HasEvent(s.db, id) || !Routable(cfg, users, e) then NOTHING
        else NOTHING.(events := [EventRowFor(id, users, e, at)], orphans := OrphansFor(id, users, e, at),
                      deliveries := EventItems(cfg, |s.db.events| + 1, users, e))
    case Outbound(Report(at, fate)) =>
      if fate.Fails? || !s.out.pc.Reporting? then NOTHING
      else NOTHING.(deliveries := [DeliveryReceiptItem(s.out.pc.job, s.out.pc.error)])
    case _ => NOTHING
  }

  ghost function OutOp(cfg: Config, s: Sys, op: Op): QueueOp<OutboundItem> {
    match op
    case Outbound(step) => Work(step)
    case Reopen(at) => Restart(at)
    case _ => Insert(DeltaOf(cfg, s, op).outbound, TimeOf(op))
  }

  ghost function DelOp(cfg: Config, s: Sys, op: Op): QueueOp<DeliveryItem> {
    match op
    case Deliver(step) => Work(step)
    case Reopen(at) => Restart(at)
    case _ => Insert(DeltaOf(cfg, s, op).deliveries, TimeOf(op))
  }

  // --- The core invariant ------------------------------------------------------------------------

  /** Where the key of a delivery job comes from, and what that says about the job. */
  ghost predicate Origin(cfg: Config, s: Sys, key: JobKey, item: DeliveryItem) {
    match key
    case InboundKey(e, user) => 1 <= e <= |s.db.events| && item.kind == InboundDelivery && item.target == user
    case RelayKey(e, p, user) => 1 <= e <= |s.db.events| && item.kind == RelayDelivery && item.target == user
    case ReceiptKey(c, DeliveryReceipt) =>
      item.kind == ReceiptDelivery &&
      exists i :: 0 <= i < |s.db.outbound| && s.db.outbound[i].item.source == c && Spent(OutQ(s), i) &&
                  s.db.outbound[i].item.sender == item.target
    case ReceiptKey(c, _) =>
      item.kind == ReceiptDelivery &&
      exists i :: 0 <= i < |s.db.messages| && s.db.messages[i].message.cursor == c &&
                  IngestReceipt(cfg, s.db.messages[i].message) == [item]
  }

  ghost predicate Known(cfg: Config, s: Sys, item: DeliveryItem) {
    exists key :: item.jobKey == Print(key) && Origin(cfg, s, key, item)
  }

  /** The uniqueness constraints of the schema, and every key accounted for. */
  ghost predicate Core(cfg: Config, s: Sys) {
    && Safe(OutQ(s)) && Safe(DelQ(s))
    && (forall i, j :: 0 <= i < j < |s.db.messages| ==>
        s.db.messages[i].message.cursor != s.db.messages[j].message.cursor)
    && (forall i, j :: 0 <= i < j < |s.db.outbound| ==> s.db.outbound[i].item.source != s.db.outbound[j].item.source)
    && (forall i :: 0 <= i < |s.db.outbound| ==> HasMessage(s.db, s.db.outbound[i].item.source))
    && (forall i :: 0 <= i < |s.db.deliveries| ==> Known(cfg, s, s.db.deliveries[i].item))
    && (forall i :: 0 <= i < |s.db.orphans| ==> HasEvent(s.db, s.db.orphans[i].gatewayMessageId))
    && |s.archives| == |s.db.events|
  }

  lemma CoreIsSafe(cfg: Config, s: Sys)
    requires Core(cfg, s)
    ensures Safe(OutQ(s)) && Safe(DelQ(s)) && |s.archives| == |s.db.events|
  {
  }

  /** A key that no row can have come from is not in the table: here printed keys must be injective. */
  lemma UnissuedKey(cfg: Config, s: Sys, key: JobKey)
    requires Core(cfg, s) && forall item :: !Origin(cfg, s, key, item)
    ensures !HasJobKey(s.db.deliveries, Print(key))
  {
    hide Print;
    if HasJobKey(s.db.deliveries, Print(key)) {
      var i :| 0 <= i < |s.db.deliveries| && s.db.deliveries[i].item.jobKey == Print(key);
      var item := s.db.deliveries[i].item;
      assert Known(cfg, s, item);
      var k :| item.jobKey == Print(k) && Origin(cfg, s, k, item);
      PrintInjective(k, key);
    }
  }

  lemma NextEventIsFresh(cfg: Config, s: Sys)
    requires Core(cfg, s)
    ensures EventIsFresh(s.db.deliveries, |s.db.events| + 1)
  {
    hide Print, HasJobKey;
    var n := |s.db.events| + 1;
    forall u ensures !HasJobKey(s.db.deliveries, Print(InboundKey(n, u))) {
      UnissuedKey(cfg, s, InboundKey(n, u));
    }
    forall p, u ensures !HasJobKey(s.db.deliveries, Print(RelayKey(n, p, u))) {
      UnissuedKey(cfg, s, RelayKey(n, p, u));
    }
  }

  lemma UnsavedMessageIsFresh(cfg: Config, s: Sys, m: Message)
    requires Core(cfg, s) && !HasMessage(s.db, m.cursor)
    ensures !HasSource(s.db.outbound, m.cursor) && !HasJobKey(s.db.deliveries, Print(IngestKey(cfg, m)))
  {
    hide Print;
    UnissuedKey(cfg, s, IngestKey(cfg, m));
  }

  lemma PendingReceiptIsFresh(cfg: Config, s: Sys)
    requires Core(cfg, s) && s.out.pc.Reporting?
    ensures !HasJobKey(s.db.deliveries, Print(ReceiptKey(s.out.pc.job.item.source, DeliveryReceipt)))
  {
    hide Print;
    UnissuedKey(cfg, s, ReceiptKey(s.out.pc.job.item.source, DeliveryReceipt));
  }

  // --- Every step is what its delta says ---------------------------------------------------------

  ghost predicate AddsDelta(cfg: Config, s: Sys, op: Op, t: Sys) {
    var d := DeltaOf(cfg, s, op);
    && OutQ(t) == QueueStep(OutQ(s), OutOp(cfg, s, op))
    && DelQ(t) == QueueStep(DelQ(s), DelOp(cfg, s, op))
    && t.db.seen == (if op.OnCursor? && !op.fate.Fails? then SaveCursor(s.db, op.cursor).seen else s.db.seen)
    && t.db.messages == s.db.messages + d.messages
    && t.db.bindings == (if d.messages == [] then s.db.bindings
                         else BindingsAfter(cfg, s.db, d.messages[0].message, d.messages[0].savedAt))
    && t.db.events == s.db.events + d.events
    && t.db.orphans == s.db.orphans + d.orphans
    && t.archives == s.archives + (if d.events == [] then [] else [s.db.messages])
  }

  lemma InsertNothing<T>(q: Queue<T>, at: int)
    ensures QueueStep(q, Insert([], at)) == q
  {
    assert q.rows + [] == q.rows;
  }

  lemma KnownMessageIsIgnored(cfg: Config, db: Db, m: Message, now: int)
    requires HasMessage(db, m.cursor)
    ensures SaveMessage(cfg, db, m, now) == Success(db)
  {
  }

  lemma MessageAddsDelta(cfg: Config, s: Sys, m: Message, at: int, fate: Fate)
    requires Core(cfg, s)
    ensures AddsDelta(cfg, s, OnMessage(m, at, fate), Step(cfg, s, OnMessage(m, at, fate)))
  {
    hide Print, SaveMessage, ChatItem, IngestReceipt, BindingsAfter, Core, HasMessage, HasSource, HasJobKey;
    InsertNothing(OutQ(s), at);
    InsertNothing(DelQ(s), at);
    if HasMessage(s.db, m.cursor) {
      KnownMessageIsIgnored(cfg, s.db, m, at);
    } else if !fate.Fails? {
      UnsavedMessageIsFresh(cfg, s, m);
      SaveMessageEffect(cfg, s.db, m, at);
    }
  }

  lemma UnknownEventIsNoOrphan(cfg: Config, s: Sys, id: string)
    requires Core(cfg, s) && !HasEvent(s.db, id)
    ensures !HasOrphan(s.db, id)
  {
  }

  lemma NoEffectNoDelta(cfg: Config, s: Sys, op: Op)
    requires (op.OnMessage? || op.OnEvent?) && DeltaOf(cfg, s, op) == NOTHING && Step(cfg, s, op) == s
    ensures AddsDelta(cfg, s, op, Step(cfg, s, op))
  {
    hide DeltaOf, Step, BindingsAfter;
    InsertNothing(OutQ(s), op.at);
    InsertNothing(DelQ(s), op.at);
  }

  /** The state after a stored event, written out. */
  ghost function AfterEvent(s: Sys, d: Delta, at: int): Sys {
    s.(db := s.db.(events := s.db.events + d.events, orphans := s.db.orphans + d.orphans,
                   deliveries := s.db.deliveries + NewJobs(d.deliveries, at)),
       archives := s.archives + [s.db.messages])
  }

  lemma EventInserts(cfg: Config, s: Sys, op: Op)
    requires op.OnEvent?
    ensures DeltaOf(cfg, s, op).messages == [] && OutOp(cfg, s, op) == Insert([], op.at)
    ensures DelOp(cfg, s, op) == Insert(DeltaOf(cfg, s, op).deliveries, op.at)
  {
    hide NormalizeEnvelope, EventId, UsersFor, Routable, EventRowFor, OrphansFor, EventItems, HasEvent;
  }

  lemma StoredEventAddsDelta(cfg: Config, s: Sys, op: Op)
    requires op.OnEvent? && DeltaOf(cfg, s, op).events != []
    ensures AddsDelta(cfg, s, op, AfterEvent(s, DeltaOf(cfg, s, op), op.at))
  {
    hide DeltaOf, OutOp, DelOp, NewJobs;
    EventInserts(cfg, s, op);
    InsertNothing(OutQ(s), op.at);
  }

  lemma NewEventAddsDelta(cfg: Config, s: Sys, event: GatewayEvent, at: int, fate: Fate, e: BridgeEnvelope, id: string)
    requires Core(cfg, s) && !fate.Fails? && NormalizeEnvelope(event.envelope) == Success(e) && e.kind == Chat
    requires id == EventId(cfg, event.gatewayMessageId, e, at) && !HasEvent(s.db, id)
    ensures AddsDelta(cfg, s, OnEvent(event, at, fate), Step(cfg, s, OnEvent(event, at, fate)))
  {
    hide NormalizeEnvelope, EventId, UsersFor, Routable, EventRowFor, OrphansFor, EventItems, HasEvent, HasOrphan,
         EventIsFresh, Core, EnqueueEvent, NewJobs, AddsDelta;
    NextEventIsFresh(cfg, s);
    UnknownEventIsNoOrphan(cfg, s, id);
    EnqueueEventEffect(cfg, s.db, event, at, e, id);
    var op := OnEvent(event, at, fate);
    if Routable(cfg, UsersFor(cfg, s.db, e), e) {
      assert Step(cfg, s, op) == AfterEvent(s, DeltaOf(cfg, s, op), at);
      StoredEventAddsDelta(cfg, s, op);
    } else {
      NoEffectNoDelta(cfg, s, op);
    }
  }

  lemma EventAddsDelta(cfg: Config, s: Sys, event: GatewayEvent, at: int, fate: Fate)
    requires Core(cfg, s)
    ensures AddsDelta(cfg, s, OnEvent(event, at, fate), Step(cfg, s, OnEvent(event, at, fate)))
  {
    hide NormalizeEnvelope, EventId, UsersFor, Routable, EventRowFor, OrphansFor, EventItems, RouteEvent, HasEvent,
         Core, AddsDelta;
    var normal := NormalizeEnvelope(event.envelope);
    if !fate.Fails? && normal.Success? && normal.value.kind == Chat
       && !HasEvent(s.db, EventId(cfg, event.gatewayMessageId, normal.value, at))
    {
      var id := EventId(cfg, event.gatewayMessageId, normal.value, at);
      NewEventAddsDelta(cfg, s, event, at, fate, normal.value, id);
    } else {
      NoEffectNoDelta(cfg, s, OnEvent(event, at, fate));
    }
  }

  lemma ReportAddsDelta(cfg: Config, s: Sys, at: int, fate: Fate)
    requires Core(cfg, s)
    ensures AddsDelta(cfg, s, Outbound(Report(at, fate)), Step(cfg, s, Outbound(Report(at, fate))))
  {
    hide Print, ErrorText, EnqueueReceipt, ReceiptItem, Blank, HasJobKey, Core;
    InsertNothing(DelQ(s), at);
    if s.out.pc.Reporting? && !fate.Fails? {
      var job, error := s.out.pc.job, s.out.pc.error;
      PendingReceiptIsFresh(cfg, s);
      ErrorTextIsVisible(error);
      ReceiptEnqueues(s.db, job.item.sender, job.item.envelope.conversation, job.item.envelope.messageRef, error.code,
                      ErrorText(error), at, ReceiptKey(job.item.source, DeliveryReceipt));
    }
  }

  lemma OtherStepsAddNothing(cfg: Config, s: Sys, op: Op)
    requires op.OnCursor? || op.Deliver? || op.Reopen? || (op.Outbound? && !op.step.Report?)
    ensures AddsDelta(cfg, s, op, Step(cfg, s, op))
  {
    hide WorkStep, NewJobs;
    InsertNothing(OutQ(s), TimeOf(op));
    InsertNothing(DelQ(s), TimeOf(op));
  }

  /** Under the invariant no insertion is ever dropped: each step appends exactly its delta and works the queues. */
  lemma StepAddsDelta(cfg: Config, s: Sys, op: Op)
    requires Core(cfg, s)
    ensures AddsDelta(cfg, s, op, Step(cfg, s, op))
  {
    hide AddsDelta, Step, Core;
    match op
    case OnMessage(m, at, fate) => MessageAddsDelta(cfg, s, m, at, fate);
    case OnEvent(event, at, fate) => EventAddsDelta(cfg, s, event, at, fate);
    case Outbound(Report(at, fate)) => ReportAddsDelta(cfg, s, at, fate);
    case _ => OtherStepsAddNothing(cfg, s, op);
  }
}
