/** Receipts are never contradicted: at most one per message, final for its job, and exact when nothing fails. */
module Receipts {
  import opened Filters
  import opened Options
  import opened Envelopes
  import opened JobKeys
  import opened Queues
  import opened Tables
  import opened Effects
  import opened Bridge
  import opened BridgeRuns
  import opened Ingestion

  // --- UNIQUE(job_key) ---------------------------------------------------------------------------

  ghost predicate UniqueKeys(rows: seq<Job<DeliveryItem>>) {
    forall i, j :: 0 <= i < j < |rows| ==> rows[i].item.jobKey != rows[j].item.jobKey
  }

  lemma InsertKeepsUnique(db: Db, jobKey: string, kind: DeliveryKind, target: UserRef, e: BridgeEnvelope, now: int)
    requires UniqueKeys(db.deliveries)
    ensures var tx := EnqueueDelivery(db, jobKey, kind, target, e, now); tx.Success? ==> UniqueKeys(tx.value.deliveries)
  {
    hide NormalizeEnvelope;
  }

  lemma {:induction false} DeliverKeepsUnique(db: Db, eventId: int, users: seq<UserRef>, e: BridgeEnvelope, now: int)
    requires UniqueKeys(db.deliveries)
    ensures var tx := DeliverToUsers(db, eventId, users, e, now); tx.Success? ==> UniqueKeys(tx.value.deliveries)
    decreases |users|
  {
    hide UniqueKeys, EnqueueDelivery, Print;
    if users != [] {
      InsertKeepsUnique(db, Print(InboundKey(eventId, users[0])), InboundDelivery, users[0], e, now);
      var next := EnqueueDelivery(db, Print(InboundKey(eventId, users[0])), InboundDelivery, users[0], e, now);
      if next.Success? {
        DeliverKeepsUnique(next.value, eventId, users[1..], e, now);
      }
    }
  }

  lemma {:induction false} RelayKeepsUnique(db: Db, eventId: int, peers: seq<Peer>, i: nat, e: BridgeEnvelope, now: int)
    requires UniqueKeys(db.deliveries) && i <= |peers|
    ensures var tx := RelayToPeers(db, eventId, peers, i, e, now); tx.Success? ==> UniqueKeys(tx.value.deliveries)
    decreases |peers| - i
  {
    hide UniqueKeys, EnqueueDelivery, Print, NormalizeEnvelope;
    if i < |peers| {
      var moved := e.(conversation := peers[i].toConversation);
      InsertKeepsUnique(db, Print(RelayKey(eventId, i, peers[i].user)), RelayDelivery, peers[i].user, moved, now);
      var next :=
        EnqueueDelivery(db, Print(RelayKey(eventId, i, peers[i].user)), RelayDelivery, peers[i].user, moved, now);
      RelayKeepsUnique(db, eventId, peers, i + 1, e, now);
      if next.Success? {
        RelayKeepsUnique(next.value, eventId, peers, i + 1, e, now);
      }
    }
  }

  lemma RouteEventKeepsUnique(cfg: Config, db: Db, index: nat, id: string, e: BridgeEnvelope, now: int)
    requires UniqueKeys(db.deliveries)
    ensures var tx := RouteEvent(cfg, db, index, id, e, now); tx.Success? ==> UniqueKeys(tx.value.deliveries)
  {
    hide DeliverToUsers, RelayToPeers, BoundUsers, Sorted, HasOrphan, Conversations.Key;
    var users := UsersFor(cfg, db, e);
    DeliverKeepsUnique(db, index + 1, users, e, now);
    var delivered := DeliverToUsers(db, index + 1, users, e, now);
    if delivered.Success? {
      RelayKeepsUnique(delivered.value, index + 1, cfg.peers, 0, e, now);
    }
  }

  lemma EnqueueEventKeepsUnique(cfg: Config, db: Db, event: GatewayEvent, now: int)
    requires UniqueKeys(db.deliveries)
    ensures var tx := EnqueueEvent(cfg, db, event, now); tx.Success? ==> UniqueKeys(tx.value.deliveries)
  {
    hide RouteEvent, NormalizeEnvelope, EventId, HasEvent, Conversations.Key;
    var normal := NormalizeEnvelope(event.envelope);
    if normal.Success? {
      var e := normal.value;
      var id := EventId(cfg, event.gatewayMessageId, e, now);
      var row := EventRow(id, Conversations.Key(e.conversation), e, Pending, now, now);
      RouteEventKeepsUnique(cfg, db.(events := db.events + [row]), |db.events|, id, e, now);
    }
  }

  lemma ReceiptKeepsUnique(db: Db, target: UserRef, c: ConversationRef, messageRef: MessageRef, code: ReceiptCode,
                           text: string, now: int, jobKey: string)
    requires UniqueKeys(db.deliveries)
    ensures var tx := EnqueueReceipt(db, target, c, messageRef, code, text, now, jobKey);
            tx.Success? ==> UniqueKeys(tx.value.deliveries)
  {
    hide UniqueKeys, EnqueueDelivery, NewReceiptEnvelope, ReceiptConversation;
    var envelope := NewReceiptEnvelope(ReceiptConversation(c), messageRef, code, text);
    InsertKeepsUnique(db, jobKey, ReceiptDelivery, target, envelope, now);
  }

  lemma SaveMessageKeepsUnique(cfg: Config, db: Db, m: Message, now: int)
    requires UniqueKeys(db.deliveries)
    ensures var tx := SaveMessage(cfg, db, m, now); tx.Success? ==> UniqueKeys(tx.value.deliveries)
  {
    hide UniqueKeys, Parse, Print, EnqueueReceipt, PrintCursor, InvalidText, WrongKindText, HasMessage, HasSource,
         Conversations.Key;
    var saved := db.(messages := db.messages + [MessageRow(m, now)]);
    match Parse(m.body)
    case Failure(problem) =>
      ReceiptKeepsUnique(saved, m.sender, FallbackConversation(), MessageRef(PrintCursor(m.cursor), ""),
                         UnsupportedContent, InvalidText(problem), now, Print(ReceiptKey(m.cursor, InvalidReceipt)));
    case Success(e) =>
      ReceiptKeepsUnique(saved, m.sender, e.conversation, e.messageRef, UnsupportedContent, WrongKindText(e.kind), now,
                         Print(ReceiptKey(m.cursor, KindReceipt)));
  }

  lemma ReportKeepsUnique(cfg: Config, s: Sys, step: WorkerStep)
    requires UniqueKeys(s.db.deliveries)
    ensures UniqueKeys(Step(cfg, s, Outbound(step)).db.deliveries)
  {
    hide UniqueKeys, Print, EnqueueReceipt, ErrorText, WorkStep;
    if step.Report? && s.out.pc.Reporting? {
      var job, error := s.out.pc.job, s.out.pc.error;
      var db := s.db.(outbound := WorkStep(OutQ(s), step).rows);
      ReceiptKeepsUnique(db, job.item.sender, job.item.envelope.conversation, job.item.envelope.messageRef, error.code,
                         ErrorText(error), step.at, Print(ReceiptKey(job.item.source, DeliveryReceipt)));
    }
  }

  lemma SameItemsSameKeys(rows: seq<Job<DeliveryItem>>, next: seq<Job<DeliveryItem>>)
    requires UniqueKeys(rows) && Items(next) == Items(rows)
    ensures UniqueKeys(next)
  {
    forall i | 0 <= i < |next| ensures next[i].item == rows[i].item { assert Items(next)[i] == Items(rows)[i]; }
  }

  lemma StepKeepsUnique(cfg: Config, s: Sys, op: Op)
    requires Core(cfg, s) && UniqueKeys(s.db.deliveries)
    ensures UniqueKeys(Step(cfg, s, op).db.deliveries)
  {
    hide Core, UniqueKeys, SaveMessage, EnqueueEvent, WorkStep;
    match op
    case OnMessage(m, at, fate) => SaveMessageKeepsUnique(cfg, s.db, m, at);
    case OnEvent(event, at, fate) => EnqueueEventKeepsUnique(cfg, s.db, event, at);
    case Outbound(step) => ReportKeepsUnique(cfg, s, step);
    case Deliver(step) =>
      CoreIsSafe(cfg, s);
      ItemsGrow(DelQ(s), Work(step));
      SameItemsSameKeys(s.db.deliveries, Step(cfg, s, op).db.deliveries);
    case _ =>
  }

  lemma {:induction false} RunKeepsUnique(cfg: Config, s: Sys, ops: seq<Op>)
    requires Core(cfg, s) && UniqueKeys(s.db.deliveries)
    ensures UniqueKeys(Run(cfg, s, ops).db.deliveries)
    decreases |ops|
  {
    hide Core, Step, UniqueKeys;
    if ops != [] {
      StepKeepsUnique(cfg, s, ops[0]);
      StepKeepsCore(cfg, s, ops[0]);
      RunKeepsUnique(cfg, Step(cfg, s, ops[0]), ops[1..]);
    }
  }

  // --- At most one receipt per message -----------------------------------------------------------

  lemma {:induction false} ChatItemHasItsMessage(cfg: Config, rows: seq<MessageRow>, item: OutboundItem)
    requires item in ChatItems(cfg, rows)
    ensures exists row <- rows :: row.message.cursor == item.source && IntakeOf(cfg, row.message).ChatMessage? &&
                                  ChatItem(cfg, row.message) == [item]
  {
    hide IntakeOf;
    var n := |rows| - 1;
    assert rows == rows[..n] + [rows[n]];
    if item in ChatItems(cfg, rows[..n]) {
      ChatItemHasItsMessage(cfg, rows[..n], item);
    } else {
      assert rows[n] in rows;
    }
  }

  /** The receipt stored under this key, as its origin describes it. */
  lemma ReceiptOrigin(cfg: Config, s: Sys, i: nat, c: Cursor, f: ReceiptFamily)
    requires Core(cfg, s) && i < |s.db.deliveries| && s.db.deliveries[i].item.jobKey == Print(ReceiptKey(c, f))
    ensures Origin(cfg, s, ReceiptKey(c, f), s.db.deliveries[i].item)
  {
    hide Print, Origin;
    var item := s.db.deliveries[i].item;
    assert Known(cfg, s, item);
    var key :| item.jobKey == Print(key) && Origin(cfg, s, key, item);
    PrintInjective(key, ReceiptKey(c, f));
  }

  lemma CursorHasOneMessage(cfg: Config, s: Sys, i: nat, row: MessageRow)
    requires Core(cfg, s) && i < |s.db.messages| && row in s.db.messages &&
             row.message.cursor == s.db.messages[i].message.cursor
    ensures s.db.messages[i] == row
  {
    hide Known, Safe;
    var k :| 0 <= k < |s.db.messages| && s.db.messages[k] == row;
    assert !(k < i) && !(i < k);
  }

  lemma DeliveryReceiptIsForChat(cfg: Config, s: Sys, c: Cursor, item: DeliveryItem, i: nat)
    requires Core(cfg, s) && Ingested(cfg, s) && Origin(cfg, s, ReceiptKey(c, DeliveryReceipt), item)
    requires i < |s.db.messages| && s.db.messages[i].message.cursor == c
    ensures IntakeOf(cfg, s.db.messages[i].message).ChatMessage?
  {
    hide IntakeOf, Print, Filter, IngestReceipts, ChatItems, Known, Safe;
    var j :| 0 <= j < |s.db.outbound| && s.db.outbound[j].item.source == c;
    assert Items(s.db.outbound)[j] in ChatItems(cfg, s.db.messages);
    ChatItemHasItsMessage(cfg, s.db.messages, Items(s.db.outbound)[j]);
    var row :| row in s.db.messages && row.message.cursor == c && IntakeOf(cfg, row.message).ChatMessage?;
    CursorHasOneMessage(cfg, s, i, row);
  }

  lemma ArrivalExcludesDelivery(cfg: Config, s: Sys, c: Cursor, a: DeliveryItem, f: ReceiptFamily, b: DeliveryItem)
    requires Core(cfg, s) && Ingested(cfg, s)
    requires f != DeliveryReceipt && Origin(cfg, s, ReceiptKey(c, f), a)
    ensures !Origin(cfg, s, ReceiptKey(c, DeliveryReceipt), b)
  {
    hide Core, Ingested, Print, Parse, ReceiptItem;
    var i :| 0 <= i < |s.db.messages| && s.db.messages[i].message.cursor == c &&
      IngestReceipt(cfg, s.db.messages[i].message) == [a];
    if Origin(cfg, s, ReceiptKey(c, DeliveryReceipt), b) {
      DeliveryReceiptIsForChat(cfg, s, c, b, i);
    }
  }

  lemma ArrivalReceiptIsOne(cfg: Config, s: Sys, c: Cursor, f: ReceiptFamily, a: DeliveryItem, g: ReceiptFamily,
                            b: DeliveryItem)
    requires Core(cfg, s) && f != DeliveryReceipt && g != DeliveryReceipt
    requires Origin(cfg, s, ReceiptKey(c, f), a) && Origin(cfg, s, ReceiptKey(c, g), b)
    ensures a == b
  {
    hide IngestReceipt, Print, Known, Safe;
    var i :| 0 <= i < |s.db.messages| && s.db.messages[i].message.cursor == c &&
      IngestReceipt(cfg, s.db.messages[i].message) == [a];
    var j :| 0 <= j < |s.db.messages| && s.db.messages[j].message.cursor == c &&
      IngestReceipt(cfg, s.db.messages[j].message) == [b];
    assert i == j;
  }

  lemma ReachableReceipts(cfg: Config, ops: seq<Op>)
    ensures var s := Run(cfg, INITIAL, ops); Core(cfg, s) && Ingested(cfg, s) && UniqueKeys(s.db.deliveries)
  {
    hide Step;
    InitialCore(cfg);
    RunKeepsCore(cfg, INITIAL, ops);
    RunKeepsUnique(cfg, INITIAL, ops);
    RunKeepsIngested(cfg, INITIAL, ops);
  }

  /**
   Every outbound job comes from an archived message to the bridge: under its cursor, for its sender, with its body as
   parsed, filed under the key of its conversation.
   */
  lemma JobsNameTheirMessage(cfg: Config, ops: seq<Op>, i: nat)
    requires i < |Run(cfg, INITIAL, ops).db.outbound|
    ensures var db := Run(cfg, INITIAL, ops).db;
            var item := db.outbound[i].item;
            && item.envelope.kind == Chat && item.conversationKey == Conversations.Key(item.envelope.conversation)
            && exists row <- db.messages ::
                 row.message.recipient == cfg.bridge && row.message.sender != cfg.bridge &&
                 row.message.cursor == item.source && row.message.sender == item.sender &&
                 Parse(row.message.body) == Success(item.envelope)
  {
    hide Step, Print, Core, Filter, IngestReceipts, ChatItems, Parse, Conversations.Key;
    IngestionIsExact(cfg, ops);
    var db := Run(cfg, INITIAL, ops).db;
    var item := Items(db.outbound)[i];
    assert item in ChatItems(cfg, db.messages);
    ChatItemHasItsMessage(cfg, db.messages, item);
    var row :| row in db.messages && row.message.cursor == item.source && IntakeOf(cfg, row.message).ChatMessage? &&
               ChatItem(cfg, row.message) == [item];
  }

  /** The envelope of a receipt: about this conversation and message, with this code, saying this and nothing more. */
  predicate IsReceipt(e: BridgeEnvelope, conversation: ConversationRef, messageRef: MessageRef, code: ReceiptCode,
                      text: string) {
    && e.kind == Receipt && e.version == "v1alpha1" && e.remoteSender == None
    && e.conversation == conversation && e.messageRef == messageRef
    && e.metadata == map["code" := CodeName(code)]
    && e.content == [Segment(Text, text, "", "", "", "", "", None)]
  }

  lemma ReceiptItemIsReceipt(target: UserRef, c: ConversationRef, messageRef: MessageRef, code: ReceiptCode,
                             text: string, jobKey: JobKey)
    requires NormalRef(c)
    ensures IsReceipt(ReceiptItem(target, c, messageRef, code, text, jobKey).envelope, c, messageRef, code, text)
    ensures code == UnsupportedContent ==>
              ReceiptItem(target, c, messageRef, code, text, jobKey).envelope.metadata ==
                map["code" := "unsupported_content"]
  {
    hide NormalRef;
  }

  /** What a receipt for another kind says. */
  lemma WrongKindWording(kind: EnvelopeKind)
    requires kind == System || kind == Receipt
    ensures WrongKindText(kind) ==
            "bridge message kind " + ("\"" + (if kind == System then "system" else "receipt") + "\"")
                                   + " is not supported for outbound chat"
  {
  }

  /**
   The message got this `invalid` receipt: its body does not parse, and the receipt gives its cursor and the problem.
   */
  predicate TellsInvalid(m: Message, item: DeliveryItem) {
    && Parse(m.body).Failure?
    && IsReceipt(item.envelope, ConversationRef("qq", Private, "__bridge_receipt__", ""),
                 MessageRef(PrintCursor(m.cursor), ""),
                 UnsupportedContent, "bridge message format invalid: " + Parse(m.body).error)
    && item.envelope.metadata == map["code" := "unsupported_content"]
  }

  /** Or this `kind` receipt: it parses as another kind, and the receipt names its conversation and reference. */
  predicate TellsKind(m: Message, item: DeliveryItem) {
    && Parse(m.body).Success? && Parse(m.body).value.kind != Chat
    && var e := Parse(m.body).value;
       IsReceipt(item.envelope, e.conversation, e.messageRef, UnsupportedContent, WrongKindText(e.kind))
  }

  lemma IngestReceiptTells(cfg: Config, m: Message, item: DeliveryItem)
    requires IngestReceipt(cfg, m) == [item]
    ensures m.recipient == cfg.bridge && m.sender != cfg.bridge && item.target == m.sender &&
            item.kind == ReceiptDelivery
    ensures (item.jobKey == Print(ReceiptKey(m.cursor, InvalidReceipt)) && TellsInvalid(m, item)) ||
            (item.jobKey == Print(ReceiptKey(m.cursor, KindReceipt)) && TellsKind(m, item))
  {
    hide Print, Parse, IsReceipt, WrongKindText, PrintCursor, NewReceiptEnvelope, ReceiptConversation, NormalRef;
    match IntakeOf(cfg, m)
    case InvalidBody(problem) =>
      ReceiptItemIsReceipt(m.sender, FallbackConversation(), MessageRef(PrintCursor(m.cursor), ""), UnsupportedContent,
                           InvalidText(problem), ReceiptKey(m.cursor, InvalidReceipt));
    case OtherKind(e) =>
      ParsedConversationIsNormal(m.body, e);
      ReceiptItemIsReceipt(m.sender, e.conversation, e.messageRef, UnsupportedContent, WrongKindText(e.kind),
                           ReceiptKey(m.cursor, KindReceipt));
    case _ =>
  }

  lemma ParsedConversationIsNormal(body: Body, e: BridgeEnvelope)
    requires Parse(body) == Success(e)
    ensures NormalRef(e.conversation)
  {
    hide NormalRef;
  }

  /**
   Every receipt given on arrival answers the sender of an archived message to the bridge, and tells which message and
   why: `invalid` because the body does not parse, `kind` because it parses as something other than chat.
   */
  lemma ArrivalReceiptsNameTheirMessage(cfg: Config, ops: seq<Op>, i: nat, c: Cursor, f: ReceiptFamily)
    requires f != DeliveryReceipt
    requires var rows := Run(cfg, INITIAL, ops).db.deliveries;
             i < |rows| && rows[i].item.jobKey == Print(ReceiptKey(c, f))
    ensures var db := Run(cfg, INITIAL, ops).db;
            var item := db.deliveries[i].item;
            && item.kind == ReceiptDelivery && item.envelope.kind == Receipt
            && exists row <- db.messages ::
                 && row.message.recipient == cfg.bridge && row.message.sender != cfg.bridge
                 && row.message.cursor == c && row.message.sender == item.target
                 && (if f == InvalidReceipt then TellsInvalid(row.message, item) else TellsKind(row.message, item))
  {
    hide Step, Print, Core, Ingested, UniqueKeys, Parse, IngestReceipt, WrongKindText, PrintCursor;
    var s := Run(cfg, INITIAL, ops);
    ReachableReceipts(cfg, ops);
    ReceiptOrigin(cfg, s, i, c, f);
    var item := s.db.deliveries[i].item;
    var k :| 0 <= k < |s.db.messages| && s.db.messages[k].message.cursor == c &&
             IngestReceipt(cfg, s.db.messages[k].message) == [item];
    var m := s.db.messages[k].message;
    assert s.db.messages[k] in s.db.messages;
    IngestReceiptTells(cfg, m, item);
    if item.jobKey == Print(ReceiptKey(c, InvalidReceipt)) && TellsInvalid(m, item) {
      PrintInjective(ReceiptKey(c, InvalidReceipt), ReceiptKey(c, f));
    } else {
      PrintInjective(ReceiptKey(c, KindReceipt), ReceiptKey(c, f));
    }
  }

  /** Across the `invalid`, `kind` and `delivery` families together, a source message gets at most one receipt. */
  lemma AtMostOneReceipt(cfg: Config, ops: seq<Op>, c: Cursor, f: ReceiptFamily, g: ReceiptFamily, i: nat, j: nat)
    requires var rows := Run(cfg, INITIAL, ops).db.deliveries;
             && i < |rows| && rows[i].item.jobKey == Print(ReceiptKey(c, f))
             && j < |rows| && rows[j].item.jobKey == Print(ReceiptKey(c, g))
    ensures i == j && f == g
  {
    hide Step, Print, Core, Origin, Ingested;
    var s := Run(cfg, INITIAL, ops);
    ReachableReceipts(cfg, ops);
    ReceiptOrigin(cfg, s, i, c, f);
    ReceiptOrigin(cfg, s, j, c, g);
    var a, b := s.db.deliveries[i].item, s.db.deliveries[j].item;
    if f != DeliveryReceipt && g != DeliveryReceipt {
      ArrivalReceiptIsOne(cfg, s, c, f, a, g, b);
      PrintInjective(ReceiptKey(c, f), ReceiptKey(c, g));
    } else if f != DeliveryReceipt {
      ArrivalExcludesDelivery(cfg, s, c, a, f, b);
    } else if g != DeliveryReceipt {
      ArrivalExcludesDelivery(cfg, s, c, b, g, a);
    }
  }

  // --- A receipt is final ------------------------------------------------------------------------

  /** A `delivery` receipt in the table means that its job is spent, and is addressed to the job's sender. */
  lemma ReceiptedIsSpent(cfg: Config, s: Sys, d: nat, i: nat)
    requires Core(cfg, s) && d < |s.db.deliveries| && i < |s.db.outbound|
    requires s.db.deliveries[d].item.jobKey == Print(ReceiptKey(s.db.outbound[i].item.source, DeliveryReceipt))
    ensures Spent(OutQ(s), i) && s.db.deliveries[d].item.target == s.db.outbound[i].item.sender
  {
    hide Print, Known, Safe;
    var c := s.db.outbound[i].item.source;
    ReceiptOrigin(cfg, s, d, c, DeliveryReceipt);
    var j :| 0 <= j < |s.db.outbound| && s.db.outbound[j].item.source == c && Spent(OutQ(s), j) &&
             s.db.outbound[j].item.sender == s.db.deliveries[d].item.target;
    assert j == i;
  }

  lemma {:induction false} SpentIsNeverSent<T>(q: Queue<T>, ops: seq<QueueOp<T>>, i: nat)
    requires Safe(q) && Spent(q, i)
    ensures var r := QueueRun(q, ops);
            && Spent(r, i) && r.rows[i] == q.rows[i]
            && q.worker.sends <= r.worker.sends
            && (forall p :: |q.worker.sends| <= p < |r.worker.sends| ==> r.worker.sends[p].id != i)
    decreases |ops|
  {
    if ops != [] {
      var r := QueueStep(q, ops[0]);
      StepIsSafe(q, ops[0]);
      assert r.worker.sends == q.worker.sends ||
             (Holds(q, q.worker.pc.job.id) && |r.worker.sends| == |q.worker.sends| + 1 &&
              r.worker.sends[|q.worker.sends|].id == q.worker.pc.job.id);
      SpentIsNeverSent(r, ops[1..], i);
    }
  }

  /**
   Once a job's `delivery` receipt exists the job is over, even if marking it failed did not work: in every
   continuation its row stays as it is, undelivered, and it is never sent again.
   */
  lemma ReceiptIsFinal(cfg: Config, before: seq<Op>, after: seq<Op>, i: nat)
    requires var db := Run(cfg, INITIAL, before).db;
             i < |db.outbound| &&
               HasJobKey(db.deliveries, Print(ReceiptKey(db.outbound[i].item.source, DeliveryReceipt)))
    ensures var s := Run(cfg, INITIAL, before);
            var t := Run(cfg, s, after);
            && i < |t.db.outbound| && t.db.outbound[i] == s.db.outbound[i] && t.db.outbound[i].status != Delivered
            && (forall p :: |s.out.sends| <= p < |t.out.sends| ==> t.out.sends[p].id != i)
  {
    hide Step, Print, QueueRun, Core, Ingested, UniqueKeys;
    var s := Run(cfg, INITIAL, before);
    ReachableReceipts(cfg, before);
    var d :| 0 <= d < |s.db.deliveries|
             && s.db.deliveries[d].item.jobKey == Print(ReceiptKey(s.db.outbound[i].item.source, DeliveryReceipt));
    ReceiptedIsSpent(cfg, s, d, i);
    CoreIsSafe(cfg, s);
    QueuesOfARun(cfg, s, after);
    SpentIsNeverSent(OutQ(s), OutOps(cfg, s, after), i);
  }

  // --- Why a delivery receipt was written --------------------------------------------------------

  /** What the loop holds of an answer is the answer of one of its sends. */
  predicate AnswerIsReal(q: Queue<OutboundItem>) {
    var pc := q.worker.pc;
    && (pc.Answered? ==> exists r <- q.worker.sends :: r.id == pc.job.id && r.result == pc.result)
    && (pc.Reporting? ==>
          !pc.error.retryable && exists r <- q.worker.sends :: r.id == pc.job.id && r.result == Refused(pc.error))
  }

  lemma StepKeepsAnswersReal(q: Queue<OutboundItem>, op: QueueOp<OutboundItem>)
    requires AnswerIsReal(q)
    ensures AnswerIsReal(QueueStep(q, op))
  {
    hide Backoff, ErrorText, CodeName, SettledRows, FirstDueFrom;
    var r := QueueStep(q, op);
    if r.worker.sends != q.worker.sends {
      assert r.worker.sends[|q.worker.sends|] in r.worker.sends;
    }
  }

  /**
   This item reports the terminal refusal `r` of outbound job `r.id`, to its sender, about its conversation and
   message.
   */
  predicate Reports(s: Sys, item: DeliveryItem, r: SendRecord) {
    && r.id < |s.db.outbound| && r.result.Refused? && !r.result.error.retryable
    && var job, error := s.db.outbound[r.id].item, r.result.error;
       && item.jobKey == Print(ReceiptKey(job.source, DeliveryReceipt)) && item.kind == ReceiptDelivery
       && item.target == job.sender
       && IsReceipt(item.envelope, job.envelope.conversation, job.envelope.messageRef, error.code, ErrorText(error))
  }

  ghost predicate Explained(s: Sys, item: DeliveryItem) {
    exists r <- s.out.sends :: Reports(s, item, r)
  }

  ghost predicate AllExplained(s: Sys) {
    && AnswerIsReal(OutQ(s))
    && (forall j :: 0 <= j < |s.db.outbound| ==> NormalRef(s.db.outbound[j].item.envelope.conversation))
    && forall item <- Items(s.db.deliveries) :: IsDeliveryReceipt(item) ==> Explained(s, item)
  }

  lemma ReportIsExplained(cfg: Config, s: Sys, at: int, t: Sys)
    requires Safe(OutQ(s)) && AllExplained(s) && s.out.pc.Reporting?
    requires AddsDelta(cfg, s, Outbound(Report(at, Commits)), t) ||
             AddsDelta(cfg, s, Outbound(Report(at, CommitsUnseen)), t)
    ensures Explained(t, DeliveryReceiptItem(s.out.pc.job, s.out.pc.error))
  {
    hide Print, ErrorText, IsReceipt, NormalRef, NewReceiptEnvelope, ReceiptConversation;
    var job, error := s.out.pc.job, s.out.pc.error;
    var r :| r in s.out.sends && r.id == job.id && r.result == Refused(error);
    ReceiptItemIsReceipt(job.item.sender, job.item.envelope.conversation, job.item.envelope.messageRef, error.code,
                         ErrorText(error), ReceiptKey(job.item.source, DeliveryReceipt));
    assert t.out.sends == s.out.sends && t.db.outbound == s.db.outbound;
    assert Reports(t, DeliveryReceiptItem(job, error), r);
  }

  lemma ExplainedLater(s: Sys, t: Sys, item: DeliveryItem)
    requires Explained(s, item) && Extends(OutQ(s), OutQ(t))
    ensures Explained(t, item)
  {
    hide Print, ErrorText, IsReceipt;
    var r :| r in s.out.sends && Reports(s, item, r);
    assert RowExtends(s.db.outbound[r.id], t.db.outbound[r.id]);
    assert Reports(t, item, r) && r in t.out.sends;
  }

  lemma NewChatIsNormal(cfg: Config, s: Sys, op: Op)
    ensures forall item <- DeltaOf(cfg, s, op).outbound :: NormalRef(item.envelope.conversation)
  {
    hide NormalizeEnvelope, EventItems, OrphansFor, EventRowFor, UsersFor, Routable, NormalRef, DeliveryReceiptItem;
    if op.OnMessage? && IntakeOf(cfg, op.message).ChatMessage? {
      ParsedConversationIsNormal(op.message.body, IntakeOf(cfg, op.message).envelope);
    }
  }

  lemma StepExplainsNew(cfg: Config, s: Sys, op: Op, t: Sys)
    requires Core(cfg, s) && AllExplained(s) && AddsDelta(cfg, s, op, t)
    ensures forall item <- DeltaOf(cfg, s, op).deliveries :: IsDeliveryReceipt(item) ==> Explained(t, item)
  {
    hide Core, AllExplained, Explained, IsDeliveryReceipt, IsIngestReceipt, IsEventCopy, AddsDelta, NormalizeEnvelope,
         EventId, UsersFor, Routable, EventRowFor, OrphansFor, EventItems, ChatItem, IngestReceipt, DeliveryReceiptItem;
    CoreIsSafe(cfg, s);
    DeltaByFamily(cfg, s, op);
    forall item | item in DeltaOf(cfg, s, op).deliveries && IsDeliveryReceipt(item)
      ensures Explained(t, item)
    {
      FamiliesExclude(item);
      match op {
        case Outbound(Report(at, fate)) => ReportIsExplained(cfg, s, at, t);
        case _ =>
      }
    }
  }

  lemma StepKeepsExplained(cfg: Config, s: Sys, op: Op)
    requires Core(cfg, s) && AllExplained(s)
    ensures AllExplained(Step(cfg, s, op))
  {
    hide Core, Step, DeltaOf, QueueStep, Explained, IsDeliveryReceipt, AnswerIsReal, NormalRef, BindingsAfter, Safe;
    var t := Step(cfg, s, op);
    CoreIsSafe(cfg, s);
    StepAddsDelta(cfg, s, op);
    StepKeepsAnswersReal(OutQ(s), OutOp(cfg, s, op));
    StepIsSafe(OutQ(s), OutOp(cfg, s, op));
    ItemsGrow(OutQ(s), OutOp(cfg, s, op));
    ItemsGrow(DelQ(s), DelOp(cfg, s, op));
    NewChatIsNormal(cfg, s, op);
    StepExplainsNew(cfg, s, op, t);
    forall item | item in Items(t.db.deliveries) && IsDeliveryReceipt(item)
      ensures Explained(t, item)
    {
      if item in Items(s.db.deliveries) {
        ExplainedLater(s, t, item);
      } else {
        assert item in Inserted(DelOp(cfg, s, op));
      }
    }
    var now := Items(t.db.outbound);
    assert now == Items(s.db.outbound) + Inserted(OutOp(cfg, s, op)) && |now| == |t.db.outbound|;
    forall j | 0 <= j < |now|
      ensures NormalRef(t.db.outbound[j].item.envelope.conversation)
    {
      assert now[j] == t.db.outbound[j].item;
      if j < |s.db.outbound| {
        assert now[j] == Items(s.db.outbound)[j] == s.db.outbound[j].item;
      } else {
        assert now[j] in Inserted(OutOp(cfg, s, op));
      }
    }
  }

  lemma {:induction false} RunKeepsExplained(cfg: Config, s: Sys, ops: seq<Op>)
    requires Core(cfg, s) && AllExplained(s)
    ensures AllExplained(Run(cfg, s, ops))
    decreases |ops|
  {
    hide Core, Step, AllExplained;
    if ops != [] {
      StepKeepsExplained(cfg, s, ops[0]);
      StepKeepsCore(cfg, s, ops[0]);
      RunKeepsExplained(cfg, Step(cfg, s, ops[0]), ops[1..]);
    }
  }

  /**
   Every `delivery` receipt reports a refusal that really happened: the gateway refused a send of that very job for
   good, and the receipt gives its sender the job's conversation and message, the error's code and the error's text.
   */
  lemma DeliveryReceiptsNameTheirRefusal(cfg: Config, ops: seq<Op>, i: nat, c: Cursor)
    requires var rows := Run(cfg, INITIAL, ops).db.deliveries;
             i < |rows| && rows[i].item.jobKey == Print(ReceiptKey(c, DeliveryReceipt))
    ensures var s := Run(cfg, INITIAL, ops);
            exists r <- s.out.sends :: Reports(s, s.db.deliveries[i].item, r) && s.db.outbound[r.id].item.source == c
  {
    hide Step, Print, Core, ErrorText, IsReceipt;
    InitialCore(cfg);
    RunKeepsExplained(cfg, INITIAL, ops);
    var s := Run(cfg, INITIAL, ops);
    var item := s.db.deliveries[i].item;
    assert item == Items(s.db.deliveries)[i] && IsDeliveryReceipt(item);
    var r :| r in s.out.sends && Reports(s, item, r);
    PrintInjective(ReceiptKey(s.db.outbound[r.id].item.source, DeliveryReceipt), ReceiptKey(c, DeliveryReceipt));
  }

  // --- Without faults a receipt is exact ---------------------------------------------------------

  /** No write of the outbound loop fails and the process does not restart; other writers may still fail. */
  predicate OutboundFaultFree(op: Op) {
    && !op.Reopen?
    && (op.Outbound? && !op.step.Send? ==> op.step.fate.Commits?)
  }

  function ReceiptKeyOf(job: Job<OutboundItem>): string {
    Print(ReceiptKey(job.item.source, DeliveryReceipt))
  }

  ghost predicate Reported(s: Sys) {
    forall i :: 0 <= i < |s.db.outbound| ==>
      && (s.db.outbound[i].status == Failed ==>
            HasJobKey(s.db.deliveries, ReceiptKeyOf(s.db.outbound[i])) || (s.out.pc.Reporting? && s.out.pc.job.id == i))
      && (s.db.outbound[i].status == Processing ==> Holds(OutQ(s), i) && !s.out.pc.Reporting?)
  }

  lemma KeysPersist(rows: seq<Job<DeliveryItem>>, next: seq<Job<DeliveryItem>>, jobKey: string)
    requires Items(rows) <= Items(next) && HasJobKey(rows, jobKey)
    ensures HasJobKey(next, jobKey)
  {
    var i :| 0 <= i < |rows| && rows[i].item.jobKey == jobKey;
    assert Items(next)[i] == Items(rows)[i];
    assert next[i].item.jobKey == jobKey;
  }

  predicate ReportingOn(q: Queue<OutboundItem>, i: nat) {
    q.worker.pc.Reporting? && q.worker.pc.job.id == i
  }

  /** A faultless step of the outbound queue strands no row, and fails none but the one the loop then reports on. */
  lemma QueueStepReports(q: Queue<OutboundItem>, op: QueueOp<OutboundItem>, i: nat)
    requires Safe(q) && q.reports && i < |QueueStep(q, op).rows|
    requires op.Insert? || (op.Work? && (op.step.Send? || op.step.fate.Commits?))
    requires i < |q.rows| && q.rows[i].status == Processing ==> Holds(q, i) && !q.worker.pc.Reporting?
    ensures var r := QueueStep(q, op);
            && (r.rows[i].status == Processing ==> Holds(r, i) && !r.worker.pc.Reporting?)
            && (r.rows[i].status == Failed ==>
                  ReportingOn(r, i) ||
                  (i < |q.rows| && q.rows[i].status == Failed && (ReportingOn(q, i) ==> op.Work? && op.step.Report?)))
  {
    hide Backoff, ErrorText, CodeName;
  }

  lemma StepKeepsReported(cfg: Config, s: Sys, op: Op)
    requires Core(cfg, s) && Reported(s) && OutboundFaultFree(op)
    ensures Reported(Step(cfg, s, op))
  {
    hide DeltaOf, Core, Step, Print, HasJobKey, QueueStep, Holds, Safe;
    var t := Step(cfg, s, op);
    StepAddsDelta(cfg, s, op);
    CoreIsSafe(cfg, s);
    StepIsSafe(OutQ(s), OutOp(cfg, s, op));
    ItemsGrow(DelQ(s), DelOp(cfg, s, op));
    forall i | 0 <= i < |t.db.outbound|
      ensures t.db.outbound[i].status == Failed ==>
              HasJobKey(t.db.deliveries, ReceiptKeyOf(t.db.outbound[i])) || ReportingOn(OutQ(t), i)
      ensures t.db.outbound[i].status == Processing ==> Holds(OutQ(t), i) && !t.out.pc.Reporting?
    {
      QueueStepReports(OutQ(s), OutOp(cfg, s, op), i);
      if i < |s.db.outbound| && HasJobKey(s.db.deliveries, ReceiptKeyOf(s.db.outbound[i])) {
        KeysPersist(s.db.deliveries, t.db.deliveries, ReceiptKeyOf(s.db.outbound[i]));
        assert RowExtends(s.db.outbound[i], t.db.outbound[i]);
      }
      if ReportingOn(OutQ(s), i) && op.Outbound? && op.step.Report? {
        ReportIsStored(cfg, s, op.step.at, t);
      }
    }
  }

  lemma ReportIsStored(cfg: Config, s: Sys, at: int, t: Sys)
    requires Safe(OutQ(s)) && s.out.pc.Reporting? && AddsDelta(cfg, s, Outbound(Report(at, Commits)), t)
    ensures var id := s.out.pc.job.id;
            id < |t.db.outbound| && HasJobKey(t.db.deliveries, ReceiptKeyOf(t.db.outbound[id]))
  {
    hide Print, ReceiptConversation, NewReceiptEnvelope, ErrorText;
    assert t.db.deliveries[|s.db.deliveries|].item == DeliveryReceiptItem(s.out.pc.job, s.out.pc.error);
  }

  lemma {:induction false} RunKeepsReported(cfg: Config, s: Sys, ops: seq<Op>)
    requires Core(cfg, s) && Reported(s) && forall op <- ops :: OutboundFaultFree(op)
    ensures Reported(Run(cfg, s, ops))
    decreases |ops|
  {
    hide Core, Step, Reported;
    if ops != [] {
      assert ops[0] in ops;
      StepKeepsReported(cfg, s, ops[0]);
      StepKeepsCore(cfg, s, ops[0]);
      assert forall op <- ops[1..] :: op in ops;
      RunKeepsReported(cfg, Step(cfg, s, ops[0]), ops[1..]);
    }
  }

  /**
   In a run whose outbound loop meets no fault, whenever the loop is at its head: a job has failed if and only if its
   `delivery` receipt is in the table, and that receipt is addressed to the sender of the job's message.
   */
  lemma FailedIffReceipted(cfg: Config, ops: seq<Op>, i: nat)
    requires forall op <- ops :: OutboundFaultFree(op)
    requires var s := Run(cfg, INITIAL, ops); s.out.pc.Idle? && i < |s.db.outbound|
    ensures var db := Run(cfg, INITIAL, ops).db;
            db.outbound[i].status == Failed <==>
            exists d :: 0 <= d < |db.deliveries| && db.deliveries[d].item.jobKey == ReceiptKeyOf(db.outbound[i])
                        && db.deliveries[d].item.target == db.outbound[i].item.sender
  {
    hide Step, Print, Core, Ingested, UniqueKeys;
    var s := Run(cfg, INITIAL, ops);
    ReachableReceipts(cfg, ops);
    InitialCore(cfg);
    RunKeepsReported(cfg, INITIAL, ops);
    forall d | 0 <= d < |s.db.deliveries| && s.db.deliveries[d].item.jobKey == ReceiptKeyOf(s.db.outbound[i])
      ensures s.db.outbound[i].status == Failed && s.db.deliveries[d].item.target == s.db.outbound[i].item.sender
    {
      ReceiptedIsSpent(cfg, s, d, i);
    }
  }
}
