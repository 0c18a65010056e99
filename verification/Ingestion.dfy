/** Every archived message has exactly the one outcome its body calls for, and the books of outcomes balance. */
module Ingestion {
  import opened Filters
  import opened Options
  import opened Envelopes
  import opened JobKeys
  import opened Queues
  import opened Tables
  import opened Effects
  import opened Bridge
  import opened BridgeRuns

  // --- Families of delivery jobs -----------------------------------------------------------------

  /** Receipts given on arrival, receipts given after a failed delivery, and copies of gateway events. */
  ghost predicate IsIngestReceipt(item: DeliveryItem) {
    exists c, f :: f != DeliveryReceipt && item.jobKey == Print(ReceiptKey(c, f))
  }

  ghost predicate IsDeliveryReceipt(item: DeliveryItem) {
    exists c :: item.jobKey == Print(ReceiptKey(c, DeliveryReceipt))
  }

  ghost predicate IsEventCopy(item: DeliveryItem) {
    exists key: JobKey :: !key.ReceiptKey? && item.jobKey == Print(key)
  }

  /** The families exclude each other, because keys print injectively. */
  lemma FamiliesExclude(item: DeliveryItem)
    ensures !(IsIngestReceipt(item) && IsDeliveryReceipt(item))
    ensures !(IsIngestReceipt(item) && IsEventCopy(item))
    ensures !(IsDeliveryReceipt(item) && IsEventCopy(item))
  {
    hide Print;
    forall a, b | item.jobKey == Print(a) && item.jobKey == Print(b)
      ensures a == b
    {
      PrintInjective(a, b);
    }
  }

  lemma EventItemsAreCopies(cfg: Config, eventId: int, users: seq<UserRef>, e: BridgeEnvelope)
    requires Routable(cfg, users, e)
    ensures forall item <- EventItems(cfg, eventId, users, e) :: IsEventCopy(item)
  {
    hide Print, NormalizeRef, RelayItems;
    if users != [] {
      RelayItemsAreKeyed(eventId, cfg.peers, 0, e);
      forall item | item in EventItems(cfg, eventId, users, e)
        ensures IsEventCopy(item)
      {
        if item in UserItems(eventId, users, e) {
          var k :| 0 <= k < |users| && item == UserItem(eventId, users[k], e);
          assert item.jobKey == Print(InboundKey(eventId, users[k]));
        } else {
          var p, u :| item.jobKey == Print(RelayKey(eventId, p, u)) && item.kind == RelayDelivery && item.target == u;
        }
      }
    }
  }

  lemma IngestReceiptIsOne(cfg: Config, m: Message)
    ensures forall item <- IngestReceipt(cfg, m) :: IsIngestReceipt(item)
  {
    hide Print, Parse, InvalidText, WrongKindText, PrintCursor, NewReceiptEnvelope, ReceiptConversation;
    forall item | item in IngestReceipt(cfg, m)
      ensures IsIngestReceipt(item)
    {
      assert item.jobKey == Print(IngestKey(cfg, m));
    }
  }

  lemma ReportIsDeliveryReceipt(cfg: Config, s: Sys, step: WorkerStep)
    ensures forall item <- DeltaOf(cfg, s, Outbound(step)).deliveries :: IsDeliveryReceipt(item)
  {
    hide Print, NewReceiptEnvelope, ReceiptConversation, ErrorText;
  }

  lemma MessageAddsArrivalReceipts(cfg: Config, s: Sys, m: Message, at: int, fate: Fate)
    ensures forall item <- DeltaOf(cfg, s, OnMessage(m, at, fate)).deliveries :: IsIngestReceipt(item)
  {
    hide ChatItem, IngestReceipt, IsIngestReceipt;
    IngestReceiptIsOne(cfg, m);
  }

  lemma EventAddsCopies(cfg: Config, s: Sys, event: GatewayEvent, at: int, fate: Fate)
    ensures forall item <- DeltaOf(cfg, s, OnEvent(event, at, fate)).deliveries :: IsEventCopy(item)
  {
    hide NormalizeEnvelope, EventId, UsersFor, Routable, EventRowFor, OrphansFor, EventItems, IsEventCopy;
    var normal := NormalizeEnvelope(event.envelope);
    if normal.Success? && Routable(cfg, UsersFor(cfg, s.db, normal.value), normal.value) {
      EventItemsAreCopies(cfg, |s.db.events| + 1, UsersFor(cfg, s.db, normal.value), normal.value);
    }
  }

  /** Which tables a step can add to. */
  lemma DeltaByTable(cfg: Config, s: Sys, op: Op)
    ensures var d := DeltaOf(cfg, s, op);
            && (!op.OnMessage? && !op.OnEvent? && !op.Outbound? ==> d.deliveries == [])
            && (!op.OnMessage? ==> d.messages == [] && d.outbound == [])
            && (!op.OnEvent? ==> d.events == [] && d.orphans == [])
  {
    hide NormalizeEnvelope, EventId, UsersFor, Routable, EventRowFor, OrphansFor, EventItems, ChatItem, IngestReceipt,
         DeliveryReceiptItem;
  }

  /** The new delivery jobs of a step, family by family. */
  lemma DeltaByFamily(cfg: Config, s: Sys, op: Op)
    ensures var d := DeltaOf(cfg, s, op);
            && (op.OnMessage? ==> forall item <- d.deliveries :: IsIngestReceipt(item))
            && (op.OnEvent? ==> forall item <- d.deliveries :: IsEventCopy(item))
            && (op.Outbound? ==> forall item <- d.deliveries :: IsDeliveryReceipt(item))
            && (!op.OnMessage? && !op.OnEvent? && !op.Outbound? ==> d.deliveries == [])
            && (!op.OnMessage? ==> d.messages == [] && d.outbound == [])
            && (!op.OnEvent? ==> d.events == [] && d.orphans == [])
  {
    hide DeltaOf, IsIngestReceipt, IsEventCopy, IsDeliveryReceipt;
    DeltaByTable(cfg, s, op);
    match op
    case OnMessage(m, at, fate) => MessageAddsArrivalReceipts(cfg, s, m, at, fate);
    case OnEvent(event, at, fate) => EventAddsCopies(cfg, s, event, at, fate);
    case Outbound(step) => ReportIsDeliveryReceipt(cfg, s, step);
    case _ =>
  }

  // --- Exactly one outcome -----------------------------------------------------------------------

  /** The outbound jobs the archive calls for, in the order the messages arrived. */
  ghost function ChatItems(cfg: Config, rows: seq<MessageRow>): seq<OutboundItem> {
    if rows == [] then [] else ChatItems(cfg, rows[..|rows| - 1]) + ChatItem(cfg, rows[|rows| - 1].message)
  }

  /** The receipts the archive calls for, in the order the messages arrived. */
  ghost function IngestReceipts(cfg: Config, rows: seq<MessageRow>): seq<DeliveryItem> {
    if rows == [] then [] else IngestReceipts(cfg, rows[..|rows| - 1]) + IngestReceipt(cfg, rows[|rows| - 1].message)
  }

  ghost predicate Ingested(cfg: Config, s: Sys) {
    && Items(s.db.outbound) == ChatItems(cfg, s.db.messages)
    && Filter(Items(s.db.deliveries), IsIngestReceipt) == IngestReceipts(cfg, s.db.messages)
  }

  lemma ArchiveGrows(cfg: Config, rows: seq<MessageRow>, row: MessageRow)
    ensures ChatItems(cfg, rows + [row]) == ChatItems(cfg, rows) + ChatItem(cfg, row.message)
    ensures IngestReceipts(cfg, rows + [row]) == IngestReceipts(cfg, rows) + IngestReceipt(cfg, row.message)
  {
    assert (rows + [row])[..|rows|] == rows;
  }

  lemma DeltaOfMessages(cfg: Config, s: Sys, op: Op)
    ensures var d := DeltaOf(cfg, s, op);
            d.messages == [] || exists row :: d.messages == [row] && d.outbound == ChatItem(cfg, row.message)
                                              && d.deliveries == IngestReceipt(cfg, row.message)
    ensures op.OnMessage? && DeltaOf(cfg, s, op).messages == [] ==> DeltaOf(cfg, s, op) == NOTHING
  {
    hide NormalizeEnvelope, EventId, UsersFor, Routable, EventRowFor, OrphansFor, EventItems, ChatItem, IngestReceipt;
    if op.OnMessage? && DeltaOf(cfg, s, op).messages != [] {
      assert DeltaOf(cfg, s, op).messages == [MessageRow(op.message, op.at)];
    }
  }

  /** A step's arrivals, as the archive calls for them. */
  lemma IngestDelta(cfg: Config, s: Sys, op: Op)
    ensures var d := DeltaOf(cfg, s, op);
            var rows := s.db.messages + d.messages;
            && ChatItems(cfg, rows) == ChatItems(cfg, s.db.messages) + d.outbound
            && IngestReceipts(cfg, rows) == IngestReceipts(cfg, s.db.messages) + Filter(d.deliveries, IsIngestReceipt)
  {
    hide ChatItem, IngestReceipt, DeltaOf, IsIngestReceipt, IsEventCopy, IsDeliveryReceipt, ChatItems, IngestReceipts;
    var d := DeltaOf(cfg, s, op);
    DeltaByFamily(cfg, s, op);
    DeltaOfMessages(cfg, s, op);
    if op.OnMessage? && d.messages != [] {
      ArchiveGrows(cfg, s.db.messages, d.messages[0]);
      FilterAll(d.deliveries, IsIngestReceipt);
    } else {
      assert s.db.messages + d.messages == s.db.messages;
      forall item | item in d.deliveries ensures !IsIngestReceipt(item) { FamiliesExclude(item); }
      FilterNone(d.deliveries, IsIngestReceipt);
    }
  }

  lemma StepKeepsIngested(cfg: Config, s: Sys, op: Op)
    requires Core(cfg, s) && Ingested(cfg, s)
    ensures Ingested(cfg, Step(cfg, s, op))
  {
    hide DeltaOf, Step, QueueStep, IsIngestReceipt, Filter, ChatItems, IngestReceipts;
    var t := Step(cfg, s, op);
    var d := DeltaOf(cfg, s, op);
    StepAddsDelta(cfg, s, op);
    ItemsGrow(OutQ(s), OutOp(cfg, s, op));
    ItemsGrow(DelQ(s), DelOp(cfg, s, op));
    DeltaByFamily(cfg, s, op);
    IngestDelta(cfg, s, op);
    FilterConcat(Items(s.db.deliveries), d.deliveries, IsIngestReceipt);
    assert Inserted(OutOp(cfg, s, op)) == d.outbound;
    assert Inserted(DelOp(cfg, s, op)) == d.deliveries;
  }

  lemma {:induction false} RunKeepsIngested(cfg: Config, s: Sys, ops: seq<Op>)
    requires Core(cfg, s) && Ingested(cfg, s)
    ensures Ingested(cfg, Run(cfg, s, ops))
    decreases |ops|
  {
    hide Core, Step, Ingested;
    if ops != [] {
      StepKeepsIngested(cfg, s, ops[0]);
      StepKeepsCore(cfg, s, ops[0]);
      RunKeepsIngested(cfg, Step(cfg, s, ops[0]), ops[1..]);
    }
  }

  /**
   In every reachable state the outbound queue carries exactly the chat messages of the archive, in arrival order, and
   the receipts given on arrival are exactly those the other messages to the bridge call for, in the same order.
   */
  lemma IngestionIsExact(cfg: Config, ops: seq<Op>)
    ensures var db := Run(cfg, INITIAL, ops).db;
            && Items(db.outbound) == ChatItems(cfg, db.messages)
            && Filter(Items(db.deliveries), IsIngestReceipt) == IngestReceipts(cfg, db.messages)
  {
    InitialCore(cfg);
    RunKeepsIngested(cfg, INITIAL, ops);
  }

  function CountForBridge(cfg: Config, rows: seq<MessageRow>): nat {
    if rows == [] then 0
    else
      var m := rows[|rows| - 1].message;
      CountForBridge(cfg, rows[..|rows| - 1]) + (if m.recipient == cfg.bridge && m.sender != cfg.bridge then 1 else 0)
  }

  lemma {:induction false} OutcomesAddUp(cfg: Config, rows: seq<MessageRow>)
    ensures |ChatItems(cfg, rows)| + |IngestReceipts(cfg, rows)| == CountForBridge(cfg, rows)
  {
    hide Print, Parse, PrintCursor, ReceiptItem, InvalidText, WrongKindText;
    if rows != [] {
      OutcomesAddUp(cfg, rows[..|rows| - 1]);
    }
  }

  /** The books balance: one outbound job or one arrival receipt per archived message meant for the bridge. */
  lemma IngestionBalances(cfg: Config, ops: seq<Op>)
    ensures var db := Run(cfg, INITIAL, ops).db;
            |db.outbound| + |Filter(Items(db.deliveries), IsIngestReceipt)| == CountForBridge(cfg, db.messages)
  {
    IngestionIsExact(cfg, ops);
    OutcomesAddUp(cfg, Run(cfg, INITIAL, ops).db.messages);
  }

  // --- Messages of others ------------------------------------------------------------------------

  /** A message that is not addressed to the bridge, or that the bridge sent itself, is archived and nothing else. */
  lemma OthersAreOnlyArchived(cfg: Config, db: Db, m: Message, now: int)
    requires m.recipient != cfg.bridge || m.sender == cfg.bridge
    requires forall i :: 0 <= i < |db.messages| ==> db.messages[i].message.cursor != m.cursor
    ensures SaveMessage(cfg, db, m, now) == Success(db.(messages := db.messages + [MessageRow(m, now)]))
  {
  }

  // --- One message ------------------------------------------------------------------------------

  function CountSource(items: seq<OutboundItem>, c: Cursor): nat {
    if items == [] then 0 else CountSource(items[..|items| - 1], c) + (if items[|items| - 1].source == c then 1 else 0)
  }

  function CountKey(items: seq<DeliveryItem>, jobKey: string): nat {
    if items == [] then 0
      else CountKey(items[..|items| - 1], jobKey) + (if items[|items| - 1].jobKey == jobKey then 1 else 0)
  }

  /** How many outcomes of any sort the tables hold for the message at `c`. */
  function Outcomes(db: Db, c: Cursor): nat {
    CountSource(Items(db.outbound), c)
    + CountKey(Items(db.deliveries), Print(ReceiptKey(c, InvalidReceipt)))
    + CountKey(Items(db.deliveries), Print(ReceiptKey(c, KindReceipt)))
  }

  lemma CountKeyPush(items: seq<DeliveryItem>, more: seq<DeliveryItem>, jobKey: string)
    requires |more| <= 1
    ensures CountKey(items + more, jobKey) ==
            CountKey(items, jobKey) + (if more != [] && more[0].jobKey == jobKey then 1 else 0)
  {
    if more == [] {
      assert items + more == items;
    } else {
      assert (items + more)[..|items|] == items;
    }
  }

  lemma {:induction false} CountKeyFiltered(items: seq<DeliveryItem>, c: Cursor, f: ReceiptFamily)
    requires f != DeliveryReceipt
    ensures CountKey(items, Print(ReceiptKey(c, f))) ==
            CountKey(Filter(items, IsIngestReceipt), Print(ReceiptKey(c, f)))
  {
    hide Print;
    if items != [] {
      var n := |items| - 1;
      CountKeyFiltered(items[..n], c, f);
      var more := if IsIngestReceipt(items[n]) then [items[n]] else [];
      CountKeyPush(Filter(items[..n], IsIngestReceipt), more, Print(ReceiptKey(c, f)));
      assert Filter(items, IsIngestReceipt) == Filter(items[..n], IsIngestReceipt) + more;
    }
  }

  /** Outcomes among those the archive calls for. */
  ghost function CalledFor(cfg: Config, rows: seq<MessageRow>, c: Cursor): nat {
    CountSource(ChatItems(cfg, rows), c)
    + CountKey(IngestReceipts(cfg, rows), Print(ReceiptKey(c, InvalidReceipt)))
    + CountKey(IngestReceipts(cfg, rows), Print(ReceiptKey(c, KindReceipt)))
  }

  lemma CountSourcePush(items: seq<OutboundItem>, more: seq<OutboundItem>, c: Cursor)
    requires |more| <= 1
    ensures CountSource(items + more, c) == CountSource(items, c) + (if more != [] && more[0].source == c then 1 else 0)
  {
    if more == [] {
      assert items + more == items;
    } else {
      assert (items + more)[..|items|] == items;
    }
  }

  /** One archived message contributes one outcome under its own cursor, if it is meant for the bridge. */
  lemma MessageCallsForOne(cfg: Config, rows: seq<MessageRow>, row: MessageRow, c: Cursor)
    ensures CalledFor(cfg, rows + [row], c) ==
            CalledFor(cfg, rows, c) +
            (if row.message.cursor == c && row.message.recipient == cfg.bridge &&
             row.message.sender != cfg.bridge then 1 else 0)
  {
    hide Print, Parse, PrintCursor, InvalidText, WrongKindText, ChatItems, IngestReceipts, CountKey, CountSource,
         NewReceiptEnvelope, ReceiptConversation;
    var m := row.message;
    ArchiveGrows(cfg, rows, row);
    CountSourcePush(ChatItems(cfg, rows), ChatItem(cfg, m), c);
    forall f ensures CountKey(IngestReceipts(cfg, rows + [row]), Print(ReceiptKey(c, f))) ==
        CountKey(IngestReceipts(cfg, rows), Print(ReceiptKey(c, f))) +
        (if IngestReceipt(cfg, m) != [] && IngestKey(cfg, m) == ReceiptKey(c, f) then 1 else 0)
    {
      CountKeyPush(IngestReceipts(cfg, rows), IngestReceipt(cfg, m), Print(ReceiptKey(c, f)));
      if Print(IngestKey(cfg, m)) == Print(ReceiptKey(c, f)) {
        PrintInjective(IngestKey(cfg, m), ReceiptKey(c, f));
      }
    }
    assert IngestKey(cfg, m) == ReceiptKey(c, InvalidReceipt) || IngestKey(cfg, m) == ReceiptKey(c, KindReceipt) ||
           m.cursor != c;
  }

  lemma {:induction false} CalledForOnce(cfg: Config, rows: seq<MessageRow>, c: Cursor)
    requires forall i, j :: 0 <= i < j < |rows| ==> rows[i].message.cursor != rows[j].message.cursor
    ensures CalledFor(cfg, rows, c) ==
            if exists row <- rows ::
              row.message.cursor == c && row.message.recipient == cfg.bridge &&
                row.message.sender != cfg.bridge then 1 else 0
  {
    hide ChatItem, IngestReceipt, Print;
    if rows != [] {
      var front, row := rows[..|rows| - 1], rows[|rows| - 1];
      CalledForOnce(cfg, front, c);
      assert rows == front + [row];
      assert row in rows;
      forall i | 0 <= i < |front| ensures front[i].message.cursor != row.message.cursor { assert front[i] == rows[i]; }
      MessageCallsForOne(cfg, front, row, c);
    }
  }

  /**
   In every reachable state, with faults and restarts: a cursor has exactly one outcome (an outbound job, an `invalid`
   receipt or a `kind` receipt) if the archive holds a message for the bridge there, and none otherwise.
   */
  lemma ExactlyOneOutcome(cfg: Config, ops: seq<Op>, c: Cursor)
    ensures var db := Run(cfg, INITIAL, ops).db;
            Outcomes(db, c) == if exists row <- db.messages ::
              row.message.cursor == c && row.message.recipient == cfg.bridge &&
                row.message.sender != cfg.bridge then 1 else 0
  {
    hide Step, Print, Filter;
    var s := Run(cfg, INITIAL, ops);
    InitialCore(cfg);
    RunKeepsCore(cfg, INITIAL, ops);
    IngestionIsExact(cfg, ops);
    CountKeyFiltered(Items(s.db.deliveries), c, InvalidReceipt);
    CountKeyFiltered(Items(s.db.deliveries), c, KindReceipt);
    CalledForOnce(cfg, s.db.messages, c);
  }
}
