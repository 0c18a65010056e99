/** The core invariant holds in every reachable state, and so every step of every run is what its delta says. */
module BridgeRuns {
  import opened Envelopes
  import opened JobKeys
  import opened Queues
  import opened QueueFate
  import opened Tables
  import opened Effects
  import opened Bridge

  /** Once the key of a job is accounted for it stays so: nothing is un-archived, and a spent job stays spent. */
  lemma OriginPersists(cfg: Config, s: Sys, op: Op, t: Sys, key: JobKey, item: DeliveryItem)
    requires Safe(OutQ(s)) && AddsDelta(cfg, s, op, t) && Origin(cfg, s, key, item)
    ensures Origin(cfg, t, key, item)
  {
    hide IngestReceipt, DeltaOf, QueueStep;
    StepIsSafe(OutQ(s), OutOp(cfg, s, op));
    match key
    case InboundKey(e, user) =>
    case RelayKey(e, p, user) =>
    case ReceiptKey(c, DeliveryReceipt) =>
      var i: nat :| i < |s.db.outbound| && s.db.outbound[i].item.source == c && Spent(OutQ(s), i) &&
                    s.db.outbound[i].item.sender == item.target;
      assert OutQ(t).rows[i] == OutQ(s).rows[i];
      assert t.db.outbound[i].item.source == c;
    case ReceiptKey(c, _) =>
      var i :| 0 <= i < |s.db.messages| && s.db.messages[i].message.cursor == c &&
               IngestReceipt(cfg, s.db.messages[i].message) == [item];
      assert t.db.messages[i] == s.db.messages[i];
  }

  lemma {:induction false} RelayItemsAreKeyed(eventId: int, peers: seq<Peer>, i: nat, e: BridgeEnvelope)
    requires i <= |peers| && RelayTargetsValid(peers, i, e.conversation)
    ensures forall item <- RelayItems(eventId, peers, i, e) ::
              exists p, u ::
                item.jobKey == Print(RelayKey(eventId, p, u)) && item.kind == RelayDelivery && item.target == u
    decreases |peers| - i
  {
    hide Print, NormalizeRef;
    if i < |peers| {
      RelayItemsAreKeyed(eventId, peers, i + 1, e);
    }
  }

  lemma NewIngestReceiptIsKnown(cfg: Config, t: Sys, i: nat, item: DeliveryItem)
    requires i < |t.db.messages| && item in IngestReceipt(cfg, t.db.messages[i].message)
    ensures Known(cfg, t, item)
  {
    hide Print, Parse, InvalidText, WrongKindText, PrintCursor, NewReceiptEnvelope, ReceiptConversation;
    var m := t.db.messages[i].message;
    assert item.jobKey == Print(IngestKey(cfg, m)) && IngestReceipt(cfg, m) == [item];
    assert Origin(cfg, t, IngestKey(cfg, m), item);
  }

  lemma NewEventItemIsKnown(cfg: Config, t: Sys, eventId: int, users: seq<UserRef>, e: BridgeEnvelope,
                            item: DeliveryItem)
    requires 1 <= eventId <= |t.db.events|
    requires Routable(cfg, users, e) && item in EventItems(cfg, eventId, users, e)
    ensures Known(cfg, t, item)
  {
    hide Print, NormalizeRef, RelayItems;
    if item in UserItems(eventId, users, e) {
      var k :| 0 <= k < |users| && item == UserItem(eventId, users[k], e);
      assert Origin(cfg, t, InboundKey(eventId, users[k]), item);
    } else {
      RelayItemsAreKeyed(eventId, cfg.peers, 0, e);
      var p, u :| item.jobKey == Print(RelayKey(eventId, p, u)) && item.kind == RelayDelivery && item.target == u;
      assert Origin(cfg, t, RelayKey(eventId, p, u), item);
    }
  }

  lemma NewReportIsKnown(cfg: Config, s: Sys, at: int, fate: Fate, t: Sys)
    requires Safe(OutQ(s)) && s.out.pc.Reporting? && AddsDelta(cfg, s, Outbound(Report(at, fate)), t)
    ensures Known(cfg, t, DeliveryReceiptItem(s.out.pc.job, s.out.pc.error))
  {
    hide Print, NewReceiptEnvelope, ReceiptConversation, ErrorText;
    var job := s.out.pc.job;
    assert Spent(OutQ(t), job.id);
    assert t.db.outbound[job.id].item == job.item;
    assert Origin(cfg, t, ReceiptKey(job.item.source, DeliveryReceipt), DeliveryReceiptItem(job, s.out.pc.error));
  }

  /** The delivery jobs a step adds have keys that the state after it accounts for. */
  lemma NewItemsAreKnown(cfg: Config, s: Sys, op: Op, t: Sys)
    requires Core(cfg, s) && AddsDelta(cfg, s, op, t)
    ensures forall item <- DeltaOf(cfg, s, op).deliveries :: Known(cfg, t, item)
  {
    hide NormalizeEnvelope, EventId, UsersFor, Routable, EventRowFor, OrphansFor, EventItems, Known, QueueStep,
         IngestReceipt, ChatItem, DeliveryReceiptItem, Print;
    forall item | item in DeltaOf(cfg, s, op).deliveries
      ensures Known(cfg, t, item)
    {
      match op
      case OnMessage(m, at, fate) =>
        assert t.db.messages[|s.db.messages|].message == m;
        NewIngestReceiptIsKnown(cfg, t, |s.db.messages|, item);
      case OnEvent(event, at, fate) =>
        var e := NormalizeEnvelope(event.envelope).value;
        NewEventItemIsKnown(cfg, t, |s.db.events| + 1, UsersFor(cfg, s.db, e), e, item);
      case Outbound(Report(at, fate)) =>
        NewReportIsKnown(cfg, s, at, fate, t);
    }
  }

  lemma ChatItemsNameTheirMessage(cfg: Config, s: Sys, op: Op)
    ensures var d := DeltaOf(cfg, s, op);
            |d.outbound| <= 1 &&
            (d.outbound != [] ==> d.messages != [] && d.outbound[0].source == d.messages[0].message.cursor)
  {
    hide NormalizeEnvelope, EventItems, OrphansFor, EventRowFor, UsersFor, Routable;
  }

  lemma NewMessageIsNew(cfg: Config, s: Sys, op: Op)
    ensures var d := DeltaOf(cfg, s, op);
            |d.messages| <= 1 && (d.messages != [] ==> !HasMessage(s.db, d.messages[0].message.cursor))
  {
    hide NormalizeEnvelope, EventItems, OrphansFor, EventRowFor, UsersFor, Routable;
  }

  lemma NewOrphansAreEvents(cfg: Config, s: Sys, op: Op)
    ensures var d := DeltaOf(cfg, s, op);
            |d.events| <= 1 && |d.orphans| <= 1 &&
            (d.orphans != [] ==> d.events != [] && d.events[0].gatewayMessageId == d.orphans[0].gatewayMessageId)
  {
    hide NormalizeEnvelope, EventItems, UsersFor, Routable, EventId;
  }

  lemma MessagesPersist(db: Db, next: Db, cursor: Cursor)
    requires db.messages <= next.messages && HasMessage(db, cursor)
    ensures HasMessage(next, cursor)
  {
    var i :| 0 <= i < |db.messages| && db.messages[i].message.cursor == cursor;
    assert next.messages[i] == db.messages[i];
  }

  lemma EventsPersist(db: Db, next: Db, id: string)
    requires db.events <= next.events && HasEvent(db, id)
    ensures HasEvent(next, id)
  {
    var i :| 0 <= i < |db.events| && db.events[i].gatewayMessageId == id;
    assert next.events[i] == db.events[i];
  }

  lemma SourcesStayUnique(cfg: Config, s: Sys, op: Op, t: Sys)
    requires Core(cfg, s) && AddsDelta(cfg, s, op, t)
    ensures forall i, j :: 0 <= i < j < |t.db.outbound| ==> t.db.outbound[i].item.source != t.db.outbound[j].item.source
    ensures forall i :: 0 <= i < |t.db.outbound| ==> HasMessage(t.db, t.db.outbound[i].item.source)
  {
    hide DeltaOf, Known, Safe, QueueStep;
    var d := DeltaOf(cfg, s, op);
    var was, now := Items(s.db.outbound), Items(t.db.outbound);
    ItemsGrow(OutQ(s), OutOp(cfg, s, op));
    ChatItemsNameTheirMessage(cfg, s, op);
    NewMessageIsNew(cfg, s, op);
    assert now == was + Inserted(OutOp(cfg, s, op)) && |now| == |t.db.outbound|;
    forall i | 0 <= i < |now|
      ensures HasMessage(t.db, now[i].source)
      ensures i < |was| ==> HasMessage(s.db, now[i].source)
      ensures i >= |was| ==> i == |was| && !HasMessage(s.db, now[i].source)
    {
      if i < |was| {
        assert now[i] == was[i] == s.db.outbound[i].item;
        MessagesPersist(s.db, t.db, now[i].source);
      } else {
        assert now[i] == d.outbound[0];
        assert t.db.messages[|s.db.messages|] == d.messages[0];
      }
    }
    forall i, j | 0 <= i < j < |now|
      ensures now[i].source != now[j].source
    {
      if j < |was| {
        assert now[i] == s.db.outbound[i].item && now[j] == s.db.outbound[j].item;
      }
    }
    assert forall i :: 0 <= i < |now| ==> t.db.outbound[i].item == now[i];
  }

  lemma DeliveriesStayKnown(cfg: Config, s: Sys, op: Op, t: Sys)
    requires Core(cfg, s) && AddsDelta(cfg, s, op, t)
    ensures forall i :: 0 <= i < |t.db.deliveries| ==> Known(cfg, t, t.db.deliveries[i].item)
  {
    hide DeltaOf, Safe, QueueStep, Origin, Print;
    ItemsGrow(DelQ(s), DelOp(cfg, s, op));
    NewItemsAreKnown(cfg, s, op, t);
    forall i | 0 <= i < |t.db.deliveries|
      ensures Known(cfg, t, t.db.deliveries[i].item)
    {
      var item := Items(t.db.deliveries)[i];
      if i < |s.db.deliveries| {
        assert item == Items(s.db.deliveries)[i];
        var key :| item.jobKey == Print(key) && Origin(cfg, s, key, item);
        OriginPersists(cfg, s, op, t, key, item);
      } else {
        assert item in Inserted(DelOp(cfg, s, op));
      }
    }
  }

  lemma StepKeepsCore(cfg: Config, s: Sys, op: Op)
    requires Core(cfg, s)
    ensures Core(cfg, Step(cfg, s, op))
  {
    hide DeltaOf, Known, Step, QueueStep, Safe;
    var t := Step(cfg, s, op);
    var d := DeltaOf(cfg, s, op);
    StepAddsDelta(cfg, s, op);
    StepIsSafe(OutQ(s), OutOp(cfg, s, op));
    StepIsSafe(DelQ(s), DelOp(cfg, s, op));
    SourcesStayUnique(cfg, s, op, t);
    DeliveriesStayKnown(cfg, s, op, t);
    NewMessageIsNew(cfg, s, op);
    NewOrphansAreEvents(cfg, s, op);
    forall i | 0 <= i < |t.db.orphans|
      ensures HasEvent(t.db, t.db.orphans[i].gatewayMessageId)
    {
      if i < |s.db.orphans| {
        EventsPersist(s.db, t.db, s.db.orphans[i].gatewayMessageId);
      } else {
        assert t.db.events[|s.db.events|] == d.events[0];
      }
    }
  }

  lemma InitialCore(cfg: Config)
    ensures Core(cfg, INITIAL)
  {
  }

  lemma {:induction false} RunKeepsCore(cfg: Config, s: Sys, ops: seq<Op>)
    requires Core(cfg, s)
    ensures Core(cfg, Run(cfg, s, ops))
    decreases |ops|
  {
    hide Core, Step;
    if ops != [] {
      StepKeepsCore(cfg, s, ops[0]);
      RunKeepsCore(cfg, Step(cfg, s, ops[0]), ops[1..]);
    }
  }

  // --- Each queue of a run is a run of the queue -------------------------------------------------

  ghost function OutOps(cfg: Config, s: Sys, ops: seq<Op>): (queueOps: seq<QueueOp<OutboundItem>>)
    ensures |queueOps| == |ops|
    decreases |ops|
  {
    if ops == [] then [] else [OutOp(cfg, s, ops[0])] + OutOps(cfg, Step(cfg, s, ops[0]), ops[1..])
  }

  ghost function DelOps(cfg: Config, s: Sys, ops: seq<Op>): (queueOps: seq<QueueOp<DeliveryItem>>)
    ensures |queueOps| == |ops|
    decreases |ops|
  {
    if ops == [] then [] else [DelOp(cfg, s, ops[0])] + DelOps(cfg, Step(cfg, s, ops[0]), ops[1..])
  }

  /** What the queue theorems say of runs of one queue they say of the bridge's two queues over every run. */
  lemma {:induction false} QueuesOfARun(cfg: Config, s: Sys, ops: seq<Op>)
    requires Core(cfg, s)
    ensures OutQ(Run(cfg, s, ops)) == QueueRun(OutQ(s), OutOps(cfg, s, ops))
    ensures DelQ(Run(cfg, s, ops)) == QueueRun(DelQ(s), DelOps(cfg, s, ops))
    decreases |ops|
  {
    hide Core, Step, QueueStep, OutOp, DelOp, DeltaOf;
    if ops != [] {
      var t := Step(cfg, s, ops[0]);
      StepAddsDelta(cfg, s, ops[0]);
      StepKeepsCore(cfg, s, ops[0]);
      QueuesOfARun(cfg, t, ops[1..]);
      assert OutOps(cfg, s, ops)[1..] == OutOps(cfg, t, ops[1..]);
      assert DelOps(cfg, s, ops)[1..] == DelOps(cfg, t, ops[1..]);
    }
  }

  // --- Runs in parts -----------------------------------------------------------------------------

  lemma {:induction false} RunConcat(cfg: Config, s: Sys, a: seq<Op>, b: seq<Op>)
    ensures Run(cfg, s, a + b) == Run(cfg, Run(cfg, s, a), b)
    decreases |a|
  {
    hide Step;
    if a == [] {
      assert a + b == b;
    } else {
      assert (a + b)[1..] == a[1..] + b;
      RunConcat(cfg, Step(cfg, s, a[0]), a[1..], b);
    }
  }

  lemma {:induction false} RunKeepsEvents(cfg: Config, s: Sys, ops: seq<Op>)
    requires Core(cfg, s)
    ensures s.db.events <= Run(cfg, s, ops).db.events
    decreases |ops|
  {
    hide Core, Step, QueueStep, DeltaOf, BindingsAfter;
    if ops != [] {
      StepAddsDelta(cfg, s, ops[0]);
      StepKeepsCore(cfg, s, ops[0]);
      RunKeepsEvents(cfg, Step(cfg, s, ops[0]), ops[1..]);
    }
  }

  // --- A run of a queue's loop is a run of the bridge --------------------------------------------

  lemma LoopStepsWorkTheQueue(cfg: Config, s: Sys, step: WorkerStep)
    ensures OutQ(Step(cfg, s, Outbound(step))) == WorkStep(OutQ(s), step)
    ensures DelQ(Step(cfg, s, Deliver(step))) == WorkStep(DelQ(s), step)
  {
    hide WorkStep, NormalizeEnvelope, NewReceiptEnvelope, ReceiptConversation, ErrorText, Print;
  }

  function OutboundLoop(ops: seq<QueueOp<OutboundItem>>): (loop: seq<Op>)
    requires forall i :: 0 <= i < |ops| ==> ops[i].Work?
    ensures |loop| == |ops| && forall i :: 0 <= i < |ops| ==> loop[i] == Outbound(ops[i].step)
  {
    seq(|ops|, i requires 0 <= i < |ops| => Outbound(ops[i].step))
  }

  function DeliveryLoop(ops: seq<QueueOp<DeliveryItem>>): (loop: seq<Op>)
    requires forall i :: 0 <= i < |ops| ==> ops[i].Work?
    ensures |loop| == |ops| && forall i :: 0 <= i < |ops| ==> loop[i] == Deliver(ops[i].step)
  {
    seq(|ops|, i requires 0 <= i < |ops| => Deliver(ops[i].step))
  }

  lemma {:induction false} OutboundLoopWorksTheQueue(cfg: Config, s: Sys, ops: seq<QueueOp<OutboundItem>>)
    requires OnlyWork(ops)
    ensures OutQ(Run(cfg, s, OutboundLoop(ops))) == QueueRun(OutQ(s), ops)
    decreases |ops|
  {
    hide Step, WorkStep;
    if ops != [] {
      LoopStepsWorkTheQueue(cfg, s, ops[0].step);
      assert OutboundLoop(ops)[1..] == OutboundLoop(ops[1..]);
      OutboundLoopWorksTheQueue(cfg, Step(cfg, s, Outbound(ops[0].step)), ops[1..]);
    }
  }

  /** The delivery loop touches nothing but its own queue. */
  lemma {:induction false} DeliveryLoopWorksTheQueue(cfg: Config, s: Sys, ops: seq<QueueOp<DeliveryItem>>)
    requires OnlyWork(ops)
    ensures DelQ(Run(cfg, s, DeliveryLoop(ops))) == QueueRun(DelQ(s), ops)
    decreases |ops|
  {
    hide Step, WorkStep;
    if ops != [] {
      LoopStepsWorkTheQueue(cfg, s, ops[0].step);
      assert DeliveryLoop(ops)[1..] == DeliveryLoop(ops[1..]);
      DeliveryLoopWorksTheQueue(cfg, Step(cfg, s, Deliver(ops[0].step)), ops[1..]);
    }
  }
}
