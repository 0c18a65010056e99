/**
 Two bridges and the network between them, left alone: only their delivery loops run, their processes restart, and the
 network hands over what they have delivered to each other. Receipts then answer receipts without end, unless both are
 the same turntf user.
 */
module Exchanges {
  import opened Filters
  import opened Strings
  import opened Envelopes
  import opened Conversations
  import opened JobKeys
  import opened Queues
  import opened QueueFate
  import opened Tables
  import opened Effects
  import opened Bridge
  import opened BridgeRuns
  import opened Poison

  /** A bridge; `carried` holds the delivery jobs whose message the network has handed over. */
  datatype Node = Node(cfg: Config, sys: Sys, carried: set<nat>)

  datatype Pair = Pair(left: Node, right: Node)

  datatype PairOp =
    | Local(atLeft: bool, op: Op)                                     // a step of a delivery loop, or a restart
    | Carry(fromLeft: bool, job: nat, cursor: Cursor, receivedAt: int)  // the network hands a delivered message over

  function Here(p: Pair, left: bool): Node {
    if left then p.left else p.right
  }

  function Put(p: Pair, left: bool, node: Node): (q: Pair)
    ensures Here(q, left) == node && Here(q, !left) == Here(p, !left)
  {
    if left then p.(left := node) else p.(right := node)
  }

  function Job(n: Node, job: nat): DeliveryItem
    requires job < |n.sys.db.deliveries|
  {
    n.sys.db.deliveries[job].item
  }

  /** The message that arrives when `item`, sent by user `from`, is handed over under a cursor of its own. */
  function Arriving(from: UserRef, item: DeliveryItem, cursor: Cursor): Message {
    Message(cursor, item.target, from, Envelope(item.envelope), "")
  }

  /** Each delivered job addressed to the other bridge is handed over once, under a cursor new to the receiver. */
  predicate CanCarry(from: Node, to: Node, job: nat, cursor: Cursor) {
    && job < |from.sys.db.deliveries| && from.sys.db.deliveries[job].status == Delivered
    && Job(from, job).target == to.cfg.bridge
    && job !in from.carried && !HasMessage(to.sys.db, cursor)
  }

  ghost function PairStep(p: Pair, op: PairOp): Pair {
    match op
    case Local(left, step) =>
      var n := Here(p, left);
      if step.Deliver? || step.Reopen? then Put(p, left, n.(sys := Step(n.cfg, n.sys, step))) else p
    case Carry(left, job, cursor, at) =>
      var from, to := Here(p, left), Here(p, !left);
      if !CanCarry(from, to, job, cursor) then p
      else
        var m := Arriving(from.cfg.bridge, Job(from, job), cursor);
        Put(Put(p, left, from.(carried := from.carried + {job})), !left,
            to.(sys := Step(to.cfg, to.sys, OnMessage(m, at, Commits))))
  }

  ghost function PairRun(p: Pair, ops: seq<PairOp>): Pair
    decreases |ops|
  {
    if ops == [] then p else PairRun(PairStep(p, ops[0]), ops[1..])
  }

  lemma {:induction false} PairRunConcat(p: Pair, a: seq<PairOp>, b: seq<PairOp>)
    ensures PairRun(p, a + b) == PairRun(PairRun(p, a), b)
    decreases |a|
  {
    hide PairStep;
    if a == [] {
      assert a + b == b;
    } else {
      assert (a + b)[1..] == a[1..] + b;
      PairRunConcat(PairStep(p, a[0]), a[1..], b);
    }
  }

  // --- Answers -----------------------------------------------------------------------------------

  /** A receipt that answers a message which is not a chat. */
  ghost predicate IsAnswer(item: DeliveryItem) {
    item.envelope.kind == Receipt && exists c :: item.jobKey == Print(ReceiptKey(c, KindReceipt))
  }

  ghost function AnswersAt(n: Node): nat {
    |Filter(Items(n.sys.db.deliveries), IsAnswer)|
  }

  /** The answering receipts in the two delivery tables. */
  ghost function Answers(p: Pair): nat {
    AnswersAt(p.left) + AnswersAt(p.right)
  }

  /** Some run leaves at least `n` answers in the tables. */
  ghost predicate Reaches(p: Pair, n: nat) {
    exists ops :: Answers(PairRun(p, ops)) >= n
  }

  /** What a delivery job carries: a valid envelope, which is a receipt or a chat. */
  ghost predicate ValidItems(items: seq<DeliveryItem>) {
    forall item <- items ::
      NormalEnvelope(item.envelope) && (item.envelope.kind == Receipt || item.envelope.kind == Chat)
  }

  ghost predicate WellFormed(n: Node) {
    && Core(n.cfg, n.sys) && ValidItems(Items(n.sys.db.deliveries))
    && forall job <- n.carried :: job < |n.sys.db.deliveries|
  }

  ghost predicate BothWellFormed(p: Pair) {
    WellFormed(p.left) && WellFormed(p.right)
  }

  /** A receipt for the other bridge that can still get there and has not yet. */
  ghost predicate OnItsWay(p: Pair, left: bool, job: nat) {
    var n := Here(p, left);
    && job < |n.sys.db.deliveries| && Alive(DelQ(n.sys), job) && job !in n.carried
    && Job(n, job).target == Here(p, !left).cfg.bridge
    && NormalEnvelope(Job(n, job).envelope) && Job(n, job).envelope.kind == Receipt
  }

  // --- Left alone, a bridge only works its queue ---------------------------------------------------

  function Locally(left: bool, ops: seq<Op>): (pairOps: seq<PairOp>)
    ensures |pairOps| == |ops| && forall i :: 0 <= i < |ops| ==> pairOps[i] == Local(left, ops[i])
  {
    seq(|ops|, i requires 0 <= i < |ops| => Local(left, ops[i]))
  }

  lemma {:induction false} LocalRun(p: Pair, left: bool, ops: seq<Op>)
    requires forall op <- ops :: op.Deliver?
    ensures var n := Here(p, left); PairRun(p, Locally(left, ops)) == Put(p, left, n.(sys := Run(n.cfg, n.sys, ops)))
    decreases |ops|
  {
    hide Step;
    if ops != [] {
      assert ops[0] in ops && forall op <- ops[1..] :: op in ops;
      assert Locally(left, ops)[1..] == Locally(left, ops[1..]);
      LocalRun(PairStep(p, Local(left, ops[0])), left, ops[1..]);
    }
  }

  /** What a step of a delivery loop, or a restart, leaves alone. */
  lemma LocalStepAddsNothing(cfg: Config, s: Sys, op: Op)
    requires Core(cfg, s) && (op.Deliver? || op.Reopen?)
    ensures var t := Step(cfg, s, op);
            Core(cfg, t) && t.db.messages == s.db.messages && Items(t.db.deliveries) == Items(s.db.deliveries)
  {
    hide Core, DeltaOf, QueueStep, Safe;
    StepKeepsCore(cfg, s, op);
    StepAddsDelta(cfg, s, op);
    CoreIsSafe(cfg, s);
    ItemsGrow(DelQ(s), DelOp(cfg, s, op));
  }

  lemma {:induction false} LoopAddsNothing(cfg: Config, s: Sys, ops: seq<Op>)
    requires Core(cfg, s) && forall op <- ops :: op.Deliver?
    ensures var t := Run(cfg, s, ops); Core(cfg, t) && Items(t.db.deliveries) == Items(s.db.deliveries)
    decreases |ops|
  {
    hide Core, Step;
    if ops != [] {
      assert ops[0] in ops && forall op <- ops[1..] :: op in ops;
      LocalStepAddsNothing(cfg, s, ops[0]);
      LoopAddsNothing(cfg, Step(cfg, s, ops[0]), ops[1..]);
    }
  }

  /** A bridge left to its delivery loop can deliver any job that is alive, and nothing else of it changes. */
  lemma NodeDelivers(n: Node, job: nat) returns (ops: seq<Op>)
    requires WellFormed(n) && job < |n.sys.db.deliveries| && Alive(DelQ(n.sys), job)
    ensures forall op <- ops :: op.Deliver?
    ensures var m := n.(sys := Run(n.cfg, n.sys, ops));
            WellFormed(m) && job < |m.sys.db.deliveries| && m.sys.db.deliveries[job].status == Delivered &&
            Items(m.sys.db.deliveries) == Items(n.sys.db.deliveries)
  {
    hide Core, Step, Alive, QueueRun;
    CoreIsSafe(n.cfg, n.sys);
    var work := AliveCanBeDelivered(DelQ(n.sys), job);
    ops := DeliveryLoop(work);
    DeliveryLoopWorksTheQueue(n.cfg, n.sys, work);
    LoopAddsNothing(n.cfg, n.sys, ops);
    var t := Run(n.cfg, n.sys, ops);
    assert |Items(t.db.deliveries)| == |t.db.deliveries|;
  }

  // --- One more answer ---------------------------------------------------------------------------

  function HighestSeq(rows: seq<MessageRow>): (h: int)
    ensures forall row <- rows :: row.message.cursor.seqNo <= h
  {
    if rows == [] then 0
    else
      var h, last := HighestSeq(rows[..|rows| - 1]), rows[|rows| - 1].message.cursor.seqNo;
      assert rows == rows[..|rows| - 1] + [rows[|rows| - 1]];
      if h < last then last else h
  }

  lemma FreshCursor(db: Db) returns (c: Cursor)
    ensures !HasMessage(db, c)
  {
    c := Cursor(0, HighestSeq(db.messages) + 1);
    assert forall i :: 0 <= i < |db.messages| ==> db.messages[i] in db.messages;
  }

  /** A message new to the bridge adds to its delivery table exactly the receipt it is answered with. */
  lemma ArrivalAddsItsReceipt(n: Node, m: Message, at: int)
    requires WellFormed(n) && !HasMessage(n.sys.db, m.cursor)
    ensures var t := Step(n.cfg, n.sys, OnMessage(m, at, Commits));
            WellFormed(n.(sys := t)) && t.db.deliveries == n.sys.db.deliveries + NewJobs(IngestReceipt(n.cfg, m), at) &&
            Items(t.db.deliveries) == Items(n.sys.db.deliveries) + IngestReceipt(n.cfg, m)
  {
    hide Core, IngestReceipt, ChatItem, BindingsAfter, Step, HasMessage, NormalizeEnvelope, NormalEnvelope;
    AnsweredIff(n.cfg, m);
    StepKeepsCore(n.cfg, n.sys, OnMessage(m, at, Commits));
    StepAddsDelta(n.cfg, n.sys, OnMessage(m, at, Commits));
  }

  /** A receipt that arrives is answered, and the answer is on its way. */
  lemma ArrivalIsAnswered(n: Node, m: Message, at: int)
    requires WellFormed(n) && !HasMessage(n.sys.db, m.cursor)
    requires m.recipient == n.cfg.bridge && m.sender != n.cfg.bridge
    requires m.body.Envelope? && NormalEnvelope(m.body.envelope) && m.body.envelope.kind == Receipt
    ensures var t := n.(sys := Step(n.cfg, n.sys, OnMessage(m, at, Commits)));
            var job := |n.sys.db.deliveries|;
            && WellFormed(t) && AnswersAt(t) == AnswersAt(n) + 1
            && job < |t.sys.db.deliveries| && Alive(DelQ(t.sys), job) && job !in t.carried
            && Job(t, job).target == m.sender && NormalEnvelope(Job(t, job).envelope) &&
               Job(t, job).envelope.kind == Receipt
  {
    hide Core, IngestReceipt, Step, Filter, HasMessage, NormalEnvelope, Print;
    ReceiptIsAnswered(n.cfg, m, m.body.envelope);
    ArrivalAddsItsReceipt(n, m, at);
    var answer := IngestReceipt(n.cfg, m)[0];
    assert IngestReceipt(n.cfg, m) == [answer] && IsAnswer(answer);
    FilterConcat(Items(n.sys.db.deliveries), [answer], IsAnswer);
    FilterAll([answer], IsAnswer);
  }

  /** From a receipt on its way to a different user, the pair by itself gets to one more answer, on its way back. */
  lemma OneMoreAnswer(p: Pair, left: bool, job: nat) returns (ops: seq<PairOp>, answer: nat)
    requires BothWellFormed(p) && OnItsWay(p, left, job) && p.left.cfg.bridge != p.right.cfg.bridge
    ensures var q := PairRun(p, ops);
            && BothWellFormed(q) && OnItsWay(q, !left, answer) && Answers(q) == Answers(p) + 1
            && q.left.cfg == p.left.cfg && q.right.cfg == p.right.cfg
  {
    hide Core, Step, Alive, NormalEnvelope, AnswersAt, HasMessage, Run;
    var from, to := Here(p, left), Here(p, !left);
    var loop := NodeDelivers(from, job);
    LocalRun(p, left, loop);
    var mid := PairRun(p, Locally(left, loop));
    var sent := Here(mid, left);
    assert sent == from.(sys := Run(from.cfg, from.sys, loop)) && Here(mid, !left) == to;
    assert Job(sent, job) == Job(from, job) by { SameItem(from.sys.db, sent.sys.db, job); }
    SameAnswers(from, sent);
    var cursor := FreshCursor(to.sys.db);
    var carry := Carry(left, job, cursor, 0);
    assert CanCarry(sent, to, job, cursor);
    var m := Arriving(from.cfg.bridge, Job(from, job), cursor);
    ArrivalIsAnswered(to, m, 0);
    ops := Locally(left, loop) + [carry];
    answer := |to.sys.db.deliveries|;
    PairRunConcat(p, Locally(left, loop), [carry]);
    assert PairRun(mid, [carry]) == PairRun(PairStep(mid, carry), []);
    SameAnswers(sent, sent.(carried := sent.carried + {job}));
  }

  lemma SameItem(db: Db, next: Db, job: nat)
    requires Items(next.deliveries) == Items(db.deliveries) && job < |db.deliveries|
    ensures job < |next.deliveries| && next.deliveries[job].item == db.deliveries[job].item
  {
    assert Items(next.deliveries)[job] == Items(db.deliveries)[job];
  }

  lemma SameAnswers(n: Node, m: Node)
    requires Items(m.sys.db.deliveries) == Items(n.sys.db.deliveries)
    ensures AnswersAt(m) == AnswersAt(n)
  {
    hide Filter;
  }

  lemma {:induction false} AnswersWithoutEnd(p: Pair, left: bool, job: nat, n: nat) returns (ops: seq<PairOp>)
    requires BothWellFormed(p) && OnItsWay(p, left, job) && p.left.cfg.bridge != p.right.cfg.bridge
    ensures Answers(PairRun(p, ops)) >= n
    decreases n - Answers(p)
  {
    hide BothWellFormed, OnItsWay, Answers, PairStep;
    if Answers(p) >= n {
      ops := [];
    } else {
      var first, answer := OneMoreAnswer(p, left, job);
      var q := PairRun(p, first);
      var rest := AnswersWithoutEnd(q, !left, answer, n);
      PairRunConcat(p, first, rest);
      ops := first + rest;
    }
  }

  // --- The same user -----------------------------------------------------------------------------

  /**
   Between two bridges of the same user no step adds any delivery job: a message from itself is not for the bridge.
   */
  lemma SameUserAddsNothing(p: Pair, op: PairOp)
    requires BothWellFormed(p) && p.left.cfg.bridge == p.right.cfg.bridge
    ensures var q := PairStep(p, op);
            && BothWellFormed(q) && q.left.cfg == p.left.cfg && q.right.cfg == p.right.cfg
            && Items(q.left.sys.db.deliveries) == Items(p.left.sys.db.deliveries)
            && Items(q.right.sys.db.deliveries) == Items(p.right.sys.db.deliveries)
  {
    hide Core, Step, IngestReceipt, HasMessage;
    match op
    case Local(left, step) =>
      if step.Deliver? || step.Reopen? {
        var n := Here(p, left);
        LocalStepAddsNothing(n.cfg, n.sys, step);
        assert |Items(Step(n.cfg, n.sys, step).db.deliveries)| == |Step(n.cfg, n.sys, step).db.deliveries|;
      }
    case Carry(left, job, cursor, at) =>
      var from, to := Here(p, left), Here(p, !left);
      if CanCarry(from, to, job, cursor) {
        var m := Arriving(from.cfg.bridge, Job(from, job), cursor);
        AnsweredIff(to.cfg, m);
        ArrivalAddsItsReceipt(to, m, at);
      }
  }

  lemma {:induction false} SameUserStaysSilent(p: Pair, ops: seq<PairOp>)
    requires BothWellFormed(p) && p.left.cfg.bridge == p.right.cfg.bridge
    ensures Answers(PairRun(p, ops)) == Answers(p)
    decreases |ops|
  {
    hide BothWellFormed, PairStep, AnswersAt;
    if ops != [] {
      var q := PairStep(p, ops[0]);
      SameUserAddsNothing(p, ops[0]);
      SameAnswers(p.left, q.left);
      SameAnswers(p.right, q.right);
      SameUserStaysSilent(q, ops[1..]);
    }
  }

  // --- No receipt on its way ---------------------------------------------------------------------

  /** Nothing that can still be handed over is a receipt. */
  ghost predicate Quiet(p: Pair) {
    forall left, job :: !OnItsWay(p, left, job)
  }

  /** No local step revives a job. */
  lemma LocalStepRevivesNothing(n: Node, op: Op, job: nat)
    requires WellFormed(n) && (op.Deliver? || op.Reopen?) && job < |n.sys.db.deliveries|
    ensures var t := Step(n.cfg, n.sys, op);
            && WellFormed(n.(sys := t)) && Items(t.db.deliveries) == Items(n.sys.db.deliveries)
            && |t.db.deliveries| == |n.sys.db.deliveries|
            && (Alive(DelQ(t), job) ==> Alive(DelQ(n.sys), job))
  {
    hide Core, DeltaOf, QueueStep, Safe, Alive;
    var t := Step(n.cfg, n.sys, op);
    LocalStepAddsNothing(n.cfg, n.sys, op);
    assert |Items(t.db.deliveries)| == |t.db.deliveries|;
    StepAddsDelta(n.cfg, n.sys, op);
    CoreIsSafe(n.cfg, n.sys);
    if !Alive(DelQ(n.sys), job) {
      DeadStaysDead(DelQ(n.sys), DelOp(n.cfg, n.sys, op), job);
    }
  }

  lemma LocalStepStaysQuiet(p: Pair, left: bool, op: Op)
    requires BothWellFormed(p) && Quiet(p) && (op.Deliver? || op.Reopen?)
    ensures var q := PairStep(p, Local(left, op)); BothWellFormed(q) && Quiet(q) && Answers(q) == Answers(p)
  {
    hide Core, Step, Alive, AnswersAt, NormalEnvelope, ValidItems;
    var n := Here(p, left);
    var m := n.(sys := Step(n.cfg, n.sys, op));
    var q := PairStep(p, Local(left, op));
    LocalStepAddsNothing(n.cfg, n.sys, op);
    SameAnswers(n, m);
    assert |Items(m.sys.db.deliveries)| == |m.sys.db.deliveries|;
    forall side: bool, job: nat ensures !OnItsWay(q, side, job) {
      assert !OnItsWay(p, side, job);
      if side == left && job < |n.sys.db.deliveries| {
        LocalStepRevivesNothing(n, op, job);
        SameItem(n.sys.db, m.sys.db, job);
      }
    }
  }

  /** What is handed over while no receipt is on its way is a chat, which is not answered. */
  lemma CarryStaysQuiet(p: Pair, left: bool, job: nat, cursor: Cursor, at: int)
    requires BothWellFormed(p) && Quiet(p) && CanCarry(Here(p, left), Here(p, !left), job, cursor)
    ensures var q := PairStep(p, Carry(left, job, cursor, at));
            BothWellFormed(q) && Quiet(q) && Answers(q) == Answers(p)
  {
    hide Core, Step, AnswersAt, IngestReceipt, HasMessage, NormalEnvelope, Parse;
    var from, to := Here(p, left), Here(p, !left);
    var item := Job(from, job);
    var m := Arriving(from.cfg.bridge, item, cursor);
    var q := PairStep(p, Carry(left, job, cursor, at));
    assert item in Items(from.sys.db.deliveries) by { assert Items(from.sys.db.deliveries)[job] == item; }
    assert !OnItsWay(p, left, job);
    assert item.envelope.kind == Chat;
    ParsesAsItself(item.envelope);
    AnsweredIff(to.cfg, m);
    ArrivalAddsItsReceipt(to, m, at);
    SameAnswers(from, Here(q, left));
    SameAnswers(to, Here(q, !left));
    assert Here(q, !left).sys.db.deliveries == to.sys.db.deliveries + [] == to.sys.db.deliveries;
    DeliveriesAlone(to, m, at);
    forall side: bool, other: nat ensures !OnItsWay(q, side, other) {
      assert !OnItsWay(p, side, other);
    }
  }

  /** A message that is not answered leaves the delivery loop's queue alone. */
  lemma DeliveriesAlone(n: Node, m: Message, at: int)
    requires WellFormed(n) && !HasMessage(n.sys.db, m.cursor) && IngestReceipt(n.cfg, m) == []
    ensures DelQ(Step(n.cfg, n.sys, OnMessage(m, at, Commits))) == DelQ(n.sys)
  {
    hide Core, IngestReceipt, ChatItem, BindingsAfter, Step, HasMessage;
    StepAddsDelta(n.cfg, n.sys, OnMessage(m, at, Commits));
    InsertNothing(DelQ(n.sys), at);
  }

  lemma {:induction false} QuietStaysQuiet(p: Pair, ops: seq<PairOp>)
    requires BothWellFormed(p) && Quiet(p)
    ensures Answers(PairRun(p, ops)) == Answers(p)
    decreases |ops|
  {
    hide BothWellFormed, Quiet, Answers, Step, CanCarry;
    if ops != [] {
      match ops[0] {
        case Local(left, op) =>
          if op.Deliver? || op.Reopen? {
            LocalStepStaysQuiet(p, left, op);
          }
        case Carry(left, job, cursor, at) =>
          if CanCarry(Here(p, left), Here(p, !left), job, cursor) {
            CarryStaysQuiet(p, left, job, cursor, at);
          }
      }
      QuietStaysQuiet(PairStep(p, ops[0]), ops[1..]);
    }
  }

  // --- Exactly when it goes on -------------------------------------------------------------------

  /**
   Exactly when two bridges, left alone, answer each other without end: the number of answering receipts in their tables
   has no bound over the runs from here if and only if they are different users and some receipt is on its way.
   */
  lemma ReceiptsNeverStopIff(p: Pair)
    requires BothWellFormed(p)
    ensures (forall n: nat :: Reaches(p, n)) <==>
            p.left.cfg.bridge != p.right.cfg.bridge && exists left, job :: OnItsWay(p, left, job)
  {
    hide BothWellFormed, OnItsWay, Answers, PairStep, PairRun;
    if p.left.cfg.bridge != p.right.cfg.bridge && exists left, job :: OnItsWay(p, left, job) {
      var left, job :| OnItsWay(p, left, job);
      forall n: nat ensures Reaches(p, n) {
        var ops := AnswersWithoutEnd(p, left, job, n);
      }
    } else {
      var n: nat := Answers(p) + 1;
      forall ops ensures !(Answers(PairRun(p, ops)) >= n) {
        if p.left.cfg.bridge == p.right.cfg.bridge {
          SameUserStaysSilent(p, ops);
        } else {
          QuietStaysQuiet(p, ops);
        }
      }
      assert !Reaches(p, n);
    }
  }

  // --- Every reachable bridge is well formed -----------------------------------------------------

  lemma {:induction false} RelayItemsAreValid(eventId: int, peers: seq<Peer>, i: nat, e: BridgeEnvelope)
    requires i <= |peers| && RelayTargetsValid(peers, i, e.conversation) && NormalEnvelope(e) && e.kind == Chat
    ensures ValidItems(RelayItems(eventId, peers, i, e))
    decreases |peers| - i
  {
    hide Print, Matches;
    if i < |peers| {
      RelayItemsAreValid(eventId, peers, i + 1, e);
    }
  }

  lemma EventItemsAreValid(cfg: Config, eventId: int, users: seq<UserRef>, e: BridgeEnvelope)
    requires Routable(cfg, users, e) && NormalEnvelope(e) && e.kind == Chat
    ensures ValidItems(EventItems(cfg, eventId, users, e))
  {
    hide Print, NormalEnvelope, RelayItems, RelayTargetsValid;
    if users != [] {
      RelayItemsAreValid(eventId, cfg.peers, 0, e);
    }
  }

  lemma ReportIsValid(cfg: Config, s: Sys, step: WorkerStep)
    ensures ValidItems(DeltaOf(cfg, s, Outbound(step)).deliveries)
  {
    hide Print, ErrorText, ReceiptConversation, NormalEnvelope, Blank;
    if step.Report? && s.out.pc.Reporting? {
      var job, error := s.out.pc.job, s.out.pc.error;
      ErrorTextIsVisible(error);
      ReceiptItemIsNormal(job.item.sender, job.item.envelope.conversation, job.item.envelope.messageRef, error.code,
                          ErrorText(error), ReceiptKey(job.item.source, DeliveryReceipt));
    }
  }

  lemma NewItemsAreValid(cfg: Config, s: Sys, op: Op)
    ensures ValidItems(DeltaOf(cfg, s, op).deliveries)
  {
    hide NormalEnvelope, EventId, UsersFor, Routable, EventRowFor, OrphansFor, EventItems, ChatItem, IngestReceipt;
    match op
    case OnMessage(m, at, fate) => AnsweredIff(cfg, m);
    case OnEvent(event, at, fate) =>
      var normal := NormalizeEnvelope(event.envelope);
      if normal.Success? && normal.value.kind == Chat &&
        Routable(cfg, UsersFor(cfg, s.db, normal.value), normal.value) {
        EventItemsAreValid(cfg, |s.db.events| + 1, UsersFor(cfg, s.db, normal.value), normal.value);
      }
    case Outbound(step) => ReportIsValid(cfg, s, step);
    case _ =>
  }

  lemma {:induction false} RunKeepsItemsValid(cfg: Config, s: Sys, ops: seq<Op>)
    requires Core(cfg, s) && ValidItems(Items(s.db.deliveries))
    ensures ValidItems(Items(Run(cfg, s, ops).db.deliveries))
    decreases |ops|
  {
    hide Core, Step, DeltaOf, NormalEnvelope, QueueStep, Safe;
    if ops != [] {
      var t := Step(cfg, s, ops[0]);
      CoreIsSafe(cfg, s);
      StepAddsDelta(cfg, s, ops[0]);
      ItemsGrow(DelQ(s), DelOp(cfg, s, ops[0]));
      NewItemsAreValid(cfg, s, ops[0]);
      StepKeepsCore(cfg, s, ops[0]);
      RunKeepsItemsValid(cfg, t, ops[1..]);
    }
  }

  /**
   Over every run all delivery jobs carry valid chats or receipts, so the theorem above holds of any reachable
   bridges.
   */
  lemma ReachableIsWellFormed(cfg: Config, ops: seq<Op>)
    ensures WellFormed(Node(cfg, Run(cfg, INITIAL, ops), {}))
  {
    hide Core, Run;
    InitialCore(cfg);
    RunKeepsCore(cfg, INITIAL, ops);
    RunKeepsItemsValid(cfg, INITIAL, ops);
  }

  // --- How it starts -----------------------------------------------------------------------------

  /** A fresh bridge that has received one message. */
  ghost function AfterOne(cfg: Config, m: Message, at: int): Node {
    Node(cfg, Step(cfg, INITIAL, OnMessage(m, at, Commits)), {})
  }

  /** One message that is not a chat, between two fresh bridges of different users, is enough to start it. */
  lemma OneBadMessageIsEnough(a: Config, b: Config, m: Message, at: int, n: nat)
    requires a.bridge != b.bridge && m.recipient == a.bridge && m.sender == b.bridge
    requires Parse(m.body).Failure? || Parse(m.body).value.kind != Chat
    ensures Reaches(Pair(AfterOne(a, m, at), Node(b, INITIAL, {})), n)
  {
    hide Core, Step, IngestReceipt, NormalEnvelope, Parse, PairRun, Answers;
    InitialCore(a);
    InitialCore(b);
    var start := Node(a, INITIAL, {});
    NothingArchivedAtFirst(m.cursor);
    AnsweredIff(a, m);
    ArrivalAddsItsReceipt(start, m, at);
    var p := Pair(AfterOne(a, m, at), Node(b, INITIAL, {}));
    assert IngestReceipt(a, m)[0] in IngestReceipt(a, m);
    assert p.left.sys.db.deliveries[0] == NewJob(IngestReceipt(a, m)[0], at);
    assert OnItsWay(p, true, 0);
    var ops := AnswersWithoutEnd(p, true, 0, n);
  }

  lemma NothingArchivedAtFirst(c: Cursor)
    ensures !HasMessage(INITIAL.db, c) && INITIAL.db.deliveries == []
  {
  }
}
