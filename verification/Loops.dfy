/**
 The loops of internal/qqbridge/runtime.go. Each endless loop is given by one turn of it; what the clock, the database
 and the other side answer during the turn are parameters. A turn of the code is four steps of the bridge machine.
 */
module Loops {
  import opened Options
  import opened Envelopes
  import opened JobKeys
  import opened Queues
  import opened Tables
  import opened Effects
  import opened BridgeRuns
  import opened Bridge
  import opened Stores

  // --- Errors ------------------------------------------------------------------------------------

  /** An error as Go sees it: a bridge error anywhere in its chain, or something else. */
  datatype GoError = BridgeFailure(error: BridgeError) | OtherFailure(text: string)

  /** `classifyBridgeError`: a bridge error decides for itself, and anything else is worth retrying. */
  function ClassifyBridgeError(e: GoError): (b: BridgeError)
    ensures e.OtherFailure? ==> b.retryable && b.code == PlatformUnavailable
  {
    match e
    case BridgeFailure(error) => error
    case OtherFailure(text) => BridgeError(PlatformUnavailable, "qq gateway unavailable", true, Some(text))
  }

  datatype SendAnswer = Accepted(remoteId: string) | Rejected(error: GoError)

  function ResultOf(answer: SendAnswer): SendResult {
    match answer
    case Accepted(remoteId) => Sent(remoteId)
    case Rejected(error) => Refused(ClassifyBridgeError(error))
  }

  // --- Turns -------------------------------------------------------------------------------------

  /** The times and fates met during one turn. */
  datatype Weather = Weather(claimAt: int, claimFate: Fate, settleAt: int, settleLater: int, settleFate: Fate,
                             reportAt: int, reportFate: Fate)

  function TurnSteps(w: Weather, result: SendResult): seq<WorkerStep> {
    [Claim(w.claimAt, w.claimFate), Send(w.claimAt, result), Settle(w.settleAt, w.settleLater, w.settleFate),
     Report(w.reportAt, w.reportFate)]
  }

  function OutboundTurn(w: Weather, result: SendResult): seq<Op> {
    var t := TurnSteps(w, result);
    [Outbound(t[0]), Outbound(t[1]), Outbound(t[2]), Outbound(t[3])]
  }

  function DeliveryTurn(w: Weather, result: SendResult): seq<Op> {
    var t := TurnSteps(w, result);
    [Deliver(t[0]), Deliver(t[1]), Deliver(t[2]), Deliver(t[3])]
  }

  lemma FourSteps(cfg: Config, s: Sys, a: Op, b: Op, c: Op, d: Op)
    ensures Run(cfg, s, [a, b, c, d]) == Step(cfg, Step(cfg, Step(cfg, Step(cfg, s, a), b), c), d)
  {
    hide Step;
    var s1 := Step(cfg, s, a);
    var s2 := Step(cfg, s1, b);
    var s3 := Step(cfg, s2, c);
    assert [a, b, c, d][1..] == [b, c, d] && [b, c, d][1..] == [c, d] && [c, d][1..] == [d] && [d][1..] == [];
    assert Run(cfg, s, [a, b, c, d]) == Run(cfg, s1, [b, c, d]);
    assert Run(cfg, s1, [b, c, d]) == Run(cfg, s2, [c, d]);
    assert Run(cfg, s2, [c, d]) == Run(cfg, s3, [d]);
    assert Run(cfg, s3, [d]) == Run(cfg, Step(cfg, s3, d), []);
  }

  // --- What a turn comes to ----------------------------------------------------------------------

  /** Everything the turn writes lands and is seen to. */
  predicate AllCommit(w: Weather) {
    w.claimFate.Commits? && w.settleFate.Commits? && w.reportFate.Commits?
  }

  /** Of the rows only `id` has changed; it carries what it did, and has been tried once more. */
  ghost predicate OnlyTried<T>(was: seq<Job<T>>, rows: seq<Job<T>>, id: nat)
    requires id < |was|
  {
    && |rows| == |was| && (forall i :: 0 <= i < |was| && i != id ==> rows[i] == was[i])
    && rows[id].item == was[id].item && rows[id].createdAt == was[id].createdAt
    && rows[id].attempts == was[id].attempts + 1
  }

  /** The row is delivered; `remoteId` is what the gateway called the message. */
  predicate IsDelivered<T>(row: Job<T>, remoteId: string, at: int) {
    row.status == Delivered && row.remoteId == remoteId && row.updatedAt == at
  }

  /** The row waits for its next attempt, after the backoff for those made, and records this error. */
  predicate IsRetried<T>(row: Job<T>, e: BridgeError, at: int) {
    && row.status == Pending && row.nextAttemptAt == at + Backoff(row.attempts)
    && row.errorCode == CodeName(e.code) && row.errorText == ErrorText(e)
  }

  /** The row has failed for good with this error. */
  predicate IsFailed<T>(row: Job<T>, e: BridgeError) {
    row.status == Failed && row.errorCode == CodeName(e.code) && row.errorText == ErrorText(e)
  }

  /** What the outbound turn comes to on the tables, by what the gateway answered as a Go error or not. */
  ghost predicate OutboundOutcome(was: Db, db: Db, id: nat, w: Weather, answer: SendAnswer)
    requires id < |was.outbound|
  {
    && OnlyTried(was.outbound, db.outbound, id)
    && var row := db.outbound[id];
       match answer
       case Accepted(remoteId) => IsDelivered(row, remoteId, w.settleAt) && db.deliveries == was.deliveries
       case Rejected(OtherFailure(text)) =>
         && IsRetried(row, BridgeError(PlatformUnavailable, "qq gateway unavailable", true, Some(text)), w.settleAt)
         && db.deliveries == was.deliveries
       case Rejected(BridgeFailure(e)) =>
         if e.retryable then IsRetried(row, e, w.settleAt) && db.deliveries == was.deliveries
         else
           && IsFailed(row, e)
           && |db.deliveries| == |was.deliveries| + 1 && db.deliveries[..|was.deliveries|] == was.deliveries
           && var report := db.deliveries[|was.deliveries|];
              && report.status == Pending && report.attempts == 0 && report.nextAttemptAt == w.reportAt
              && report.item.jobKey == Print(ReceiptKey(row.item.source, DeliveryReceipt))
              && report.item.kind == ReceiptDelivery && report.item.target == row.item.sender
  }

  /** The queue after claiming, sending and settling, by the result. */
  lemma ThreeSteps<T>(q: Queue<T>, id: nat, w: Weather, result: SendResult)
    requires q.worker.pc.Idle? && AllCommit(w) && FirstDue(q.rows, w.claimAt) == Some(id)
    ensures var t := TurnSteps(w, result);
            var r := WorkStep(WorkStep(WorkStep(q, t[0]), t[1]), t[2]);
            && OnlyTried(q.rows, r.rows, id)
            && (result.Sent? ==> IsDelivered(r.rows[id], result.remoteId, w.settleAt) && r.worker.pc.Idle?)
            && (result.Refused? && result.error.retryable ==>
                IsRetried(r.rows[id], result.error, w.settleAt) && r.worker.pc.Idle?)
            && (result.Refused? && !result.error.retryable ==>
                  IsFailed(r.rows[id], result.error) &&
                  (if q.reports then r.worker.pc.Reporting? && r.worker.pc.error == result.error &&
                                     r.worker.pc.job.id == id && r.worker.pc.job.item == q.rows[id].item
                   else r.worker.pc.Idle?))
  {
    hide ErrorText, CodeName, Backoff, FirstDueFrom;
  }

  /** Steps of the loop other than its report leave the delivery table alone. */
  lemma QuietStep(cfg: Config, s: Sys, step: WorkerStep)
    requires !step.Report? || !s.out.pc.Reporting?
    ensures Step(cfg, s, Outbound(step)).db.deliveries == s.db.deliveries
  {
    hide WorkStep;
  }

  lemma OutboundTurnComesTo(cfg: Config, s: Sys, id: nat, w: Weather, answer: SendAnswer)
    requires Core(cfg, s) && s.out.pc.Idle? && AllCommit(w) && FirstDue(s.db.outbound, w.claimAt) == Some(id)
    ensures OutboundOutcome(s.db, Run(cfg, s, OutboundTurn(w, ResultOf(answer))).db, id, w, answer)
  {
    hide Core, Step, WorkStep, FirstDueFrom, IsDelivered, IsRetried, IsFailed, OnlyTried, Print, DeliveryReceiptItem;
    var t := TurnSteps(w, ResultOf(answer));
    FourSteps(cfg, s, Outbound(t[0]), Outbound(t[1]), Outbound(t[2]), Outbound(t[3]));
    var s1 := Step(cfg, s, Outbound(t[0]));
    var s2 := Step(cfg, s1, Outbound(t[1]));
    var s3 := Step(cfg, s2, Outbound(t[2]));
    StepKeepsCore(cfg, s, Outbound(t[0]));
    StepKeepsCore(cfg, s1, Outbound(t[1]));
    StepKeepsCore(cfg, s2, Outbound(t[2]));
    LoopStepsWorkTheQueue(cfg, s, t[0]);
    LoopStepsWorkTheQueue(cfg, s1, t[1]);
    LoopStepsWorkTheQueue(cfg, s2, t[2]);
    QuietStep(cfg, s, t[0]);
    QuietStep(cfg, s1, t[1]);
    QuietStep(cfg, s2, t[2]);
    ThreeSteps(OutQ(s), id, w, ResultOf(answer));
    assert s3.db.deliveries == s.db.deliveries;
    ReportComesTo(cfg, s3, w);
    TriedKeepsItem(s.db.outbound, s3.db.outbound, id);
    if s3.out.pc.Reporting? {
      ReportedItem(s3.out.pc.job, s3.out.pc.error);
      assert Step(cfg, s3, Outbound(t[3])).db.deliveries[..|s.db.deliveries|] == s.db.deliveries;
    }
  }

  lemma TriedKeepsItem<T>(was: seq<Job<T>>, rows: seq<Job<T>>, id: nat)
    requires id < |was| && OnlyTried(was, rows, id)
    ensures |rows| == |was| && rows[id].item == was[id].item
  {
  }

  lemma ReportedItem(job: HeldJob<OutboundItem>, error: BridgeError)
    ensures var item := DeliveryReceiptItem(job, error);
            && item.jobKey == Print(ReceiptKey(job.item.source, DeliveryReceipt))
            && item.kind == ReceiptDelivery && item.target == job.item.sender
  {
    hide Print, NewReceiptEnvelope, ReceiptConversation, ErrorText;
  }

  /** The last step adds the receipt, if the loop is about to report. */
  lemma ReportComesTo(cfg: Config, s: Sys, w: Weather)
    requires Core(cfg, s) && w.reportFate.Commits?
    ensures var t := Step(cfg, s, Outbound(Report(w.reportAt, w.reportFate)));
            && t.db.outbound == s.db.outbound
            && (!s.out.pc.Reporting? ==> t.db.deliveries == s.db.deliveries)
            && (s.out.pc.Reporting? ==>
                  t.db.deliveries ==
                    s.db.deliveries + [NewJob(DeliveryReceiptItem(s.out.pc.job, s.out.pc.error), w.reportAt)])
  {
    hide Core, Print, NewReceiptEnvelope, ReceiptConversation, ErrorText, Step;
    var op := Outbound(Report(w.reportAt, w.reportFate));
    StepAddsDelta(cfg, s, op);
    LoopStepsWorkTheQueue(cfg, s, op.step);
    InsertNothing(DelQ(s), w.reportAt);
    assert forall item: DeliveryItem :: NewJobs([item], w.reportAt) == [NewJob(item, w.reportAt)];
  }

  /** The delivery turn, which has nothing to report. */
  lemma DeliveryTurnComesTo(cfg: Config, s: Sys, id: nat, w: Weather, result: SendResult)
    requires s.del.pc.Idle? && AllCommit(w) && FirstDue(s.db.deliveries, w.claimAt) == Some(id)
    ensures var rows := Run(cfg, s, DeliveryTurn(w, result)).db.deliveries;
            && OnlyTried(s.db.deliveries, rows, id)
            && (result.Sent? ==> IsDelivered(rows[id], result.remoteId, w.settleAt))
            && (result.Refused? && result.error.retryable ==> IsRetried(rows[id], result.error, w.settleAt))
            && (result.Refused? && !result.error.retryable ==> IsFailed(rows[id], result.error))
  {
    hide Step, WorkStep, FirstDueFrom, IsDelivered, IsRetried, IsFailed, OnlyTried;
    var t := TurnSteps(w, result);
    FourSteps(cfg, s, Deliver(t[0]), Deliver(t[1]), Deliver(t[2]), Deliver(t[3]));
    var s1 := Step(cfg, s, Deliver(t[0]));
    var s2 := Step(cfg, s1, Deliver(t[1]));
    var s3 := Step(cfg, s2, Deliver(t[2]));
    LoopStepsWorkTheQueue(cfg, s, t[0]);
    LoopStepsWorkTheQueue(cfg, s1, t[1]);
    LoopStepsWorkTheQueue(cfg, s2, t[2]);
    LoopStepsWorkTheQueue(cfg, s3, t[3]);
    ThreeSteps(DelQ(s), id, w, result);
    IdleReportsNothing(DelQ(s3), w);
  }

  lemma IdleReportsNothing<T>(q: Queue<T>, w: Weather)
    ensures WorkStep(q, Report(w.reportAt, w.reportFate)).rows == q.rows
  {
  }

  class Runtime {
    const store: Store

    constructor (store: Store)
      ensures this.store == store
    {
      this.store := store;
    }

    /** The body of `runOutboundLoop`, in terms of the machine. */
    method TakeOutboundTurn(w: Weather, answer: SendAnswer, ghost s: Sys)
      requires s.db == store.View() && s.out.pc.Idle?
      modifies store
      ensures store.View() == Run(store.cfg, s, OutboundTurn(w, ResultOf(answer))).db
      ensures Run(store.cfg, s, OutboundTurn(w, ResultOf(answer))).out.pc.Idle?
    {
      hide EnqueueReceipt, Print, FirstDueFrom, ErrorText, CodeName, Backoff;
      ghost var t := TurnSteps(w, ResultOf(answer));
      FourSteps(store.cfg, s, Outbound(t[0]), Outbound(t[1]), Outbound(t[2]), Outbound(t[3]));
      var job := store.ClaimOutboundJob(w.claimAt, w.claimFate);
      if job.None? {
        return;
      }
      var held := job.value;
      if answer.Accepted? {
        store.MarkOutboundDelivered(held.id, answer.remoteId, w.settleAt, w.settleFate);
        return;
      }
      var bridgeErr := ClassifyBridgeError(answer.error);
      if bridgeErr.retryable {
        store.RetryOutbound(held.id, bridgeErr, held.attempts, w.settleAt, w.settleLater, w.settleFate);
        return;
      }
      store.FailOutbound(held.id, bridgeErr, w.settleAt, w.settleFate);
      var error := store.QueueReceipt(held.item.sender, held.item.envelope.conversation, held.item.envelope.messageRef,
                                      bridgeErr.code, ErrorText(bridgeErr), w.reportAt,
                                      Print(ReceiptKey(held.item.source, DeliveryReceipt)), w.reportFate);
    }

    /**
     One turn of `runOutboundLoop`. From any state whose outbound loop is at its head, the store ends as after the
     four steps of the machine, with the loop at its head again; steps the turn does not reach change nothing there.
     In a reachable state, when nothing fails and a job is due, that job is delivered if the gateway accepted it; it
     has failed and its receipt is queued if the gateway's own error is not to be retried; and it waits for its
     backoff if that error is to be retried or is any other error.
     */
    method OutboundLoopTurn(w: Weather, answer: SendAnswer, ghost s: Sys)
      requires s.db == store.View() && s.out.pc.Idle?
      modifies store
      ensures store.View() == Run(store.cfg, s, OutboundTurn(w, ResultOf(answer))).db
      ensures Run(store.cfg, s, OutboundTurn(w, ResultOf(answer))).out.pc.Idle?
      ensures Core(store.cfg, s) && AllCommit(w) && FirstDue(s.db.outbound, w.claimAt).Some? ==>
                OutboundOutcome(s.db, store.View(), FirstDue(s.db.outbound, w.claimAt).value, w, answer)
    {
      hide Run, Core, OutboundOutcome, AllCommit, FirstDue;
      TakeOutboundTurn(w, answer, s);
      if Core(store.cfg, s) && AllCommit(w) && FirstDue(s.db.outbound, w.claimAt).Some? {
        OutboundTurnComesTo(store.cfg, s, FirstDue(s.db.outbound, w.claimAt).value, w, answer);
      }
    }

    /** The body of `runTurnTFDeliveryLoop`, in terms of the machine. */
    method TakeDeliveryTurn(w: Weather, error: Option<BridgeError>, ghost s: Sys)
      requires s.db == store.View() && s.del.pc.Idle?
      modifies store
      ensures var result := if error.None? then Sent("") else Refused(error.value);
              && store.View() == Run(store.cfg, s, DeliveryTurn(w, result)).db
              && Run(store.cfg, s, DeliveryTurn(w, result)).del.pc.Idle?
    {
      hide FirstDueFrom, ErrorText, CodeName, Backoff;
      ghost var t := TurnSteps(w, if error.None? then Sent("") else Refused(error.value));
      FourSteps(store.cfg, s, Deliver(t[0]), Deliver(t[1]), Deliver(t[2]), Deliver(t[3]));
      var job := store.ClaimTurnTFDeliveryJob(w.claimAt, w.claimFate);
      if job.None? {
        return;
      }
      var held := job.value;
      if error.None? {
        store.MarkTurnTFDeliveryDelivered(held.id, w.settleAt, w.settleFate);
      } else if error.value.retryable {
        store.RetryTurnTFDelivery(held.id, error.value, held.attempts, w.settleAt, w.settleLater, w.settleFate);
      } else {
        store.FailTurnTFDelivery(held.id, error.value, w.settleAt, w.settleFate);
      }
    }

    /** One turn of `runTurnTFDeliveryLoop`; `error` is how the send was classified when it failed. */
    method DeliveryLoopTurn(w: Weather, error: Option<BridgeError>, ghost s: Sys)
      requires s.db == store.View() && s.del.pc.Idle?
      modifies store
      ensures var result := if error.None? then Sent("") else Refused(error.value);
              && store.View() == Run(store.cfg, s, DeliveryTurn(w, result)).db
              && Run(store.cfg, s, DeliveryTurn(w, result)).del.pc.Idle?
      ensures AllCommit(w) && FirstDue(s.db.deliveries, w.claimAt).Some? ==>
                var id := FirstDue(s.db.deliveries, w.claimAt).value;
                && OnlyTried(s.db.deliveries, store.deliveries, id)
                && (error.None? ==> IsDelivered(store.deliveries[id], "", w.settleAt))
                && (error.Some? && error.value.retryable ==> IsRetried(store.deliveries[id], error.value, w.settleAt))
                && (error.Some? && !error.value.retryable ==> IsFailed(store.deliveries[id], error.value))
    {
      hide Run, AllCommit, OnlyTried, IsDelivered, IsRetried, IsFailed, FirstDue;
      TakeDeliveryTurn(w, error, s);
      if AllCommit(w) && FirstDue(s.db.deliveries, w.claimAt).Some? {
        DeliveryTurnComesTo(store.cfg, s, FirstDue(s.db.deliveries, w.claimAt).value, w,
                            if error.None? then Sent("") else Refused(error.value));
      }
    }

    /** One event taken by `consumeGatewayEvents`; an error is only logged. */
    method ConsumeGatewayEvent(event: GatewayEvent, now: int, fate: Fate, ghost s: Sys)
      requires s.db == store.View()
      modifies store
      ensures store.View() == Step(store.cfg, s, OnEvent(event, now, fate)).db
    {
      hide EnqueueEvent;
      var error := store.EnqueueInboundEvent(event, now, fate);
    }
  }
}
