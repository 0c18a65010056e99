/** The queue theorems, stated for the two queues of the running bridge. */
module BridgeQueues {
  import opened Filters
  import opened Options
  import opened Queues
  import opened QueueRuns
  import opened QueueOrder
  import opened QueueFate
  import opened QueueSends
  import opened Tables
  import opened Bridge
  import opened BridgeRuns
  import opened Ingestion
  import opened Loops

  // --- Finality ----------------------------------------------------------------------------------

  /**
   In both queues, delivered and failed rows are final and `attempts` counts the committed claims, over every
   interleaving of the four actors, with failing writes and restarts.
   */
  lemma FinalJobsAreFinal(cfg: Config, before: seq<Op>, after: seq<Op>)
    ensures var s := Run(cfg, INITIAL, before);
            var t := Run(cfg, s, after);
            && Extends(OutQ(s), OutQ(t)) && Safe(OutQ(t))
            && Extends(DelQ(s), DelQ(t)) && Safe(DelQ(t))
  {
    hide Step, QueueRun, Known;
    var s := Run(cfg, INITIAL, before);
    InitialCore(cfg);
    RunKeepsCore(cfg, INITIAL, before);
    RunKeepsCore(cfg, s, after);
    QueuesOfARun(cfg, s, after);
    RunIsSafe(OutQ(s), OutOps(cfg, s, after));
    RunIsSafe(DelQ(s), DelOps(cfg, s, after));
  }

  // --- Clocks ------------------------------------------------------------------------------------

  /** Every step of the bridge happens no earlier than the one before it. */
  predicate Monotone(ops: seq<Op>, start: int)
    decreases |ops|
  {
    ops == [] || (start <= TimeOf(ops[0]) && Monotone(ops[1..], TimeOf(ops[0])))
  }

  function End(ops: seq<Op>, start: int): int
    decreases |ops|
  {
    if ops == [] then start else End(ops[1..], TimeOf(ops[0]))
  }

  lemma {:induction false} ClocksProject(cfg: Config, s: Sys, ops: seq<Op>, start: int)
    requires Monotone(ops, start)
    ensures MonotoneClock(OutOps(cfg, s, ops), start) && EndTime(OutOps(cfg, s, ops), start) == End(ops, start)
    ensures MonotoneClock(DelOps(cfg, s, ops), start) && EndTime(DelOps(cfg, s, ops), start) == End(ops, start)
    decreases |ops|
  {
    hide Step, DeltaOf;
    if ops != [] {
      var t := Step(cfg, s, ops[0]);
      ClocksProject(cfg, t, ops[1..], TimeOf(ops[0]));
      assert OutOps(cfg, s, ops)[1..] == OutOps(cfg, t, ops[1..]);
      assert DelOps(cfg, s, ops)[1..] == DelOps(cfg, t, ops[1..]);
    }
  }

  /** The readings a loop takes when it claims and settles never step back; nothing is asked of the other actors. */
  predicate LoopIsSteady(outbound: bool, ops: seq<Op>, last: int)
    decreases |ops|
  {
    ops == [] ||
    (var mine := (if outbound then ops[0].Outbound? else ops[0].Deliver?) &&
     (ops[0].step.Claim? || ops[0].step.Settle?);
     if mine then last <= TimeOf(ops[0]) && LoopIsSteady(outbound, ops[1..], TimeOf(ops[0]))
     else LoopIsSteady(outbound, ops[1..], last))
  }

  lemma {:induction false} SteadinessProjects(cfg: Config, s: Sys, ops: seq<Op>, last: int)
    ensures LoopIsSteady(true, ops, last) ==> SteadyLoop(OutOps(cfg, s, ops), last)
    ensures LoopIsSteady(false, ops, last) ==> SteadyLoop(DelOps(cfg, s, ops), last)
    decreases |ops|
  {
    hide Step, DeltaOf;
    if ops != [] {
      var t := Step(cfg, s, ops[0]);
      SteadinessProjects(cfg, t, ops[1..], last);
      SteadinessProjects(cfg, t, ops[1..], TimeOf(ops[0]));
      assert OutOps(cfg, s, ops)[1..] == OutOps(cfg, t, ops[1..]);
      assert DelOps(cfg, s, ops)[1..] == DelOps(cfg, t, ops[1..]);
    }
  }

  // --- Retry rate --------------------------------------------------------------------------------

  /**
   The retry rate bound for both queues: the `k`-th claim of a job comes no earlier than `Wait(k)` after its creation,
   over every run in which the claiming loop's own clock does not step back.
   */
  lemma ClaimsArePaced(cfg: Config, ops: seq<Op>, start: int, p: nat)
    ensures var s := Run(cfg, INITIAL, ops);
            && (LoopIsSteady(true, ops, start) && p < |s.out.claims| ==> ClaimPaced(OutQ(s), p))
            && (LoopIsSteady(false, ops, start) && p < |s.del.claims| ==> ClaimPaced(DelQ(s), p))
  {
    hide Step, ClaimPaced;
    InitialCore(cfg);
    QueuesOfARun(cfg, INITIAL, ops);
    SteadinessProjects(cfg, INITIAL, ops, start);
    var s := Run(cfg, INITIAL, ops);
    if LoopIsSteady(true, ops, start) && p < |s.out.claims| {
      RetryRateBound(true, OutOps(cfg, INITIAL, ops), start, p);
    }
    if LoopIsSteady(false, ops, start) && p < |s.del.claims| {
      RetryRateBound(false, DelOps(cfg, INITIAL, ops), start, p);
    }
  }

  /** Likewise, and the readings it takes for its sends never fall behind its last claim or settling. */
  predicate LoopSendsSteadily(outbound: bool, ops: seq<Op>, last: int)
    decreases |ops|
  {
    ops == [] ||
    (var mine := if outbound then ops[0].Outbound? else ops[0].Deliver?;
     if mine && (ops[0].step.Claim? || ops[0].step.Settle?)
     then last <= TimeOf(ops[0]) && LoopSendsSteadily(outbound, ops[1..], TimeOf(ops[0]))
     else (mine && ops[0].step.Send? ==> last <= TimeOf(ops[0])) && LoopSendsSteadily(outbound, ops[1..], last))
  }

  lemma {:induction false} SteadySendsProject(cfg: Config, s: Sys, ops: seq<Op>, last: int)
    ensures LoopSendsSteadily(true, ops, last) ==> SteadySender(OutOps(cfg, s, ops), last)
    ensures LoopSendsSteadily(false, ops, last) ==> SteadySender(DelOps(cfg, s, ops), last)
    decreases |ops|
  {
    hide Step, DeltaOf;
    if ops != [] {
      var t := Step(cfg, s, ops[0]);
      SteadySendsProject(cfg, t, ops[1..], last);
      SteadySendsProject(cfg, t, ops[1..], TimeOf(ops[0]));
      assert OutOps(cfg, s, ops)[1..] == OutOps(cfg, t, ops[1..]);
      assert DelOps(cfg, s, ops)[1..] == DelOps(cfg, t, ops[1..]);
    }
  }

  /** By time `t`, a job of either queue has been claimed at most as often as the closed-form cap allows. */
  lemma ClaimsStayInTheCap(cfg: Config, ops: seq<Op>, start: int, id: nat, t: int)
    ensures var s := Run(cfg, INITIAL, ops);
            && (LoopIsSteady(true, ops, start) && id < |s.db.outbound| && s.db.outbound[id].createdAt <= t ==>
                  ClaimsBy(s.out.claims, id, t) <= ClaimCap(t - s.db.outbound[id].createdAt))
            && (LoopIsSteady(false, ops, start) && id < |s.db.deliveries| && s.db.deliveries[id].createdAt <= t ==>
                  ClaimsBy(s.del.claims, id, t) <= ClaimCap(t - s.db.deliveries[id].createdAt))
  {
    hide Step, Core, QueueRun, OutOps, DelOps, LoopIsSteady, SteadyLoop, ClaimCap, ClaimsBy;
    var s := Run(cfg, INITIAL, ops);
    InitialCore(cfg);
    QueuesOfARun(cfg, INITIAL, ops);
    SteadinessProjects(cfg, INITIAL, ops, start);
    if LoopIsSteady(true, ops, start) && id < |s.db.outbound| && s.db.outbound[id].createdAt <= t {
      ClaimsAreCapped(true, OutOps(cfg, INITIAL, ops), start, id, t);
    }
    if LoopIsSteady(false, ops, start) && id < |s.db.deliveries| && s.db.deliveries[id].createdAt <= t {
      ClaimsAreCapped(false, DelOps(cfg, INITIAL, ops), start, id, t);
    }
  }

  /** And it has been sent at most that often, if the loop's readings for its sends keep up as well. */
  lemma SendsStayInTheCap(cfg: Config, ops: seq<Op>, start: int, id: nat, t: int)
    ensures var s := Run(cfg, INITIAL, ops);
            && (LoopSendsSteadily(true, ops, start) && id < |s.db.outbound| && s.db.outbound[id].createdAt <= t ==>
                  SendsBy(s.out.sends, id, t) <= ClaimCap(t - s.db.outbound[id].createdAt))
            && (LoopSendsSteadily(false, ops, start) && id < |s.db.deliveries| && s.db.deliveries[id].createdAt <= t ==>
                  SendsBy(s.del.sends, id, t) <= ClaimCap(t - s.db.deliveries[id].createdAt))
  {
    hide Step, Core, QueueRun, OutOps, DelOps, LoopSendsSteadily, SteadySender, ClaimCap, SendsBy;
    var s := Run(cfg, INITIAL, ops);
    InitialCore(cfg);
    QueuesOfARun(cfg, INITIAL, ops);
    SteadySendsProject(cfg, INITIAL, ops, start);
    if LoopSendsSteadily(true, ops, start) && id < |s.db.outbound| && s.db.outbound[id].createdAt <= t {
      SendsAreCapped(true, OutOps(cfg, INITIAL, ops), start, id, t);
    }
    if LoopSendsSteadily(false, ops, start) && id < |s.db.deliveries| && s.db.deliveries[id].createdAt <= t {
      SendsAreCapped(false, DelOps(cfg, INITIAL, ops), start, id, t);
    }
  }

  // --- Once accepted -----------------------------------------------------------------------------

  /**
   No job of either queue is accepted twice: over every interleaving, with failing writes and restarts, the other side
   answers at most one send of it with success.
   */
  lemma NoJobIsAcceptedTwice(cfg: Config, ops: seq<Op>, id: nat)
    ensures var s := Run(cfg, INITIAL, ops);
            && CountAccepted(s.out.sends, id) <= 1 && (CountAccepted(s.out.sends, id) == 1 ==> Through(OutQ(s), id))
            && CountAccepted(s.del.sends, id) <= 1 && (CountAccepted(s.del.sends, id) == 1 ==> Through(DelQ(s), id))
  {
    hide Step, Core, QueueRun, OutOps, DelOps, CountAccepted, Through;
    InitialCore(cfg);
    QueuesOfARun(cfg, INITIAL, ops);
    AcceptedAtMostOnce(true, OutOps(cfg, INITIAL, ops), id);
    AcceptedAtMostOnce(false, DelOps(cfg, INITIAL, ops), id);
  }

  // --- Order -------------------------------------------------------------------------------------

  /** In either queue a claim can pass over an earlier waiting job only inside that job's current backoff window. */
  lemma OvertakingIsInsideBackoff(cfg: Config, ops: seq<Op>, start: int, at: int, i: nat, j: nat)
    requires Monotone(ops, start) && End(ops, start) <= at && i < j
    ensures var rows := Run(cfg, INITIAL, ops).db.outbound;
            FirstDue(rows, at) == Some(j) && rows[i].status == Pending ==>
              rows[i].attempts > 0 && rows[i].nextAttemptAt - Backoff(rows[i].attempts) <= at < rows[i].nextAttemptAt
    ensures var rows := Run(cfg, INITIAL, ops).db.deliveries;
            FirstDue(rows, at) == Some(j) && rows[i].status == Pending ==>
              rows[i].attempts > 0 && rows[i].nextAttemptAt - Backoff(rows[i].attempts) <= at < rows[i].nextAttemptAt
  {
    hide Step, Backoff;
    InitialCore(cfg);
    QueuesOfARun(cfg, INITIAL, ops);
    ClocksProject(cfg, INITIAL, ops, start);
    var s := Run(cfg, INITIAL, ops);
    if FirstDue(s.db.outbound, at) == Some(j) && s.db.outbound[i].status == Pending {
      OvertakingIsBounded(true, OutOps(cfg, INITIAL, ops), start, at, i, j);
    }
    if FirstDue(s.db.deliveries, at) == Some(j) && s.db.deliveries[i].status == Pending {
      OvertakingIsBounded(false, DelOps(cfg, INITIAL, ops), start, at, i, j);
    }
  }

  /** The gateway never asks for a retry. */
  predicate NoRetries(ops: seq<Op>) {
    forall i :: 0 <= i < |ops| ==> (ops[i].Outbound? && ops[i].step.Send? ==> !Retryable(ops[i].step.result))
  }

  lemma {:induction false} NoRetriesProject(cfg: Config, s: Sys, ops: seq<Op>)
    requires NoRetries(ops)
    ensures NeverRetries(OutOps(cfg, s, ops))
    decreases |ops|
  {
    hide Step, DeltaOf;
    if ops != [] {
      NoRetriesProject(cfg, Step(cfg, s, ops[0]), ops[1..]);
    }
  }

  /**
   Where nothing is retried, chat messages go out in the order they were saved: the `k`-th outbound claim takes the
   `k`-th chat message of the archive.
   */
  lemma ClaimsFollowTheArchive(cfg: Config, ops: seq<Op>, start: int, k: nat)
    requires Monotone(ops, start) && NoRetries(ops)
    requires k < |Run(cfg, INITIAL, ops).out.claims|
    ensures var s := Run(cfg, INITIAL, ops);
            && s.out.claims[k].id == k
            && k < |s.db.outbound| == |ChatItems(cfg, s.db.messages)|
            && s.db.outbound[k].item == ChatItems(cfg, s.db.messages)[k]
  {
    hide Step, QueueRun, ChatItems, IngestReceipts, Filter, Known;
    var s := Run(cfg, INITIAL, ops);
    InitialCore(cfg);
    RunKeepsCore(cfg, INITIAL, ops);
    QueuesOfARun(cfg, INITIAL, ops);
    ClocksProject(cfg, INITIAL, ops, start);
    NoRetriesProject(cfg, INITIAL, ops);
    ClaimsFollowInsertion(true, OutOps(cfg, INITIAL, ops), start);
    IngestionIsExact(cfg, ops);
    assert s.out.claims[k] in s.out.claims;
    assert Items(s.db.outbound)[k] == s.db.outbound[k].item;
  }

  // --- Draining ----------------------------------------------------------------------------------

  function Calm(at: int): Weather {
    Weather(at, Commits, at, at, Commits, at, Commits)
  }

  /** Faultless turns of one loop, one after the other. */
  function CalmTurns(outbound: bool, times: seq<int>, results: seq<SendResult>): seq<Op>
    requires |times| == |results|
    decreases |times|
  {
    if times == [] then []
    else (if outbound then OutboundTurn(Calm(times[0]), results[0]) else DeliveryTurn(Calm(times[0]), results[0]))
         + CalmTurns(outbound, times[1..], results[1..])
  }

  lemma TurnWorksTheQueue(cfg: Config, s: Sys, at: int, result: SendResult)
    ensures OutQ(Run(cfg, s, OutboundTurn(Calm(at), result))) == QueueRun(OutQ(s), Turn(at, result))
    ensures DelQ(Run(cfg, s, DeliveryTurn(Calm(at), result))) == QueueRun(DelQ(s), Turn(at, result))
  {
    hide Step, WorkStep;
    var t := TurnSteps(Calm(at), result);
    TurnUnfolds(OutQ(s), at, result);
    TurnUnfolds(DelQ(s), at, result);
    FourSteps(cfg, s, Outbound(t[0]), Outbound(t[1]), Outbound(t[2]), Outbound(t[3]));
    FourSteps(cfg, s, Deliver(t[0]), Deliver(t[1]), Deliver(t[2]), Deliver(t[3]));
    forall x: Sys, step
      ensures OutQ(Step(cfg, x, Outbound(step))) == WorkStep(OutQ(x), step) { LoopStepsWorkTheQueue(cfg, x, step); }
    forall x: Sys, step
      ensures DelQ(Step(cfg, x, Deliver(step))) == WorkStep(DelQ(x), step) { LoopStepsWorkTheQueue(cfg, x, step); }
  }

  lemma {:induction false} TurnsWorkTheQueue(cfg: Config, s: Sys, times: seq<int>, results: seq<SendResult>)
    requires |times| == |results|
    ensures OutQ(Run(cfg, s, CalmTurns(true, times, results))) == TakeTurns(OutQ(s), times, results)
    ensures DelQ(Run(cfg, s, CalmTurns(false, times, results))) == TakeTurns(DelQ(s), times, results)
    decreases |times|
  {
    hide Step, QueueRun, OutboundTurn, DeliveryTurn, Turn;
    if times != [] {
      var out, del := OutboundTurn(Calm(times[0]), results[0]), DeliveryTurn(Calm(times[0]), results[0]);
      TurnWorksTheQueue(cfg, s, times[0], results[0]);
      RunConcat(cfg, s, out, CalmTurns(true, times[1..], results[1..]));
      RunConcat(cfg, s, del, CalmTurns(false, times[1..], results[1..]));
      TurnsWorkTheQueue(cfg, Run(cfg, s, out), times[1..], results[1..]);
      TurnsWorkTheQueue(cfg, Run(cfg, s, del), times[1..], results[1..]);
    }
  }

  /**
   Left alone, with no faults and no retries asked for, each loop drains its queue in exactly as many turns as jobs are
   waiting: they are claimed and sent once each, in ascending id, and every one ends delivered or failed.
   */
  lemma LoopsDrain(cfg: Config, s: Sys, times: seq<int>, results: seq<SendResult>, now: int)
    requires |times| == |results|
    requires forall t <- times :: now <= t
    requires forall r <- results :: !Retryable(r)
    ensures s.out.pc.Idle? && AllDue(OutQ(s), now) && |times| == |Waiting(s.db.outbound)| ==>
              Drained(OutQ(s), times, results, OutQ(Run(cfg, s, CalmTurns(true, times, results))))
    ensures s.del.pc.Idle? && AllDue(DelQ(s), now) && |times| == |Waiting(s.db.deliveries)| ==>
              Drained(DelQ(s), times, results, DelQ(Run(cfg, s, CalmTurns(false, times, results))))
  {
    hide Step, TakeTurns, Drained, AllDue;
    TurnsWorkTheQueue(cfg, s, times, results);
    if s.out.pc.Idle? && AllDue(OutQ(s), now) && |times| == |Waiting(s.db.outbound)| {
      QueueDrains(OutQ(s), times, results, now);
    }
    if s.del.pc.Idle? && AllDue(DelQ(s), now) && |times| == |Waiting(s.db.deliveries)| {
      QueueDrains(DelQ(s), times, results, now);
    }
  }

  // --- Lost jobs ---------------------------------------------------------------------------------

  lemma SpentRowsStay(cfg: Config, s: Sys, after: seq<Op>)
    requires Core(cfg, s)
    ensures var t := Run(cfg, s, after);
            && (forall i: nat :: Spent(OutQ(s), i) ==> Spent(OutQ(t), i) && t.db.outbound[i] == s.db.outbound[i])
            && (forall i: nat :: Spent(DelQ(s), i) ==> Spent(DelQ(t), i) && t.db.deliveries[i] == s.db.deliveries[i])
  {
    hide Step, Core, QueueRun, OutOps, DelOps, Safe;
    CoreIsSafe(cfg, s);
    QueuesOfARun(cfg, s, after);
    RunIsSafe(OutQ(s), OutOps(cfg, s, after));
    RunIsSafe(DelQ(s), DelOps(cfg, s, after));
  }

  /**
   Reopening the database rescues nothing: in both tables a row that is being processed at a restart stays so for
   ever.
   */
  lemma RestartStrands(cfg: Config, before: seq<Op>, at: int, after: seq<Op>, i: nat)
    ensures var s := Run(cfg, INITIAL, before);
            var t := Run(cfg, Step(cfg, s, Reopen(at)), after);
            && (i < |s.db.outbound| && s.db.outbound[i].status == Processing ==>
                  i < |t.db.outbound| && t.db.outbound[i].status == Processing)
            && (i < |s.db.deliveries| && s.db.deliveries[i].status == Processing ==>
                  i < |t.db.deliveries| && t.db.deliveries[i].status == Processing)
  {
    hide Run, Core;
    var s := Run(cfg, INITIAL, before);
    InitialCore(cfg);
    RunKeepsCore(cfg, INITIAL, before);
    StepKeepsCore(cfg, s, Reopen(at));
    var r := Step(cfg, s, Reopen(at));
    SpentRowsStay(cfg, r, after);
    assert i < |s.db.outbound| && s.db.outbound[i].status == Processing ==> Spent(OutQ(r), i);
    assert i < |s.db.deliveries| && s.db.deliveries[i].status == Processing ==> Spent(DelQ(r), i);
  }

  ghost predicate SentInTheEnd(cfg: Config, s: Sys, i: nat) {
    exists after :: var t := Run(cfg, s, after); i < |t.db.outbound| && t.db.outbound[i].status == Delivered
  }

  ghost predicate DeliveredInTheEnd(cfg: Config, s: Sys, i: nat) {
    exists after :: var t := Run(cfg, s, after); i < |t.db.deliveries| && t.db.deliveries[i].status == Delivered
  }

  /**
   Exactly which jobs can still be delivered. From any reachable state of the bridge some continuation, with whatever
   messages, events, faults and restarts, delivers a job if and only if it is alive: delivered already, waiting, or in
   the hands of a loop that has not been refused for good.
   */
  lemma DeliveredInTheEndIffAlive(cfg: Config, before: seq<Op>, i: nat)
    ensures var s := Run(cfg, INITIAL, before);
            && (i < |s.db.outbound| ==> (Alive(OutQ(s), i) <==> SentInTheEnd(cfg, s, i)))
            && (i < |s.db.deliveries| ==> (Alive(DelQ(s), i) <==> DeliveredInTheEnd(cfg, s, i)))
  {
    hide Step, Known, Alive;
    var s := Run(cfg, INITIAL, before);
    InitialCore(cfg);
    RunKeepsCore(cfg, INITIAL, before);
    CoreIsSafe(cfg, s);
    if i < |s.db.outbound| {
      OutboundJobIffAlive(cfg, s, i);
    }
    if i < |s.db.deliveries| {
      DeliveryJobIffAlive(cfg, s, i);
    }
  }

  lemma OutboundJobIffAlive(cfg: Config, s: Sys, i: nat)
    requires Core(cfg, s) && i < |s.db.outbound|
    ensures Alive(OutQ(s), i) <==> SentInTheEnd(cfg, s, i)
  {
    hide Step, Core, Alive, QueueRun;
    CoreIsSafe(cfg, s);
    if Alive(OutQ(s), i) {
      var ops := AliveCanBeDelivered(OutQ(s), i);
      OutboundLoopWorksTheQueue(cfg, s, ops);
      assert Run(cfg, s, OutboundLoop(ops)).db.outbound[i].status == Delivered;
    } else {
      forall after
        ensures var t := Run(cfg, s, after); !(i < |t.db.outbound| && t.db.outbound[i].status == Delivered) {
        QueuesOfARun(cfg, s, after);
        DeadForever(OutQ(s), OutOps(cfg, s, after), i);
      }
    }
  }

  lemma DeliveryJobIffAlive(cfg: Config, s: Sys, i: nat)
    requires Core(cfg, s) && i < |s.db.deliveries|
    ensures Alive(DelQ(s), i) <==> DeliveredInTheEnd(cfg, s, i)
  {
    hide Step, Core, Alive, QueueRun;
    CoreIsSafe(cfg, s);
    if Alive(DelQ(s), i) {
      var ops := AliveCanBeDelivered(DelQ(s), i);
      DeliveryLoopWorksTheQueue(cfg, s, ops);
      assert Run(cfg, s, DeliveryLoop(ops)).db.deliveries[i].status == Delivered;
    } else {
      forall after
        ensures var t := Run(cfg, s, after); !(i < |t.db.deliveries| && t.db.deliveries[i].status == Delivered) {
        QueuesOfARun(cfg, s, after);
        DeadForever(DelQ(s), DelOps(cfg, s, after), i);
      }
    }
  }
}
