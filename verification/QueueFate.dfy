/**
 Nothing ever moves a row from `processing` back to `pending` except the loop that holds it. This module says
 exactly which jobs are lost that way.
 */
module QueueFate {
  import opened Options
  import opened Envelopes
  import opened Queues
  import opened QueueOrder

  /** The job is delivered, waiting, or in the hands of a loop that has not been refused for good. */
  predicate Alive<T>(q: Queue<T>, i: nat)
    requires i < |q.rows|
  {
    || q.rows[i].status in {Delivered, Pending}
    || (Holds(q, i) && (q.worker.pc.Claimed? ||
                        (q.worker.pc.Answered? && (q.worker.pc.result.Sent? || q.worker.pc.result.error.retryable))))
  }

  lemma DeadStaysDead<T>(q: Queue<T>, op: QueueOp<T>, i: nat)
    requires Safe(q) && i < |q.rows| && !Alive(q, i)
    ensures i < |QueueStep(q, op).rows| && !Alive(QueueStep(q, op), i)
  {
    StepIsSafe(q, op);
  }

  lemma {:induction false} DeadForever<T>(q: Queue<T>, ops: seq<QueueOp<T>>, i: nat)
    requires Safe(q) && i < |q.rows| && !Alive(q, i)
    ensures i < |QueueRun(q, ops).rows| && QueueRun(q, ops).rows[i].status != Delivered
    decreases |ops|
  {
    if ops != [] {
      StepIsSafe(q, ops[0]);
      DeadStaysDead(q, ops[0], i);
      DeadForever(QueueStep(q, ops[0]), ops[1..], i);
    }
  }

  lemma {:induction false} RunsCompose<T>(q: Queue<T>, a: seq<QueueOp<T>>, b: seq<QueueOp<T>>)
    ensures QueueRun(q, a + b) == QueueRun(QueueRun(q, a), b)
    decreases |a|
  {
    if a == [] {
      assert a + b == b;
    } else {
      assert (a + b)[1..] == a[1..] + b;
      RunsCompose(QueueStep(q, a[0]), a[1..], b);
    }
  }

  /** Nothing but steps of the loop. */
  ghost predicate OnlyWork<T>(ops: seq<QueueOp<T>>) {
    forall i :: 0 <= i < |ops| ==> ops[i].Work?
  }

  /** Reads the run that a sequence of turns amounts to. */
  lemma {:induction false} TurnsAreARun<T>(q: Queue<T>, times: seq<int>, results: seq<SendResult>)
    returns (ops: seq<QueueOp<T>>)
    requires |times| == |results|
    ensures OnlyWork(ops) && TakeTurns(q, times, results) == QueueRun(q, ops)
    decreases |times|
  {
    ops := [];
    if times != [] {
      var turn := Turn(times[0], results[0]);
      var rest := TurnsAreARun(QueueRun(q, turn), times[1..], results[1..]);
      RunsCompose(q, turn, rest);
      ops := turn + rest;
    }
  }

  function Latest<T>(rows: seq<Job<T>>): (t: int)
    ensures forall i :: 0 <= i < |rows| ==> rows[i].nextAttemptAt <= t
  {
    if rows == [] then 0
    else
      var t, last := Latest(rows[..|rows| - 1]), rows[|rows| - 1].nextAttemptAt;
      if t < last then last else t
  }

  lemma WaitingCanBeDelivered<T>(q: Queue<T>, i: nat) returns (ops: seq<QueueOp<T>>)
    requires q.worker.pc.Idle? && i < |q.rows| && q.rows[i].status == Pending
    ensures OnlyWork(ops)
    ensures var r := QueueRun(q, ops); i < |r.rows| && r.rows[i].status == Delivered
  {
    var now := Latest(q.rows);
    var ids := Waiting(q.rows);
    var times := seq(|ids|, _ => now);
    var results := seq(|ids|, _ => Sent(""));
    QueueDrains(q, times, results, now);
    ops := TurnsAreARun(q, times, results);
    assert i in ids && ids[..|ids|] == ids;
    var k :| 0 <= k < |ids| && ids[k] == i;
    assert results[k] == Sent("");
  }

  /** The rest of a turn, in which nothing fails and the job goes through. */
  function Finish<T>(): seq<QueueOp<T>> {
    [Work(Send(0, Sent(""))), Work(Settle(0, 0, Commits)), Work(Report(0, Commits))]
  }

  lemma FinishUnfolds<T>(q: Queue<T>)
    ensures QueueRun(q, Finish()) ==
            WorkStep(WorkStep(WorkStep(q, Send(0, Sent(""))), Settle(0, 0, Commits)), Report(0, Commits))
  {
    hide WorkStep;
    var t := Finish<T>();
    var q1 := QueueStep(q, t[0]);
    var q2 := QueueStep(q1, t[1]);
    assert QueueRun(q, t) == QueueRun(q1, t[1..]);
    assert t[1..][1..] == t[2..] && t[2..][1..] == [];
    assert QueueRun(q1, t[1..]) == QueueRun(q2, t[2..]);
    assert QueueRun(q2, t[2..]) == QueueRun(QueueStep(q2, t[2]), []);
  }

  /** The loop can always get back to its head, and an alive job is then waiting or delivered. */
  lemma LoopGetsToItsHead<T>(q: Queue<T>, i: nat)
    requires Safe(q) && i < |q.rows| && Alive(q, i)
    ensures var r := QueueRun(q, Finish());
            r.worker.pc.Idle? && i < |r.rows| && r.rows[i].status in {Delivered, Pending}
  {
    hide Backoff, ErrorText, CodeName;
    FinishUnfolds(q);
  }

  /** No restart is needed for that, nor anybody but the loop. */
  lemma AliveCanBeDelivered<T>(q: Queue<T>, i: nat) returns (ops: seq<QueueOp<T>>)
    requires Safe(q) && i < |q.rows| && Alive(q, i)
    ensures OnlyWork(ops)
    ensures var r := QueueRun(q, ops); i < |r.rows| && r.rows[i].status == Delivered
  {
    hide Alive, Safe;
    LoopGetsToItsHead(q, i);
    var r := QueueRun(q, Finish());
    if r.rows[i].status == Delivered {
      ops := Finish();
    } else {
      var rest := WaitingCanBeDelivered(r, i);
      RunsCompose(q, Finish(), rest);
      ops := Finish() + rest;
    }
  }

  /**
   Some continuation, restarts included, delivers the job if and only if it is alive. In particular a job that is
   `processing` when the process restarts, or whose settling write failed, is lost: no continuation delivers it.
   */
  lemma DeliverableIffAlive<T>(q: Queue<T>, i: nat)
    requires Safe(q) && i < |q.rows|
    ensures Alive(q, i) <==> exists ops :: i < |QueueRun(q, ops).rows| && QueueRun(q, ops).rows[i].status == Delivered
  {
    if Alive(q, i) {
      var ops := AliveCanBeDelivered(q, i);
      assert i < |QueueRun(q, ops).rows| && QueueRun(q, ops).rows[i].status == Delivered;
    } else {
      forall ops
        ensures !(i < |QueueRun(q, ops).rows| && QueueRun(q, ops).rows[i].status == Delivered)
      {
        DeadForever(q, ops, i);
      }
    }
  }

  /** A restart right after the claim commits loses the job, whose single claim is never followed by a send. */
  lemma RestartLosesTheClaimedJob<T>(reports: bool, item: T)
    ensures var q := QueueRun(EmptyQueue(reports), [Insert([item], 0), Work(Claim(0, Commits)), Restart(1)]);
            |q.rows| == 1 && q.rows[0].status == Processing && !Alive(q, 0) && q.worker.sends == []
  {
    var ops: seq<QueueOp<T>> := [Insert([item], 0), Work(Claim(0, Commits)), Restart(1)];
    var q0 := EmptyQueue<T>(reports);
    var q1 := QueueStep(q0, ops[0]);
    var q2 := QueueStep(q1, ops[1]);
    assert Due(q1.rows[0], 0) && FirstDue(q1.rows, 0) == Some(0);
    assert QueueRun(q0, ops) == QueueRun(q1, ops[1..]);
    assert ops[1..][1..] == ops[2..] && ops[2..][1..] == [];
    assert QueueRun(q1, ops[1..]) == QueueRun(q2, ops[2..]);
    assert QueueRun(q2, ops[2..]) == QueueRun(QueueStep(q2, ops[2]), []);
  }

  /** No write fails and the process never restarts. */
  ghost predicate NoFaults<T>(ops: seq<QueueOp<T>>) {
    forall op <- ops :: op.Insert? || (op.Work? && (op.step.Send? || op.step.fate.Commits?))
  }

  ghost predicate NothingStranded<T>(q: Queue<T>) {
    forall i :: 0 <= i < |q.rows| && q.rows[i].status == Processing ==> Holds(q, i) && !q.worker.pc.Reporting?
  }

  lemma {:induction false} NoFaultsNothingStranded<T>(q: Queue<T>, ops: seq<QueueOp<T>>)
    requires Safe(q) && NothingStranded(q) && NoFaults(ops)
    ensures NothingStranded(QueueRun(q, ops))
    decreases |ops|
  {
    if ops != [] {
      assert ops[0] in ops;
      StepIsSafe(q, ops[0]);
      StepStrandsNothing(q, ops[0]);
      assert forall op <- ops[1..] :: op in ops;
      NoFaultsNothingStranded(QueueStep(q, ops[0]), ops[1..]);
    }
  }

  /** Without faults every row being processed is the one the loop holds. */
  lemma StepStrandsNothing<T>(q: Queue<T>, op: QueueOp<T>)
    requires Safe(q) && NothingStranded(q) && NoFaults([op])
    ensures NothingStranded(QueueStep(q, op))
  {
    assert op in [op];
  }
}
