/** The order in which a queue is worked, and how it drains. */
module QueueOrder {
  import opened Options
  import opened Envelopes
  import opened Queues

  // --- Bounded overtaking ------------------------------------------------------------------------

  /** Every step happens no earlier than the one before it. */
  predicate MonotoneClock<T>(ops: seq<QueueOp<T>>, start: int)
    decreases |ops|
  {
    ops == [] || (start <= OpTime(ops[0]) && MonotoneClock(ops[1..], OpTime(ops[0])))
  }

  function EndTime<T>(ops: seq<QueueOp<T>>, start: int): int
    decreases |ops|
  {
    if ops == [] then start else EndTime(ops[1..], OpTime(ops[0]))
  }

  /** A waiting row was due at once if never tried, and otherwise sits in the backoff window of a past attempt. */
  ghost predicate WaitsByTheClock<T>(q: Queue<T>, now: int) {
    forall i :: 0 <= i < |q.rows| && q.rows[i].status == Pending ==>
      q.rows[i].nextAttemptAt - (if q.rows[i].attempts == 0 then 0 else Backoff(q.rows[i].attempts)) <= now
  }

  lemma StepWaitsByTheClock<T>(q: Queue<T>, op: QueueOp<T>, now: int)
    requires Safe(q) && WaitsByTheClock(q, now) && now <= OpTime(op)
    ensures WaitsByTheClock(QueueStep(q, op), OpTime(op))
  {
    hide Backoff, ErrorText, CodeName;
  }

  lemma {:induction false} RunWaitsByTheClock<T>(q: Queue<T>, ops: seq<QueueOp<T>>, start: int)
    requires Safe(q) && WaitsByTheClock(q, start) && MonotoneClock(ops, start)
    ensures WaitsByTheClock(QueueRun(q, ops), EndTime(ops, start))
    decreases |ops|
  {
    hide Safe, WaitsByTheClock, QueueStep;
    if ops != [] {
      StepIsSafe(q, ops[0]);
      StepWaitsByTheClock(q, ops[0], start);
      RunWaitsByTheClock(QueueStep(q, ops[0]), ops[1..], OpTime(ops[0]));
    }
  }

  /**
   A job can be overtaken only during its own backoff: if a claim made now takes job `j` while an earlier job `i` is
   waiting, then `i` has been tried before and its window, opened in the past, has not closed yet.
   */
  lemma OvertakingIsBounded<T>(reports: bool, ops: seq<QueueOp<T>>, start: int, at: int, i: nat, j: nat)
    requires MonotoneClock(ops, start) && EndTime(ops, start) <= at
    requires var q := QueueRun(EmptyQueue(reports), ops);
             FirstDue(q.rows, at) == Some(j) && i < j && q.rows[i].status == Pending
    ensures var row := QueueRun(EmptyQueue(reports), ops).rows[i];
            row.attempts > 0 && row.nextAttemptAt - Backoff(row.attempts) <= at < row.nextAttemptAt
  {
    RunWaitsByTheClock(EmptyQueue(reports), ops, start);
    assert !Due(QueueRun(EmptyQueue(reports), ops).rows[i], at);
  }

  // --- First in, first out -----------------------------------------------------------------------

  predicate Retryable(result: SendResult) {
    result.Refused? && result.error.retryable
  }

  ghost predicate NeverRetries<T>(ops: seq<QueueOp<T>>) {
    forall op <- ops :: op.Work? && op.step.Send? ==> !Retryable(op.step.result)
  }

  /** The rows claimed so far are the first ones, in order; the others are all waiting and due. */
  ghost predicate InOrder<T>(q: Queue<T>, now: int) {
    && |q.worker.claims| <= |q.rows|
    && (forall k :: 0 <= k < |q.worker.claims| ==> q.worker.claims[k].id == k)
    && (forall i :: 0 <= i < |q.rows| ==> (q.rows[i].status == Pending <==> |q.worker.claims| <= i))
    && (forall i :: |q.worker.claims| <= i < |q.rows| ==> q.rows[i].nextAttemptAt <= now)
    && (q.worker.pc.Answered? ==> !Retryable(q.worker.pc.result))
  }

  lemma ClaimKeepsOrder<T>(q: Queue<T>, at: int, fate: Fate, now: int)
    requires InOrder(q, now) && now <= at
    ensures InOrder(WorkStep(q, Claim(at, fate)), at)
  {
    var n := |q.worker.claims|;
    if n < |q.rows| {
      assert Due(q.rows[n], at);
      assert FirstDue(q.rows, at) == Some(n);
    }
  }

  lemma StepKeepsOrder<T>(q: Queue<T>, op: QueueOp<T>, now: int)
    requires Safe(q) && InOrder(q, now) && now <= OpTime(op)
    requires op.Work? && op.step.Send? ==> !Retryable(op.step.result)
    ensures InOrder(QueueStep(q, op), OpTime(op))
  {
    match op
    case Insert(items, at) =>
    case Restart(at) =>
    case Work(Claim(at, fate)) => ClaimKeepsOrder(q, at, fate, now);
    case Work(Send(at, result)) =>
    case Work(Settle(at, later, fate)) =>
    case Work(Report(at, fate)) =>
  }

  lemma {:induction false} RunKeepsOrder<T>(q: Queue<T>, ops: seq<QueueOp<T>>, now: int)
    requires Safe(q) && InOrder(q, now) && MonotoneClock(ops, now) && NeverRetries(ops)
    ensures InOrder(QueueRun(q, ops), EndTime(ops, now))
    decreases |ops|
  {
    if ops != [] {
      StepIsSafe(q, ops[0]);
      StepKeepsOrder(q, ops[0], now);
      assert forall op <- ops[1..] :: op in ops;
      RunKeepsOrder(QueueStep(q, ops[0]), ops[1..], OpTime(ops[0]));
    }
  }

  /** Without retries the `k`-th claim takes the `k`-th row ever inserted: claim order is insertion order. */
  lemma ClaimsFollowInsertion<T>(reports: bool, ops: seq<QueueOp<T>>, start: int)
    requires MonotoneClock(ops, start) && NeverRetries(ops)
    ensures var claims := QueueRun(EmptyQueue(reports), ops).worker.claims;
            forall k :: 0 <= k < |claims| ==> claims[k].id == k
  {
    RunKeepsOrder(EmptyQueue(reports), ops, start);
  }

  // --- Draining ----------------------------------------------------------------------------------

  /** The ids of the waiting rows from `from` on, ascending. */
  function WaitingFrom<T>(rows: seq<Job<T>>, from: nat): (ids: seq<nat>)
    requires from <= |rows|
    ensures forall i :: i in ids <==> from <= i < |rows| && rows[i].status == Pending
    ensures forall a, b :: 0 <= a < b < |ids| ==> ids[a] < ids[b]
    decreases |rows| - from
  {
    if from == |rows| then []
    else
      var rest := WaitingFrom(rows, from + 1);
      assert forall b :: 0 <= b < |rest| ==> rest[b] in rest;
      if rows[from].status == Pending then [from] + rest else rest
  }

  function Waiting<T>(rows: seq<Job<T>>): seq<nat> {
    WaitingFrom(rows, 0)
  }

  /** One turn of the loop in which nothing fails. */
  function Turn<T>(at: int, result: SendResult): seq<QueueOp<T>> {
    [Work(Claim(at, Commits)), Work(Send(at, result)), Work(Settle(at, at, Commits)), Work(Report(at, Commits))]
  }

  function TakeTurns<T>(q: Queue<T>, times: seq<int>, results: seq<SendResult>): Queue<T>
    requires |times| == |results|
    decreases |times|
  {
    if times == [] then q else TakeTurns(QueueRun(q, Turn(times[0], results[0])), times[1..], results[1..])
  }

  lemma TurnUnfolds<T>(q: Queue<T>, at: int, result: SendResult)
    ensures QueueRun(q, Turn(at, result)) ==
            WorkStep(WorkStep(WorkStep(WorkStep(q, Claim(at, Commits)), Send(at, result)), Settle(at, at, Commits)),
                     Report(at, Commits))
  {
    var t := Turn<T>(at, result);
    var q1 := QueueStep(q, t[0]);
    var q2 := QueueStep(q1, t[1]);
    var q3 := QueueStep(q2, t[2]);
    assert QueueRun(q, t) == QueueRun(q1, t[1..]);
    assert t[1..][1..] == t[2..] && t[2..][1..] == t[3..] && t[3..][1..] == [];
    assert QueueRun(q1, t[1..]) == QueueRun(q2, t[2..]);
    assert QueueRun(q2, t[2..]) == QueueRun(q3, t[3..]);
    assert QueueRun(q3, t[3..]) == QueueRun(QueueStep(q3, t[3]), []);
  }

  ghost predicate AllDue<T>(q: Queue<T>, now: int) {
    forall i :: 0 <= i < |q.rows| && q.rows[i].status == Pending ==> q.rows[i].nextAttemptAt <= now
  }

  lemma {:induction false} WaitingWithout<T>(rows: seq<Job<T>>, row: Job<T>, id: nat, from: nat)
    requires from <= id < |rows| && row.status != Pending
    requires rows[id].status == Pending && forall i :: from <= i < id ==> rows[i].status != Pending
    ensures WaitingFrom(rows, from) == [id] + WaitingFrom(rows[id := row], from)
    decreases id - from
  {
    if from < id {
      WaitingWithout(rows, row, id, from + 1);
    } else {
      SameWaiting(rows, rows[id := row], from + 1);
    }
  }

  lemma {:induction false} SameWaiting<T>(rows: seq<Job<T>>, other: seq<Job<T>>, from: nat)
    requires |other| == |rows| && from <= |rows| && forall i :: from <= i < |rows| ==> other[i] == rows[i]
    ensures WaitingFrom(other, from) == WaitingFrom(rows, from)
    decreases |rows| - from
  {
    if from < |rows| {
      SameWaiting(rows, other, from + 1);
    }
  }

  /**
   What `n` turns achieve from `q`: the first `n` waiting jobs have been claimed and sent once each, in ascending id,
   and end as their sends decided; the other rows are as they were and exactly the later waiting jobs still wait.
   */
  ghost predicate Drained<T>(q: Queue<T>, times: seq<int>, results: seq<SendResult>, r: Queue<T>)
    requires |times| == |results| <= |Waiting(q.rows)|
  {
    && r.worker.pc.Idle? && |r.rows| == |q.rows|
    && Waiting(r.rows) == Waiting(q.rows)[|times|..]
    && DrainedLog(Waiting(q.rows)[..|times|], times, results, q.worker, r.worker)
    && DrainedRows(Waiting(q.rows)[..|times|], results, q.rows, r.rows)
  }

  ghost predicate DrainedLog<T>(ids: seq<nat>, times: seq<int>, results: seq<SendResult>, was: Worker<T>,
                                post: Worker<T>)
    requires |ids| == |times| == |results|
  {
    && post.claims == was.claims + seq(|ids|, k requires 0 <= k < |ids| => ClaimRecord(ids[k], times[k]))
    && post.sends == was.sends + seq(|ids|, k requires 0 <= k < |ids| => SendRecord(ids[k], times[k], results[k]))
  }

  ghost predicate DrainedRows<T>(ids: seq<nat>, results: seq<SendResult>, was: seq<Job<T>>, post: seq<Job<T>>)
    requires |ids| == |results|
  {
    && |post| == |was|
    && (forall k :: 0 <= k < |ids| ==> ids[k] < |was| && post[ids[k]].status == SettledStatus(results[k]))
    && (forall i: nat :: i < |was| && i !in ids ==> post[i] == was[i])
  }

  /** A turn with something due and a final answer: the row it changes, and what it logs. */
  lemma TurnSettles<T>(q: Queue<T>, at: int, result: SendResult, i: nat)
    requires q.worker.pc.Idle? && FirstDue(q.rows, at) == Some(i) && !Retryable(result)
    ensures var r := QueueRun(q, Turn(at, result));
            && r.worker.pc.Idle? && i < |q.rows| == |r.rows| && r.rows == q.rows[i := r.rows[i]]
            && r.rows[i].status == SettledStatus(result)
            && r.worker.claims == q.worker.claims + [ClaimRecord(i, at)]
            && r.worker.sends == q.worker.sends + [SendRecord(i, at, result)]
  {
    hide FirstDue, QueueRun, ErrorText, CodeName;
    TurnUnfolds(q, at, result);
  }

  lemma FirstWaitingIsFirstDue<T>(q: Queue<T>, at: int)
    requires AllDue(q, at) && Waiting(q.rows) != []
    ensures FirstDue(q.rows, at) == Some(Waiting(q.rows)[0])
  {
    var ids := Waiting(q.rows);
    assert ids[0] in ids;
    assert Due(q.rows[ids[0]], at);
    var first := FirstDue(q.rows, at).value;
    assert first in ids;
  }

  /** A turn takes the first waiting row and settles it for good. */
  lemma TurnTakesTheFirst<T>(q: Queue<T>, at: int, result: SendResult)
    requires q.worker.pc.Idle? && AllDue(q, at) && !Retryable(result) && Waiting(q.rows) != []
    ensures Drained(q, [at], [result], QueueRun(q, Turn(at, result)))
  {
    hide FirstDue, QueueRun, AllDue;
    var ids := Waiting(q.rows);
    FirstWaitingIsFirstDue(q, at);
    TurnSettles(q, at, result, ids[0]);
    var r := QueueRun(q, Turn(at, result));
    WaitingWithout(q.rows, r.rows[ids[0]], ids[0], 0);
  }

  lemma OneMoreLog<T>(ids: seq<nat>, times: seq<int>, results: seq<SendResult>, was: Worker<T>, mid: Worker<T>,
                      post: Worker<T>)
    requires 0 < |ids| == |times| == |results|
    requires DrainedLog(ids[..1], times[..1], results[..1], was, mid) &&
             DrainedLog(ids[1..], times[1..], results[1..], mid, post)
    ensures DrainedLog(ids, times, results, was, post)
  {
    assert ids == ids[..1] + ids[1..];
  }

  lemma OneMoreRow<T>(ids: seq<nat>, results: seq<SendResult>, was: seq<Job<T>>, mid: seq<Job<T>>, post: seq<Job<T>>)
    requires 0 < |ids| == |results| && ids[0] !in ids[1..]
    requires DrainedRows(ids[..1], results[..1], was, mid) && DrainedRows(ids[1..], results[1..], mid, post)
    ensures DrainedRows(ids, results, was, post)
  {
    forall k | 0 <= k < |ids|
      ensures ids[k] < |was| && post[ids[k]].status == SettledStatus(results[k])
    {
      if k > 0 {
        assert ids[1..][k - 1] == ids[k];
      } else {
        assert ids[..1][0] == ids[0];
      }
    }
    assert forall i :: i !in ids ==> i !in ids[..1] && i !in ids[1..];
  }

  lemma OneMoreTurn<T>(q: Queue<T>, m: Queue<T>, times: seq<int>, results: seq<SendResult>, r: Queue<T>)
    requires 0 < |times| == |results| <= |Waiting(q.rows)|
    requires Drained(q, times[..1], results[..1], m)
    requires Drained(m, times[1..], results[1..], r)
    ensures Drained(q, times, results, r)
  {
    var all, n := Waiting(q.rows), |times|;
    var ids := all[..n];
    assert all[1..][..n - 1] == ids[1..] && all[..1] == ids[..1];
    assert all[1..][n - 1..] == all[n..];
    OneMoreLog(ids, times, results, q.worker, m.worker, r.worker);
    OneMoreRow(ids, results, q.rows, m.rows, r.rows);
  }

  lemma StillAllDue<T>(q: Queue<T>, at: int, result: SendResult, m: Queue<T>, now: int)
    requires AllDue(q, now) && Waiting(q.rows) != [] && Drained(q, [at], [result], m)
    ensures AllDue(m, now)
  {
    var ids := Waiting(q.rows);
    forall i | 0 <= i < |m.rows| && m.rows[i].status == Pending
      ensures m.rows[i].nextAttemptAt <= now
    {
      assert i in Waiting(m.rows);
      assert i !in ids[..1];
    }
  }

  /**
   Draining. With no new rows, no faults and only successful or terminal sends, a queue whose waiting jobs are all
   due is emptied by exactly as many turns as it has waiting jobs: every turn takes one job and none is left over.
   */
  lemma {:induction false} QueueDrains<T>(q: Queue<T>, times: seq<int>, results: seq<SendResult>, now: int)
    requires q.worker.pc.Idle? && AllDue(q, now)
    requires |times| == |results| <= |Waiting(q.rows)|
    requires forall t <- times :: now <= t
    requires forall r <- results :: !Retryable(r)
    ensures Drained(q, times, results, TakeTurns(q, times, results))
    decreases |times|
  {
    if times != [] {
      assert times[0] in times && results[0] in results;
      TurnTakesTheFirst(q, times[0], results[0]);
      assert times[..1] == [times[0]] && results[..1] == [results[0]];
      var m := QueueRun(q, Turn(times[0], results[0]));
      StillAllDue(q, times[0], results[0], m, now);
      assert forall t <- times[1..] :: t in times;
      assert forall r <- results[1..] :: r in results;
      QueueDrains(m, times[1..], results[1..], now);
      OneMoreTurn(q, m, times, results, TakeTurns(m, times[1..], results[1..]));
    }
  }
}
