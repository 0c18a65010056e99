/**
 Sends follow claims: each claim is sent at most once, sends are paced like claims, both bounds are attained, and no job
 is accepted twice.
 */
module QueueSends {
  import opened Options
  import opened Envelopes
  import opened Queues
  import opened QueueRuns

  function CountSends(sends: seq<SendRecord>, id: nat): nat {
    if sends == [] then 0 else CountSends(sends[..|sends| - 1], id) + (if sends[|sends| - 1].id == id then 1 else 0)
  }

  lemma CountSendsPush(sends: seq<SendRecord>, r: SendRecord, id: nat)
    ensures CountSends(sends + [r], id) == CountSends(sends, id) + (if r.id == id then 1 else 0)
  {
    assert (sends + [r])[..|sends|] == sends;
  }

  // --- One send a claim --------------------------------------------------------------------------

  /** The loop holds job `id` and has yet to send it. */
  predicate AboutToSend<T>(q: Queue<T>, id: nat) {
    q.worker.pc.Claimed? && q.worker.pc.job.id == id
  }

  /** The sends of each job, and the one that is about to happen, are covered by its claims. */
  ghost predicate Covered<T>(q: Queue<T>) {
    forall id: nat ::
      CountSends(q.worker.sends, id) + (if AboutToSend(q, id) then 1 else 0) <= CountClaims(q.worker.claims, id)
  }

  lemma StepKeepsCovered<T>(q: Queue<T>, op: QueueOp<T>)
    requires Covered(q)
    ensures Covered(QueueStep(q, op))
  {
    hide Backoff, CountSends, CountClaims;
    var r := QueueStep(q, op);
    forall id: nat
      ensures CountSends(r.worker.sends, id) + (if AboutToSend(r, id) then 1 else 0) <= CountClaims(r.worker.claims, id)
    {
      assert CountSends(q.worker.sends, id) + (if AboutToSend(q, id) then 1 else 0) <= CountClaims(q.worker.claims, id);
      if op.Work? && op.step.Claim? && r.worker.claims != q.worker.claims {
        CountClaimsPush(q.worker.claims, r.worker.claims[|q.worker.claims|], id);
      }
      if op.Work? && op.step.Send? && r.worker.sends != q.worker.sends {
        CountSendsPush(q.worker.sends, r.worker.sends[|q.worker.sends|], id);
      }
    }
  }

  lemma {:induction false} RunKeepsCovered<T>(q: Queue<T>, ops: seq<QueueOp<T>>)
    requires Covered(q)
    ensures Covered(QueueRun(q, ops))
    decreases |ops|
  {
    hide QueueStep, Covered;
    if ops != [] {
      StepKeepsCovered(q, ops[0]);
      RunKeepsCovered(QueueStep(q, ops[0]), ops[1..]);
    }
  }

  /** Over every run a job is sent at most once for each time it was claimed. */
  lemma SendsNeverExceedClaims<T>(reports: bool, ops: seq<QueueOp<T>>, id: nat)
    ensures var q := QueueRun(EmptyQueue(reports), ops);
            CountSends(q.worker.sends, id) + (if AboutToSend(q, id) then 1 else 0) <= CountClaims(q.worker.claims, id)
  {
    RunKeepsCovered(EmptyQueue(reports), ops);
  }

  // --- Pacing ------------------------------------------------------------------------------------

  /** The readings a loop takes never step back behind its last claim or settling, those for its sends included. */
  predicate SteadySender<T>(ops: seq<QueueOp<T>>, last: int)
    decreases |ops|
  {
    ops == [] ||
    match ops[0]
    case Work(Claim(at, fate)) => last <= at && SteadySender(ops[1..], at)
    case Work(Settle(at, later, fate)) => last <= at && SteadySender(ops[1..], at)
    case Work(Send(at, result)) => last <= at && SteadySender(ops[1..], last)
    case Insert(items, at) => SteadySender(ops[1..], last)
    case Work(Report(at, fate)) => SteadySender(ops[1..], last)
    case Restart(at) => SteadySender(ops[1..], last)
  }

  /** The `p`-th send respects the wait due before it. */
  ghost predicate SendPaced<T>(q: Queue<T>, p: nat)
    requires p < |q.worker.sends|
  {
    var r := q.worker.sends[p];
    r.id < |q.rows| && q.rows[r.id].createdAt + Wait(CountSends(q.worker.sends[..p + 1], r.id)) <= r.at
  }

  ghost predicate SendsPaced<T>(q: Queue<T>) {
    forall p :: 0 <= p < |q.worker.sends| ==> SendPaced(q, p)
  }

  lemma {:induction false} WaitIsMonotone(j: nat, k: nat)
    requires j <= k
    ensures Wait(j) <= Wait(k)
    decreases k
  {
    if j < k {
      WaitIsMonotone(j, k - 1);
      BackoffIsPositive(k - 1);
    }
  }

  lemma BackoffIsPositive(attempt: int)
    ensures Backoff(attempt) >= 0
  {
  }

  /** A send comes no earlier than its claim, which has waited at least as long. */
  lemma SendKeepsPace<T>(q: Queue<T>, at: int, result: SendResult, last: int)
    requires Safe(q) && Paced(q, last) && Covered(q) && SendsPaced(q) && last <= at
    ensures SendsPaced(WorkStep(q, Send(at, result)))
  {
    hide Wait, CountClaims;
    var r := WorkStep(q, Send(at, result));
    forall p | 0 <= p < |r.worker.sends|
      ensures SendPaced(r, p)
    {
      if p < |q.worker.sends| {
        assert SendPaced(q, p);
        assert r.worker.sends[..p + 1] == q.worker.sends[..p + 1];
      } else {
        var id := q.worker.pc.job.id;
        assert r.worker.sends[..p + 1] == q.worker.sends + [SendRecord(id, at, result)];
        CountSendsPush(q.worker.sends, SendRecord(id, at, result), id);
        assert AboutToSend(q, id);
        WaitIsMonotone(CountSends(q.worker.sends, id) + 1, q.worker.pc.job.attempts);
      }
    }
  }

  lemma OtherStepsKeepSends<T>(q: Queue<T>, op: QueueOp<T>)
    requires Safe(q) && SendsPaced(q) && !(op.Work? && op.step.Send?)
    ensures SendsPaced(QueueStep(q, op))
  {
    hide Wait, CountSends, Backoff;
    var r := QueueStep(q, op);
    assert Extends(q, r) by { StepIsSafe(q, op); }
    forall p | 0 <= p < |r.worker.sends|
      ensures SendPaced(r, p)
    {
      assert SendPaced(q, p);
    }
  }

  lemma {:induction false} RunKeepsSendsPaced<T>(q: Queue<T>, ops: seq<QueueOp<T>>, last: int)
    requires Safe(q) && Paced(q, last) && Covered(q) && SendsPaced(q) && SteadySender(ops, last)
    ensures SendsPaced(QueueRun(q, ops))
    decreases |ops|
  {
    hide Safe, Paced, Covered, SendsPaced, QueueStep;
    if ops != [] {
      var r := QueueStep(q, ops[0]);
      StepIsSafe(q, ops[0]);
      StepKeepsCovered(q, ops[0]);
      if ops[0].Work? && ops[0].step.Send? {
        SendKeepsPace(q, ops[0].step.at, ops[0].step.result, last);
        assert r == WorkStep(q, ops[0].step) by { WorkIsAStep(q, ops[0].step); }
      } else {
        OtherStepsKeepSends(q, ops[0]);
      }
      StepKeepsPace(q, ops[0], last);
      RunKeepsSendsPaced(r, ops[1..], NextReading(ops[0], last));
    }
  }

  lemma WorkIsAStep<T>(q: Queue<T>, step: WorkerStep)
    ensures QueueStep(q, Work(step)) == WorkStep(q, step)
  {
  }

  /** The retry rate bound for sends: the `k`-th send of a job comes no earlier than `Wait(k)` after its creation. */
  lemma SendRateBound<T>(reports: bool, ops: seq<QueueOp<T>>, start: int, p: nat)
    requires SteadySender(ops, start)
    requires p < |QueueRun(EmptyQueue(reports), ops).worker.sends|
    ensures SendPaced(QueueRun(EmptyQueue(reports), ops), p)
  {
    RunKeepsSendsPaced(EmptyQueue(reports), ops, start);
  }

  /** Sends of job `id` begun at time `t` or before. */
  function SendsBy(sends: seq<SendRecord>, id: nat, t: int): nat {
    if sends == [] then 0
    else
      var r := sends[|sends| - 1];
      SendsBy(sends[..|sends| - 1], id, t) + (if r.id == id && r.at <= t then 1 else 0)
  }

  lemma {:induction false} SendsByIsPartOfCount(sends: seq<SendRecord>, id: nat, t: int)
    ensures SendsBy(sends, id, t) <= CountSends(sends, id)
  {
    if sends != [] {
      SendsByIsPartOfCount(sends[..|sends| - 1], id, t);
    }
  }

  lemma {:induction false} SendsByPrefix<T>(q: Queue<T>, n: nat, id: nat, t: int)
    requires n <= |q.worker.sends| && id < |q.rows| && q.rows[id].createdAt <= t && SendsPaced(q)
    ensures SendsBy(q.worker.sends[..n], id, t) <= ClaimCap(t - q.rows[id].createdAt)
  {
    if n > 0 {
      var sends := q.worker.sends[..n];
      assert sends[..n - 1] == q.worker.sends[..n - 1];
      var r := q.worker.sends[n - 1];
      if r.id == id && r.at <= t {
        assert SendPaced(q, n - 1);
        SendsByIsPartOfCount(sends, id, t);
        ClaimCapIsExact(CountSends(sends, id), t - q.rows[id].createdAt);
      } else {
        SendsByPrefix(q, n - 1, id, t);
      }
    }
  }

  /** A closed-form cap on how often a job has been sent by time `t`. */
  lemma SendsAreCapped<T>(reports: bool, ops: seq<QueueOp<T>>, start: int, id: nat, t: int)
    requires SteadySender(ops, start)
    requires var q := QueueRun(EmptyQueue(reports), ops); id < |q.rows| && q.rows[id].createdAt <= t
    ensures var q := QueueRun(EmptyQueue(reports), ops);
            SendsBy(q.worker.sends, id, t) <= ClaimCap(t - q.rows[id].createdAt)
  {
    var q := QueueRun(EmptyQueue(reports), ops);
    RunKeepsSendsPaced(EmptyQueue(reports), ops, start);
    SendsByPrefix(q, |q.worker.sends|, id, t);
    assert q.worker.sends[..|q.worker.sends|] == q.worker.sends;
  }

  // --- The cap is attained -----------------------------------------------------------------------

  const BUSY := BridgeError(PlatformUnavailable, "", true, None)

  /** One attempt that is refused for the time being. */
  function RefusedAttempt<T>(at: int): seq<QueueOp<T>> {
    [Work(Claim(at, Commits)), Work(Send(at, Refused(BUSY))), Work(Settle(at, at, Commits))]
  }

  /** Attempts `m + 1` to `n` at a job created at time `t0`, each as early as its backoff allows. */
  function Attempts<T>(t0: int, m: nat, n: nat): seq<QueueOp<T>>
    requires m <= n
    decreases n - m
  {
    if m == n then [] else RefusedAttempt(t0 + Wait(m + 1)) + Attempts(t0, m + 1, n)
  }

  /** The single job has been tried `m` times, each time as early as may be, and waits for the next attempt. */
  ghost predicate TriedTimes<T>(q: Queue<T>, t0: int, m: nat) {
    && q.worker.pc.Idle? && |q.rows| == 1
    && q.rows[0].status == Pending && q.rows[0].attempts == m
    && q.rows[0].createdAt == t0 && q.rows[0].nextAttemptAt == t0 + Wait(m + 1)
    && |q.worker.claims| == |q.worker.sends| == m
    && (forall p :: 0 <= p < m ==> q.worker.claims[p] == ClaimRecord(0, t0 + Wait(p + 1)))
    && (forall p :: 0 <= p < m ==> q.worker.sends[p] == SendRecord(0, t0 + Wait(p + 1), Refused(BUSY)))
  }

  lemma AttemptUnfolds<T>(q: Queue<T>, at: int, rest: seq<QueueOp<T>>)
    ensures QueueRun(q, RefusedAttempt(at) + rest) ==
            QueueRun(WorkStep(WorkStep(WorkStep(q, Claim(at, Commits)), Send(at, Refused(BUSY))),
                              Settle(at, at, Commits)), rest)
  {
    hide WorkStep;
    var ops := RefusedAttempt<T>(at) + rest;
    var q1 := QueueStep(q, ops[0]);
    var q2 := QueueStep(q1, ops[1]);
    assert ops[1..][1..] == ops[2..] && ops[2..][1..] == rest;
    assert QueueRun(q, ops) == QueueRun(q1, ops[1..]);
    assert QueueRun(q1, ops[1..]) == QueueRun(q2, ops[2..]);
  }

  lemma OneMoreAttempt<T>(q: Queue<T>, t0: int, m: nat)
    requires TriedTimes(q, t0, m)
    ensures var at := t0 + Wait(m + 1);
            TriedTimes(WorkStep(WorkStep(WorkStep(q, Claim(at, Commits)), Send(at, Refused(BUSY))),
                                Settle(at, at, Commits)), t0, m + 1)
  {
    hide Backoff, ErrorText, CodeName;
    assert Due(q.rows[0], t0 + Wait(m + 1));
    assert FirstDue(q.rows, t0 + Wait(m + 1)) == Some(0);
  }

  lemma {:induction false} AttemptsAreMade<T>(q: Queue<T>, t0: int, m: nat, n: nat)
    requires m <= n && TriedTimes(q, t0, m)
    ensures TriedTimes(QueueRun(q, Attempts(t0, m, n)), t0, n)
    decreases n - m
  {
    hide TriedTimes, WorkStep, Wait;
    if m < n {
      OneMoreAttempt(q, t0, m);
      AttemptUnfolds(q, t0 + Wait(m + 1), Attempts(t0, m + 1, n));
      var at := t0 + Wait(m + 1);
      var r := WorkStep(WorkStep(WorkStep(q, Claim(at, Commits)), Send(at, Refused(BUSY))), Settle(at, at, Commits));
      AttemptsAreMade(r, t0, m + 1, n);
    }
  }

  lemma {:induction false} AttemptsAreSteady<T>(t0: int, m: nat, n: nat, last: int)
    requires m <= n && last <= t0 + Wait(m + 1)
    ensures SteadySender<T>(Attempts(t0, m, n), last)
    decreases n - m
  {
    hide Wait;
    if m < n {
      var at := t0 + Wait(m + 1);
      var rest := Attempts<T>(t0, m + 1, n);
      var ops := RefusedAttempt<T>(at) + rest;
      WaitIsMonotone(m + 1, m + 2);
      AttemptsAreSteady<T>(t0, m + 1, n, at);
      assert ops[1..][1..] == ops[2..] && ops[2..][1..] == rest;
      assert SteadySender(ops[2..], at) && SteadySender(ops[1..], at);
    }
  }

  /** The run in which a job created at time `t0` is refused `n` times, and tried again each time as soon as may be. */
  function RefusedRun<T>(item: T, t0: int, n: nat): seq<QueueOp<T>> {
    [Insert([item], t0)] + Attempts(t0, 0, n)
  }

  lemma RefusedRunTries<T>(reports: bool, item: T, t0: int, n: nat)
    ensures SteadySender(RefusedRun(item, t0, n), t0)
    ensures TriedTimes(QueueRun(EmptyQueue(reports), RefusedRun(item, t0, n)), t0, n)
  {
    var ops := RefusedRun(item, t0, n);
    assert ops[1..] == Attempts(t0, 0, n);
    AttemptsAreSteady<T>(t0, 0, n, t0);
    AttemptsAreMade(QueueStep(EmptyQueue(reports), ops[0]), t0, 0, n);
  }

  lemma {:induction false} AllByThen(claims: seq<ClaimRecord>, sends: seq<SendRecord>, t: int)
    requires |claims| == |sends|
    requires forall c <- claims :: c.id == 0 && c.at <= t
    requires forall r <- sends :: r.id == 0 && r.at <= t
    ensures ClaimsBy(claims, 0, t) == |claims| && SendsBy(sends, 0, t) == |sends|
  {
    if claims != [] {
      var n := |claims| - 1;
      assert claims[n] in claims && sends[n] in sends;
      AllByThen(claims[..n], sends[..n], t);
    }
  }

  /**
   The bounds are tight. A job that is refused whenever it is tried is claimed, and sent, for the `k`-th time exactly
   `Wait(k)` after its creation, and in its first `d` milliseconds exactly as often as the cap allows.
   */
  lemma CapIsAttained<T>(reports: bool, item: T, t0: int, k: nat, d: nat)
    requires k >= 1
    ensures SteadySender(RefusedRun(item, t0, k), t0)
    ensures var q := QueueRun(EmptyQueue(reports), RefusedRun(item, t0, k));
            && |q.worker.claims| == |q.worker.sends| == k
            && q.worker.claims[k - 1] == ClaimRecord(0, t0 + Wait(k))
            && q.worker.sends[k - 1] == SendRecord(0, t0 + Wait(k), Refused(BUSY))
    ensures var q := QueueRun(EmptyQueue(reports), RefusedRun(item, t0, ClaimCap(d)));
            |q.rows| == 1 && q.rows[0].createdAt == t0 &&
            ClaimsBy(q.worker.claims, 0, t0 + d) == ClaimCap(d) && SendsBy(q.worker.sends, 0, t0 + d) == ClaimCap(d)
  {
    hide Wait, ClaimCap, QueueRun, SteadySender, RefusedRun;
    RefusedRunTries(reports, item, t0, k);
    RefusedRunTries(reports, item, t0, ClaimCap(d));
    var q := QueueRun(EmptyQueue(reports), RefusedRun(item, t0, ClaimCap(d)));
    forall p | 1 <= p <= ClaimCap(d) ensures Wait(p) <= d { ClaimCapIsExact(p, d); }
    AllByThen(q.worker.claims, q.worker.sends, t0 + d);
  }

  // --- Accepted at most once ---------------------------------------------------------------------

  function CountAccepted(sends: seq<SendRecord>, id: nat): nat {
    if sends == [] then 0
    else
      var r := sends[|sends| - 1];
      CountAccepted(sends[..|sends| - 1], id) + (if r.id == id && r.result.Sent? then 1 else 0)
  }

  lemma CountAcceptedPush(sends: seq<SendRecord>, r: SendRecord, id: nat)
    ensures CountAccepted(sends + [r], id) == CountAccepted(sends, id) + (if r.id == id && r.result.Sent? then 1 else 0)
  {
    assert (sends + [r])[..|sends|] == sends;
  }

  /** Job `id` is out of the way of another send: delivered, or stranded, or held with the good news. */
  predicate Through<T>(q: Queue<T>, id: nat) {
    && id < |q.rows| && q.rows[id].status in {Delivered, Processing}
    && (Holds(q, id) ==> q.worker.pc.Answered? && q.worker.pc.result.Sent?)
  }

  ghost predicate AcceptedOnce<T>(q: Queue<T>) {
    forall id: nat ::
      var n := CountAccepted(q.worker.sends, id); n == 0 || (n == 1 && Through(q, id))
  }

  lemma ThroughStays<T>(q: Queue<T>, op: QueueOp<T>, id: nat)
    requires Safe(q) && Through(q, id)
    ensures Through(QueueStep(q, op), id)
  {
    hide Backoff, ErrorText, CodeName, CountClaims;
  }

  lemma NothingMoreIsAccepted<T>(q: Queue<T>, op: QueueOp<T>, id: nat)
    requires Through(q, id)
    ensures CountAccepted(QueueStep(q, op).worker.sends, id) == CountAccepted(q.worker.sends, id)
  {
    hide Backoff, ErrorText, CodeName, CountAccepted;
    var r := QueueStep(q, op);
    if r.worker.sends != q.worker.sends {
      CountAcceptedPush(q.worker.sends, r.worker.sends[|q.worker.sends|], id);
    }
  }

  lemma StepKeepsAcceptedOnce<T>(q: Queue<T>, op: QueueOp<T>)
    requires Safe(q) && AcceptedOnce(q)
    ensures AcceptedOnce(QueueStep(q, op))
  {
    hide Backoff, CountAccepted;
    var r := QueueStep(q, op);
    forall id: nat
      ensures var n := CountAccepted(r.worker.sends, id); n == 0 || (n == 1 && Through(r, id))
    {
      var n := CountAccepted(q.worker.sends, id);
      assert n == 0 || (n == 1 && Through(q, id));
      if n == 1 {
        ThroughStays(q, op, id);
        NothingMoreIsAccepted(q, op, id);
      } else if r.worker.sends != q.worker.sends {
        CountAcceptedPush(q.worker.sends, r.worker.sends[|q.worker.sends|], id);
      }
    }
  }

  lemma {:induction false} RunKeepsAcceptedOnce<T>(q: Queue<T>, ops: seq<QueueOp<T>>)
    requires Safe(q) && AcceptedOnce(q)
    ensures AcceptedOnce(QueueRun(q, ops))
    decreases |ops|
  {
    hide Safe, AcceptedOnce, QueueStep;
    if ops != [] {
      StepIsSafe(q, ops[0]);
      StepKeepsAcceptedOnce(q, ops[0]);
      RunKeepsAcceptedOnce(QueueStep(q, ops[0]), ops[1..]);
    }
  }

  /**
   No job is accepted twice: over every run, with failing writes and restarts, at most one send of a job was answered
   with success, and then the job never goes out again.
   */
  lemma AcceptedAtMostOnce<T>(reports: bool, ops: seq<QueueOp<T>>, id: nat)
    ensures var q := QueueRun(EmptyQueue(reports), ops);
            CountAccepted(q.worker.sends, id) <= 1 && (CountAccepted(q.worker.sends, id) == 1 ==> Through(q, id))
  {
    RunKeepsAcceptedOnce(EmptyQueue(reports), ops);
  }
}
