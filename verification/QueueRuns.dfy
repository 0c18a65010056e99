/** What holds of either queue over whole runs: finality, and the pacing of claims by the backoff. */
module QueueRuns {
  import opened Queues

  // --- Finality ----------------------------------------------------------------------------------

  /**
   Although no update looks at the status it overwrites, a delivered or failed row never changes again, and every
   row's attempt count is the number of claims committed for it: over all runs, with failing writes and restarts.
   */
  lemma FinalRowsAreFinal<T>(reports: bool, before: seq<QueueOp<T>>, after: seq<QueueOp<T>>, i: nat)
    requires i < |QueueRun(EmptyQueue(reports), before).rows|
    ensures var q := QueueRun(EmptyQueue(reports), before);
            var r := QueueRun(q, after);
            && i < |r.rows|
            && r.rows[i].attempts == CountClaims(r.worker.claims, i)
            && (Final(q.rows[i]) ==> r.rows[i] == q.rows[i])
  {
    RunIsSafe(EmptyQueue(reports), before);
    RunIsSafe(QueueRun(EmptyQueue(reports), before), after);
  }

  // --- Pacing of retries -------------------------------------------------------------------------

  /** The least time between a job's creation and its `k`-th claim. */
  function Wait(k: nat): int {
    if k <= 1 then 0 else Wait(k - 1) + Backoff(k - 1)
  }

  lemma {:induction false} WaitClosedForm(k: nat)
    requires k >= 1
    ensures Wait(k) == if k <= 7 then 1000 * (Shift(k - 1) - 1) else 1000 * (63 + 32 * (k - 7))
  {
    assert Shift(5) == 32 && Shift(6) == 64;
    if k > 1 {
      WaitClosedForm(k - 1);
    }
  }

  /** How many claims fit into the first `d` milliseconds of a job's life. */
  function ClaimCap(d: nat): nat {
    if d >= 63000 then 7 + (d - 63000) / 32000
    else if d >= 31000 then 6
    else if d >= 15000 then 5
    else if d >= 7000 then 4
    else if d >= 3000 then 3
    else if d >= 1000 then 2
    else 1
  }

  /** The cap inverts the wait: `Wait(k)` is within `d` milliseconds if and only if `k` is within the cap. */
  lemma ClaimCapIsExact(k: nat, d: nat)
    requires k >= 1
    ensures Wait(k) <= d <==> k <= ClaimCap(d)
  {
    WaitClosedForm(k);
    assert Shift(0) == 1 && Shift(1) == 2 && Shift(2) == 4 && Shift(3) == 8 && Shift(4) == 16 && Shift(5) == 32 &&
           Shift(6) == 64;
  }

  /** The readings the loop itself takes, when it claims and when it settles, never step back. */
  predicate SteadyLoop<T>(ops: seq<QueueOp<T>>, last: int)
    decreases |ops|
  {
    ops == [] ||
    match ops[0]
    case Work(Claim(at, fate)) => last <= at && SteadyLoop(ops[1..], at)
    case Work(Settle(at, later, fate)) => last <= at && SteadyLoop(ops[1..], at)
    case Insert(items, at) => SteadyLoop(ops[1..], last)
    case Work(Send(at, result)) => SteadyLoop(ops[1..], last)
    case Work(Report(at, fate)) => SteadyLoop(ops[1..], last)
    case Restart(at) => SteadyLoop(ops[1..], last)
  }

  /** The `p`-th claim respects the wait due before it. */
  ghost predicate ClaimPaced<T>(q: Queue<T>, p: nat)
    requires p < |q.worker.claims|
  {
    var c := q.worker.claims[p];
    c.id < |q.rows| && q.rows[c.id].createdAt + Wait(CountClaims(q.worker.claims[..p + 1], c.id)) <= c.at
  }

  ghost predicate Paced<T>(q: Queue<T>, last: int) {
    && (forall i :: 0 <= i < |q.rows| && q.rows[i].status == Pending ==>
          q.rows[i].createdAt + Wait(q.rows[i].attempts + 1) <= q.rows[i].nextAttemptAt)
    && (var pc := q.worker.pc;
        !pc.Idle? && pc.job.id < |q.rows| ==>
          q.rows[pc.job.id].createdAt + Wait(pc.job.attempts) <= pc.job.claimedAt <= last)
    && (forall p :: 0 <= p < |q.worker.claims| ==> ClaimPaced(q, p))
  }

  lemma ClaimKeepsPace<T>(q: Queue<T>, at: int, fate: Fate, last: int)
    requires Safe(q) && Paced(q, last) && last <= at
    ensures Paced(WorkStep(q, Claim(at, fate)), at)
  {
    hide CountClaims, Wait, Backoff;
    var r := WorkStep(q, Claim(at, fate));
    if q.worker.pc.Idle? && !fate.Fails? && FirstDue(q.rows, at).Some? {
      var id := FirstDue(q.rows, at).value;
      forall p | 0 <= p < |r.worker.claims|
        ensures ClaimPaced(r, p)
      {
        if p < |q.worker.claims| {
          assert ClaimPaced(q, p);
          assert r.worker.claims[..p + 1] == q.worker.claims[..p + 1];
        } else {
          assert r.worker.claims[..p + 1] == q.worker.claims + [ClaimRecord(id, at)];
          CountClaimsPush(q.worker.claims, ClaimRecord(id, at), id);
        }
      }
    }
  }

  lemma SettleKeepsPace<T>(q: Queue<T>, at: int, later: int, fate: Fate, last: int)
    requires Safe(q) && Paced(q, last) && last <= at
    ensures Paced(WorkStep(q, Settle(at, later, fate)), at)
  {
    var r := WorkStep(q, Settle(at, later, fate));
    forall p | 0 <= p < |r.worker.claims|
      ensures ClaimPaced(r, p)
    {
      assert ClaimPaced(q, p);
    }
  }

  lemma InsertKeepsPace<T>(q: Queue<T>, items: seq<T>, at: int, last: int)
    requires Safe(q) && Paced(q, last)
    ensures Paced(QueueStep(q, Insert(items, at)), last)
  {
    var r := QueueStep(q, Insert(items, at));
    forall p | 0 <= p < |r.worker.claims|
      ensures ClaimPaced(r, p)
    {
      assert ClaimPaced(q, p);
    }
  }

  lemma OtherStepsKeepPace<T>(q: Queue<T>, op: QueueOp<T>, last: int)
    requires Safe(q) && Paced(q, last)
    requires op.Restart? || (op.Work? && (op.step.Send? || op.step.Report?))
    ensures Paced(QueueStep(q, op), last)
  {
    var r := QueueStep(q, op);
    forall p | 0 <= p < |r.worker.claims|
      ensures ClaimPaced(r, p)
    {
      assert ClaimPaced(q, p);
    }
  }

  /** The loop's last reading after a step. */
  function NextReading<T>(op: QueueOp<T>, last: int): int {
    if op.Work? && (op.step.Claim? || op.step.Settle?) then op.step.at else last
  }

  lemma StepKeepsPace<T>(q: Queue<T>, op: QueueOp<T>, last: int)
    requires Safe(q) && Paced(q, last) && last <= NextReading(op, last)
    ensures Paced(QueueStep(q, op), NextReading(op, last))
  {
    hide Paced, Safe;
    match op {
      case Work(Claim(at, fate)) => ClaimKeepsPace(q, at, fate, last);
      case Work(Settle(at, later, fate)) => SettleKeepsPace(q, at, later, fate, last);
      case Insert(items, at) => InsertKeepsPace(q, items, at, last);
      case Work(Send(at, result)) => OtherStepsKeepPace(q, op, last);
      case Work(Report(at, fate)) => OtherStepsKeepPace(q, op, last);
      case Restart(at) => OtherStepsKeepPace(q, op, last);
    }
  }

  lemma {:induction false} RunKeepsPace<T>(q: Queue<T>, ops: seq<QueueOp<T>>, last: int) returns (end: int)
    requires Safe(q) && Paced(q, last) && SteadyLoop(ops, last)
    ensures Paced(QueueRun(q, ops), end)
    decreases |ops|
  {
    hide Paced, Safe, QueueStep;
    if ops == [] {
      return last;
    }
    StepIsSafe(q, ops[0]);
    StepKeepsPace(q, ops[0], last);
    end := RunKeepsPace(QueueStep(q, ops[0]), ops[1..], NextReading(ops[0], last));
  }

  /**
   The retry rate bound. If the loop's own clock never steps back then, over every run, the `k`-th claim of a job
   comes no earlier than `Wait(k)` after its creation.
   */
  lemma RetryRateBound<T>(reports: bool, ops: seq<QueueOp<T>>, start: int, p: nat)
    requires SteadyLoop(ops, start)
    requires p < |QueueRun(EmptyQueue(reports), ops).worker.claims|
    ensures ClaimPaced(QueueRun(EmptyQueue(reports), ops), p)
  {
    var end := RunKeepsPace(EmptyQueue(reports), ops, start);
  }

  /** Claims of job `id` made at time `t` or before. */
  function ClaimsBy(claims: seq<ClaimRecord>, id: nat, t: int): nat {
    if claims == [] then 0
    else
      var c := claims[|claims| - 1];
      ClaimsBy(claims[..|claims| - 1], id, t) + (if c.id == id && c.at <= t then 1 else 0)
  }

  lemma {:induction false} ClaimsByIsPartOfCount(claims: seq<ClaimRecord>, id: nat, t: int)
    ensures ClaimsBy(claims, id, t) <= CountClaims(claims, id)
  {
    if claims != [] {
      ClaimsByIsPartOfCount(claims[..|claims| - 1], id, t);
    }
  }

  lemma {:induction false} ClaimsByPrefix<T>(q: Queue<T>, n: nat, id: nat, t: int)
    requires n <= |q.worker.claims| && id < |q.rows| && q.rows[id].createdAt <= t
    requires forall p :: 0 <= p < |q.worker.claims| ==> ClaimPaced(q, p)
    ensures ClaimsBy(q.worker.claims[..n], id, t) <= ClaimCap(t - q.rows[id].createdAt)
  {
    if n > 0 {
      var claims := q.worker.claims[..n];
      assert claims[..n - 1] == q.worker.claims[..n - 1];
      var c := q.worker.claims[n - 1];
      if c.id == id && c.at <= t {
        assert ClaimPaced(q, n - 1);
        ClaimsByIsPartOfCount(claims, id, t);
        ClaimCapIsExact(CountClaims(claims, id), t - q.rows[id].createdAt);
      } else {
        ClaimsByPrefix(q, n - 1, id, t);
      }
    }
  }

  /** A closed-form cap on how often a job has been claimed by time `t`. */
  lemma ClaimsAreCapped<T>(reports: bool, ops: seq<QueueOp<T>>, start: int, id: nat, t: int)
    requires SteadyLoop(ops, start)
    requires var q := QueueRun(EmptyQueue(reports), ops); id < |q.rows| && q.rows[id].createdAt <= t
    ensures var q := QueueRun(EmptyQueue(reports), ops);
            ClaimsBy(q.worker.claims, id, t) <= ClaimCap(t - q.rows[id].createdAt)
  {
    var q := QueueRun(EmptyQueue(reports), ops);
    var end := RunKeepsPace(EmptyQueue(reports), ops, start);
    ClaimsByPrefix(q, |q.worker.claims|, id, t);
    assert q.worker.claims[..|q.worker.claims|] == q.worker.claims;
  }
}
