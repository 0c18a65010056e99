/**
 The job queue shared by both directions (internal/qqbridge/store.go) together with the single loop that works it
 (runtime.go). A table is the sequence of its rows in id order: rows are only ever added, so the row with
 AUTOINCREMENT id `k + 1` sits at index `k`. In this module an id is that index.
 */
module Queues {
  import opened Options
  import opened Envelopes

  datatype Status = Pending | Processing | Delivered | Failed

  /** One row. `remoteId` is a column of `outbound_jobs` only; it stays empty in the other table. */
  datatype Job<+T> = Job(item: T, status: Status, attempts: nat, nextAttemptAt: int, remoteId: string,
                         errorCode: string, errorText: string, createdAt: int, updatedAt: int)

  function NewJob<T>(item: T, now: int): Job<T> {
    Job(item, Pending, 0, now, "", "", "", now, now)
  }

  function Items<T>(rows: seq<Job<T>>): (items: seq<T>)
    ensures |items| == |rows| && forall i :: 0 <= i < |rows| ==> items[i] == rows[i].item
  {
    seq(|rows|, i requires 0 <= i < |rows| => rows[i].item)
  }

  function NewJobs<T>(items: seq<T>, now: int): (rows: seq<Job<T>>)
    ensures |rows| == |items| && forall i :: 0 <= i < |rows| ==> rows[i] == NewJob(items[i], now)
  {
    seq(|items|, i requires 0 <= i < |items| => NewJob(items[i], now))
  }

  // --- The statements ----------------------------------------------------------------------------

  predicate Due<T>(row: Job<T>, now: int) {
    row.status == Pending && row.nextAttemptAt <= now
  }

  /** `WHERE status = 'pending' AND next_attempt_at_ms <= ? ORDER BY id LIMIT 1`, from id `from` on. */
  function FirstDueFrom<T>(rows: seq<Job<T>>, now: int, from: nat): (id: Option<nat>)
    requires from <= |rows|
    ensures id.Some? ==> from <= id.value < |rows| && Due(rows[id.value], now)
    ensures forall i :: from <= i < (if id.Some? then id.value else |rows|) ==> !Due(rows[i], now)
    decreases |rows| - from
  {
    if from == |rows| then None
    else if Due(rows[from], now) then Some(from)
    else FirstDueFrom(rows, now, from + 1)
  }

  function FirstDue<T>(rows: seq<Job<T>>, now: int): (id: Option<nat>)
    ensures id.Some? ==> id.value < |rows| && Due(rows[id.value], now)
    ensures forall i :: 0 <= i < (if id.Some? then id.value else |rows|) ==> !Due(rows[i], now)
  {
    FirstDueFrom(rows, now, 0)
  }

  function ClaimedRow<T>(row: Job<T>, now: int): Job<T> {
    row.(status := Processing, attempts := row.attempts + 1, updatedAt := now)
  }

  // The remaining updates say `WHERE id = ?` and nothing about the row's current status.

  function MarkDelivered<T>(rows: seq<Job<T>>, id: nat, remoteId: string, now: int): seq<Job<T>> {
    if id < |rows|
    then rows[id := rows[id].(status := Delivered, remoteId := remoteId, updatedAt := now)]
    else rows
  }

  function Retry<T>(rows: seq<Job<T>>, id: nat, error: BridgeError, attempts: nat, now: int, later: int): seq<Job<T>> {
    if id < |rows|
    then rows[id := rows[id].(status := Pending, nextAttemptAt := now + Backoff(attempts), updatedAt := later,
                              errorCode := CodeName(error.code), errorText := ErrorText(error))]
    else rows
  }

  function Fail<T>(rows: seq<Job<T>>, id: nat, error: BridgeError, now: int): seq<Job<T>> {
    if id < |rows|
    then rows[id := rows[id].(status := Failed, updatedAt := now,
                              errorCode := CodeName(error.code), errorText := ErrorText(error))]
    else rows
  }

  function Shift(n: nat): nat {
    if n == 0 then 1 else 2 * Shift(n - 1)
  }

  /** `backoffForAttempt`, in milliseconds. */
  function Backoff(attempt: int): int {
    if attempt <= 1 then 1000
    else
      var capped := if attempt > 6 then 6 else attempt;
      Shift(capped - 1) * 1000
  }

  // --- The loop ----------------------------------------------------------------------------------

  datatype SendResult = Sent(remoteId: string) | Refused(error: BridgeError)

  /** The loop's local copy of the job it claimed; `claimedAt` is bookkeeping for the proofs. */
  datatype HeldJob<+T> = HeldJob(id: nat, item: T, attempts: nat, claimedAt: int)

  /** Where the loop is: at its head, holding a claimed job, holding the answer, or about to report a refusal. */
  datatype Pc<+T> =
    | Idle
    | Claimed(job: HeldJob<T>)
    | Answered(job: HeldJob<T>, result: SendResult)
    | Reporting(job: HeldJob<T>, error: BridgeError)

  datatype ClaimRecord = ClaimRecord(id: nat, at: int)

  /** A send of job `id` that the loop began at time `at`, and what came of it. */
  datatype SendRecord = SendRecord(id: nat, at: int, result: SendResult)

  /** The loop with the history of its committed claims and of its sends. */
  datatype Worker<+T> = Worker(pc: Pc<T>, claims: seq<ClaimRecord>, sends: seq<SendRecord>)

  /** `reports` holds of the outbound loop, which answers a terminal refusal with a receipt. */
  datatype Queue<+T> = Queue(reports: bool, rows: seq<Job<T>>, worker: Worker<T>)

  /** What becomes of a write: it lands, it does not, or it lands but the caller is told it failed. */
  datatype Fate = Commits | Fails | CommitsUnseen

  datatype WorkerStep =
    | Claim(at: int, fate: Fate)
    | Send(at: int, result: SendResult)
    | Settle(at: int, later: int, fate: Fate)
    | Report(at: int, fate: Fate)

  /** Rows added by somebody else, a step of the loop, or a restart that forgets what the loop held. */
  datatype QueueOp<+T> = Insert(items: seq<T>, at: int) | Work(step: WorkerStep) | Restart(at: int)

  function OpTime<T>(op: QueueOp<T>): int {
    if op.Work? then op.step.at else op.at
  }

  function SettledStatus(result: SendResult): Status {
    if result.Sent? then Delivered else if result.error.retryable then Pending else Failed
  }

  /** Settling writes to the held job's row alone, and neither recounts its attempts nor touches what it carries. */
  function SettledRows<T>(rows: seq<Job<T>>, job: HeldJob<T>, result: SendResult, at: int, later: int)
    : (settled: seq<Job<T>>)
    ensures |settled| == |rows|
    ensures forall i :: 0 <= i < |rows| && i != job.id ==> settled[i] == rows[i]
    ensures job.id < |rows| ==>
              var row, was := settled[job.id], rows[job.id];
              && row.status == SettledStatus(result)
              && row.item == was.item && row.createdAt == was.createdAt && row.attempts == was.attempts
              && row.nextAttemptAt == (if row.status == Pending then at + Backoff(job.attempts) else was.nextAttemptAt)
              && row.updatedAt == (if row.status == Pending then later else at)
              && row.remoteId == (if result.Sent? then result.remoteId else was.remoteId)
              && row.errorCode == (if result.Refused? then CodeName(result.error.code) else was.errorCode)
              && row.errorText == (if result.Refused? then ErrorText(result.error) else was.errorText)
  {
    match result
    case Sent(remoteId) => MarkDelivered(rows, job.id, remoteId, at)
    case Refused(error) =>
      if error.retryable then Retry(rows, job.id, error, job.attempts, at, later) else Fail(rows, job.id, error, at)
  }

  /** After settling, only a terminal refusal in the outbound loop leaves anything to do. */
  function AfterSettling<T>(reports: bool, job: HeldJob<T>, result: SendResult): Pc<T> {
    if reports && result.Refused? && !result.error.retryable then Reporting(job, result.error) else Idle
  }

  /** One step of the loop; a step the loop is not at changes nothing. */
  function WorkStep<T>(q: Queue<T>, step: WorkerStep): (r: Queue<T>)
    ensures r.reports == q.reports
  {
    var w := q.worker;
    match step
    case Claim(at, fate) =>
      if !w.pc.Idle? || fate.Fails? then q
      else
        var due := FirstDue(q.rows, at);
        if due.None? then q
        else
          var id := due.value;
          var row := ClaimedRow(q.rows[id], at);
          var pc := if fate.Commits? then Claimed(HeldJob(id, row.item, row.attempts, at)) else Idle;
          q.(rows := q.rows[id := row], worker := w.(pc := pc, claims := w.claims + [ClaimRecord(id, at)]))
    case Send(at, result) =>
      if !w.pc.Claimed? then q
      else q.(worker := w.(pc := Answered(w.pc.job, result), sends := w.sends + [SendRecord(w.pc.job.id, at, result)]))
    case Settle(at, later, fate) =>
      if !w.pc.Answered? then q
      else
        var rows := if fate.Fails? then q.rows else SettledRows(q.rows, w.pc.job, w.pc.result, at, later);
        q.(rows := rows, worker := w.(pc := AfterSettling(q.reports, w.pc.job, w.pc.result)))
    case Report(at, fate) =>
      if w.pc.Reporting? then q.(worker := w.(pc := Idle)) else q
  }

  function QueueStep<T>(q: Queue<T>, op: QueueOp<T>): Queue<T> {
    match op
    case Insert(items, at) => q.(rows := q.rows + NewJobs(items, at))
    case Work(step) => WorkStep(q, step)
    case Restart(at) => q.(worker := q.worker.(pc := Idle))
  }

  function QueueRun<T>(q: Queue<T>, ops: seq<QueueOp<T>>): Queue<T>
    decreases |ops|
  {
    if ops == [] then q else QueueRun(QueueStep(q, ops[0]), ops[1..])
  }

  function EmptyQueue<T>(reports: bool): Queue<T> {
    Queue(reports, [], Worker(Idle, [], []))
  }

  // --- Safety ------------------------------------------------------------------------------------

  predicate Final<T>(row: Job<T>) {
    row.status == Delivered || row.status == Failed
  }

  predicate Holds<T>(q: Queue<T>, id: nat) {
    !q.worker.pc.Idle? && q.worker.pc.job.id == id
  }

  function CountClaims(claims: seq<ClaimRecord>, id: nat): nat {
    if claims == [] then 0
    else CountClaims(claims[..|claims| - 1], id) + (if claims[|claims| - 1].id == id then 1 else 0)
  }

  lemma CountClaimsPush(claims: seq<ClaimRecord>, c: ClaimRecord, id: nat)
    ensures CountClaims(claims + [c], id) == CountClaims(claims, id) + (if c.id == id then 1 else 0)
  {
    assert (claims + [c])[..|claims|] == claims;
  }

  /** What the loop holds agrees with the table: the row it may still settle is `processing`, with its own count. */
  ghost predicate HeldAgrees<T>(q: Queue<T>) {
    var pc := q.worker.pc;
    !pc.Idle? ==>
      && pc.job.id < |q.rows|
      && q.rows[pc.job.id].item == pc.job.item
      && q.rows[pc.job.id].attempts == pc.job.attempts > 0
      && (pc.Reporting? ==> q.reports && q.rows[pc.job.id].status in {Processing, Failed})
      && (!pc.Reporting? ==> q.rows[pc.job.id].status == Processing)
  }

  ghost predicate Safe<T>(q: Queue<T>) {
    && HeldAgrees(q)
    && (forall i :: 0 <= i < |q.rows| ==> q.rows[i].attempts == CountClaims(q.worker.claims, i))
    && (forall i :: 0 <= i < |q.rows| && q.rows[i].attempts == 0 ==> q.rows[i].status == Pending)
    && (forall c <- q.worker.claims :: c.id < |q.rows|)
  }

  /** A row nobody will touch again: it is being processed, or has failed, and the loop does not hold it. */
  predicate Spent<T>(q: Queue<T>, id: nat) {
    id < |q.rows| && q.rows[id].status in {Processing, Failed} && !Holds(q, id)
  }

  ghost predicate RowExtends<T>(was: Job<T>, row: Job<T>) {
    && row.item == was.item && row.createdAt == was.createdAt && was.attempts <= row.attempts
    && (Final(was) ==> row == was)
  }

  /** What every step keeps of the past. */
  ghost predicate Extends<T>(q: Queue<T>, r: Queue<T>) {
    && r.reports == q.reports
    && |q.rows| <= |r.rows|
    && q.worker.claims <= r.worker.claims
    && q.worker.sends <= r.worker.sends
    && (forall i :: 0 <= i < |q.rows| ==> RowExtends(q.rows[i], r.rows[i]))
    && (forall i: nat :: Spent(q, i) ==> Spent(r, i) && r.rows[i] == q.rows[i])
  }

  lemma NewRowsAreUnclaimed<T>(q: Queue<T>, i: nat)
    requires Safe(q) && |q.rows| <= i
    ensures CountClaims(q.worker.claims, i) == 0
  {
    NoClaimNoCount(q.worker.claims, i);
  }

  lemma {:induction false} NoClaimNoCount(claims: seq<ClaimRecord>, i: nat)
    requires forall c <- claims :: c.id != i
    ensures CountClaims(claims, i) == 0
  {
    if claims != [] {
      NoClaimNoCount(claims[..|claims| - 1], i);
    }
  }

  lemma InsertIsSafe<T>(q: Queue<T>, items: seq<T>, at: int)
    requires Safe(q)
    ensures Safe(QueueStep(q, Insert(items, at))) && Extends(q, QueueStep(q, Insert(items, at)))
  {
    var r := QueueStep(q, Insert(items, at));
    forall i | 0 <= i < |r.rows|
      ensures r.rows[i].attempts == CountClaims(r.worker.claims, i)
    {
      if |q.rows| <= i {
        NewRowsAreUnclaimed(q, i);
      }
    }
  }

  lemma ClaimIsSafe<T>(q: Queue<T>, at: int, fate: Fate)
    requires Safe(q)
    ensures Safe(WorkStep(q, Claim(at, fate)))
  {
    var r := WorkStep(q, Claim(at, fate));
    if q.worker.pc.Idle? && !fate.Fails? && FirstDue(q.rows, at).Some? {
      var id := FirstDue(q.rows, at).value;
      forall i | 0 <= i < |r.rows|
        ensures r.rows[i].attempts == CountClaims(r.worker.claims, i)
      {
        CountClaimsPush(q.worker.claims, ClaimRecord(id, at), i);
      }
      assert forall c <- r.worker.claims :: c in q.worker.claims || c == ClaimRecord(id, at);
    }
  }

  lemma ClaimExtends<T>(q: Queue<T>, at: int, fate: Fate)
    requires Safe(q)
    ensures Extends(q, WorkStep(q, Claim(at, fate)))
  {
  }

  lemma SettleIsSafe<T>(q: Queue<T>, at: int, later: int, fate: Fate)
    requires Safe(q)
    ensures Safe(WorkStep(q, Settle(at, later, fate))) && Extends(q, WorkStep(q, Settle(at, later, fate)))
  {
  }

  lemma StepIsSafe<T>(q: Queue<T>, op: QueueOp<T>)
    requires Safe(q)
    ensures Safe(QueueStep(q, op)) && Extends(q, QueueStep(q, op))
  {
    match op
    case Insert(items, at) => InsertIsSafe(q, items, at);
    case Work(Claim(at, fate)) => ClaimIsSafe(q, at, fate); ClaimExtends(q, at, fate);
    case Work(Settle(at, later, fate)) => SettleIsSafe(q, at, later, fate);
    case Work(Send(at, result)) =>
    case Work(Report(at, fate)) =>
    case Restart(at) =>
  }

  /** Everything in `Safe` and `Extends` holds over every run, whatever fails and whenever the process restarts. */
  lemma {:induction false} RunIsSafe<T>(q: Queue<T>, ops: seq<QueueOp<T>>)
    requires Safe(q)
    ensures Safe(QueueRun(q, ops)) && Extends(q, QueueRun(q, ops))
    decreases |ops|
  {
    if ops != [] {
      StepIsSafe(q, ops[0]);
      RunIsSafe(QueueStep(q, ops[0]), ops[1..]);
    }
  }

  function Inserted<T>(op: QueueOp<T>): seq<T> {
    if op.Insert? then op.items else []
  }

  /** What the rows carry changes only by insertion at the end. */
  lemma ItemsGrow<T>(q: Queue<T>, op: QueueOp<T>)
    requires Safe(q)
    ensures Items(QueueStep(q, op).rows) == Items(q.rows) + Inserted(op)
  {
    StepIsSafe(q, op);
  }
}
