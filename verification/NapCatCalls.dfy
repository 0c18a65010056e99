/**
 Requests and replies over the NapCat websocket (internal/qqbridge/gateway_napcat.go): concurrent `Send` calls, one
 reader that also handles disconnects, a locked `pending` map and one-slot channels. Each step is one action no other
 goroutine can interrupt; a step whose turn it is not changes nothing. The lock is held across steps only while the
 disconnect handler works through the map.
 */
module NapCatCalls {
  import opened Options
  import opened Strings
  import opened Envelopes

  /** A frame with an echo; `remoteId` is the message id found in its data. */
  datatype Frame = Frame(echo: string, status: string, retCode: int, remoteId: string, wording: string)

  predicate IsOk(f: Frame) {
    f.status == "ok" && f.retCode == 0
  }

  datatype ActionResult = Answer(remoteId: string) | Problem(error: BridgeError)

  datatype CallPc =
    | Registering                  // numbered, not yet in the map
    | Writing                      // registered, nothing on the wire yet
    | Written                      // on the wire, the write has not returned
    | Waiting                      // in the select
    | Leaving(result: ActionResult)  // result decided, the deferred delete still to run
    | Done(result: ActionResult)

  /** `slot` is the call's channel; `writeFailed` remembers that its write returned an error. */
  datatype Call = Call(echo: string, slot: Option<ActionResult>, pc: CallPc, writeFailed: bool)

  datatype ReaderPc =
    | Dialing
    | Reading
    | LookingUp(frame: Frame)
    | Pushing(call: nat, result: ActionResult)  // blocked until the slot is empty; holds no lock
    | Disconnected                              // about to take the lock
    | Failing                                   // holds the lock, between two entries
    | FailPushing(echo: string)                 // holds the lock, blocked until that entry's slot is empty

  /** `frames` remembers every frame read. */
  datatype Net = Net(counter: nat, calls: seq<Call>, pending: map<string, nat>, reader: ReaderPc, frames: seq<Frame>)

  const QUIET := Net(0, [], map[], Dialing, [])

  datatype Action =
    | Start
    | Register(call: nat)
    | PutOnWire(call: nat)
    | WriteReturns(call: nat)
    | WriteFails(call: nat)
    | Receive(call: nat)
    | Abandon(call: nat)    // the caller's or the gateway's context is cancelled
    | Unregister(call: nat)
    | Connect
    | ReadFrame(frame: Frame)
    | Lookup
    | Push
    | Disconnect
    | TakeLock
    | FailPick(echo: string)
    | FailPush
    | Release

  const WRAP := 0x1_0000_0000_0000_0000

  /** `napcat-%d` of a 64-bit counter */
  function Echo(n: nat): string {
    "napcat-" + Decimal(n % WRAP)
  }

  const WRITE_ERROR := BridgeError(PlatformUnavailable, "write napcat action failed", true, None)
  const TIMEOUT_ERROR := BridgeError(PlatformUnavailable, "wait napcat action response timed out", true, None)
  const DISCONNECT_ERROR := BridgeError(PlatformUnavailable, "napcat websocket disconnected", true, None)

  function ResultOfFrame(f: Frame): ActionResult {
    if IsOk(f) then Answer(f.remoteId) else Problem(BridgeError(DeliveryFailed, TrimSpace(f.wording), false, None))
  }

  predicate LockHeld(s: Net) {
    s.reader.Failing? || s.reader.FailPushing?
  }

  /** Call `i` exists and is where `at` says. */
  predicate AtPc(s: Net, i: nat, at: CallPc) {
    i < |s.calls| && s.calls[i].pc == at
  }

  function Move(s: Net, i: nat, call: Call): Net
    requires i < |s.calls|
  {
    s.(calls := s.calls[i := call])
  }

  function SendStep(s: Net, a: Action): Net {
    match a
    case Start =>
      s.(counter := s.counter + 1, calls := s.calls + [Call(Echo(s.counter + 1), None, Registering, false)])
    case Register(i) =>
      if AtPc(s, i, Registering) && !LockHeld(s)
      then Move(s, i, s.calls[i].(pc := Writing)).(pending := s.pending[s.calls[i].echo := i]) else s
    case PutOnWire(i) => if AtPc(s, i, Writing) then Move(s, i, s.calls[i].(pc := Written)) else s
    case WriteReturns(i) => if AtPc(s, i, Written) then Move(s, i, s.calls[i].(pc := Waiting)) else s
    case WriteFails(i) =>
      if AtPc(s, i, Writing) || AtPc(s, i, Written)
      then Move(s, i, s.calls[i].(pc := Leaving(Problem(WRITE_ERROR)), writeFailed := true)) else s
    case Receive(i) =>
      if AtPc(s, i, Waiting) && s.calls[i].slot.Some?
      then Move(s, i, s.calls[i].(pc := Leaving(s.calls[i].slot.value), slot := None)) else s
    case Abandon(i) =>
      if AtPc(s, i, Waiting) then Move(s, i, s.calls[i].(pc := Leaving(Problem(TIMEOUT_ERROR)))) else s
    case Unregister(i) =>
      if i < |s.calls| && s.calls[i].pc.Leaving? && !LockHeld(s)
      then Move(s, i, s.calls[i].(pc := Done(s.calls[i].pc.result))).(pending := s.pending - {s.calls[i].echo}) else s
    case _ => s
  }

  function ReadStep(s: Net, a: Action): Net {
    match a
    case Connect => if s.reader.Dialing? then s.(reader := Reading) else s
    case ReadFrame(f) =>
      if s.reader.Reading? && f.echo != "" then s.(reader := LookingUp(f), frames := s.frames + [f]) else s
    case Lookup =>
      if !s.reader.LookingUp? then s
      else if s.reader.frame.echo in s.pending
      then s.(reader := Pushing(s.pending[s.reader.frame.echo], ResultOfFrame(s.reader.frame)))
      else s.(reader := Reading)
    case Push =>
      if s.reader.Pushing? && s.reader.call < |s.calls| && s.calls[s.reader.call].slot.None?
      then Move(s, s.reader.call, s.calls[s.reader.call].(slot := Some(s.reader.result))).(reader := Reading) else s
    case Disconnect => if s.reader.Reading? then s.(reader := Disconnected) else s
    case TakeLock => if s.reader.Disconnected? then s.(reader := Failing) else s
    case FailPick(e) => if s.reader.Failing? && e in s.pending then s.(reader := FailPushing(e)) else s
    case FailPush =>
      if !s.reader.FailPushing? || s.reader.echo !in s.pending then s
      else
        var i := s.pending[s.reader.echo];
        if i < |s.calls| && s.calls[i].slot.None?
        then Move(s, i, s.calls[i].(slot := Some(Problem(DISCONNECT_ERROR))))
             .(pending := s.pending - {s.reader.echo}, reader := Failing) else s
    case Release => if s.reader.Failing? && s.pending == map[] then s.(reader := Dialing) else s
    case _ => s
  }

  function NetStep(s: Net, a: Action): Net {
    if a.Start? || a.Register? || a.PutOnWire? || a.WriteReturns? || a.WriteFails? || a.Receive? || a.Abandon? ||
      a.Unregister?
    then SendStep(s, a) else ReadStep(s, a)
  }

  function NetRun(s: Net, actions: seq<Action>): Net
    decreases |actions|
  {
    if actions == [] then s else NetRun(NetStep(s, actions[0]), actions[1..])
  }

  // --- Correlation -------------------------------------------------------------------------------

  /** A reply, or a terminal refusal, can only come from a frame with this very echo that says so. */
  ghost predicate Justified(s: Net, echo: string, r: ActionResult) {
    && (r.Answer? ==> exists f <- s.frames :: f.echo == echo && IsOk(f) && f.remoteId == r.remoteId)
    && (r.Problem? && !r.error.retryable ==>
          exists f <- s.frames ::
            f.echo == echo && !IsOk(f) && r.error == BridgeError(DeliveryFailed, TrimSpace(f.wording), false, None))
    && (r.Problem? && r.error.retryable ==> r.error.code == PlatformUnavailable)
  }

  predicate Registered(pc: CallPc) {
    pc.Writing? || pc.Written? || pc.Waiting? || pc.Leaving?
  }

  /** Calls are numbered, and each entry of the map belongs to the registered call it is named after. */
  ghost predicate Numbered(s: Net) {
    && |s.calls| == s.counter
    && (forall i :: 0 <= i < |s.calls| ==> s.calls[i].echo == Echo(i + 1))
    && (forall e <- s.pending ::
          s.pending[e] < |s.calls| && s.calls[s.pending[e]].echo == e && Registered(s.calls[s.pending[e]].pc))
    && (s.reader.FailPushing? ==> s.reader.echo in s.pending)
  }

  /** Every result, in a slot, returned, or on its way, is justified. */
  ghost predicate AllJustified(s: Net) {
    && (forall i :: 0 <= i < |s.calls| && s.calls[i].slot.Some? ==>
        Justified(s, s.calls[i].echo, s.calls[i].slot.value))
    && (forall i :: 0 <= i < |s.calls| && (s.calls[i].pc.Leaving? || s.calls[i].pc.Done?) ==>
          Justified(s, s.calls[i].echo, s.calls[i].pc.result))
    && (s.reader.LookingUp? ==> s.reader.frame in s.frames)
    && (s.reader.Pushing? ==> s.reader.call < |s.calls| && Justified(s, s.calls[s.reader.call].echo, s.reader.result))
  }

  /** Nothing is put into the slot of a call before the call has entered the map. */
  predicate SlotsFollowEntries(s: Net) {
    && (forall i :: 0 <= i < |s.calls| && s.calls[i].pc.Registering? ==> s.calls[i].slot.None?)
    && (s.reader.Pushing? ==> s.reader.call < |s.calls| && !s.calls[s.reader.call].pc.Registering?)
  }

  ghost predicate Sound(s: Net) {
    Numbered(s) && AllJustified(s) && SlotsFollowEntries(s)
  }

  lemma JustifiedLater(s: Net, t: Net, echo: string, r: ActionResult)
    requires Justified(s, echo, r) && s.frames <= t.frames
    ensures Justified(t, echo, r)
  {
    assert forall f <- s.frames :: f in t.frames;
  }

  lemma FrameJustifies(s: Net, f: Frame)
    requires f in s.frames
    ensures Justified(s, f.echo, ResultOfFrame(f))
  {
  }

  lemma FaultsJustifyThemselves(s: Net)
    ensures forall echo :: Justified(s, echo, Problem(WRITE_ERROR)) && Justified(s, echo, Problem(TIMEOUT_ERROR))
                           && Justified(s, echo, Problem(DISCONNECT_ERROR))
  {
  }

  lemma SendStepKeepsNumbers(s: Net, a: Action)
    requires Numbered(s)
    ensures Numbered(SendStep(s, a)) && SendStep(s, a).frames == s.frames
  {
    hide Echo;
  }

  lemma SendStepIsJustified(s: Net, a: Action)
    requires AllJustified(s)
    ensures AllJustified(SendStep(s, a))
  {
    hide Justified, Echo;
    var t := SendStep(s, a);
    forall echo, r | Justified(s, echo, r) ensures Justified(t, echo, r) { JustifiedLater(s, t, echo, r); }
    FaultsJustifyThemselves(t);
  }

  lemma StepKeepsSlots(s: Net, a: Action)
    requires Numbered(s) && SlotsFollowEntries(s)
    ensures SlotsFollowEntries(SendStep(s, a)) && SlotsFollowEntries(ReadStep(s, a))
  {
    hide Echo, ResultOfFrame;
  }

  lemma SendStepIsSound(s: Net, a: Action)
    requires Sound(s)
    ensures Sound(SendStep(s, a)) && SendStep(s, a).frames == s.frames
  {
    hide Numbered, AllJustified, SlotsFollowEntries, SendStep;
    SendStepKeepsNumbers(s, a);
    SendStepIsJustified(s, a);
    StepKeepsSlots(s, a);
  }

  lemma ReadStepKeepsNumbers(s: Net, a: Action)
    requires Numbered(s)
    ensures Numbered(ReadStep(s, a)) && s.frames <= ReadStep(s, a).frames
  {
    hide Echo, ResultOfFrame;
  }

  lemma ReadStepIsJustified(s: Net, a: Action)
    requires Sound(s)
    ensures AllJustified(ReadStep(s, a))
  {
    hide Justified, Echo;
    var t := ReadStep(s, a);
    forall echo, r | Justified(s, echo, r) ensures Justified(t, echo, r) { JustifiedLater(s, t, echo, r); }
    FaultsJustifyThemselves(t);
    if s.reader.LookingUp? {
      FrameJustifies(s, s.reader.frame);
    }
  }

  lemma ReadStepIsSound(s: Net, a: Action)
    requires Sound(s)
    ensures Sound(ReadStep(s, a)) && s.frames <= ReadStep(s, a).frames
  {
    hide Numbered, AllJustified, SlotsFollowEntries, ReadStep;
    ReadStepKeepsNumbers(s, a);
    ReadStepIsJustified(s, a);
    StepKeepsSlots(s, a);
  }

  lemma StepIsSound(s: Net, a: Action)
    requires Sound(s)
    ensures Sound(NetStep(s, a)) && s.frames <= NetStep(s, a).frames
  {
    hide Sound, SendStep, ReadStep;
    SendStepIsSound(s, a);
    ReadStepIsSound(s, a);
  }

  lemma {:induction false} RunIsSound(s: Net, actions: seq<Action>)
    requires Sound(s)
    ensures Sound(NetRun(s, actions))
    decreases |actions|
  {
    hide Sound, NetStep;
    if actions != [] {
      StepIsSound(s, actions[0]);
      RunIsSound(NetStep(s, actions[0]), actions[1..]);
    }
  }

  /**
   Correlation, over every run: a `Send` returns a message id only from an ok frame that carries its own echo, and
   gives up for good only on a frame with its own echo that is not ok; everything else it reports is retryable.
   */
  lemma SendReturnsItsOwnReply(actions: seq<Action>, i: nat)
    requires var s := NetRun(QUIET, actions); i < |s.calls| && s.calls[i].pc.Done?
    ensures var s := NetRun(QUIET, actions);
            var r := s.calls[i].pc.result;
            && (r.Answer? ==>
                  exists f <- s.frames ::
                    f.echo == Echo(i + 1) && f.status == "ok" && f.retCode == 0 && f.remoteId == r.remoteId)
            && (r.Problem? && !r.error.retryable ==>
                  exists f <- s.frames ::
                    f.echo == Echo(i + 1) && !(f.status == "ok" && f.retCode == 0) &&
                    r.error.code == DeliveryFailed && r.error.message == TrimSpace(f.wording))
            && (r.Problem? && r.error.retryable ==> r.error.code == PlatformUnavailable)
  {
    RunIsSound(QUIET, actions);
  }

  lemma EchoInjective(m: nat, n: nat)
    requires m < WRAP && n < WRAP && Echo(m) == Echo(n)
    ensures m == n
  {
    assert Echo(m)[7..] == Decimal(m) && Echo(n)[7..] == Decimal(n);
    DecimalRoundTrip(m);
    DecimalRoundTrip(n);
  }

  /** Until the 64-bit counter wraps, a call's deferred delete removes its own entry or nothing. */
  lemma UnregisterRemovesOnlyItsOwn(actions: seq<Action>, i: nat)
    requires |NetRun(QUIET, actions).calls| < WRAP
    ensures var s := NetRun(QUIET, actions);
            forall e <- s.pending :: s.pending[e] != i ==>
              e in NetStep(s, Unregister(i)).pending && NetStep(s, Unregister(i)).pending[e] == s.pending[e]
  {
    hide Echo, Justified;
    var s := NetRun(QUIET, actions);
    RunIsSound(QUIET, actions);
    forall e | e in s.pending && s.pending[e] != i && i < |s.calls|
      ensures e != s.calls[i].echo
    {
      if e == s.calls[i].echo {
        EchoInjective(s.pending[e] + 1, i + 1);
      }
    }
  }

  /** And until then registering a call overwrites nobody's entry: its echo is not in the map yet. */
  lemma RegisterOverwritesNothing(actions: seq<Action>, i: nat)
    requires |NetRun(QUIET, actions).calls| < WRAP && AtPc(NetRun(QUIET, actions), i, Registering)
    ensures var s := NetRun(QUIET, actions);
            && s.calls[i].echo !in s.pending
            && forall e <- s.pending ::
                 e in NetStep(s, Register(i)).pending && NetStep(s, Register(i)).pending[e] == s.pending[e]
  {
    hide Echo, Justified;
    var s := NetRun(QUIET, actions);
    RunIsSound(QUIET, actions);
    if s.calls[i].echo in s.pending {
      EchoInjective(s.pending[s.calls[i].echo] + 1, i + 1);
    }
  }

  // --- The gateway object ------------------------------------------------------------------------

  /**
   The gateway's shared fields. Each method is one critical section or channel operation of the code; `requires` says
   when the goroutine gets past the lock or the channel. Each is the step of the machine it is named after.
   */
  class NapCatGateway {
    var counter: nat
    var calls: seq<Call>
    var pending: map<string, nat>
    var reader: ReaderPc
    var frames: seq<Frame>

    function View(): Net
      reads this
    {
      Net(counter, calls, pending, reader, frames)
    }

    constructor ()
      ensures View() == QUIET
    {
      counter, calls, pending, reader, frames := 0, [], map[], Dialing, [];
    }

    /** `seq.Add(1)` and `make(chan napCatActionResult, 1)` */
    method BeginSend() returns (call: nat)
      modifies this
      ensures View() == NetStep(old(View()), Start) && call == old(|calls|)
      ensures counter == old(counter) + 1 && |calls| == call + 1
      ensures calls[call].echo == "napcat-" + Decimal(counter % 0x1_0000_0000_0000_0000) && calls[call].slot == None
    {
      counter := counter + 1;
      call := |calls|;
      calls := calls + [Call(Echo(counter), None, Registering, false)];
    }

    method RegisterSend(call: nat)
      requires AtPc(View(), call, Registering) && !LockHeld(View())
      modifies this`calls, this`pending
      ensures View() == NetStep(old(View()), Register(call))
    {
      pending := pending[calls[call].echo := call];
      calls := calls[call := calls[call].(pc := Writing)];
    }

    /** The receive arm of the select. */
    method ReceiveResult(call: nat) returns (result: ActionResult)
      requires AtPc(View(), call, Waiting) && calls[call].slot.Some?
      modifies this`calls
      ensures View() == NetStep(old(View()), Receive(call)) && old(calls)[call].slot == Some(result)
    {
      result := calls[call].slot.value;
      calls := calls[call := calls[call].(pc := Leaving(result), slot := None)];
    }

    /** The deferred delete. */
    method UnregisterSend(call: nat) returns (result: ActionResult)
      requires call < |calls| && calls[call].pc.Leaving? && !LockHeld(View())
      modifies this`calls, this`pending
      ensures View() == NetStep(old(View()), Unregister(call)) && old(calls)[call].pc == Leaving(result)
    {
      result := calls[call].pc.result;
      pending := pending - {calls[call].echo};
      calls := calls[call := calls[call].(pc := Done(result))];
    }

    /** `resolvePending` up to the channel send. */
    method LookUpFrame()
      requires reader.LookingUp?
      modifies this`reader
      ensures View() == NetStep(old(View()), Lookup)
    {
      var frame := reader.frame;
      if frame.echo !in pending {
        reader := Reading;
      } else if frame.status == "ok" && frame.retCode == 0 {
        reader := Pushing(pending[frame.echo], Answer(frame.remoteId));
      } else {
        reader :=
          Pushing(pending[frame.echo], Problem(BridgeError(DeliveryFailed, TrimSpace(frame.wording), false, None)));
      }
    }

    /** The channel send of `resolvePending`. */
    method PushResult()
      requires reader.Pushing? && reader.call < |calls| && calls[reader.call].slot.None?
      modifies this`calls, this`reader
      ensures View() == NetStep(old(View()), Push)
    {
      calls := calls[reader.call := calls[reader.call].(slot := Some(reader.result))];
      reader := Reading;
    }

    /** One iteration of `failPending`. */
    method FailEntry()
      requires reader.FailPushing? && reader.echo in pending
      requires pending[reader.echo] < |calls| && calls[pending[reader.echo]].slot.None?
      modifies this`calls, this`pending, this`reader
      ensures View() == NetStep(old(View()), FailPush)
    {
      var call := pending[reader.echo];
      calls := calls[call := calls[call].(slot := Some(Problem(DISCONNECT_ERROR)))];
      pending := pending - {reader.echo};
      reader := Failing;
    }
  }

  // --- Reconnecting ------------------------------------------------------------------------------

  /** The delay in seconds before the next dial after `failures` dials in a row have failed already. */
  function ReconnectDelay(failures: nat): nat {
    if failures == 0 then 1
    else
      var last := ReconnectDelay(failures - 1);
      if last < 30 then 2 * last else last
  }

  /**
   The delay starts at a second, doubles up to 32 seconds and stays there: it exceeds the documented limit of 30 from
   the sixth wait on.
   */
  lemma {:induction false} ReconnectDelayReaches32(failures: nat)
    ensures failures == 0 ==> ReconnectDelay(failures) == 1
    ensures 0 < failures <= 5 ==> ReconnectDelay(failures) == 2 * ReconnectDelay(failures - 1)
    ensures failures >= 5 ==> ReconnectDelay(failures) == 32
    ensures ReconnectDelay(failures) > 30 <==> failures >= 5
  {
    assert ReconnectDelay(1) == 2;
    assert ReconnectDelay(2) == 4;
    assert ReconnectDelay(3) == 8;
    assert ReconnectDelay(4) == 16;
    assert ReconnectDelay(5) == 32;
    if failures > 5 {
      ReconnectDelayReaches32(failures - 1);
    }
  }
}
