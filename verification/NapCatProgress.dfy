/** When the NapCat reader and its disconnect handler make progress, and exactly when they are stuck for ever. */
module NapCatProgress {
  import opened Options
  import opened NapCatCalls

  ghost predicate Answered(s: Net, echo: string) {
    exists f <- s.frames :: f.echo == echo
  }

  /** Between registering and deciding its result: the call will come to read its slot. */
  predicate StillListening(pc: CallPc) {
    pc.Writing? || pc.Written? || pc.Waiting?
  }

  // --- Well-behaved runs -------------------------------------------------------------------------

  /** No context is cancelled; the peer answers each echo at most once, and only after a write that returns nil. */
  ghost predicate Benign(s: Net, a: Action) {
    && !a.Abandon?
    && (a.ReadFrame? && s.reader.Reading? && a.frame.echo != "" ==>
          && !Answered(s, a.frame.echo)
          && forall i :: 0 <= i < |s.calls| && s.calls[i].echo == a.frame.echo ==> !s.calls[i].writeFailed)
    && (a.WriteFails? && a.call < |s.calls| ==> !Answered(s, s.calls[a.call].echo))
  }

  ghost predicate BenignRun(s: Net, actions: seq<Action>)
    decreases |actions|
  {
    actions == [] || (Benign(s, actions[0]) && BenignRun(NetStep(s, actions[0]), actions[1..]))
  }

  /** An entry in the map belongs to a call that will empty its slot, unless the slot is empty and stays so. */
  ghost predicate EntryIsSmooth(s: Net, e: string)
    requires e in s.pending && s.pending[e] < |s.calls|
  {
    var call := s.calls[s.pending[e]];
    && (call.slot.Some? ==> StillListening(call.pc) && Answered(s, e))
    && (call.pc.Leaving? ==> Answered(s, e) || call.writeFailed)
  }

  ghost predicate CallsSmooth(s: Net) {
    forall e <- s.pending :: s.pending[e] < |s.calls| && EntryIsSmooth(s, e)
  }

  /** A reply on its way finds an empty slot and a call that listens. */
  ghost predicate ReplySmooth(s: Net) {
    && (s.reader.LookingUp? && s.reader.frame.echo in s.pending ==>
          var i := s.pending[s.reader.frame.echo];
          i < |s.calls| && s.calls[i].slot.None? && StillListening(s.calls[i].pc))
    && (s.reader.Pushing? ==>
          && s.reader.call < |s.calls|
          && var call := s.calls[s.reader.call];
             && call.slot.None? && StillListening(call.pc) && Answered(s, call.echo)
             && call.echo in s.pending && s.pending[call.echo] == s.reader.call)
  }

  ghost predicate Smooth(s: Net) {
    Sound(s) && |s.calls| < WRAP && CallsSmooth(s) && ReplySmooth(s)
  }

  lemma OwnEntry(s: Net, i: nat, e: string)
    requires Sound(s) && |s.calls| < WRAP && i < |s.calls| && e in s.pending
    ensures s.calls[i].echo == e <==> s.pending[e] == i
  {
    hide Echo, Justified;
    var k := s.pending[e];
    assert s.calls[i].echo == Echo(i + 1) && s.calls[k].echo == e == Echo(k + 1);
    if s.calls[i].echo == e {
      EchoInjective(i + 1, k + 1);
    }
  }

  lemma AnsweredLater(s: Net, t: Net, e: string)
    requires Answered(s, e) && s.frames <= t.frames
    ensures Answered(t, e)
  {
    var f :| f in s.frames && f.echo == e;
    assert f in t.frames;
  }

  /** What the proofs below need of `Sound`. */
  lemma SoundEntries(s: Net)
    requires Sound(s)
    ensures forall e <- s.pending ::
            s.pending[e] < |s.calls| && s.calls[s.pending[e]].echo == e && Registered(s.calls[s.pending[e]].pc)
    ensures s.reader.Pushing? ==> s.reader.call < |s.calls|
    ensures s.reader.FailPushing? ==> s.reader.echo in s.pending
    ensures s.reader.LookingUp? ==> Answered(s, s.reader.frame.echo)
    ensures forall i :: 0 <= i < |s.calls| && s.calls[i].pc.Registering? ==> s.calls[i].slot.None?
  {
  }

  lemma OwnEntries(s: Net)
    requires Sound(s) && |s.calls| < WRAP
    ensures forall i: nat, e :: i < |s.calls| && e in s.pending ==> (s.calls[i].echo == e <==> s.pending[e] == i)
  {
    hide Sound;
    forall i: nat, e | i < |s.calls| && e in s.pending
      ensures s.calls[i].echo == e <==> s.pending[e] == i
    {
      OwnEntry(s, i, e);
    }
  }

  lemma AnsweredStays(s: Net, t: Net)
    requires s.frames <= t.frames
    ensures forall e :: Answered(s, e) ==> Answered(t, e)
  {
    forall e | Answered(s, e) ensures Answered(t, e) { AnsweredLater(s, t, e); }
  }

  /** The steps of a `Send` that change the map. */
  lemma EntryChangeKeepsCalls(s: Net, a: Action)
    requires Smooth(s) && Benign(s, a) && |SendStep(s, a).calls| < WRAP
    requires a.Start? || a.Register? || a.Unregister?
    ensures CallsSmooth(SendStep(s, a))
  {
    hide Echo, Justified, Answered, Sound;
    SoundEntries(s);
    AnsweredStays(s, SendStep(s, a)) by { SendStepIsSound(s, a); }
    OwnEntries(s);
  }

  /** And those that change only where the call is. */
  lemma CallChangeKeepsCalls(s: Net, a: Action)
    requires Smooth(s) && Benign(s, a)
    requires a.PutOnWire? || a.WriteReturns? || a.WriteFails? || a.Receive? || a.Abandon?
    ensures CallsSmooth(SendStep(s, a))
  {
    hide Echo, Justified, Answered, Sound;
    SoundEntries(s);
    AnsweredStays(s, SendStep(s, a)) by { SendStepIsSound(s, a); }
    OwnEntries(s);
  }

  lemma SendKeepsCalls(s: Net, a: Action)
    requires Smooth(s) && Benign(s, a) && |SendStep(s, a).calls| < WRAP
    ensures CallsSmooth(SendStep(s, a))
  {
    hide Sound, CallsSmooth, Benign;
    if a.Start? || a.Register? || a.Unregister? {
      EntryChangeKeepsCalls(s, a);
    } else if a.PutOnWire? || a.WriteReturns? || a.WriteFails? || a.Receive? || a.Abandon? {
      CallChangeKeepsCalls(s, a);
    }
  }

  lemma EntryChangeKeepsReply(s: Net, a: Action)
    requires Smooth(s) && Benign(s, a) && |SendStep(s, a).calls| < WRAP
    requires a.Start? || a.Register? || a.Unregister?
    ensures ReplySmooth(SendStep(s, a))
  {
    hide Echo, Justified, Answered, Sound;
    SoundEntries(s);
    AnsweredStays(s, SendStep(s, a)) by { SendStepIsSound(s, a); }
    OwnEntries(s);
  }

  lemma CallChangeKeepsReply(s: Net, a: Action)
    requires Smooth(s) && Benign(s, a)
    requires a.PutOnWire? || a.WriteReturns? || a.WriteFails? || a.Receive? || a.Abandon?
    ensures ReplySmooth(SendStep(s, a))
  {
    hide Echo, Justified, Answered, Sound;
    SoundEntries(s);
    AnsweredStays(s, SendStep(s, a)) by { SendStepIsSound(s, a); }
    OwnEntries(s);
  }

  lemma SendKeepsReply(s: Net, a: Action)
    requires Smooth(s) && Benign(s, a) && |SendStep(s, a).calls| < WRAP
    ensures ReplySmooth(SendStep(s, a))
  {
    hide Sound, ReplySmooth, Benign;
    if a.Start? || a.Register? || a.Unregister? {
      EntryChangeKeepsReply(s, a);
    } else if a.PutOnWire? || a.WriteReturns? || a.WriteFails? || a.Receive? || a.Abandon? {
      CallChangeKeepsReply(s, a);
    }
  }

  lemma ReadKeepsCalls(s: Net, a: Action)
    requires Smooth(s) && Benign(s, a) && |ReadStep(s, a).calls| < WRAP
    ensures CallsSmooth(ReadStep(s, a))
  {
    hide Echo, Justified, Answered, Sound;
    SoundEntries(s);
    AnsweredStays(s, ReadStep(s, a)) by { ReadStepIsSound(s, a); }
    OwnEntries(s);
  }

  lemma ReadKeepsReply(s: Net, a: Action)
    requires Smooth(s) && Benign(s, a) && |ReadStep(s, a).calls| < WRAP
    ensures ReplySmooth(ReadStep(s, a))
  {
    hide Echo, Justified, Answered, Sound;
    SoundEntries(s);
    AnsweredStays(s, ReadStep(s, a)) by { ReadStepIsSound(s, a); }
    OwnEntries(s);
  }

  lemma StepIsSmooth(s: Net, a: Action)
    requires Smooth(s) && Benign(s, a) && |NetStep(s, a).calls| < WRAP
    ensures Smooth(NetStep(s, a))
  {
    hide Sound, CallsSmooth, ReplySmooth, Benign, SendStep, ReadStep;
    if a.Start? || a.Register? || a.PutOnWire? || a.WriteReturns? || a.WriteFails? || a.Receive? || a.Abandon? ||
      a.Unregister? {
      SendStepIsSound(s, a);
      SendKeepsCalls(s, a);
      SendKeepsReply(s, a);
    } else {
      ReadStepIsSound(s, a);
      ReadKeepsCalls(s, a);
      ReadKeepsReply(s, a);
    }
  }

  lemma {:induction false} CallsOnlyGrow(s: Net, actions: seq<Action>)
    ensures |s.calls| <= |NetRun(s, actions).calls|
    decreases |actions|
  {
    if actions != [] {
      CallsOnlyGrow(NetStep(s, actions[0]), actions[1..]);
    }
  }

  lemma {:induction false} RunIsSmooth(s: Net, actions: seq<Action>)
    requires Smooth(s) && BenignRun(s, actions) && |NetRun(s, actions).calls| < WRAP
    ensures Smooth(NetRun(s, actions))
    decreases |actions|
  {
    hide Smooth, Benign, NetStep;
    if actions != [] {
      CallsOnlyGrow(NetStep(s, actions[0]), actions[1..]);
      StepIsSmooth(s, actions[0]);
      RunIsSmooth(NetStep(s, actions[0]), actions[1..]);
    }
  }

  /** In a well-behaved run the reader never blocks on a reply: whenever it pushes one, the slot is empty. */
  lemma RepliesNeverBlock(actions: seq<Action>)
    requires BenignRun(QUIET, actions) && |NetRun(QUIET, actions).calls| < WRAP
    ensures var s := NetRun(QUIET, actions);
            s.reader.Pushing? ==> s.reader.call < |s.calls| && s.calls[s.reader.call].slot.None?
  {
    RunIsSmooth(QUIET, actions);
  }

  // --- The disconnect handler --------------------------------------------------------------------

  predicate HelpsRelease(a: Action) {
    a.FailPick? || a.FailPush? || a.Release? || a.PutOnWire? || a.WriteReturns? || a.Receive?
  }

  lemma {:induction false} NetRunConcat(s: Net, a: seq<Action>, b: seq<Action>)
    ensures NetRun(s, a + b) == NetRun(NetRun(s, a), b)
    decreases |a|
  {
    if a == [] {
      assert a + b == b;
    } else {
      assert (a + b)[1..] == a[1..] + b;
      NetRunConcat(NetStep(s, a[0]), a[1..], b);
    }
  }

  lemma OneAction(s: Net, a: Action)
    ensures NetRun(s, [a]) == NetStep(s, a)
  {
    assert NetRun(s, [a]) == NetRun(NetStep(s, a), []);
  }

  /** The owner of a full slot empties it by its own next steps, none of which needs the lock. */
  lemma {:induction false} OwnerMakesRoom(s: Net, i: nat) returns (actions: seq<Action>)
    requires i < |s.calls| && (s.calls[i].slot.None? || StillListening(s.calls[i].pc))
    ensures forall a <- actions :: HelpsRelease(a)
    ensures var t := NetRun(s, actions);
            && t.reader == s.reader && t.pending == s.pending && t.frames == s.frames && |t.calls| == |s.calls|
            && t.calls[i].slot.None?
    decreases if s.calls[i].slot.None? then 0 else if s.calls[i].pc.Waiting? then 1 else if s.calls[i].pc.Written?
              then 2 else 3
  {
    if s.calls[i].slot.None? {
      return [];
    }
    var a := if s.calls[i].pc.Waiting? then Receive(i) else if s.calls[i].pc.Written? then WriteReturns(i)
      else PutOnWire(i);
    var rest := OwnerMakesRoom(NetStep(s, a), i);
    actions := [a] + rest;
    assert actions[1..] == rest;
  }

  lemma {:induction false} HelpKeepsSmooth(s: Net, actions: seq<Action>)
    requires Smooth(s) && forall a <- actions :: HelpsRelease(a)
    ensures Smooth(NetRun(s, actions))
    decreases |actions|
  {
    hide Smooth;
    if actions != [] {
      assert actions[0] in actions;
      assert |NetStep(s, actions[0]).calls| == |s.calls|;
      SmoothSize(s);
      StepIsSmooth(s, actions[0]);
      assert forall a <- actions[1..] :: a in actions;
      HelpKeepsSmooth(NetStep(s, actions[0]), actions[1..]);
    }
  }

  lemma SmoothSize(s: Net)
    requires Smooth(s)
    ensures |s.calls| < WRAP
  {
  }

  /** From a smooth state the handler gets its current entry done, helped only by that entry's owner. */
  lemma EntryGetsFailed(s: Net) returns (actions: seq<Action>)
    requires Smooth(s) && s.reader.FailPushing?
    ensures forall a <- actions :: HelpsRelease(a)
    ensures var t := NetRun(s, actions);
            Smooth(t) && t.reader.Failing? && t.pending == s.pending - {s.reader.echo}
  {
    hide Justified, Echo, Answered;
    var i := s.pending[s.reader.echo];
    assert EntryIsSmooth(s, s.reader.echo);
    var room := OwnerMakesRoom(s, i);
    NetRunConcat(s, room, [FailPush]);
    OneAction(NetRun(s, room), FailPush);
    actions := room + [FailPush];
    HelpKeepsSmooth(s, actions);
  }

  /**
   Reply plus disconnect never deadlock: in a well-behaved run, whenever the disconnect handler holds the lock, the
   reader's own steps and the pending `Send`s reading their slots, and nothing else, lead to the lock being released
   with every entry failed.
   */
  lemma {:induction false} DisconnectFinishes(s: Net) returns (actions: seq<Action>)
    requires Smooth(s) && LockHeld(s)
    ensures forall a <- actions :: HelpsRelease(a)
    ensures var t := NetRun(s, actions); t.reader.Dialing? && t.pending == map[] && !LockHeld(t)
    decreases |s.pending|, if s.reader.Failing? then 1 else 0
  {
    hide Justified, Echo, Answered;
    if s.reader.FailPushing? {
      var first := EntryGetsFailed(s);
      var t := NetRun(s, first);
      assert t.pending.Keys == s.pending.Keys - {s.reader.echo} && s.reader.echo in s.pending.Keys;
      assert |s.pending.Keys| == |t.pending.Keys| + 1;
      var rest := DisconnectFinishes(t);
      NetRunConcat(s, first, rest);
      actions := first + rest;
    } else if s.pending == map[] {
      OneAction(s, Release);
      actions := [Release];
    } else {
      var e :| e in s.pending;
      var t := NetStep(s, FailPick(e));
      StepIsSmooth(s, FailPick(e));
      var rest := DisconnectFinishes(t);
      actions := [FailPick(e)] + rest;
      assert actions[1..] == rest;
    }
  }

  // --- Stuck for ever ----------------------------------------------------------------------------

  /** The handler waits, lock in hand, for a slot whose owner has stopped listening. */
  predicate Wedged(s: Net) {
    && s.reader.FailPushing? && s.reader.echo in s.pending
    && var i := s.pending[s.reader.echo];
       i < |s.calls| && s.calls[i].slot.Some? && s.calls[i].pc.Leaving?
  }

  /** The reader waits, holding no lock, to put a reply into a slot whose owner has stopped listening. */
  predicate Jammed(s: Net) {
    && s.reader.Pushing? && s.reader.call < |s.calls|
    && var call := s.calls[s.reader.call];
       call.slot.Some? && (call.pc.Leaving? || call.pc.Done?)
  }

  /** Once wedged, always wedged: the lock is never released and the owner's `Send` never returns. */
  lemma {:induction false} WedgedForever(s: Net, actions: seq<Action>)
    requires Wedged(s)
    ensures var t := NetRun(s, actions);
            && Wedged(t) && LockHeld(t)
            && t.reader == s.reader && t.pending == s.pending
            && t.calls[s.pending[s.reader.echo]] == s.calls[s.pending[s.reader.echo]]
    decreases |actions|
  {
    if actions != [] {
      WedgedForever(NetStep(s, actions[0]), actions[1..]);
    }
  }

  /** Once jammed, always jammed: no frame is ever read again, and no disconnect is ever noticed. */
  lemma {:induction false} JammedForever(s: Net, actions: seq<Action>)
    requires Jammed(s)
    ensures var t := NetRun(s, actions); Jammed(t) && t.reader == s.reader && t.frames == s.frames
    decreases |actions|
  {
    if actions != [] {
      JammedForever(NetStep(s, actions[0]), actions[1..]);
    }
  }

  /** Where the owner of a full slot listens, the slot gets emptied and whoever waits for it fills it. */
  lemma RoomThenOne(s: Net, i: nat, a: Action) returns (actions: seq<Action>)
    requires i < |s.calls| && (s.calls[i].slot.None? || StillListening(s.calls[i].pc))
    ensures exists m: Net ::
            m.reader == s.reader && m.pending == s.pending && |m.calls| == |s.calls| && m.calls[i].slot.None? &&
                             NetRun(s, actions) == NetStep(m, a)
  {
    var room := OwnerMakesRoom(s, i);
    NetRunConcat(s, room, [a]);
    OneAction(NetRun(s, room), a);
    actions := room + [a];
  }

  /**
   Exactly when the disconnect handler can get past an entry, over every state a run can reach, cancellations and
   repeated answers included: the slot is empty or its owner still listens.
   */
  lemma FailPushFinishesIff(s: Net)
    requires Sound(s) && s.reader.FailPushing?
    ensures var call := s.calls[s.pending[s.reader.echo]];
            (call.slot.None? || StillListening(call.pc)) <==>
            exists actions :: s.reader.echo !in NetRun(s, actions).pending
  {
    hide Justified, Echo;
    var i := s.pending[s.reader.echo];
    if s.calls[i].slot.None? || StillListening(s.calls[i].pc) {
      var actions := RoomThenOne(s, i, FailPush);
      assert s.reader.echo !in NetRun(s, actions).pending;
    } else {
      forall actions ensures s.reader.echo in NetRun(s, actions).pending { WedgedForever(s, actions); }
    }
  }

  /** And exactly when the reader can get rid of a reply it is pushing: under the same condition. */
  lemma PushFinishesIff(s: Net)
    requires Sound(s) && s.reader.Pushing?
    ensures var call := s.calls[s.reader.call];
            (call.slot.None? || StillListening(call.pc)) <==> exists actions :: !NetRun(s, actions).reader.Pushing?
  {
    hide Justified, Echo;
    var i := s.reader.call;
    if s.calls[i].slot.None? || StillListening(s.calls[i].pc) {
      var actions := RoomThenOne(s, i, Push);
      assert NetRun(s, actions).reader.Reading?;
    } else {
      forall actions ensures NetRun(s, actions).reader.Pushing? { JammedForever(s, actions); }
    }
  }

  /**
   The reader and the disconnect handler are one goroutine. In every state a run can reach, that goroutine is stuck for
   ever if and only if it is wedged on an entry or jammed on a reply; in every other state some continuation moves it.
   */
  lemma ReaderStuckIff(s: Net)
    requires Sound(s)
    ensures Wedged(s) || Jammed(s) <==> forall actions :: NetRun(s, actions).reader == s.reader
  {
    hide Justified, Echo;
    if Wedged(s) {
      forall actions ensures NetRun(s, actions).reader == s.reader { WedgedForever(s, actions); }
    } else if Jammed(s) {
      forall actions ensures NetRun(s, actions).reader == s.reader { JammedForever(s, actions); }
    } else {
      var actions := ReaderMoves(s);
      assert NetRun(s, actions).reader != s.reader;
    }
  }

  /** Wherever the reader does not wait for a slot, one step of its own moves it. */
  lemma FreeReaderMoves(s: Net) returns (a: Action)
    requires !s.reader.Pushing? && !s.reader.FailPushing?
    ensures NetStep(s, a).reader != s.reader
  {
    hide ResultOfFrame;
    match s.reader {
      case Dialing => a := Connect;
      case Reading => a := Disconnect;
      case LookingUp(_) => a := Lookup;
      case Disconnected => a := TakeLock;
      case Failing =>
        if s.pending == map[] {
          a := Release;
        } else {
          var e :| e in s.pending;
          a := FailPick(e);
        }
    }
  }

  lemma ReaderMoves(s: Net) returns (actions: seq<Action>)
    requires Sound(s) && !Wedged(s) && !Jammed(s)
    ensures NetRun(s, actions).reader != s.reader
  {
    hide Justified, Echo, ResultOfFrame, AllJustified;
    if s.reader.Pushing? {
      actions := RoomThenOne(s, s.reader.call, Push);
    } else if s.reader.FailPushing? {
      actions := RoomThenOne(s, s.pending[s.reader.echo], FailPush);
    } else {
      var a := FreeReaderMoves(s);
      OneAction(s, a);
      actions := [a];
    }
  }

  // --- Both do happen ----------------------------------------------------------------------------

  /** Wherever a reply sits in the slot of a waiting `Send`, a cancellation and a disconnect wedge the gateway. */
  lemma CancelThenDisconnectWedges(s: Net, e: string)
    requires s.reader.Reading? && e in s.pending
    requires AtPc(s, s.pending[e], Waiting) && s.calls[s.pending[e]].slot.Some?
    ensures Wedged(NetRun(s, [Abandon(s.pending[e]), Disconnect, TakeLock, FailPick(e)]))
  {
    var i := s.pending[e];
    var actions := [Abandon(i), Disconnect, TakeLock, FailPick(e)];
    var left := Move(s, i, s.calls[i].(pc := Leaving(Problem(TIMEOUT_ERROR))));
    var states := [s, left, left.(reader := Disconnected), left.(reader := Failing), left.(reader := FailPushing(e))];
    StatesOfRun(actions, states);
  }

  /** And there a second answer with the same echo, before the cancellation, jams the reader. */
  lemma SecondAnswerThenCancelJams(s: Net, f: Frame)
    requires s.reader.Reading? && f.echo != "" && f.echo in s.pending
    requires AtPc(s, s.pending[f.echo], Waiting) && s.calls[s.pending[f.echo]].slot.Some?
    ensures Jammed(NetRun(s, [ReadFrame(f), Lookup, Abandon(s.pending[f.echo])]))
  {
    var i := s.pending[f.echo];
    var actions := [ReadFrame(f), Lookup, Abandon(i)];
    var read := s.(reader := LookingUp(f), frames := s.frames + [f]);
    var pushing := read.(reader := Pushing(i, ResultOfFrame(f)));
    var states := [s, read, pushing, Move(pushing, i, s.calls[i].(pc := Leaving(Problem(TIMEOUT_ERROR))))];
    StatesOfRun(actions, states);
  }

  /** The run that brings an answer into the slot of the first `Send` before it looks. */
  function EarlyReply(f: Frame): seq<Action> {
    [Start, Register(0), PutOnWire(0), WriteReturns(0), Connect, ReadFrame(f), Lookup, Push]
  }

  lemma EarlyReplyWaits(f: Frame)
    requires f.echo == Echo(1)
    ensures var s := NetRun(QUIET, EarlyReply(f));
            && s.reader.Reading? && s.pending == map[f.echo := 0] && AtPc(s, 0, Waiting) && s.calls[0].slot.Some?
  {
    hide Echo, ResultOfFrame;
    var e := f.echo;
    EchoIsNotEmpty();
    var call := Call(e, None, Waiting, false);
    var entry := map[e := 0];
    var states := [
      QUIET,
      Net(1, [call.(pc := Registering)], map[], Dialing, []),
      Net(1, [call.(pc := Writing)], entry, Dialing, []),
      Net(1, [call.(pc := Written)], entry, Dialing, []),
      Net(1, [call], entry, Dialing, []),
      Net(1, [call], entry, Reading, []),
      Net(1, [call], entry, LookingUp(f), [f]),
      Net(1, [call], entry, Pushing(0, ResultOfFrame(f)), [f]),
      Net(1, [call.(slot := Some(ResultOfFrame(f)))], entry, Reading, [f])];
    EarlyReplySteps(f, states);
    StatesOfRun(EarlyReply(f), states);
    assert NetRun(QUIET, EarlyReply(f)) == states[8];
  }

  lemma EarlyReplySteps(f: Frame, states: seq<Net>)
    requires f.echo == Echo(1) && f.echo != ""
    requires var call := Call(f.echo, None, Waiting, false);
             var entry := map[f.echo := 0];
             states == [
               QUIET,
               Net(1, [call.(pc := Registering)], map[], Dialing, []),
               Net(1, [call.(pc := Writing)], entry, Dialing, []),
               Net(1, [call.(pc := Written)], entry, Dialing, []),
               Net(1, [call], entry, Dialing, []),
               Net(1, [call], entry, Reading, []),
               Net(1, [call], entry, LookingUp(f), [f]),
               Net(1, [call], entry, Pushing(0, ResultOfFrame(f)), [f]),
               Net(1, [call.(slot := Some(ResultOfFrame(f)))], entry, Reading, [f])]
    ensures forall k :: 0 <= k < 8 ==> states[k + 1] == NetStep(states[k], EarlyReply(f)[k])
  {
    hide Echo, ResultOfFrame;
  }

  /** So both ways of getting stuck are reached from the start. */
  lemma StuckStatesAreReachable()
    ensures exists actions :: Wedged(NetRun(QUIET, actions))
    ensures exists actions :: Jammed(NetRun(QUIET, actions))
  {
    hide Echo, ResultOfFrame, Wedged, Jammed, NetRun, EarlyReply;
    var f := Frame(Echo(1), "ok", 0, "42", "");
    EchoIsNotEmpty();
    EarlyReplyWaits(f);
    var s := NetRun(QUIET, EarlyReply(f));
    assert s.pending[f.echo] == 0;
    CancelThenDisconnectWedges(s, f.echo);
    NetRunConcat(QUIET, EarlyReply(f), [Abandon(0), Disconnect, TakeLock, FailPick(f.echo)]);
    SecondAnswerThenCancelJams(s, f);
    NetRunConcat(QUIET, EarlyReply(f), [ReadFrame(f), Lookup, Abandon(0)]);
  }

  lemma EchoIsNotEmpty()
    ensures Echo(1) != ""
  {
  }

  /** A run given state by state. */
  lemma {:induction false} StatesOfRun(actions: seq<Action>, states: seq<Net>)
    requires |states| == |actions| + 1
    requires forall k :: 0 <= k < |actions| ==> states[k + 1] == NetStep(states[k], actions[k])
    ensures NetRun(states[0], actions) == states[|actions|]
    decreases |actions|
  {
    if actions != [] {
      StatesOfRun(actions[1..], states[1..]);
    }
  }
}
