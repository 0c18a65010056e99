/** Exactly-once ingestion: erasing every repeated save or enqueue from a run leaves its result identical. */
module Replay {
  import opened Options
  import opened Strings
  import opened Envelopes
  import opened Conversations
  import opened JobKeys
  import opened Queues
  import opened Tables
  import opened Effects
  import opened Bridge
  import opened BridgeRuns
  import opened Poison

  /** What makes two ingestion calls the same call; neither bodies nor times count, only identities do. */
  datatype Identity = OfMessage(cursor: Cursor) | OfCursor(cursor: Cursor) | OfEvent(id: string)

  function IdentityOf(cfg: Config, op: Op): Option<Identity> {
    match op
    case OnMessage(m, at, fate) => Some(OfMessage(m.cursor))
    case OnCursor(c, at, fate) => Some(OfCursor(c))
    case OnEvent(event, at, fate) =>
      var normal := NormalizeEnvelope(event.envelope);
      if normal.Failure? || normal.value.kind != Chat then None
      else Some(OfEvent(EventId(cfg, event.gatewayMessageId, normal.value, at)))
    case _ => None
  }

  /** The call's transaction was committed. */
  ghost predicate Committed(cfg: Config, s: Sys, op: Op) {
    match op
    case OnMessage(m, at, fate) => !fate.Fails? && SaveMessage(cfg, s.db, m, at).Success?
    case OnCursor(c, at, fate) => !fate.Fails?
    case OnEvent(event, at, fate) => !fate.Fails? && EnqueueEvent(cfg, s.db, event, at).Success?
    case _ => false
  }

  ghost predicate Recorded(db: Db, id: Identity) {
    match id
    case OfMessage(c) => HasMessage(db, c)
    case OfCursor(c) => c in db.seen
    case OfEvent(event) => HasEvent(db, event)
  }

  /** The run without the calls that repeat an earlier committed one; `done` holds the identities committed so far. */
  ghost function Erase(cfg: Config, s: Sys, ops: seq<Op>, done: set<Identity>): seq<Op>
    decreases |ops|
  {
    if ops == [] then []
    else
      var id := IdentityOf(cfg, ops[0]);
      if id.Some? && id.value in done then Erase(cfg, s, ops[1..], done)
      else
        var now := if id.Some? && Committed(cfg, s, ops[0]) then done + {id.value} else done;
        [ops[0]] + Erase(cfg, Step(cfg, s, ops[0]), ops[1..], now)
  }

  lemma RepeatChangesNothing(cfg: Config, s: Sys, op: Op)
    requires IdentityOf(cfg, op).Some? && Recorded(s.db, IdentityOf(cfg, op).value)
    ensures Step(cfg, s, op) == s
  {
    hide RouteEvent, EnqueueReceipt, IntakeOf, NormalizeEnvelope, EventId, Parse;
  }

  lemma CommittedMessageIsRecorded(cfg: Config, s: Sys, m: Message, at: int, fate: Fate)
    requires Core(cfg, s) && !fate.Fails?
    ensures HasMessage(Step(cfg, s, OnMessage(m, at, fate)).db, m.cursor)
  {
    hide ChatItem, IngestReceipt, Core, QueueStep, BindingsAfter, SaveMessage;
    var t := Step(cfg, s, OnMessage(m, at, fate));
    StepAddsDelta(cfg, s, OnMessage(m, at, fate));
    if HasMessage(s.db, m.cursor) {
      MessagesPersist(s.db, t.db, m.cursor);
    } else {
      assert t.db.messages[|s.db.messages|].message == m;
    }
  }

  /** A committed event that was not known before is stored as the last row. */
  lemma StoredEvent(cfg: Config, s: Sys, event: GatewayEvent, at: int, fate: Fate, e: BridgeEnvelope)
    requires Core(cfg, s) && !fate.Fails? && EnqueueEvent(cfg, s.db, event, at).Success?
    requires NormalizeEnvelope(event.envelope) == Success(e) && e.kind == Chat
    requires !HasEvent(s.db, EventId(cfg, event.gatewayMessageId, e, at))
    ensures var t := Step(cfg, s, OnEvent(event, at, fate));
            exists row :: t.db.events == s.db.events + [row] && row.envelope == e
                          && row.gatewayMessageId == EventId(cfg, event.gatewayMessageId, e, at)
                          && row.conversationKey == Key(e.conversation) && row.createdAt == at && row.updatedAt == at
  {
    hide NormalizeEnvelope, NormalEnvelope, EventId, EventItems, OrphansFor, UsersFor, Routable, EnqueueEvent, Core,
         HasEvent, HasOrphan, NewJobs, EventIsFresh;
    var id := EventId(cfg, event.gatewayMessageId, e, at);
    NextEventIsFresh(cfg, s);
    UnknownEventIsNoOrphan(cfg, s, id);
    EnqueueEventEffect(cfg, s.db, event, at, e, id);
    var row := EventRowFor(id, UsersFor(cfg, s.db, e), e, at);
    assert Step(cfg, s, OnEvent(event, at, fate)).db.events == s.db.events + [row];
  }

  lemma CommittedEventIsRecorded(cfg: Config, s: Sys, event: GatewayEvent, at: int, fate: Fate, e: BridgeEnvelope)
    requires Core(cfg, s) && !fate.Fails? && EnqueueEvent(cfg, s.db, event, at).Success?
    requires NormalizeEnvelope(event.envelope) == Success(e) && e.kind == Chat
    ensures HasEvent(Step(cfg, s, OnEvent(event, at, fate)).db, EventId(cfg, event.gatewayMessageId, e, at))
  {
    hide NormalizeEnvelope, EventId, Step, EnqueueEvent, Core, HasEvent;
    var op := OnEvent(event, at, fate);
    var id := EventId(cfg, event.gatewayMessageId, e, at);
    if HasEvent(s.db, id) {
      assert IdentityOf(cfg, op) == Some(OfEvent(id));
      RepeatChangesNothing(cfg, s, op);
    } else {
      StoredEvent(cfg, s, event, at, fate, e);
      LastEventIsThere(Step(cfg, s, op).db, id);
    }
  }

  lemma LastEventIsThere(db: Db, id: string)
    requires db.events != [] && db.events[|db.events| - 1].gatewayMessageId == id
    ensures HasEvent(db, id)
  {
  }

  lemma CommittedIsRecorded(cfg: Config, s: Sys, op: Op)
    requires Core(cfg, s) && IdentityOf(cfg, op).Some? && Committed(cfg, s, op)
    ensures Recorded(Step(cfg, s, op).db, IdentityOf(cfg, op).value)
  {
    hide NormalizeEnvelope, EventId, SaveMessage, EnqueueEvent, Core, HasMessage, HasEvent;
    match op
    case OnMessage(m, at, fate) => CommittedMessageIsRecorded(cfg, s, m, at, fate);
    case OnCursor(c, at, fate) =>
    case OnEvent(event, at, fate) => CommittedEventIsRecorded(cfg, s, event, at, fate,
                                                              NormalizeEnvelope(event.envelope).value);
  }

  lemma RecordedStays(cfg: Config, s: Sys, op: Op, id: Identity)
    requires Core(cfg, s) && Recorded(s.db, id)
    ensures Recorded(Step(cfg, s, op).db, id)
  {
    hide Core, Step, DeltaOf, QueueStep, BindingsAfter;
    var t := Step(cfg, s, op);
    StepAddsDelta(cfg, s, op);
    match id
    case OfMessage(c) => MessagesPersist(s.db, t.db, c);
    case OfCursor(c) =>
    case OfEvent(event) => EventsPersist(s.db, t.db, event);
  }

  lemma {:induction false} ErasureFrom(cfg: Config, s: Sys, ops: seq<Op>, done: set<Identity>)
    requires Core(cfg, s) && forall id <- done :: Recorded(s.db, id)
    ensures Run(cfg, s, Erase(cfg, s, ops, done)) == Run(cfg, s, ops)
    decreases |ops|
  {
    hide Core, Step, Recorded, Committed, IdentityOf;
    if ops != [] {
      var op := ops[0];
      var id := IdentityOf(cfg, op);
      if id.Some? && id.value in done {
        RepeatChangesNothing(cfg, s, op);
        ErasureFrom(cfg, s, ops[1..], done);
      } else {
        var t := Step(cfg, s, op);
        StepKeepsCore(cfg, s, op);
        forall other | other in done ensures Recorded(t.db, other) { RecordedStays(cfg, s, op, other); }
        if id.Some? && Committed(cfg, s, op) {
          CommittedIsRecorded(cfg, s, op);
          ErasureFrom(cfg, t, ops[1..], done + {id.value});
        } else {
          ErasureFrom(cfg, t, ops[1..], done);
        }
        var erased := Erase(cfg, s, ops, done);
        assert erased[0] == op && Run(cfg, s, erased) == Run(cfg, t, erased[1..]);
      }
    }
  }

  /**
   Exactly-once ingestion. Take any run and erase every `SaveMessage`, `SaveCursor` and `EnqueueInboundEvent` whose
   identity an earlier committed call already had, whatever happened in between: claims, deliveries, new bindings,
   failed writes or restarts. The whole system ends in the identical state.
   */
  lemma RepeatsCanBeErased(cfg: Config, ops: seq<Op>)
    ensures Run(cfg, INITIAL, Erase(cfg, INITIAL, ops, {})) == Run(cfg, INITIAL, ops)
  {
    InitialCore(cfg);
    ErasureFrom(cfg, INITIAL, ops, {});
  }

  /** Nothing is left to erase: in what remains, no call repeats an earlier committed one. */
  lemma {:induction false} ErasureIsComplete(cfg: Config, s: Sys, ops: seq<Op>, done: set<Identity>)
    ensures var rest := Erase(cfg, s, ops, done); Erase(cfg, s, rest, done) == rest
    decreases |ops|
  {
    hide Step, Committed, IdentityOf;
    if ops != [] {
      var op, id := ops[0], IdentityOf(cfg, ops[0]);
      if id.Some? && id.value in done {
        ErasureIsComplete(cfg, s, ops[1..], done);
      } else {
        var now := if id.Some? && Committed(cfg, s, op) then done + {id.value} else done;
        var tail := Erase(cfg, Step(cfg, s, op), ops[1..], now);
        ErasureIsComplete(cfg, Step(cfg, s, op), ops[1..], now);
        assert Erase(cfg, s, ops, done) == [op] + tail;
        assert ([op] + tail)[1..] == tail;
      }
    }
  }

  // --- Over runs ---------------------------------------------------------------------------------

  /** Step `i` of this run is a call that committed under identity `id`. */
  ghost predicate CommittedAs(cfg: Config, ops: seq<Op>, i: nat, id: Identity)
    requires i < |ops|
  {
    IdentityOf(cfg, ops[i]) == Some(id) && Committed(cfg, Run(cfg, INITIAL, ops[..i]), ops[i])
  }

  lemma OneStepRun(cfg: Config, s: Sys, op: Op)
    ensures Run(cfg, s, [op]) == Step(cfg, s, op)
  {
    hide Step;
    assert Run(cfg, s, [op]) == Run(cfg, Step(cfg, s, op), []);
  }

  lemma HasMessageIff(db: Db, next: Db, more: seq<MessageRow>, c: Cursor)
    requires next.messages == db.messages + more
    ensures HasMessage(next, c) <==> HasMessage(db, c) || exists row <- more :: row.message.cursor == c
  {
    if HasMessage(db, c) {
      MessagesPersist(db, next, c);
    }
    if row :| row in more && row.message.cursor == c {
      var j :| 0 <= j < |more| && more[j] == row;
      assert next.messages[|db.messages| + j] == row;
    }
  }

  lemma HasEventIff(db: Db, next: Db, more: seq<EventRow>, id: string)
    requires next.events == db.events + more
    ensures HasEvent(next, id) <==> HasEvent(db, id) || exists row <- more :: row.gatewayMessageId == id
  {
    if HasEvent(db, id) {
      EventsPersist(db, next, id);
    }
    if row :| row in more && row.gatewayMessageId == id {
      var j :| 0 <= j < |more| && more[j] == row;
      assert next.events[|db.events| + j] == row;
    }
  }

  /** Rows are added for nothing but a committed call, under its identity. */
  lemma NewRowsAreCommitted(cfg: Config, s: Sys, op: Op)
    requires Core(cfg, s)
    ensures forall row <- DeltaOf(cfg, s, op).messages ::
              IdentityOf(cfg, op) == Some(OfMessage(row.message.cursor)) && Committed(cfg, s, op)
    ensures forall row <- DeltaOf(cfg, s, op).events ::
              IdentityOf(cfg, op) == Some(OfEvent(row.gatewayMessageId)) && Committed(cfg, s, op)
  {
    hide NormalizeEnvelope, EventId, ChatItem, IngestReceipt, EventItems, OrphansFor, UsersFor, Routable, EnqueueEvent,
         SaveMessage, Core, HasEvent, HasMessage;
    match op
    case OnMessage(m, at, fate) => EveryMessageCommits(cfg, s.db, m, at);
    case OnEvent(event, at, fate) => EventCommitsIff(cfg, s.db, event, at);
    case _ =>
  }

  lemma RecordedAfterStep(cfg: Config, s: Sys, op: Op, id: Identity)
    requires Core(cfg, s)
    ensures Recorded(Step(cfg, s, op).db, id) <==>
            Recorded(s.db, id) || (IdentityOf(cfg, op) == Some(id) && Committed(cfg, s, op))
  {
    hide Core, Step, DeltaOf, QueueStep, BindingsAfter, HasMessage, HasEvent, IdentityOf, Committed;
    var t := Step(cfg, s, op);
    if Recorded(s.db, id) {
      RecordedStays(cfg, s, op, id);
    } else if IdentityOf(cfg, op) == Some(id) && Committed(cfg, s, op) {
      CommittedIsRecorded(cfg, s, op);
    } else {
      StepAddsDelta(cfg, s, op);
      NewRowsAreCommitted(cfg, s, op);
      HasMessageIff(s.db, t.db, DeltaOf(cfg, s, op).messages, if id.OfMessage? then id.cursor else Cursor(0, 0));
      HasEventIff(s.db, t.db, DeltaOf(cfg, s, op).events, if id.OfEvent? then id.id else "");
      CursorsAreCommitted(cfg, s, op);
    }
  }

  lemma CursorsAreCommitted(cfg: Config, s: Sys, op: Op)
    ensures op.OnCursor? && !op.fate.Fails? ==>
            IdentityOf(cfg, op) == Some(OfCursor(op.cursor)) && Committed(cfg, s, op)
  {
  }

  /** A run has recorded exactly the identities of its committed calls. */
  lemma {:induction false} RecordedIffCommitted(cfg: Config, ops: seq<Op>, id: Identity)
    ensures Recorded(Run(cfg, INITIAL, ops).db, id) <==> exists i :: 0 <= i < |ops| && CommittedAs(cfg, ops, i, id)
    decreases |ops|
  {
    hide Core, Step, Recorded, IdentityOf, Committed;
    if ops == [] {
      NothingRecordedAtFirst(id);
    } else {
      var n := |ops| - 1;
      var front := ops[..n];
      RecordedIffCommitted(cfg, front, id);
      InitialCore(cfg);
      RunKeepsCore(cfg, INITIAL, front);
      RunConcat(cfg, INITIAL, front, [ops[n]]);
      OneStepRun(cfg, Run(cfg, INITIAL, front), ops[n]);
      assert front + [ops[n]] == ops;
      RecordedAfterStep(cfg, Run(cfg, INITIAL, front), ops[n], id);
      forall i | 0 <= i < n ensures CommittedAs(cfg, ops, i, id) <==> CommittedAs(cfg, front, i, id) {
        assert front[..i] == ops[..i];
      }
      assert CommittedAs(cfg, ops, n, id) <==>
             IdentityOf(cfg, ops[n]) == Some(id) && Committed(cfg, Run(cfg, INITIAL, front), ops[n]);
    }
  }

  lemma NothingRecordedAtFirst(id: Identity)
    ensures !Recorded(INITIAL.db, id)
  {
  }

  /**
   Exactly when a call is taken for a repeat. After any run a call that commits changes nothing at all if and only if an
   earlier committed call of the run has its identity: for messages, cursors and events, with an id of their own or not.
   */
  lemma DroppedIffRepeated(cfg: Config, ops: seq<Op>, op: Op)
    requires IdentityOf(cfg, op).Some? && Committed(cfg, Run(cfg, INITIAL, ops), op)
    ensures Step(cfg, Run(cfg, INITIAL, ops), op) == Run(cfg, INITIAL, ops) <==>
            exists i :: 0 <= i < |ops| && CommittedAs(cfg, ops, i, IdentityOf(cfg, op).value)
  {
    hide Core, Step, Recorded, IdentityOf, Committed, CommittedAs;
    var s, id := Run(cfg, INITIAL, ops), IdentityOf(cfg, op).value;
    InitialCore(cfg);
    RunKeepsCore(cfg, INITIAL, ops);
    RecordedIffCommitted(cfg, ops, id);
    if Recorded(s.db, id) {
      RepeatChangesNothing(cfg, s, op);
    } else {
      CommittedIsRecorded(cfg, s, op);
    }
  }

  /**
   Among events without an id: after any run, one that commits is dropped if and only if an earlier committed event of
   the run has the id that is made up for it, from its conversation's digest and the millisecond.
   */
  lemma NamelessEventIsDroppedIffRepeated(cfg: Config, ops: seq<Op>, event: GatewayEvent, at: int)
    requires Nameless(event) && Committed(cfg, Run(cfg, INITIAL, ops), OnEvent(event, at, Commits))
    ensures var id := EventId(cfg, event.gatewayMessageId, event.envelope, at);
            Step(cfg, Run(cfg, INITIAL, ops), OnEvent(event, at, Commits)) == Run(cfg, INITIAL, ops) <==>
            exists i :: 0 <= i < |ops| && CommittedAs(cfg, ops, i, OfEvent(id))
  {
    hide Step, Committed, CommittedAs, EventId, NormalEnvelope, NormalizeEnvelope, Run;
    NormalizeEnvelopeFixes(event.envelope);
    DroppedIffRepeated(cfg, ops, OnEvent(event, at, Commits));
  }

  // --- Events with an id -------------------------------------------------------------------------

  /** The event's own name: what the gateway calls it, without padding, or else what its message is called. */
  predicate Named(event: GatewayEvent, id: string) {
    id != "" &&
    (TrimSpace(event.gatewayMessageId) == id || (Blank(event.gatewayMessageId) && event.envelope.messageRef.id == id))
  }

  /** No event stored so far has this name. */
  ghost predicate NewName(db: Db, id: string) {
    forall i :: 0 <= i < |db.events| ==> db.events[i].gatewayMessageId != id
  }

  lemma NameIsIdentity(cfg: Config, event: GatewayEvent, at: int, id: string, e: BridgeEnvelope)
    requires Named(event, id) && NormalizeEnvelope(event.envelope) == Success(e)
    ensures EventId(cfg, event.gatewayMessageId, e, at) == id
  {
    hide TrimSpace, Key;
  }

  lemma CommittedEventIsChat(cfg: Config, s: Sys, event: GatewayEvent, at: int, fate: Fate)
    requires Committed(cfg, s, OnEvent(event, at, fate))
    ensures NormalizeEnvelope(event.envelope).Success? && NormalizeEnvelope(event.envelope).value.kind == Chat
    ensures !fate.Fails? && EnqueueEvent(cfg, s.db, event, at).Success?
  {
    hide NormalizeEnvelope, EventId, RouteEvent, HasEvent, Key;
  }

  /**
   A committed event under a new name is stored as one more row: under that name, its conversation's key and its time.
   */
  lemma NamedEventIsStored(cfg: Config, s: Sys, event: GatewayEvent, at: int, fate: Fate, id: string)
    requires Core(cfg, s) && Committed(cfg, s, OnEvent(event, at, fate)) && Named(event, id) && NewName(s.db, id)
    ensures var t := Step(cfg, s, OnEvent(event, at, fate));
            && |t.db.events| == |s.db.events| + 1 && t.db.events[..|s.db.events|] == s.db.events
            && var row := t.db.events[|s.db.events|];
               && row.gatewayMessageId == id && Success(row.envelope) == NormalizeEnvelope(event.envelope)
               && row.conversationKey == Key(row.envelope.conversation) && row.createdAt == row.updatedAt == at
  {
    hide Core, Committed, NormalizeEnvelope, EventId, Step, EnqueueEvent, Named, Key;
    CommittedEventIsChat(cfg, s, event, at, fate);
    var e := NormalizeEnvelope(event.envelope).value;
    NameIsIdentity(cfg, event, at, id, e);
    StoredEvent(cfg, s, event, at, fate, e);
    var row :| Step(cfg, s, OnEvent(event, at, fate)).db.events == s.db.events + [row] && row.envelope == e
               && row.gatewayMessageId == id && row.conversationKey == Key(e.conversation)
               && row.createdAt == at && row.updatedAt == at;
  }

  lemma NamedRepeatChangesNothing(cfg: Config, s: Sys, event: GatewayEvent, at: int, fate: Fate, id: string)
    requires Committed(cfg, s, OnEvent(event, at, fate)) && Named(event, id) && !NewName(s.db, id)
    ensures Step(cfg, s, OnEvent(event, at, fate)) == s
  {
    hide Committed, NormalizeEnvelope, EventId, Step, EnqueueEvent, Named;
    CommittedEventIsChat(cfg, s, event, at, fate);
    NameIsIdentity(cfg, event, at, id, NormalizeEnvelope(event.envelope).value);
    RepeatChangesNothing(cfg, s, OnEvent(event, at, fate));
  }

  /** After any run a committing event changes nothing if and only if a row with that very name is already there. */
  lemma NamedEventIsDroppedIff(cfg: Config, ops: seq<Op>, event: GatewayEvent, at: int, fate: Fate, id: string)
    requires Committed(cfg, Run(cfg, INITIAL, ops), OnEvent(event, at, fate)) && Named(event, id)
    ensures var s := Run(cfg, INITIAL, ops);
            Step(cfg, s, OnEvent(event, at, fate)) == s <==> !NewName(s.db, id)
  {
    hide Core, Committed, Step, Named, Run, NewName;
    var s := Run(cfg, INITIAL, ops);
    InitialCore(cfg);
    RunKeepsCore(cfg, INITIAL, ops);
    if NewName(s.db, id) {
      NamedEventIsStored(cfg, s, event, at, fate, id);
    } else {
      NamedRepeatChangesNothing(cfg, s, event, at, fate, id);
    }
  }

  lemma SecondNameIsStored(cfg: Config, m: Sys, i: string, b: GatewayEvent, u: int, j: string)
    requires Core(cfg, m) && Committed(cfg, m, OnEvent(b, u, Commits)) && Named(b, j) && i != j
    requires |m.db.events| == 1 && m.db.events[0].gatewayMessageId == i
    ensures var s := Step(cfg, m, OnEvent(b, u, Commits));
            |s.db.events| == 2 && s.db.events[0].gatewayMessageId == i && s.db.events[1].gatewayMessageId == j
  {
    hide Core, Committed, NormalizeEnvelope, Step, Named, Key;
    NamedEventIsStored(cfg, m, b, u, Commits, j);
    var s := Step(cfg, m, OnEvent(b, u, Commits));
    assert s.db.events[..1][0] == s.db.events[0];
  }

  /** Two events under different names are both stored, whatever else they have in common. */
  lemma DifferentNamesAreBothStored(cfg: Config, a: GatewayEvent, t: int, i: string, b: GatewayEvent, u: int, j: string)
    requires Named(a, i) && Named(b, j) && i != j
    requires Committed(cfg, INITIAL, OnEvent(a, t, Commits))
    requires Committed(cfg, Step(cfg, INITIAL, OnEvent(a, t, Commits)), OnEvent(b, u, Commits))
    ensures var s := Step(cfg, Step(cfg, INITIAL, OnEvent(a, t, Commits)), OnEvent(b, u, Commits));
            |s.db.events| == 2 && s.db.events[0].gatewayMessageId == i && s.db.events[1].gatewayMessageId == j
  {
    hide Core, Committed, NormalizeEnvelope, Step, Named, Key;
    InitialCore(cfg);
    StepKeepsCore(cfg, INITIAL, OnEvent(a, t, Commits));
    NamedEventIsStored(cfg, INITIAL, a, t, Commits, i);
    SecondNameIsStored(cfg, Step(cfg, INITIAL, OnEvent(a, t, Commits)), i, b, u, j);
  }

  // --- Events without an id ----------------------------------------------------------------------

  /** A valid chat event that neither the gateway nor the message itself gives an id. */
  predicate Nameless(event: GatewayEvent) {
    NormalEnvelope(event.envelope) && event.envelope.kind == Chat && event.envelope.messageRef.id == "" &&
      Blank(event.gatewayMessageId)
  }

  /** The two ids are made from the same digest and the same millisecond. */
  predicate SameMadeUpId(cfg: Config, a: GatewayEvent, t: int, b: GatewayEvent, u: int) {
    cfg.hash(Key(a.envelope.conversation)) == cfg.hash(Key(b.envelope.conversation)) && t == u
  }

  lemma MadeUpId(cfg: Config, event: GatewayEvent, now: int)
    requires Nameless(event)
    ensures EventId(cfg, event.gatewayMessageId, event.envelope, now) ==
            ("event:" + cfg.hash(Key(event.envelope.conversation)) + ":0") + [':'] + Decimal(now)
  {
    hide NormalEnvelope, TrimSpace, Decimal, Key;
    PrintMadeUpCursor(now);
    var head := "event:" + cfg.hash(Key(event.envelope.conversation));
    assert head + ":" + ("0" + [':'] + Decimal(now)) == (head + ":0") + [':'] + Decimal(now);
  }

  lemma PrintMadeUpCursor(now: int)
    ensures PrintCursor(Cursor(0, now)) == "0" + [':'] + Decimal(now)
  {
    var parts := [Decimal(0), Decimal(now)];
    assert Decimal(0) == "0" by { assert Digits(0) == ['0']; }
    assert parts[1..] == [Decimal(now)];
    assert Join(':', parts) == parts[0] + [':'] + Join(':', parts[1..]);
  }

  /**
   Exactly when two events without an id are taken for one: the digests of their conversation keys agree and they are
   stored in the same millisecond. This holds for any digest, whatever characters it prints.
   */
  lemma MadeUpIdsAgreeIff(cfg: Config, a: GatewayEvent, t: int, b: GatewayEvent, u: int)
    requires Nameless(a) && Nameless(b)
    ensures EventId(cfg, a.gatewayMessageId, a.envelope, t) == EventId(cfg, b.gatewayMessageId, b.envelope, u) <==>
            SameMadeUpId(cfg, a, t, b, u)
  {
    hide Nameless, EventId, Decimal, DecimalValue, Key;
    MadeUpId(cfg, a, t);
    MadeUpId(cfg, b, u);
    var g, h := cfg.hash(Key(a.envelope.conversation)), cfg.hash(Key(b.envelope.conversation));
    var left, right := "event:" + g + ":0", "event:" + h + ":0";
    if left + [':'] + Decimal(t) == right + [':'] + Decimal(u) {
      DecimalHasNo(t, ':');
      DecimalHasNo(u, ':');
      TailIsDetermined(':', left, Decimal(t), right, Decimal(u));
      DecimalRoundTrip(t);
      DecimalRoundTrip(u);
      assert g == left[6..|left| - 2] && h == right[6..|right| - 2];
    }
  }

  /**
   What this means for the store. After an event without an id was committed, a second one that commits too is dropped,
   leaving everything as it was, if and only if the two share their made-up id or the second's was known before the
   first came; otherwise it is stored as a new event.
   */
  lemma NamelessEventIsDroppedIff(cfg: Config, s: Sys, a: GatewayEvent, t: int, b: GatewayEvent, u: int)
    requires Core(cfg, s) && Nameless(a) && Nameless(b)
    requires Committed(cfg, s, OnEvent(a, t, Commits))
    requires Committed(cfg, Step(cfg, s, OnEvent(a, t, Commits)), OnEvent(b, u, Commits))
    ensures var m := Step(cfg, s, OnEvent(a, t, Commits));
            var r := Step(cfg, m, OnEvent(b, u, Commits));
            var dropped := SameMadeUpId(cfg, a, t, b, u) ||
              HasEvent(s.db, EventId(cfg, b.gatewayMessageId, b.envelope, u));
            && (dropped <==> r == m)
            && (!dropped ==> |r.db.events| == |m.db.events| + 1 && r.db.events[|m.db.events|].envelope == b.envelope)
  {
    hide Step, Core, HasEvent, EventId, RouteEvent, SameMadeUpId, NormalEnvelope, Committed, NormalizeEnvelope;
    var m := Step(cfg, s, OnEvent(a, t, Commits));
    var idA, idB := EventId(cfg, a.gatewayMessageId, a.envelope, t), EventId(cfg, b.gatewayMessageId, b.envelope, u);
    NormalizeEnvelopeFixes(a.envelope);
    NormalizeEnvelopeFixes(b.envelope);
    MadeUpIdsAgreeIff(cfg, a, t, b, u);
    StepKeepsCore(cfg, s, OnEvent(a, t, Commits));
    EventsAfter(cfg, s, a, t);
    EventsAfter(cfg, m, b, u);
    assert HasEvent(m.db, idB) <==> idA == idB || HasEvent(s.db, idB);
  }

  lemma NormalizeEnvelopeFixes(e: BridgeEnvelope)
    requires NormalEnvelope(e)
    ensures NormalizeEnvelope(e) == Success(e)
  {
  }

  lemma CommittedEnqueues(cfg: Config, s: Sys, event: GatewayEvent, at: int)
    requires Committed(cfg, s, OnEvent(event, at, Commits))
    ensures EnqueueEvent(cfg, s.db, event, at).Success?
  {
    hide EnqueueEvent;
  }

  /** The events known after a committed enqueue, and whether it stored anything. */
  lemma EventsAfter(cfg: Config, s: Sys, event: GatewayEvent, at: int)
    requires Core(cfg, s) && Nameless(event) && Committed(cfg, s, OnEvent(event, at, Commits))
    ensures var t := Step(cfg, s, OnEvent(event, at, Commits));
            var id := EventId(cfg, event.gatewayMessageId, event.envelope, at);
            && (forall other :: HasEvent(t.db, other) <==> other == id || HasEvent(s.db, other))
            && (HasEvent(s.db, id) ==> t == s)
            && (!HasEvent(s.db, id) ==>
                |t.db.events| == |s.db.events| + 1 && t.db.events[|s.db.events|].envelope == event.envelope)
  {
    hide NormalEnvelope, EventId, EventItems, OrphansFor, UsersFor, Routable, RouteEvent, Core, HasOrphan, HasEvent,
         NewJobs, EventIsFresh, NormalizeEnvelope, Committed, Step;
    var op := OnEvent(event, at, Commits);
    var t := Step(cfg, s, op);
    var id := EventId(cfg, event.gatewayMessageId, event.envelope, at);
    NormalizeEnvelopeFixes(event.envelope);
    if HasEvent(s.db, id) {
      RepeatChangesNothing(cfg, s, op);
    } else {
      CommittedEnqueues(cfg, s, event, at);
      StoredEvent(cfg, s, event, at, Commits, event.envelope);
      forall other ensures HasEvent(t.db, other) <==> other == id || HasEvent(s.db, other) {
        EventInAppended(s.db, t.db, other);
      }
    }
  }

  lemma EventInAppended(db: Db, next: Db, id: string)
    requires |next.events| == |db.events| + 1 && next.events[..|db.events|] == db.events
    ensures HasEvent(next, id) <==> next.events[|db.events|].gatewayMessageId == id || HasEvent(db, id)
  {
    if HasEvent(db, id) {
      var i :| 0 <= i < |db.events| && db.events[i].gatewayMessageId == id;
      assert next.events[i] == next.events[..|db.events|][i];
    }
    if HasEvent(next, id) {
      var i :| 0 <= i < |next.events| && next.events[i].gatewayMessageId == id;
      assert i < |db.events| ==> next.events[i] == next.events[..|db.events|][i];
    }
  }

  function ChatEvent(text: string): GatewayEvent {
    var segment := Segment(Text, text, "", "", "", "", "", None);
    GatewayEvent("", BridgeEnvelope(ENVELOPE_VERSION, Chat, ConversationRef("qq", Group, "1", ""), [segment], None,
                                    MessageRef("", ""), map[]))
  }

  lemma ChatEventIsNameless(text: string)
    requires !Blank(text)
    ensures Nameless(ChatEvent(text))
  {
    var e := ChatEvent(text).envelope;
    assert ValidContent(e.content) <==> ValidSegment(e.content[0]);
  }

  /**
   Messages are lost that way, whatever the configuration: of two different events without an id that reach a fresh
   bridge in the same conversation and millisecond, the first is stored and nothing is left of the second.
   */
  lemma SecondNamelessEventIsLost(cfg: Config, a: GatewayEvent, b: GatewayEvent, at: int)
    requires Nameless(a) && Nameless(b) && a.envelope.conversation == b.envelope.conversation
    ensures var m := Step(cfg, INITIAL, OnEvent(a, at, Commits));
            var r := Step(cfg, m, OnEvent(b, at, Commits));
            && Committed(cfg, m, OnEvent(b, at, Commits)) && r == m
            && |r.db.events| == 1 && r.db.events[0].envelope == a.envelope
  {
    hide Step, Core, Committed, Nameless, HasEvent, EventId, Key;
    InitialCore(cfg);
    FirstEventCommits(cfg, a, at);
    var m := Step(cfg, INITIAL, OnEvent(a, at, Commits));
    NothingKnownAtFirst(EventId(cfg, a.gatewayMessageId, a.envelope, at));
    EventsAfter(cfg, INITIAL, a, at);
    MadeUpIdsAgreeIff(cfg, a, at, b, at);
    KnownEventCommits(cfg, m, b, at);
    StepKeepsCore(cfg, INITIAL, OnEvent(a, at, Commits));
    EventsAfter(cfg, m, b, at);
  }

  /** There are such events: two different texts in one group. */
  lemma NamelessEventIsLost(cfg: Config, at: int)
    ensures var a, b := ChatEvent("yes"), ChatEvent("no");
            var m := Step(cfg, INITIAL, OnEvent(a, at, Commits));
            var r := Step(cfg, m, OnEvent(b, at, Commits));
            && a != b && Committed(cfg, m, OnEvent(b, at, Commits)) && r == m
            && |r.db.events| == 1 && r.db.events[0].envelope == a.envelope != b.envelope
  {
    hide Step, Committed, Nameless;
    var a, b := ChatEvent("yes"), ChatEvent("no");
    assert !Blank("yes") by { VisibleTextIsNotBlank("yes", 0); }
    assert !Blank("no") by { VisibleTextIsNotBlank("no", 0); }
    ChatEventIsNameless("yes");
    ChatEventIsNameless("no");
    assert a.envelope != b.envelope by {
      assert a.envelope.content[0].text == "yes" && b.envelope.content[0].text == "no" && |"yes"| == 3 && |"no"| == 2;
    }
    SecondNamelessEventIsLost(cfg, a, b, at);
  }

  lemma NothingKnownAtFirst(id: string)
    ensures !HasEvent(INITIAL.db, id) && |INITIAL.db.events| == 0
  {
  }

  lemma FirstEventCommits(cfg: Config, event: GatewayEvent, at: int)
    requires Nameless(event)
    ensures Committed(cfg, INITIAL, OnEvent(event, at, Commits))
  {
    hide NormalEnvelope, NormalizeEnvelope, EventId, EnqueueEvent, RelayTargetsValid, Sorted, Key;
    NormalizeEnvelopeFixes(event.envelope);
    EventCommitsIff(cfg, INITIAL.db, event, at);
    NobodyIsBoundAtFirst(cfg, event.envelope);
  }

  lemma NobodyIsBoundAtFirst(cfg: Config, e: BridgeEnvelope)
    ensures UsersFor(cfg, INITIAL.db, e) == []
  {
    hide Key;
    assert BoundUsers(INITIAL.db.bindings, cfg.bridge, Key(e.conversation)) == {};
  }

  lemma KnownEventCommits(cfg: Config, s: Sys, event: GatewayEvent, at: int)
    requires Nameless(event) && HasEvent(s.db, EventId(cfg, event.gatewayMessageId, event.envelope, at))
    ensures Committed(cfg, s, OnEvent(event, at, Commits))
  {
    hide NormalEnvelope, NormalizeEnvelope, EventId, RouteEvent, HasEvent;
    NormalizeEnvelopeFixes(event.envelope);
  }

  /** In particular, in one conversation and one millisecond the second of two such events never changes anything. */
  lemma NamelessEventsCollide(cfg: Config, s: Sys, a: GatewayEvent, b: GatewayEvent, at: int)
    requires Core(cfg, s) && Nameless(a) && Nameless(b) && a.envelope.conversation == b.envelope.conversation
    ensures var t := Step(cfg, s, OnEvent(a, at, Commits)); Step(cfg, t, OnEvent(b, at, Commits)) == t
  {
    hide Step, RouteEvent, Core, NormalEnvelope, NormalizeEnvelope, QueueStep, EnqueueEvent, SaveMessage, HasEvent,
         RelayTargetsValid, EventId, Sorted, BoundUsers, Key;
    var op := OnEvent(a, at, Commits);
    NormalizeEnvelopeFixes(a.envelope);
    NormalizeEnvelopeFixes(b.envelope);
    MadeUpIdsAgreeIff(cfg, a, at, b, at);
    if Committed(cfg, s, op) {
      CommittedIsRecorded(cfg, s, op);
      RepeatChangesNothing(cfg, Step(cfg, s, op), OnEvent(b, at, Commits));
    } else {
      EventCommitsIff(cfg, s.db, a, at);
      EventCommitsIff(cfg, s.db, b, at);
      UncommittedChangesNothing(cfg, s, a, at);
      UncommittedChangesNothing(cfg, s, b, at);
    }
  }

  lemma UncommittedChangesNothing(cfg: Config, s: Sys, event: GatewayEvent, at: int)
    requires !Committed(cfg, s, OnEvent(event, at, Commits))
    ensures Step(cfg, s, OnEvent(event, at, Commits)) == s
  {
    hide EnqueueEvent;
  }
}
