/**
 Runs that show the routing conditions to be exact: misrouting by a shared key, and an orphan that a binding comes too
 late for.
 */
module Misrouting {
  import opened Envelopes
  import opened Conversations
  import opened JobKeys
  import opened Queues
  import opened Tables
  import opened Effects
  import opened Bridge
  import opened BridgeRuns
  import opened Bindings
  import opened FanOuts
  import opened Poison
  import opened Replay

  /** A one-word chat in conversation `c`. */
  function ChatIn(c: ConversationRef): BridgeEnvelope {
    ChatEvent("hi").envelope.(conversation := c)
  }

  lemma ChatInIsNormal(c: ConversationRef)
    requires NormalRef(c)
    ensures NormalEnvelope(ChatIn(c)) && ChatIn(c).kind == Chat && Nameless(GatewayEvent("", ChatIn(c)))
  {
    assert !Strings.Blank("hi") by { Strings.VisibleTextIsNotBlank("hi", 0); }
    ChatEventIsNameless("hi");
  }

  /** User `u` writes to the bridge in conversation `c`. */
  function Writes(cfg: Config, u: UserRef, c: ConversationRef, at: int): Op {
    OnMessage(Message(Cursor(0, 1), cfg.bridge, u, Envelope(ChatIn(c)), ""), at, Commits)
  }

  /** Somebody writes to conversation `c` in QQ. */
  function Happens(c: ConversationRef, at: int): Op {
    OnEvent(GatewayEvent("", ChatIn(c)), at, Commits)
  }

  /** The user has sent the bridge a chat for this conversation, no thread counting as the thread `-`. */
  ghost predicate WroteTo(cfg: Config, archive: seq<MessageRow>, u: UserRef, c: ConversationRef) {
    exists row <- archive :: IntakeOf(cfg, row.message).ChatMessage? && row.message.sender == u &&
                             SameButNoThread(ConversationOf(cfg, row.message), c)
  }

  /** In this run every event of conversation `c` is queued for none but users who had written to `c`. */
  ghost predicate RoutedRight(cfg: Config, ops: seq<Op>, c: ConversationRef) {
    var s := Run(cfg, INITIAL, ops);
    forall k: nat, u ::
      k < |s.db.events| && k < |s.archives| && s.db.events[k].envelope.conversation == c && HasInbound(s.db, k, u) ==>
        WroteTo(cfg, s.archives[k], u, c)
  }

  lemma TwoSteps(cfg: Config, s: Sys, a: Op, b: Op)
    ensures Run(cfg, s, [a, b]) == Step(cfg, Step(cfg, s, a), b)
  {
    hide Step;
    assert [a, b][1..] == [b];
    OneStepRun(cfg, Step(cfg, s, a), b);
  }

  /** A chat from a user other than the bridge is archived as such. */
  lemma WritingArchives(cfg: Config, s: Sys, u: UserRef, c: ConversationRef, at: int)
    requires Core(cfg, s) && NormalRef(c) && u != cfg.bridge && s.db.messages == []
    ensures var m := Writes(cfg, u, c, at).message;
            var t := Step(cfg, s, Writes(cfg, u, c, at));
            && IntakeOf(cfg, m) == ChatMessage(ChatIn(c)) && t.db.messages == [MessageRow(m, at)]
            && Core(cfg, t) && t.db.events == s.db.events && t.archives == s.archives && DelQ(t) == DelQ(s)
  {
    hide Core, Step, NormalEnvelope, NormalizeEnvelope, BindingsAfter, ChatIn;
    var m := Writes(cfg, u, c, at).message;
    ChatInIsNormal(c);
    ParsesAsItself(ChatIn(c));
    StepKeepsCore(cfg, s, Writes(cfg, u, c, at));
    StepAddsDelta(cfg, s, Writes(cfg, u, c, at));
    InsertNothing(DelQ(s), at);
    assert IngestReceipt(cfg, m) == [];
  }

  /** Under a valid relay configuration an event that is new is stored, with the archive as it stands. */
  lemma HappeningIsStored(cfg: Config, s: Sys, c: ConversationRef, at: int)
    requires Core(cfg, s) && NormalRef(c) && s.db.events == [] && RelayConfigValid(cfg.peers)
    ensures var t := Step(cfg, s, Happens(c, at));
            && |t.db.events| == 1 && t.db.events[0].envelope == ChatIn(c) && t.archives == [s.db.messages]
            && t.db.messages == s.db.messages && Core(cfg, t)
  {
    hide Core, Step, NormalEnvelope, NormalizeEnvelope, EnqueueEvent, ChatIn, DeltaOf, QueueStep, BindingsAfter,
         RelayConfigValid, Nameless, EventId;
    var event := GatewayEvent("", ChatIn(c));
    ChatInIsNormal(c);
    NormalizeEnvelopeFixes(ChatIn(c));
    ValidConfigNeverBlocks(cfg, s.db, event, at);
    assert !HasEvent(s.db, EventId(cfg, "", ChatIn(c), at));
    StoredEvent(cfg, s, event, at, Commits, ChatIn(c));
    StepKeepsCore(cfg, s, Happens(c, at));
    StepAddsDelta(cfg, s, Happens(c, at));
    NewMessageIsNew(cfg, s, Happens(c, at));
    EventStepArchives(cfg, s, c, at);
  }

  lemma EventStepArchives(cfg: Config, s: Sys, c: ConversationRef, at: int)
    requires Core(cfg, s) && s.db.events == []
    ensures var t := Step(cfg, s, Happens(c, at));
            && t.db.messages == s.db.messages
            && (t.db.events != [] ==> t.archives == [s.db.messages])
  {
    hide EnqueueEvent;
    StepAddsDelta(cfg, s, Happens(c, at));
    CoreIsSafe(cfg, s);
  }

  /** A user who writes to one conversation gets the events of every other one with the same key. */
  lemma SharedKeyMisroutes(cfg: Config, u: UserRef, b: ConversationRef, c: ConversationRef)
    requires NormalRef(b) && NormalRef(c) && Key(b) == Key(c) && !SameButNoThread(b, c)
    requires u != cfg.bridge && RelayConfigValid(cfg.peers)
    ensures !RoutedRight(cfg, [Writes(cfg, u, b, 0), Happens(c, 1)], c)
  {
    hide Core, Step, NormalRef, ChatIn, Key, RelayConfigValid, HasInbound, SameButNoThread;
    var ops := [Writes(cfg, u, b, 0), Happens(c, 1)];
    InitialCore(cfg);
    TwoSteps(cfg, INITIAL, ops[0], ops[1]);
    WritingArchives(cfg, INITIAL, u, b, 0);
    var m := Step(cfg, INITIAL, ops[0]);
    HappeningIsStored(cfg, m, c, 1);
    EventsReachTheirKey(cfg, ops, 0, u);
    ChatsCarryTheirConversation(b);
    ChatsCarryTheirConversation(c);
    var s := Run(cfg, INITIAL, ops);
    var row := m.db.messages[0];
    assert s.archives[0] == [row] && row in s.archives[0];
    assert ConversationOf(cfg, row.message) == b;
    assert HasInbound(s.db, 0, u) && !WroteTo(cfg, s.archives[0], u, c);
  }

  lemma ChatsCarryTheirConversation(c: ConversationRef)
    ensures ChatIn(c).conversation == c
  {
  }

  /**
   The exact condition for routing by key to be routing by conversation: whatever else happens, the events of a
   conversation reach none but those who wrote to it, if and only if its key reads in one way only.
   */
  lemma RoutedRightIff(cfg: Config, c: ConversationRef, u: UserRef)
    requires NormalRef(c) && u != cfg.bridge && RelayConfigValid(cfg.peers)
    ensures OneReading(c) <==> forall ops :: RoutedRight(cfg, ops, c)
  {
    hide Step, Key, HasInbound, SameButNoThread, OneReading, NormalRef, RelayConfigValid, RoutedRight;
    if OneReading(c) {
      forall ops ensures RoutedRight(cfg, ops, c) { OneReadingRoutesRight(cfg, ops, c); }
    } else {
      OneReadingIff(c);
      var b :| NormalRef(b) && Key(b) == Key(c) && !SameButNoThread(b, c);
      SharedKeyMisroutes(cfg, u, b, c);
    }
  }

  lemma OneReadingRoutesRight(cfg: Config, ops: seq<Op>, c: ConversationRef)
    requires OneReading(c)
    ensures RoutedRight(cfg, ops, c)
  {
    hide Step, Key, HasInbound, SameButNoThread, OneReading, Run;
    var s := Run(cfg, INITIAL, ops);
    forall k: nat, u |
      k < |s.db.events| && k < |s.archives| && s.db.events[k].envelope.conversation == c && HasInbound(s.db, k, u)
      ensures WroteTo(cfg, s.archives[k], u, c)
    {
      EventsReachTheirConversation(cfg, ops, k, u);
    }
  }

  // --- Too late ----------------------------------------------------------------------------------

  /**
   An orphan and a binding that comes too late: the event fails, then a user writes to its very conversation and is
   bound, and still the event stays failed and nothing is queued for anybody.
   */
  lemma LateBindingDoesNotHelp(cfg: Config, u: UserRef, c: ConversationRef)
    requires NormalRef(c) && u != cfg.bridge && RelayConfigValid(cfg.peers)
    ensures var t := Run(cfg, INITIAL, [Happens(c, 0), Writes(cfg, u, c, 1)]);
            && |t.db.events| == 1 && t.db.events[0].envelope == ChatIn(c) && t.db.events[0].status == Failed
            && u in BoundUsers(t.db.bindings, cfg.bridge, Key(c))
            && t.db.deliveries == []
  {
    hide Core, Step, NormalRef, ChatIn, Key, RelayConfigValid, BoundUsers;
    var ops := [Happens(c, 0), Writes(cfg, u, c, 1)];
    InitialCore(cfg);
    TwoSteps(cfg, INITIAL, ops[0], ops[1]);
    HappeningIsStored(cfg, INITIAL, c, 0);
    var m := Step(cfg, INITIAL, ops[0]);
    FirstEventIsAnOrphan(cfg, c, 0);
    WritingArchives(cfg, m, u, c, 1);
    var t := Run(cfg, INITIAL, ops);
    BindingsIndexTheArchive(cfg, ops);
    BoundUsersAreSenders(cfg, t.db.messages, t.db.bindings, Key(c));
    SendersToTheKey(cfg, t.db.messages, c, u);
    ChatsCarryTheirConversation(c);
    assert t.db.messages[0] in t.db.messages;
  }

  lemma FirstEventDelta(cfg: Config, c: ConversationRef, at: int)
    requires NormalRef(c)
    ensures var d := DeltaOf(cfg, INITIAL, Happens(c, at));
            d.deliveries == [] && forall event <- d.events :: event.status == Failed
  {
    hide NormalRef, ChatIn, EventId, UsersFor, NormalEnvelope, NormalizeEnvelope, Key, RelayTargetsValid, HasEvent;
    ChatInIsNormal(c);
    NobodyIsBoundAtFirst(cfg, ChatIn(c));
    NormalizeEnvelopeFixes(ChatIn(c));
  }

  lemma FirstEventIsAnOrphan(cfg: Config, c: ConversationRef, at: int)
    requires NormalRef(c)
    ensures var t := Step(cfg, INITIAL, Happens(c, at));
            t.db.deliveries == [] && forall event <- t.db.events :: event.status == Failed
  {
    hide NormalRef, ChatIn, DeltaOf, Step, BindingsAfter, Core;
    InitialCore(cfg);
    FirstEventDelta(cfg, c, at);
    StepAddsDelta(cfg, INITIAL, Happens(c, at));
    InsertNothing(DelQ(INITIAL), at);
  }
}
