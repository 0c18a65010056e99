/** No input can wedge ingestion: exactly which transactions can refuse to commit, and why none does for long. */
module Poison {
  import opened Options
  import opened Strings
  import opened Envelopes
  import opened Conversations
  import opened JobKeys
  import opened Queues
  import opened Tables
  import opened Effects
  import opened Bridge

  lemma ReceiptsCommit(db: Db, target: UserRef, c: ConversationRef, messageRef: MessageRef, code: ReceiptCode,
                       text: string, now: int, jobKey: string)
    ensures EnqueueReceipt(db, target, c, messageRef, code, text, now, jobKey).Success? <==> !Blank(text)
  {
    hide Blank, NormalEnvelope, ReceiptConversation, NewReceiptEnvelope;
    ReceiptIsNormal(ReceiptConversation(c), messageRef, code, text);
    ReceiptNormalizes(ReceiptConversation(c), messageRef, code, text);
  }

  lemma ReceiptNormalizes(c: ConversationRef, messageRef: MessageRef, code: ReceiptCode, text: string)
    requires NormalRef(c)
    ensures NormalizeEnvelope(NewReceiptEnvelope(c, messageRef, code, text)).Success? <==> !Blank(text)
  {
    var e := NewReceiptEnvelope(c, messageRef, code, text);
    assert ValidContent(e.content) <==> ValidSegment(e.content[0]);
  }

  /** `SaveMessage` commits on every state for every message, whatever its body holds: there is no poison message. */
  lemma EveryMessageCommits(cfg: Config, db: Db, m: Message, now: int)
    ensures SaveMessage(cfg, db, m, now).Success?
  {
    hide Blank, Print, PrintCursor, InvalidText, WrongKindText, EnqueueReceipt, Key;
    var saved := db.(messages := db.messages + [MessageRow(m, now)]);
    match Parse(m.body)
    case Failure(problem) =>
      IngestTextsAreVisible(problem, Chat);
      ReceiptsCommit(saved, m.sender, FallbackConversation(), MessageRef(PrintCursor(m.cursor), ""), UnsupportedContent,
                     InvalidText(problem), now, Print(ReceiptKey(m.cursor, InvalidReceipt)));
    case Success(e) =>
      IngestTextsAreVisible("", e.kind);
      ReceiptsCommit(saved, m.sender, e.conversation, e.messageRef, UnsupportedContent, WrongKindText(e.kind), now,
                     Print(ReceiptKey(m.cursor, KindReceipt)));
  }

  /** The outbound loop can always record its receipt, whatever error the gateway returned. */
  lemma EveryDeliveryReceiptCommits(db: Db, job: HeldJob<OutboundItem>, error: BridgeError, now: int)
    ensures QueueReceipt(db, job, error, now).Success?
  {
    hide Blank, ErrorText, EnqueueReceipt;
    ErrorTextIsVisible(error);
    var e := job.item.envelope;
    ReceiptsCommit(db, job.item.sender, e.conversation, e.messageRef, error.code, ErrorText(error), now,
                   Print(ReceiptKey(job.item.source, DeliveryReceipt)));
  }

  lemma {:induction false} UsersAlwaysCommit(db: Db, eventId: int, users: seq<UserRef>, e: BridgeEnvelope, now: int)
    requires NormalEnvelope(e)
    ensures DeliverToUsers(db, eventId, users, e, now).Success?
    decreases |users|
  {
    hide Print, NormalEnvelope, NormalizeEnvelope;
    if users != [] {
      var item := DeliveryItem(Print(InboundKey(eventId, users[0])), InboundDelivery, users[0], e);
      UsersAlwaysCommit(InsertDelivery(db, item, now), eventId, users[1..], e, now);
    }
  }

  lemma {:induction false} RelaysCommitIff(db: Db, eventId: int, peers: seq<Peer>, i: nat, e: BridgeEnvelope, now: int)
    requires NormalEnvelope(e) && i <= |peers|
    ensures RelayToPeers(db, eventId, peers, i, e, now).Success? <==> RelayTargetsValid(peers, i, e.conversation)
    decreases |peers| - i
  {
    hide Print, NormalizeRef;
    if i < |peers| {
      var moved := e.(conversation := peers[i].toConversation);
      var next :=
        EnqueueDelivery(db, Print(RelayKey(eventId, i, peers[i].user)), RelayDelivery, peers[i].user, moved, now);
      if !Matches(e.conversation, peers[i].fromConversation) {
        RelaysCommitIff(db, eventId, peers, i + 1, e, now);
      } else if next.Success? {
        RelaysCommitIff(next.value, eventId, peers, i + 1, e, now);
      }
    }
  }

  /** Exactly which events commit: valid chats that are already known, bound to nobody, or relayed to usable targets. */
  lemma EventCommitsIff(cfg: Config, db: Db, event: GatewayEvent, now: int)
    ensures EnqueueEvent(cfg, db, event, now).Success? <==>
            var normal := NormalizeEnvelope(event.envelope);
            normal.Success? && normal.value.kind == Chat &&
            (HasEvent(db, EventId(cfg, event.gatewayMessageId, normal.value, now)) ||
             Routable(cfg, UsersFor(cfg, db, normal.value), normal.value))
  {
    hide NormalEnvelope, NormalizeRef, EventId, DeliverToUsers, RelayToPeers, RelayTargetsValid, BoundUsers, Sorted,
         Key, HasEvent;
    var normal := NormalizeEnvelope(event.envelope);
    if normal.Success? && normal.value.kind == Chat {
      var e := normal.value;
      var id := EventId(cfg, event.gatewayMessageId, e, now);
      var stored := db.(events := db.events + [EventRow(id, Key(e.conversation), e, Pending, now, now)]);
      var users := UsersFor(cfg, db, e);
      UsersAlwaysCommit(stored, |db.events| + 1, users, e, now);
      var delivered := DeliverToUsers(stored, |db.events| + 1, users, e, now).value;
      RelaysCommitIff(delivered, |db.events| + 1, cfg.peers, 0, e, now);
    }
  }

  /** What `Validate` checks of the relay section. */
  predicate RelayConfigValid(peers: seq<Peer>) {
    forall i :: 0 <= i < |peers| ==>
      && peers[i].user.nodeId != 0 && peers[i].user.userId != 0
      && ValidPattern(peers[i].fromConversation) && ValidPattern(peers[i].toConversation)
  }

  /**
   Under a relay configuration that passed `Validate`, in spite of its peers being stored un-normalised, an event
   commits if and only if it is a valid chat.
   */
  lemma ValidConfigNeverBlocks(cfg: Config, db: Db, event: GatewayEvent, now: int)
    requires RelayConfigValid(cfg.peers)
    ensures EnqueueEvent(cfg, db, event, now).Success? <==>
            NormalizeEnvelope(event.envelope).Success? && event.envelope.kind == Chat
  {
    hide NormalizeRef, EnqueueEvent, UsersFor, EventId, HasEvent, Matches;
    EventCommitsIff(cfg, db, event, now);
  }

  /** The relay part of `Config.Validate`: a scan that normalises a copy of each peer's conversations. */
  method ValidateRelay(peers: seq<Peer>) returns (problem: Option<string>)
    ensures problem.None? <==> RelayConfigValid(peers)
    ensures problem.None? <==> forall peer <- peers ::
              && peer.user.nodeId != 0 && peer.user.userId != 0
              && !peer.fromConversation.scene.UnknownScene? && !Blank(peer.fromConversation.chatId)
              && !peer.toConversation.scene.UnknownScene? && !Blank(peer.toConversation.chatId)
  {
    hide NormalizeRef, Decimal;
    for i := 0 to |peers|
      invariant RelayConfigValid(peers[..i])
    {
      var peer := peers[i];
      assert peers[..i + 1] == peers[..i] + [peer];
      if peer.user.nodeId == 0 || peer.user.userId == 0 {
        return Some("relay.peer_bridges[" + Decimal(i) + "].peer_node_id and peer_user_id are required");
      }
      var fromCopy := new ConversationRefVar(peer.fromConversation);
      var p := fromCopy.NormalizeAndValidate();
      if p.Some? {
        return Some("relay.peer_bridges[" + Decimal(i) + "].from_conversation: " + p.value);
      }
      var toCopy := new ConversationRefVar(peer.toConversation);
      p := toCopy.NormalizeAndValidate();
      if p.Some? {
        return Some("relay.peer_bridges[" + Decimal(i) + "].to_conversation: " + p.value);
      }
    }
    assert peers[..|peers|] == peers;
    return None;
  }

  // --- Receipts answer receipts ------------------------------------------------------------------

  /**
   Exactly which messages are answered on arrival: those for the bridge that do not parse, or that parse as anything but
   chat, receipts among them. The answer is one valid receipt to the sender.
   */
  lemma AnsweredIff(cfg: Config, m: Message)
    ensures IngestReceipt(cfg, m) != [] <==>
            m.recipient == cfg.bridge && m.sender != cfg.bridge &&
              (Parse(m.body).Failure? || Parse(m.body).value.kind != Chat)
    ensures |IngestReceipt(cfg, m)| <= 1
    ensures forall answer <- IngestReceipt(cfg, m) ::
              NormalEnvelope(answer.envelope) && answer.envelope.kind == Receipt && answer.target == m.sender
  {
    hide Print, Parse, InvalidText, WrongKindText, PrintCursor, ReceiptConversation, NormalEnvelope;
    IngestReceiptIsNormal(cfg, m);
  }

  /** In particular a receipt that reaches a bridge is answered with a receipt to its sender. */
  lemma ReceiptIsAnswered(cfg: Config, m: Message, e: BridgeEnvelope)
    requires m.body == Envelope(e) && NormalEnvelope(e) && e.kind == Receipt
    requires m.recipient == cfg.bridge && m.sender != cfg.bridge
    ensures |IngestReceipt(cfg, m)| == 1
    ensures var answer := IngestReceipt(cfg, m)[0];
            NormalEnvelope(answer.envelope) && answer.envelope.kind == Receipt && answer.target == m.sender &&
            answer.jobKey == Print(ReceiptKey(m.cursor, KindReceipt))
  {
    hide Print, WrongKindText, InvalidText, PrintCursor, ReceiptConversation, IngestReceipt, NormalEnvelope;
    ParsesAsItself(e);
    AnsweredIff(cfg, m);
    var answer := IngestReceipt(cfg, m)[0];
    assert answer in IngestReceipt(cfg, m);
    KindReceiptKeyed(cfg, m);
  }

  lemma ParsesAsItself(e: BridgeEnvelope)
    requires NormalEnvelope(e)
    ensures Parse(Envelope(e)) == Success(e)
  {
  }

  lemma KindReceiptKeyed(cfg: Config, m: Message)
    requires IntakeOf(cfg, m).OtherKind?
    ensures |IngestReceipt(cfg, m)| == 1 && IngestReceipt(cfg, m)[0].jobKey == Print(ReceiptKey(m.cursor, KindReceipt))
  {
    hide Print, Parse, WrongKindText, ReceiptConversation;
  }
}
