/**
 What a committed transaction amounts to when none of its `INSERT OR IGNORE` statements meets a conflict: a plain
 description of the new rows, with the lemmas that reduce the statement-by-statement definitions to it.
 */
module Effects {
  import opened Options
  import opened Strings
  import opened Envelopes
  import opened Conversations
  import opened JobKeys
  import opened Queues
  import opened Tables

  // --- Intake of a message -----------------------------------------------------------------------

  datatype Intake = NotOurs | InvalidBody(problem: string) | OtherKind(envelope: BridgeEnvelope)
    | ChatMessage(envelope: BridgeEnvelope)

  function IntakeOf(cfg: Config, m: Message): Intake {
    if !ForBridge(cfg, m) then NotOurs
    else
      match Parse(m.body)
      case Failure(problem) => InvalidBody(problem)
      case Success(e) => if e.kind == Chat then ChatMessage(e) else OtherKind(e)
  }

  /** The outbound job a message gives rise to, if any. */
  function ChatItem(cfg: Config, m: Message): seq<OutboundItem> {
    match IntakeOf(cfg, m)
    case ChatMessage(e) => [OutboundOf(m, e)]
    case _ => []
  }

  /** The receipt a message is answered with on arrival, if any. */
  function IngestReceipt(cfg: Config, m: Message): seq<DeliveryItem> {
    match IntakeOf(cfg, m)
    case InvalidBody(problem) =>
      [ReceiptItem(m.sender, FallbackConversation(), MessageRef(PrintCursor(m.cursor), ""), UnsupportedContent,
                   InvalidText(problem), ReceiptKey(m.cursor, InvalidReceipt))]
    case OtherKind(e) =>
      [ReceiptItem(m.sender, e.conversation, e.messageRef, UnsupportedContent, WrongKindText(e.kind),
                   ReceiptKey(m.cursor, KindReceipt))]
    case _ => []
  }

  /** The key of the receipt a message could get on arrival. */
  function IngestKey(cfg: Config, m: Message): JobKey {
    ReceiptKey(m.cursor, if IntakeOf(cfg, m).InvalidBody? then InvalidReceipt else KindReceipt)
  }

  function BindingsAfter(cfg: Config, db: Db, m: Message, now: int): map<BindingKey, Binding> {
    match IntakeOf(cfg, m)
    case ChatMessage(e) => UpsertBinding(db, cfg.bridge, m.sender, e.conversation, now).bindings
    case _ => db.bindings
  }

  lemma IngestTextsAreVisible(problem: string, kind: EnvelopeKind)
    ensures !Blank(InvalidText(problem)) && !Blank(WrongKindText(kind))
  {
    hide Quote, KindName;
    VisibleTextIsNotBlank(InvalidText(problem), 0);
    VisibleTextIsNotBlank(WrongKindText(kind), 0);
  }

  lemma ReceiptItemIsNormal(target: UserRef, c: ConversationRef, messageRef: MessageRef, code: ReceiptCode,
                            text: string, jobKey: JobKey)
    ensures NormalEnvelope(ReceiptItem(target, c, messageRef, code, text, jobKey).envelope) <==> !Blank(text)
  {
    ReceiptIsNormal(ReceiptConversation(c), messageRef, code, text);
  }

  lemma IngestReceiptIsNormal(cfg: Config, m: Message)
    ensures forall item <- IngestReceipt(cfg, m) :: NormalEnvelope(item.envelope)
  {
    hide NormalEnvelope, NormalRef, Blank, InvalidText, WrongKindText, PrintCursor, Print, NewReceiptEnvelope,
         ReceiptConversation;
    match IntakeOf(cfg, m)
    case InvalidBody(problem) =>
      IngestTextsAreVisible(problem, Chat);
      ReceiptItemIsNormal(m.sender, FallbackConversation(), MessageRef(PrintCursor(m.cursor), ""), UnsupportedContent,
                          InvalidText(problem), ReceiptKey(m.cursor, InvalidReceipt));
    case OtherKind(e) =>
      IngestTextsAreVisible("", e.kind);
      ReceiptItemIsNormal(m.sender, e.conversation, e.messageRef, UnsupportedContent, WrongKindText(e.kind),
                          ReceiptKey(m.cursor, KindReceipt));
    case _ =>
  }

  /** A receipt with visible text and a fresh key always gets in. */
  lemma ReceiptEnqueues(db: Db, target: UserRef, c: ConversationRef, messageRef: MessageRef, code: ReceiptCode,
                        text: string, now: int, jobKey: JobKey)
    requires !Blank(text) && !HasJobKey(db.deliveries, Print(jobKey))
    ensures EnqueueReceipt(db, target, c, messageRef, code, text, now, Print(jobKey)) ==
            Success(db.(deliveries := db.deliveries +
                        NewJobs([ReceiptItem(target, c, messageRef, code, text, jobKey)], now)))
  {
    hide Print, Blank, HasJobKey, NormalEnvelope, NormalizeEnvelope, NewReceiptEnvelope, ReceiptConversation;
    var item := ReceiptItem(target, c, messageRef, code, text, jobKey);
    ReceiptItemIsNormal(target, c, messageRef, code, text, jobKey);
    assert NewJobs([item], now) == [NewJob(item, now)];
  }

  /** A first save with fresh keys commits exactly: the message, its binding, and its one job or receipt. */
  lemma SaveMessageEffect(cfg: Config, db: Db, m: Message, now: int)
    requires !HasMessage(db, m.cursor) && !HasSource(db.outbound, m.cursor)
    requires !HasJobKey(db.deliveries, Print(IngestKey(cfg, m)))
    ensures SaveMessage(cfg, db, m, now) == Success(db.(
              messages := db.messages + [MessageRow(m, now)],
              bindings := BindingsAfter(cfg, db, m, now),
              outbound := db.outbound + NewJobs(ChatItem(cfg, m), now),
              deliveries := db.deliveries + NewJobs(IngestReceipt(cfg, m), now)))
  {
    hide Print, Key, Blank, HasJobKey, EnqueueReceipt, ReceiptItem, InvalidText, WrongKindText, PrintCursor;
    var saved := db.(messages := db.messages + [MessageRow(m, now)]);
    assert NewJobs<OutboundItem>([], now) == [] && NewJobs<DeliveryItem>([], now) == [];
    assert db.outbound + [] == db.outbound && db.deliveries + [] == db.deliveries;
    match IntakeOf(cfg, m)
    case NotOurs =>
    case InvalidBody(problem) =>
      IngestTextsAreVisible(problem, Chat);
      ReceiptEnqueues(saved, m.sender, FallbackConversation(), MessageRef(PrintCursor(m.cursor), ""),
                      UnsupportedContent, InvalidText(problem), now, ReceiptKey(m.cursor, InvalidReceipt));
    case OtherKind(e) =>
      IngestTextsAreVisible("", e.kind);
      ReceiptEnqueues(saved, m.sender, e.conversation, e.messageRef, UnsupportedContent, WrongKindText(e.kind), now,
                      ReceiptKey(m.cursor, KindReceipt));
    case ChatMessage(e) =>
      assert NewJobs([OutboundOf(m, e)], now) == [NewJob(OutboundOf(m, e), now)];
  }

  // --- Fan-out of an event -----------------------------------------------------------------------

  function UserItem(eventId: int, user: UserRef, e: BridgeEnvelope): DeliveryItem {
    DeliveryItem(Print(InboundKey(eventId, user)), InboundDelivery, user, e)
  }

  function UserItems(eventId: int, users: seq<UserRef>, e: BridgeEnvelope): (items: seq<DeliveryItem>)
    ensures |items| == |users| && forall k :: 0 <= k < |users| ==> items[k] == UserItem(eventId, users[k], e)
  {
    seq(|users|, k requires 0 <= k < |users| => UserItem(eventId, users[k], e))
  }

  function RelayItem(eventId: int, i: nat, peer: Peer, e: BridgeEnvelope): DeliveryItem
    requires ValidPattern(peer.toConversation)
  {
    var moved := e.(conversation := NormalizeRef(peer.toConversation).value);
    DeliveryItem(Print(RelayKey(eventId, i, peer.user)), RelayDelivery, peer.user, moved)
  }

  /** Every peer this conversation is relayed to, from index `i` on, has a usable target conversation. */
  predicate RelayTargetsValid(peers: seq<Peer>, i: nat, c: ConversationRef) {
    forall k :: i <= k < |peers| && Matches(c, peers[k].fromConversation) ==> ValidPattern(peers[k].toConversation)
  }

  function RelayItems(eventId: int, peers: seq<Peer>, i: nat, e: BridgeEnvelope): seq<DeliveryItem>
    requires i <= |peers| && RelayTargetsValid(peers, i, e.conversation)
    decreases |peers| - i
  {
    if i == |peers| then []
    else (if Matches(e.conversation, peers[i].fromConversation) then [RelayItem(eventId, i, peers[i], e)] else [])
         + RelayItems(eventId, peers, i + 1, e)
  }

  /** No delivery job about event `eventId` is in the table. */
  ghost predicate EventIsFresh(rows: seq<Job<DeliveryItem>>, eventId: int) {
    && (forall u :: !HasJobKey(rows, Print(InboundKey(eventId, u))))
    && (forall p, u :: !HasJobKey(rows, Print(RelayKey(eventId, p, u))))
  }

  lemma JobKeyInAppended(rows: seq<Job<DeliveryItem>>, row: Job<DeliveryItem>, jobKey: string)
    ensures HasJobKey(rows + [row], jobKey) <==> HasJobKey(rows, jobKey) || row.item.jobKey == jobKey
  {
    if HasJobKey(rows, jobKey) {
      var i :| 0 <= i < |rows| && rows[i].item.jobKey == jobKey;
      assert (rows + [row])[i].item.jobKey == jobKey;
    }
    if row.item.jobKey == jobKey {
      assert (rows + [row])[|rows|].item.jobKey == jobKey;
    }
  }

  /** One job at the end of the table and the rest after it, or all of them at once. */
  lemma AppendJobs(rows: seq<Job<DeliveryItem>>, item: DeliveryItem, rest: seq<DeliveryItem>, now: int)
    ensures (rows + [NewJob(item, now)]) + NewJobs(rest, now) == rows + NewJobs([item] + rest, now)
    ensures rows + NewJobs([], now) == rows
  {
    assert NewJobs([item] + rest, now) == [NewJob(item, now)] + NewJobs(rest, now);
  }

  lemma UserItemsUnfold(eventId: int, users: seq<UserRef>, e: BridgeEnvelope)
    ensures UserItems(eventId, users, e) ==
            if users == [] then [] else [UserItem(eventId, users[0], e)] + UserItems(eventId, users[1..], e)
  {
    hide UserItem;
  }

  lemma UserKeysStayFree(rows: seq<Job<DeliveryItem>>, eventId: int, users: seq<UserRef>, e: BridgeEnvelope, now: int)
    requires users != [] && Ascending(users)
    requires forall u <- users :: !HasJobKey(rows, Print(InboundKey(eventId, u)))
    ensures Ascending(users[1..])
    ensures forall u <- users[1..] ::
            !HasJobKey(rows + [NewJob(UserItem(eventId, users[0], e), now)], Print(InboundKey(eventId, u)))
  {
    hide Print, HasJobKey;
    var row := NewJob(UserItem(eventId, users[0], e), now);
    forall u | u in users[1..]
      ensures !HasJobKey(rows + [row], Print(InboundKey(eventId, u)))
    {
      JobKeyInAppended(rows, row, Print(InboundKey(eventId, u)));
      assert u in users && UserBefore(users[0], u);
      if Print(InboundKey(eventId, u)) == Print(InboundKey(eventId, users[0])) {
        PrintInjective(InboundKey(eventId, u), InboundKey(eventId, users[0]));
      }
    }
  }

  lemma DeliverEnqueues(db: Db, eventId: int, user: UserRef, e: BridgeEnvelope, now: int)
    requires NormalEnvelope(e) && !HasJobKey(db.deliveries, Print(InboundKey(eventId, user)))
    ensures EnqueueDelivery(db, Print(InboundKey(eventId, user)), InboundDelivery, user, e, now) ==
            Success(db.(deliveries := db.deliveries + [NewJob(UserItem(eventId, user, e), now)]))
  {
    hide Print, NormalizeEnvelope, HasJobKey;
  }

  lemma {:induction false} DeliverToUsersEffect(db: Db, eventId: int, users: seq<UserRef>, e: BridgeEnvelope, now: int)
    requires NormalEnvelope(e) && Ascending(users)
    requires forall u <- users :: !HasJobKey(db.deliveries, Print(InboundKey(eventId, u)))
    ensures DeliverToUsers(db, eventId, users, e, now) ==
            Success(db.(deliveries := db.deliveries + NewJobs(UserItems(eventId, users, e), now)))
    decreases |users|
  {
    hide Print, NormalizeEnvelope, NormalEnvelope, HasJobKey, EnqueueDelivery, NewJobs, UserItems, Ascending;
    UserItemsUnfold(eventId, users, e);
    if users == [] {
      AppendJobs(db.deliveries, UserItem(eventId, UserRef(0, 0), e), [], now);
    } else {
      assert users[0] in users;
      DeliverEnqueues(db, eventId, users[0], e, now);
      UserKeysStayFree(db.deliveries, eventId, users, e, now);
      var row := NewJob(UserItem(eventId, users[0], e), now);
      DeliverToUsersEffect(db.(deliveries := db.deliveries + [row]), eventId, users[1..], e, now);
      AppendJobs(db.deliveries, UserItem(eventId, users[0], e), UserItems(eventId, users[1..], e), now);
    }
  }

  lemma RelayKeysStayFree(rows: seq<Job<DeliveryItem>>, row: Job<DeliveryItem>, eventId: int, i: nat, n: nat,
                          user: UserRef)
    requires row.item.jobKey == Print(RelayKey(eventId, i, user))
    requires forall k, u :: i <= k < n ==> !HasJobKey(rows, Print(RelayKey(eventId, k, u)))
    ensures forall k, u :: i + 1 <= k < n ==> !HasJobKey(rows + [row], Print(RelayKey(eventId, k, u)))
  {
    hide Print, HasJobKey;
    forall k, u | i + 1 <= k < n
      ensures !HasJobKey(rows + [row], Print(RelayKey(eventId, k, u)))
    {
      JobKeyInAppended(rows, row, Print(RelayKey(eventId, k, u)));
      if Print(RelayKey(eventId, k, u)) == Print(RelayKey(eventId, i, user)) {
        PrintInjective(RelayKey(eventId, k, u), RelayKey(eventId, i, user));
      }
    }
  }

  lemma RelayEnqueues(db: Db, eventId: int, i: nat, peer: Peer, e: BridgeEnvelope, now: int)
    requires NormalEnvelope(e) && !HasJobKey(db.deliveries, Print(RelayKey(eventId, i, peer.user)))
    ensures var tx := EnqueueDelivery(db, Print(RelayKey(eventId, i, peer.user)), RelayDelivery, peer.user,
                                      e.(conversation := peer.toConversation), now);
            && (tx.Success? <==> ValidPattern(peer.toConversation))
            && (ValidPattern(peer.toConversation) ==>
                  tx == Success(db.(deliveries := db.deliveries + [NewJob(RelayItem(eventId, i, peer, e), now)])))
  {
    hide Print, NormalizeRef, HasJobKey;
  }

  lemma {:induction false} RelayToPeersEffect(db: Db, eventId: int, peers: seq<Peer>, i: nat, e: BridgeEnvelope,
                                              now: int)
    requires NormalEnvelope(e) && i <= |peers|
    requires forall k, u :: i <= k < |peers| ==> !HasJobKey(db.deliveries, Print(RelayKey(eventId, k, u)))
    ensures RelayToPeers(db, eventId, peers, i, e, now).Success? <==> RelayTargetsValid(peers, i, e.conversation)
    ensures RelayTargetsValid(peers, i, e.conversation) ==>
              RelayToPeers(db, eventId, peers, i, e, now) ==
              Success(db.(deliveries := db.deliveries + NewJobs(RelayItems(eventId, peers, i, e), now)))
    decreases |peers| - i
  {
    hide Print, NormalizeEnvelope, NormalEnvelope, NormalizeRef, HasJobKey, EnqueueDelivery, NewJobs, Matches,
         ValidPattern;
    if i == |peers| {
      AppendJobs(db.deliveries, DeliveryItem("", RelayDelivery, UserRef(0, 0), e), [], now);
    } else if !Matches(e.conversation, peers[i].fromConversation) {
      RelayToPeersEffect(db, eventId, peers, i + 1, e, now);
      if RelayTargetsValid(peers, i, e.conversation) {
        assert RelayItems(eventId, peers, i, e) == RelayItems(eventId, peers, i + 1, e);
      }
    } else {
      RelayEnqueues(db, eventId, i, peers[i], e, now);
      if ValidPattern(peers[i].toConversation) {
        var item := RelayItem(eventId, i, peers[i], e);
        var row := NewJob(item, now);
        RelayKeysStayFree(db.deliveries, row, eventId, i, |peers|, peers[i].user);
        RelayToPeersEffect(db.(deliveries := db.deliveries + [row]), eventId, peers, i + 1, e, now);
        if RelayTargetsValid(peers, i, e.conversation) {
          AppendJobs(db.deliveries, item, RelayItems(eventId, peers, i + 1, e), now);
        }
      }
    }
  }

  lemma NoUserKeyAmongUsers(db: Db, eventId: int, users: seq<UserRef>, e: BridgeEnvelope, now: int)
    requires EventIsFresh(db.deliveries, eventId)
    ensures forall p, u ::
            !HasJobKey(db.deliveries + NewJobs(UserItems(eventId, users, e), now), Print(RelayKey(eventId, p, u)))
  {
    var rows := db.deliveries + NewJobs(UserItems(eventId, users, e), now);
    forall p, u
      ensures !HasJobKey(rows, Print(RelayKey(eventId, p, u)))
    {
      var jobKey := Print(RelayKey(eventId, p, u));
      forall i | 0 <= i < |rows|
        ensures rows[i].item.jobKey != jobKey
      {
        if i < |db.deliveries| {
          assert rows[i] == db.deliveries[i] && !HasJobKey(db.deliveries, jobKey);
        } else {
          var user := users[i - |db.deliveries|];
          if Print(InboundKey(eventId, user)) == jobKey {
            PrintInjective(InboundKey(eventId, user), RelayKey(eventId, p, u));
          }
        }
      }
    }
  }

  ghost function UsersFor(cfg: Config, db: Db, e: BridgeEnvelope): seq<UserRef> {
    Sorted(BoundUsers(db.bindings, cfg.bridge, Key(e.conversation)))
  }

  function EventRowFor(id: string, users: seq<UserRef>, e: BridgeEnvelope, now: int): EventRow {
    EventRow(id, Key(e.conversation), e, if users == [] then Failed else Delivered, now, now)
  }

  function OrphansFor(id: string, users: seq<UserRef>, e: BridgeEnvelope, now: int): seq<OrphanRow> {
    if users == [] then [OrphanRow(id, Key(e.conversation), e, now)] else []
  }

  /** An orphan is never relayed, so its relay targets do not matter. */
  predicate Routable(cfg: Config, users: seq<UserRef>, e: BridgeEnvelope) {
    users == [] || RelayTargetsValid(cfg.peers, 0, e.conversation)
  }

  /** What event number `eventId` fans out to when `users` are bound to its conversation. */
  function EventItems(cfg: Config, eventId: int, users: seq<UserRef>, e: BridgeEnvelope): seq<DeliveryItem>
    requires Routable(cfg, users, e)
  {
    if users == [] then [] else UserItems(eventId, users, e) + RelayItems(eventId, cfg.peers, 0, e)
  }

  lemma StatusOverwritten(events: seq<EventRow>, row: EventRow, status: Status, now: int)
    ensures (events + [row])[|events| := row.(status := status, updatedAt := now)] ==
            events + [row.(status := status, updatedAt := now)]
  {
  }

  /** Delivering to the users and then relaying appends the fan-out, provided the relay targets are usable. */
  lemma FanOutEffect(cfg: Config, db: Db, eventId: int, users: seq<UserRef>, e: BridgeEnvelope, now: int)
    requires NormalEnvelope(e) && Ascending(users) && users != [] && EventIsFresh(db.deliveries, eventId)
    ensures DeliverToUsers(db, eventId, users, e, now).Success?
    ensures var relayed :=
            RelayToPeers(DeliverToUsers(db, eventId, users, e, now).value, eventId, cfg.peers, 0, e, now);
            && (relayed.Success? <==> Routable(cfg, users, e))
            && (Routable(cfg, users, e) ==>
                  relayed ==
                    Success(db.(deliveries := db.deliveries + NewJobs(EventItems(cfg, eventId, users, e), now))))
  {
    hide Print, NormalEnvelope, NormalizeRef, DeliverToUsers, RelayToPeers, UserItems, RelayItems, RelayTargetsValid,
         HasJobKey;
    DeliverToUsersEffect(db, eventId, users, e, now);
    var toUsers := NewJobs(UserItems(eventId, users, e), now);
    var delivered := db.(deliveries := db.deliveries + toUsers);
    NoUserKeyAmongUsers(db, eventId, users, e, now);
    RelayToPeersEffect(delivered, eventId, cfg.peers, 0, e, now);
    if RelayTargetsValid(cfg.peers, 0, e.conversation) {
      var toPeers := NewJobs(RelayItems(eventId, cfg.peers, 0, e), now);
      assert NewJobs(EventItems(cfg, eventId, users, e), now) == toUsers + toPeers;
      assert db.deliveries + (toUsers + toPeers) == delivered.deliveries + toPeers;
    }
  }

  /**
   A first enqueue with fresh keys commits, if every relay it calls for is possible, exactly: the event with its
   final status, its orphan row or its fan-out. Otherwise nothing is committed.
   */
  lemma EnqueueEventEffect(cfg: Config, db: Db, event: GatewayEvent, now: int, e: BridgeEnvelope, id: string)
    requires NormalizeEnvelope(event.envelope) == Success(e) && e.kind == Chat
    requires id == EventId(cfg, event.gatewayMessageId, e, now) && !HasEvent(db, id) && !HasOrphan(db, id)
    requires EventIsFresh(db.deliveries, |db.events| + 1)
    ensures var users := UsersFor(cfg, db, e);
            && (EnqueueEvent(cfg, db, event, now).Success? <==> Routable(cfg, users, e))
            && (Routable(cfg, users, e) ==>
                  EnqueueEvent(cfg, db, event, now) == Success(db.(
                    events := db.events + [EventRowFor(id, users, e, now)],
                    orphans := db.orphans + OrphansFor(id, users, e, now),
                    deliveries := db.deliveries + NewJobs(EventItems(cfg, |db.events| + 1, users, e), now))))
  {
    hide Print, Key, NormalEnvelope, NormalizeEnvelope, NormalizeRef, EventId, BoundUsers, Sorted,
         DeliverToUsers, RelayToPeers, UserItems, RelayItems, RelayTargetsValid, EventIsFresh;
    var users := UsersFor(cfg, db, e);
    var row := EventRow(id, Key(e.conversation), e, Pending, now, now);
    var stored := db.(events := db.events + [row]);
    StatusOverwritten(db.events, row, Failed, now);
    StatusOverwritten(db.events, row, Delivered, now);
    assert db.orphans + [] == db.orphans;
    if users == [] {
      assert NewJobs<DeliveryItem>([], now) == [] && db.deliveries + [] == db.deliveries;
      assert !HasOrphan(stored, id);
    } else {
      FanOutEffect(cfg, stored, |db.events| + 1, users, e, now);
    }
  }
}
