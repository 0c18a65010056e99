/**
 The seven tables (internal/qqbridge/store.go) and, statement by statement, the transactions over them. A table is the
 sequence of its rows in insertion order; a transaction either yields the tables it commits or fails and commits
 nothing. Every `INSERT OR IGNORE` is modelled as such: these definitions take no conflict to be impossible.
 */
module Tables {
  import opened Options
  import opened Strings
  import opened Envelopes
  import opened Conversations
  import opened JobKeys
  import opened Queues

  datatype Message = Message(cursor: Cursor, recipient: UserRef, sender: UserRef, body: Body, createdAtHlc: string)

  datatype MessageRow = MessageRow(message: Message, savedAt: int)

  datatype BindingKey = BindingKey(bridge: UserRef, local: UserRef, conversationKey: string)

  datatype Binding = Binding(conversation: ConversationRef, createdAt: int, updatedAt: int)

  datatype OutboundItem = OutboundItem(source: Cursor, sender: UserRef, conversationKey: string,
                                       envelope: BridgeEnvelope)

  datatype DeliveryKind = ReceiptDelivery | InboundDelivery | RelayDelivery

  datatype DeliveryItem = DeliveryItem(jobKey: string, kind: DeliveryKind, target: UserRef, envelope: BridgeEnvelope)

  datatype EventRow = EventRow(gatewayMessageId: string, conversationKey: string, envelope: BridgeEnvelope,
                               status: Status, createdAt: int, updatedAt: int)

  datatype OrphanRow = OrphanRow(gatewayMessageId: string, conversationKey: string, envelope: BridgeEnvelope,
                                 createdAt: int)

  datatype Db = Db(
    seen: seq<Cursor>,                   // seen_messages
    messages: seq<MessageRow>,           // turntf_messages
    bindings: map<BindingKey, Binding>,  // session_bindings
    outbound: seq<Job<OutboundItem>>,    // outbound_jobs
    events: seq<EventRow>,               // inbound_events; the row at index k has id k + 1
    orphans: seq<OrphanRow>,             // orphan_inbound_events
    deliveries: seq<Job<DeliveryItem>>)  // turntf_delivery_jobs

  const EMPTY_DB := Db([], [], map[], [], [], [], [])

  datatype Peer = Peer(user: UserRef, fromConversation: ConversationRef, toConversation: ConversationRef)

  /** `hash` is the digest of a conversation key. */
  datatype Config = Config(bridge: UserRef, peers: seq<Peer>, hash: string -> string)

  datatype GatewayEvent = GatewayEvent(gatewayMessageId: string, envelope: BridgeEnvelope)

  type Tx = Result<Db, string>

  // --- Delivery jobs -----------------------------------------------------------------------------

  predicate HasJobKey(rows: seq<Job<DeliveryItem>>, jobKey: string) {
    exists i :: 0 <= i < |rows| && rows[i].item.jobKey == jobKey
  }

  function InsertDelivery(db: Db, item: DeliveryItem, now: int): Db {
    if HasJobKey(db.deliveries, item.jobKey) then db
    else db.(deliveries := db.deliveries + [NewJob(item, now)])
  }

  function EnqueueDelivery(db: Db, jobKey: string, kind: DeliveryKind, target: UserRef, envelope: BridgeEnvelope,
                           now: int): Tx {
    match NormalizeEnvelope(envelope)
    case Failure(problem) => Failure(problem)
    case Success(e) => Success(InsertDelivery(db, DeliveryItem(jobKey, kind, target, e), now))
  }

  /** The conversation a receipt is about: the one given, or a stand-in when that one is unusable. */
  function ReceiptConversation(conversation: ConversationRef): (r: ConversationRef)
    ensures NormalRef(r)
    ensures NormalRef(conversation) ==> r == conversation
    ensures NormalizeRef(conversation).Success? ==> r == NormalizeRef(conversation).value
    ensures NormalizeRef(conversation).Failure? ==> r == ConversationRef("qq", Private, "__bridge_receipt__", "")
  {
    match NormalizeRef(conversation)
    case Failure(_) => FallbackConversation()
    case Success(r) => r
  }

  function ReceiptItem(target: UserRef, conversation: ConversationRef, messageRef: MessageRef, code: ReceiptCode,
                       text: string, jobKey: JobKey): DeliveryItem
  {
    var envelope := NewReceiptEnvelope(ReceiptConversation(conversation), messageRef, code, text);
    DeliveryItem(Print(jobKey), ReceiptDelivery, target, envelope)
  }

  function EnqueueReceipt(db: Db, target: UserRef, conversation: ConversationRef, messageRef: MessageRef,
                          code: ReceiptCode, text: string, now: int, jobKey: string): Tx
  {
    var envelope := NewReceiptEnvelope(ReceiptConversation(conversation), messageRef, code, text);
    EnqueueDelivery(db, jobKey, ReceiptDelivery, target, envelope, now)
  }

  // --- Messages from turntf ----------------------------------------------------------------------

  predicate HasMessage(db: Db, cursor: Cursor) {
    exists i :: 0 <= i < |db.messages| && db.messages[i].message.cursor == cursor
  }

  predicate HasSource(rows: seq<Job<OutboundItem>>, source: Cursor) {
    exists i :: 0 <= i < |rows| && rows[i].item.source == source
  }

  function UpsertBinding(db: Db, bridge: UserRef, sender: UserRef, conversation: ConversationRef, now: int): Db {
    var key := BindingKey(bridge, sender, Key(conversation));
    var createdAt := if key in db.bindings then db.bindings[key].createdAt else now;
    db.(bindings := db.bindings[key := Binding(conversation, createdAt, now)])
  }

  function InsertOutbound(db: Db, item: OutboundItem, now: int): Db {
    if HasSource(db.outbound, item.source) then db
    else db.(outbound := db.outbound + [NewJob(item, now)])
  }

  function OutboundOf(m: Message, e: BridgeEnvelope): OutboundItem {
    OutboundItem(m.cursor, m.sender, Key(e.conversation), e)
  }

  /** A message addressed to the bridge and not sent by it. */
  predicate ForBridge(cfg: Config, m: Message) {
    m.recipient == cfg.bridge && m.sender != cfg.bridge
  }

  function InvalidText(problem: string): string {
    "bridge message format invalid: " + problem
  }

  function WrongKindText(kind: EnvelopeKind): string {
    "bridge message kind " + Quote(KindName(kind)) + " is not supported for outbound chat"
  }

  /** The `SaveMessage` transaction. */
  function SaveMessage(cfg: Config, db: Db, m: Message, now: int): Tx {
    if HasMessage(db, m.cursor) then Success(db)
    else
      var saved := db.(messages := db.messages + [MessageRow(m, now)]);
      if !ForBridge(cfg, m) then Success(saved)
      else
        match Parse(m.body)
        case Failure(problem) =>
          EnqueueReceipt(saved, m.sender, FallbackConversation(), MessageRef(PrintCursor(m.cursor), ""),
                         UnsupportedContent, InvalidText(problem), now, Print(ReceiptKey(m.cursor, InvalidReceipt)))
        case Success(e) =>
          if e.kind != Chat then
            EnqueueReceipt(saved, m.sender, e.conversation, e.messageRef, UnsupportedContent,
                           WrongKindText(e.kind), now, Print(ReceiptKey(m.cursor, KindReceipt)))
          else
            Success(InsertOutbound(UpsertBinding(saved, cfg.bridge, m.sender, e.conversation, now), OutboundOf(m, e),
                                   now))
  }

  function SaveCursor(db: Db, cursor: Cursor): Db {
    if cursor in db.seen then db else db.(seen := db.seen + [cursor])
  }

  // --- Events from the gateway -------------------------------------------------------------------

  predicate UserBefore(a: UserRef, b: UserRef) {
    a.nodeId < b.nodeId || (a.nodeId == b.nodeId && a.userId < b.userId)
  }

  predicate Ascending(users: seq<UserRef>) {
    forall i, j :: 0 <= i < j < |users| ==> UserBefore(users[i], users[j])
  }

  predicate IsFirst(u: UserRef, users: set<UserRef>) {
    u in users && forall v <- users :: v == u || UserBefore(u, v)
  }

  lemma {:induction false} FirstExists(users: set<UserRef>)
    requires users != {}
    ensures exists u :: IsFirst(u, users)
  {
    var v :| v in users;
    var rest := users - {v};
    if rest == {} {
      assert users == {v};
      assert IsFirst(v, users);
    } else {
      FirstExists(rest);
      var u :| IsFirst(u, rest);
      var w := if UserBefore(v, u) then v else u;
      assert users == rest + {v};
      assert IsFirst(w, users);
    }
  }

  /** The users in `ORDER BY local_node_id, local_user_id`. */
  ghost function Sorted(users: set<UserRef>): (list: seq<UserRef>)
    ensures Ascending(list)
    ensures forall u :: u in list <==> u in users
  {
    if users == {} then []
    else
      FirstExists(users);
      var u :| IsFirst(u, users);
      [u] + Sorted(users - {u})
  }

  function BoundUsers(bindings: map<BindingKey, Binding>, bridge: UserRef, conversationKey: string): set<UserRef> {
    set k <- bindings.Keys | k.bridge == bridge && k.conversationKey == conversationKey :: k.local
  }

  /** The event's identity: the gateway's id, else the message's own, else one made up from conversation and time. */
  function EventId(cfg: Config, gatewayMessageId: string, e: BridgeEnvelope, now: int): string {
    var given := TrimSpace(gatewayMessageId);
    if given != "" then given
    else if e.messageRef.id != "" then e.messageRef.id
    else "event:" + cfg.hash(Key(e.conversation)) + ":" + PrintCursor(Cursor(0, now))
  }

  predicate HasEvent(db: Db, id: string) {
    exists i :: 0 <= i < |db.events| && db.events[i].gatewayMessageId == id
  }

  predicate HasOrphan(db: Db, id: string) {
    exists i :: 0 <= i < |db.orphans| && db.orphans[i].gatewayMessageId == id
  }

  function InsertOrphan(db: Db, row: OrphanRow): Db {
    if HasOrphan(db, row.gatewayMessageId) then db else db.(orphans := db.orphans + [row])
  }

  /** `UPDATE inbound_events SET status = ?, updated_at_ms = ? WHERE id = ?` */
  function SetEventStatus(db: Db, index: nat, status: Status, now: int): Db {
    if index < |db.events| then db.(events := db.events[index := db.events[index].(status := status, updatedAt := now)])
    else db
  }

  /** One delivery per bound user, in order. */
  function DeliverToUsers(db: Db, eventId: int, users: seq<UserRef>, e: BridgeEnvelope, now: int): Tx
    decreases |users|
  {
    if users == [] then Success(db)
    else
      match EnqueueDelivery(db, Print(InboundKey(eventId, users[0])), InboundDelivery, users[0], e, now)
      case Failure(problem) => Failure(problem)
      case Success(next) => DeliverToUsers(next, eventId, users[1..], e, now)
  }

  /** One delivery per matching peer from index `i` on, moved to the peer's conversation. */
  function RelayToPeers(db: Db, eventId: int, peers: seq<Peer>, i: nat, e: BridgeEnvelope, now: int): Tx
    requires i <= |peers|
    decreases |peers| - i
  {
    if i == |peers| then Success(db)
    else if !Matches(e.conversation, peers[i].fromConversation) then RelayToPeers(db, eventId, peers, i + 1, e, now)
    else
      match EnqueueDelivery(db, Print(RelayKey(eventId, i, peers[i].user)), RelayDelivery, peers[i].user,
                            e.(conversation := peers[i].toConversation), now)
      case Failure(problem) => Failure(problem)
      case Success(next) => RelayToPeers(next, eventId, peers, i + 1, e, now)
  }

  /** The part of the transaction after the event row is known to be new. */
  ghost function RouteEvent(cfg: Config, db: Db, index: nat, id: string, e: BridgeEnvelope, now: int): Tx {
    var key := Key(e.conversation);
    var users := Sorted(BoundUsers(db.bindings, cfg.bridge, key));
    if users == [] then
      Success(SetEventStatus(InsertOrphan(db, OrphanRow(id, key, e, now)), index, Failed, now))
    else
      match DeliverToUsers(db, index + 1, users, e, now)
      case Failure(problem) => Failure(problem)
      case Success(delivered) =>
        match RelayToPeers(delivered, index + 1, cfg.peers, 0, e, now)
        case Failure(problem) => Failure(problem)
        case Success(relayed) => Success(SetEventStatus(relayed, index, Delivered, now))
  }

  /** The `EnqueueInboundEvent` transaction. */
  ghost function EnqueueEvent(cfg: Config, db: Db, event: GatewayEvent, now: int): Tx {
    match NormalizeEnvelope(event.envelope)
    case Failure(problem) => Failure(problem)
    case Success(e) =>
      if e.kind != Chat then Failure("gateway inbound event must use kind=chat")
      else
        var id := EventId(cfg, event.gatewayMessageId, e, now);
        if HasEvent(db, id) then Success(db)
        else
          var row := EventRow(id, Key(e.conversation), e, Pending, now, now);
          RouteEvent(cfg, db.(events := db.events + [row]), |db.events|, id, e, now)
  }
}
