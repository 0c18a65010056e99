/**
 `Store` (internal/qqbridge/store.go): one object whose fields are the tables. Every method does to the fields what the
 code does to the database, and is proved to do what `Tables` and `Queues` define. The `fate` of a call says what the
 database made of it; on any error the transaction is rolled back.
 */
module Stores {
  import opened Options
  import opened Envelopes
  import opened Conversations
  import opened JobKeys
  import opened Queues
  import T = Tables
  import opened Tables
  import opened Bridge

  lemma SortedEmpty()
    ensures Sorted({}) == []
  {
  }

  lemma ListedInOrder(users: set<UserRef>)
    ensures forall i, j :: 0 <= i < j < |Sorted(users)| ==>
              Sorted(users)[i].nodeId < Sorted(users)[j].nodeId ||
              (Sorted(users)[i].nodeId == Sorted(users)[j].nodeId && Sorted(users)[i].userId < Sorted(users)[j].userId)
  {
    hide Sorted;
  }

  lemma BoundBy(bindings: map<BindingKey, Binding>, bridge: UserRef, conversationKey: string)
    ensures forall u :: u in BoundUsers(bindings, bridge, conversationKey) <==>
              BindingKey(bridge, u, conversationKey) in bindings
  {
    forall u | BindingKey(bridge, u, conversationKey) in bindings
      ensures u in BoundUsers(bindings, bridge, conversationKey)
    {
      assert BindingKey(bridge, u, conversationKey).local == u;
    }
  }

  lemma SortedUnfolds(users: set<UserRef>, u: UserRef)
    requires IsFirst(u, users)
    ensures Sorted(users) == [u] + Sorted(users - {u})
  {
    assert Sorted(users)[0] in users;
  }

  /** A row as the INSERT writes it: to be tried at once, and nothing known of it yet. */
  predicate IsFresh<T>(row: Job<T>, now: int) {
    && row.status == Pending && row.attempts == 0
    && row.nextAttemptAt == now && row.createdAt == now && row.updatedAt == now
    && row.remoteId == "" && row.errorCode == "" && row.errorText == ""
  }

  /** `ORDER BY local_node_id, local_user_id` */
  method InOrder(all: set<UserRef>) returns (users: seq<UserRef>)
    ensures users == Sorted(all)
  {
    hide Sorted, UserBefore;
    var rest := all;
    users := [];
    while rest != {}
      invariant users + Sorted(rest) == Sorted(all)
      decreases |rest|
    {
      FirstExists(rest);
      var u :| u in rest && IsFirst(u, rest);
      SortedUnfolds(rest, u);
      assert (users + [u]) + Sorted(rest - {u}) == users + ([u] + Sorted(rest - {u}));
      users, rest := users + [u], rest - {u};
    }
    SortedEmpty();
  }

  class Store {
    const cfg: Config
    var seen: seq<Cursor>
    var messages: seq<MessageRow>
    var bindings: map<BindingKey, Binding>
    var outbound: seq<Job<OutboundItem>>
    var events: seq<EventRow>
    var orphans: seq<OrphanRow>
    var deliveries: seq<Job<DeliveryItem>>

    function View(): Db
      reads this
    {
      Db(seen, messages, bindings, outbound, events, orphans, deliveries)
    }

    constructor OpenStore(cfg: Config)
      ensures View() == EMPTY_DB && this.cfg == cfg
    {
      this.cfg := cfg;
      seen, messages, bindings, outbound, events, orphans, deliveries := [], [], map[], [], [], [], [];
    }

    /** `tx.Commit`, or the deferred `tx.Rollback` when the body or the commit failed. */
    method EndTx(begin: Db, fate: Fate, problem: Option<string>) returns (error: Option<string>)
      modifies this
      ensures View() == if problem.Some? || fate.Fails? then begin else old(View())
      ensures error.None? <==> problem.None? && fate.Commits?
    {
      if problem.Some? || fate.Fails? {
        seen, messages, bindings, outbound := begin.seen, begin.messages, begin.bindings, begin.outbound;
        events, orphans, deliveries := begin.events, begin.orphans, begin.deliveries;
      }
      error := if problem.Some? then problem else if fate.Commits? then None else Some("database error");
    }

    // --- Delivery jobs ---------------------------------------------------------------------------

    method EnqueueTurnTFDeliveryTx(jobKey: string, kind: DeliveryKind, target: UserRef, envelope: BridgeEnvelope,
                                   now: int)
      returns (problem: Option<string>)
      modifies this`deliveries
      ensures problem.None? ==> EnqueueDelivery(old(View()), jobKey, kind, target, envelope, now) == Success(View())
      ensures problem.Some? ==>
              EnqueueDelivery(old(View()), jobKey, kind, target, envelope, now) == Failure(problem.value)
      ensures deliveries != old(deliveries) ==>
                && |deliveries| == |old(deliveries)| + 1 && deliveries[..|old(deliveries)|] == old(deliveries)
                && IsFresh(deliveries[|old(deliveries)|], now)
                && forall i :: 0 <= i < |old(deliveries)| ==> old(deliveries)[i].item.jobKey != jobKey
    {
      var env := new EnvelopeVar(envelope);
      problem := env.NormalizeAndValidate();
      if problem.Some? {
        return;
      }
      if !HasJobKey(deliveries, jobKey) {
        deliveries := deliveries + [NewJob(DeliveryItem(jobKey, kind, target, env.Value()), now)];
      }
    }

    method EnqueueReceiptTx(target: UserRef, conversation: ConversationRef, messageRef: MessageRef, code: ReceiptCode,
                            text: string, now: int, jobKey: string)
      returns (problem: Option<string>)
      modifies this`deliveries
      ensures var tx := EnqueueReceipt(old(View()), target, conversation, messageRef, code, text, now, jobKey);
              && (problem.None? ==> tx == Success(View()))
              && (problem.Some? ==> tx == Failure(problem.value))
    {
      var c := new ConversationRefVar(conversation);
      var bad := c.NormalizeAndValidate();
      var about := if bad.Some? then FallbackConversation() else c.Value();
      var envelope := NewReceiptEnvelope(about, messageRef, code, text);
      problem := EnqueueTurnTFDeliveryTx(jobKey, ReceiptDelivery, target, envelope, now);
    }

    method QueueReceipt(target: UserRef, conversation: ConversationRef, messageRef: MessageRef, code: ReceiptCode,
                        text: string, now: int, jobKey: string, fate: Fate)
      returns (error: Option<string>)
      modifies this
      ensures var tx := EnqueueReceipt(old(View()), target, conversation, messageRef, code, text, now, jobKey);
              && View() == Landed(old(View()), fate, tx)
              && (error.None? <==> tx.Success? && fate.Commits?)
    {
      var begin := View();
      var problem := EnqueueReceiptTx(target, conversation, messageRef, code, text, now, jobKey);
      error := EndTx(begin, fate, problem);
    }

    // --- Messages and cursors --------------------------------------------------------------------

    method UpsertBindingTx(sender: UserRef, conversation: ConversationRef, now: int)
      modifies this`bindings
      ensures View() == UpsertBinding(old(View()), cfg.bridge, sender, conversation, now)
    {
      var key := BindingKey(cfg.bridge, sender, Key(conversation));
      if key in bindings {
        bindings := bindings[key := bindings[key].(conversation := conversation, updatedAt := now)];
      } else {
        bindings := bindings[key := Binding(conversation, now, now)];
      }
    }

    method SaveMessageTx(m: Message, now: int) returns (problem: Option<string>)
      modifies this
      ensures problem.None? ==> T.SaveMessage(cfg, old(View()), m, now) == Success(View())
      ensures problem.Some? ==> T.SaveMessage(cfg, old(View()), m, now) == Failure(problem.value)
      ensures outbound != old(outbound) ==>
                && |outbound| == |old(outbound)| + 1 && outbound[..|old(outbound)|] == old(outbound)
                && IsFresh(outbound[|old(outbound)|], now)
                && forall i :: 0 <= i < |old(outbound)| ==> old(outbound)[i].item.source != m.cursor
    {
      hide Print, PrintCursor, NormalizeEnvelope, EnqueueReceipt, InvalidText, WrongKindText, Key;
      if HasMessage(View(), m.cursor) {
        return None;
      }
      messages := messages + [MessageRow(m, now)];
      if m.recipient != cfg.bridge || m.sender == cfg.bridge {
        return None;
      }
      var parsed := ParseEnvelope(m.body);
      if parsed.Failure? {
        problem :=
          EnqueueReceiptTx(m.sender, FallbackConversation(), MessageRef(PrintCursor(m.cursor), ""), UnsupportedContent,
                                    InvalidText(parsed.error), now, Print(ReceiptKey(m.cursor, InvalidReceipt)));
        return;
      }
      var env := parsed.value;
      if env.kind != Chat {
        problem := EnqueueReceiptTx(m.sender, env.conversation, env.messageRef, UnsupportedContent,
                                    WrongKindText(env.kind), now, Print(ReceiptKey(m.cursor, KindReceipt)));
        return;
      }
      UpsertBindingTx(m.sender, env.conversation, now);
      if !HasSource(outbound, m.cursor) {
        outbound := outbound + [NewJob(OutboundOf(m, env), now)];
      }
      return None;
    }

    method SaveMessage(m: Message, now: int, fate: Fate) returns (error: Option<string>)
      modifies this
      ensures View() == Landed(old(View()), fate, T.SaveMessage(cfg, old(View()), m, now))
      ensures error.None? <==> T.SaveMessage(cfg, old(View()), m, now).Success? && fate.Commits?
    {
      var begin := View();
      var problem := SaveMessageTx(m, now);
      error := EndTx(begin, fate, problem);
    }

    method SaveCursor(cursor: Cursor, fate: Fate) returns (error: Option<string>)
      modifies this`seen
      ensures View() == Landed(old(View()), fate, Success(T.SaveCursor(old(View()), cursor)))
      ensures error.None? <==> fate.Commits?
      ensures !fate.Fails? ==> cursor in seen && seen == if cursor in old(seen) then old(seen) else old(seen) + [cursor]
    {
      if !fate.Fails? && cursor !in seen {
        seen := seen + [cursor];
      }
      error := if fate.Commits? then None else Some("database error");
    }

    // --- Gateway events --------------------------------------------------------------------------

    /** `SELECT ... WHERE conversation_key = ? ORDER BY local_node_id, local_user_id` */
    method ListBindings(conversationKey: string) returns (users: seq<UserRef>)
      ensures users == Sorted(BoundUsers(bindings, cfg.bridge, conversationKey))
      ensures forall u :: u in users <==> BindingKey(cfg.bridge, u, conversationKey) in bindings
      ensures forall i, j :: 0 <= i < j < |users| ==>
                users[i].nodeId < users[j].nodeId ||
                (users[i].nodeId == users[j].nodeId && users[i].userId < users[j].userId)
    {
      hide Sorted, BoundUsers, UserBefore;
      users := InOrder(BoundUsers(bindings, cfg.bridge, conversationKey));
      ListedInOrder(BoundUsers(bindings, cfg.bridge, conversationKey));
      BoundBy(bindings, cfg.bridge, conversationKey);
    }

    /** The two fan-out loops of `EnqueueInboundEvent`. */
    method FanOutTx(eventId: int, users: seq<UserRef>, env: BridgeEnvelope, now: int) returns (problem: Option<string>)
      modifies this`deliveries
      ensures var toUsers := DeliverToUsers(old(View()), eventId, users, env, now);
              var tx := if toUsers.Failure? then toUsers
                else RelayToPeers(toUsers.value, eventId, cfg.peers, 0, env, now);
              && (problem.None? ==> tx == Success(View()))
              && (problem.Some? ==> tx == Failure(problem.value))
    {
      hide Print, NormalizeEnvelope, EnqueueDelivery;
      for i := 0 to |users|
        invariant DeliverToUsers(old(View()), eventId, users, env, now) ==
                  DeliverToUsers(View(), eventId, users[i..], env, now)
      {
        problem := EnqueueTurnTFDeliveryTx(Print(InboundKey(eventId, users[i])), InboundDelivery, users[i], env, now);
        if problem.Some? {
          return;
        }
        assert users[i..][1..] == users[i + 1..];
      }
      ghost var delivered := View();
      for pi := 0 to |cfg.peers|
        invariant RelayToPeers(delivered, eventId, cfg.peers, 0, env, now) ==
                  RelayToPeers(View(), eventId, cfg.peers, pi, env, now)
      {
        var peer := cfg.peers[pi];
        if !Matches(env.conversation, peer.fromConversation) {
          continue;
        }
        var relayEnv := env.(conversation := peer.toConversation);
        problem :=
          EnqueueTurnTFDeliveryTx(Print(RelayKey(eventId, pi, peer.user)), RelayDelivery, peer.user, relayEnv, now);
        if problem.Some? {
          return;
        }
      }
      return None;
    }

    method UpdateEventStatus(index: nat, status: Status, now: int)
      modifies this`events
      ensures View() == SetEventStatus(old(View()), index, status, now)
    {
      if index < |events| {
        events := events[index := events[index].(status := status, updatedAt := now)];
      }
    }

    /** The rest of the transaction, once the event's row is in: who it is for, and what became of it. */
    method RouteEventTx(index: nat, id: string, key: string, env: BridgeEnvelope, now: int)
      returns (problem: Option<string>)
      requires key == Key(env.conversation)
      modifies this
      ensures problem.None? ==> RouteEvent(cfg, old(View()), index, id, env, now) == Success(View())
      ensures problem.Some? ==> RouteEvent(cfg, old(View()), index, id, env, now) == Failure(problem.value)
      ensures orphans != old(orphans) ==> forall i :: 0 <= i < |old(orphans)| ==> old(orphans)[i].gatewayMessageId != id
    {
      hide Key, DeliverToUsers, RelayToPeers, BoundUsers, Sorted;
      var users := ListBindings(key);
      if |users| == 0 {
        if !HasOrphan(View(), id) {
          orphans := orphans + [OrphanRow(id, key, env, now)];
        }
        UpdateEventStatus(index, Failed, now);
        return None;
      }
      problem := FanOutTx(index + 1, users, env, now);
      if problem.Some? {
        return;
      }
      UpdateEventStatus(index, Delivered, now);
    }

    method EnqueueInboundEventTx(event: GatewayEvent, now: int) returns (problem: Option<string>)
      modifies this
      ensures problem.None? ==> EnqueueEvent(cfg, old(View()), event, now) == Success(View())
      ensures problem.Some? ==> EnqueueEvent(cfg, old(View()), event, now) == Failure(problem.value)
    {
      hide Key, EventId, RouteEvent, NormalizeEnvelope;
      var envVar := new EnvelopeVar(event.envelope);
      problem := envVar.NormalizeAndValidate();
      if problem.Some? {
        return;
      }
      var env := envVar.Value();
      if env.kind != Chat {
        return Some("gateway inbound event must use kind=chat");
      }
      var id := EventId(cfg, event.gatewayMessageId, env, now);
      if HasEvent(View(), id) {
        return None;
      }
      var key := Key(env.conversation);
      var index := |events|;
      events := events + [EventRow(id, key, env, Pending, now, now)];
      problem := RouteEventTx(index, id, key, env, now);
    }

    method EnqueueInboundEvent(event: GatewayEvent, now: int, fate: Fate) returns (error: Option<string>)
      modifies this
      ensures View() == Landed(old(View()), fate, EnqueueEvent(cfg, old(View()), event, now))
      ensures error.None? <==> EnqueueEvent(cfg, old(View()), event, now).Success? && fate.Commits?
    {
      var begin := View();
      var problem := EnqueueInboundEventTx(event, now);
      error := EndTx(begin, fate, problem);
    }

    // --- The queues ------------------------------------------------------------------------------

    /** The claimed job, or none: when nothing is due, or when the claim did not (visibly) commit. */
    method ClaimOutboundJob(now: int, fate: Fate) returns (job: Option<HeldJob<OutboundItem>>)
      modifies this`outbound
      ensures var due := FirstDue(old(outbound), now);
              if due.None? || fate.Fails? then outbound == old(outbound) && job == None
              else
                var row := ClaimedRow(old(outbound)[due.value], now);
                && outbound == old(outbound)[due.value := row]
                && job == if fate.Commits? then Some(HeldJob(due.value, row.item, row.attempts, now)) else None
      ensures var due := FirstDue(old(outbound), now);
              due.Some? && !fate.Fails? ==>
                var was, row := old(outbound)[due.value], outbound[due.value];
                && row.status == Processing && row.attempts == was.attempts + 1 && row.updatedAt == now
                && row == was.(status := row.status, attempts := row.attempts, updatedAt := row.updatedAt)
                && (fate.Commits? ==> job.Some? && job.value.attempts == was.attempts + 1)
    {
      var due := FirstDue(outbound, now);
      if due.None? || fate.Fails? {
        return None;
      }
      outbound := outbound[due.value := ClaimedRow(outbound[due.value], now)];
      var row := outbound[due.value];
      job := if fate.Commits? then Some(HeldJob(due.value, row.item, row.attempts, now)) else None;
    }

    method MarkOutboundDelivered(id: nat, remoteMessageId: string, now: int, fate: Fate)
      modifies this`outbound
      ensures outbound == if fate.Fails? then old(outbound) else MarkDelivered(old(outbound), id, remoteMessageId, now)
    {
      if !fate.Fails? && id < |outbound| {
        outbound := outbound[id := outbound[id].(status := Delivered, remoteId := remoteMessageId, updatedAt := now)];
      }
    }

    method RetryOutbound(id: nat, error: BridgeError, attempts: nat, now: int, later: int, fate: Fate)
      modifies this`outbound
      ensures outbound == if fate.Fails? then old(outbound) else Retry(old(outbound), id, error, attempts, now, later)
    {
      if !fate.Fails? && id < |outbound| {
        outbound :=
          outbound[id := outbound[id].(status := Pending, nextAttemptAt := now + Backoff(attempts), updatedAt := later,
                                           errorCode := CodeName(error.code), errorText := ErrorText(error))];
      }
    }

    method FailOutbound(id: nat, error: BridgeError, now: int, fate: Fate)
      modifies this`outbound
      ensures outbound == if fate.Fails? then old(outbound) else Fail(old(outbound), id, error, now)
    {
      if !fate.Fails? && id < |outbound| {
        outbound := outbound[id := outbound[id].(status := Failed, updatedAt := now,
                                           errorCode := CodeName(error.code), errorText := ErrorText(error))];
      }
    }

    method ClaimTurnTFDeliveryJob(now: int, fate: Fate) returns (job: Option<HeldJob<DeliveryItem>>)
      modifies this`deliveries
      ensures var due := FirstDue(old(deliveries), now);
              if due.None? || fate.Fails? then deliveries == old(deliveries) && job == None
              else
                var row := ClaimedRow(old(deliveries)[due.value], now);
                && deliveries == old(deliveries)[due.value := row]
                && job == if fate.Commits? then Some(HeldJob(due.value, row.item, row.attempts, now)) else None
      ensures var due := FirstDue(old(deliveries), now);
              due.Some? && !fate.Fails? ==>
                var was, row := old(deliveries)[due.value], deliveries[due.value];
                && row.status == Processing && row.attempts == was.attempts + 1 && row.updatedAt == now
                && row == was.(status := row.status, attempts := row.attempts, updatedAt := row.updatedAt)
                && (fate.Commits? ==> job.Some? && job.value.attempts == was.attempts + 1)
    {
      var due := FirstDue(deliveries, now);
      if due.None? || fate.Fails? {
        return None;
      }
      deliveries := deliveries[due.value := ClaimedRow(deliveries[due.value], now)];
      var row := deliveries[due.value];
      job := if fate.Commits? then Some(HeldJob(due.value, row.item, row.attempts, now)) else None;
    }

    method MarkTurnTFDeliveryDelivered(id: nat, now: int, fate: Fate)
      modifies this`deliveries
      ensures deliveries == if fate.Fails? then old(deliveries) else MarkDelivered(old(deliveries), id, "", now)
    {
      if !fate.Fails? && id < |deliveries| {
        deliveries := deliveries[id := deliveries[id].(status := Delivered, remoteId := "", updatedAt := now)];
      }
    }

    method RetryTurnTFDelivery(id: nat, error: BridgeError, attempts: nat, now: int, later: int, fate: Fate)
      modifies this`deliveries
      ensures deliveries == if fate.Fails? then old(deliveries)
              else Retry(old(deliveries), id, error, attempts, now, later)
    {
      if !fate.Fails? && id < |deliveries| {
        deliveries :=
          deliveries[id :=
                     deliveries[id].(status := Pending, nextAttemptAt := now + Backoff(attempts), updatedAt := later,
                                           errorCode := CodeName(error.code), errorText := ErrorText(error))];
      }
    }

    method FailTurnTFDelivery(id: nat, error: BridgeError, now: int, fate: Fate)
      modifies this`deliveries
      ensures deliveries == if fate.Fails? then old(deliveries) else Fail(old(deliveries), id, error, now)
    {
      if !fate.Fails? && id < |deliveries| {
        deliveries := deliveries[id := deliveries[id].(status := Failed, updatedAt := now,
                                           errorCode := CodeName(error.code), errorText := ErrorText(error))];
      }
    }
  }
}
