/**
 The fan-out of gateway events is exact: the delivery table holds, besides receipts, precisely the copies each event
 owes to the users bound when it was stored and to the matching peers; and the event table says which events those are.
 */
module FanOuts {
  import opened Filters
  import opened Envelopes
  import opened Conversations
  import opened JobKeys
  import opened Queues
  import opened Tables
  import opened Effects
  import opened Bridge
  import opened BridgeRuns
  import opened Ingestion
  import opened Bindings

  /** Who an event reaches: those who had written to its conversation by the time it was stored. */
  ghost function Readers(cfg: Config, archive: seq<MessageRow>, e: BridgeEnvelope): seq<UserRef> {
    Sorted(SendersTo(cfg, archive, Key(e.conversation)))
  }

  /** An event row says everything about itself: whom it reached decides its status. */
  ghost predicate EventAgrees(cfg: Config, event: EventRow, archive: seq<MessageRow>) {
    && NormalEnvelope(event.envelope) && event.envelope.kind == Chat
    && Routable(cfg, Readers(cfg, archive, event.envelope), event.envelope)
    && event ==
       EventRowFor(event.gatewayMessageId, Readers(cfg, archive, event.envelope), event.envelope, event.createdAt)
  }

  ghost predicate EventsAgree(cfg: Config, events: seq<EventRow>, archives: seq<seq<MessageRow>>) {
    |archives| == |events| && forall k :: 0 <= k < |events| ==> EventAgrees(cfg, events[k], archives[k])
  }

  /** The copies owed for all events, event by event: its readers in order, then its matching peers in order. */
  ghost function Copies(cfg: Config, events: seq<EventRow>, archives: seq<seq<MessageRow>>): seq<DeliveryItem>
    requires EventsAgree(cfg, events, archives)
  {
    if events == [] then []
    else
      var n := |events| - 1;
      var e := events[n].envelope;
      Copies(cfg, events[..n], archives[..n]) + EventItems(cfg, n + 1, Readers(cfg, archives[n], e), e)
  }

  /** The orphan row of a failed event. */
  function OrphanOf(event: EventRow): seq<OrphanRow> {
    if event.status == Failed
      then [OrphanRow(event.gatewayMessageId, event.conversationKey, event.envelope, event.createdAt)] else []
  }

  function OrphansOf(events: seq<EventRow>): seq<OrphanRow> {
    if events == [] then [] else OrphansOf(events[..|events| - 1]) + OrphanOf(events[|events| - 1])
  }

  /** The orphan row says of the event everything but its fate. */
  predicate Abandons(event: EventRow, o: OrphanRow) {
    && o.gatewayMessageId == event.gatewayMessageId && o.conversationKey == event.conversationKey
    && o.envelope == event.envelope && o.createdAt == event.createdAt
  }

  /** The event table with the archives its rows were stored under, and the orphans and copies it calls for. */
  ghost predicate Accounts(cfg: Config, messages: seq<MessageRow>, events: seq<EventRow>,
                           archives: seq<seq<MessageRow>>, orphans: seq<OrphanRow>, copies: seq<DeliveryItem>)
  {
    && EventsAgree(cfg, events, archives)
    && (forall k :: 0 <= k < |archives| ==> archives[k] <= messages)
    && (forall i, j :: 0 <= i < j < |events| ==> events[i].gatewayMessageId != events[j].gatewayMessageId)
    && orphans == OrphansOf(events)
    && copies == Copies(cfg, events, archives)
  }

  ghost predicate FannedOut(cfg: Config, s: Sys) {
    && Indexed(cfg, s.db.messages, s.db.bindings)
    && Accounts(cfg, s.db.messages, s.db.events, s.archives, s.db.orphans, Filter(Items(s.db.deliveries), IsEventCopy))
  }

  /** A stored event agrees with the archive of the moment, and owes exactly the jobs its step adds. */
  lemma DeltaOfEvents(cfg: Config, s: Sys, op: Op)
    requires Indexed(cfg, s.db.messages, s.db.bindings)
    ensures var d := DeltaOf(cfg, s, op);
            |d.events| <= 1 &&
            (d.events != [] ==>
               var event := d.events[0];
               && EventAgrees(cfg, event, s.db.messages) && !HasEvent(s.db, event.gatewayMessageId)
               && d.deliveries ==
                  EventItems(cfg, |s.db.events| + 1, Readers(cfg, s.db.messages, event.envelope), event.envelope)
               && d.orphans == OrphanOf(event))
    ensures op.OnEvent? && DeltaOf(cfg, s, op).events == [] ==> DeltaOf(cfg, s, op) == NOTHING
    ensures !op.OnEvent? ==> DeltaOf(cfg, s, op).events == [] && DeltaOf(cfg, s, op).orphans == []
  {
    hide EventId, EventItems, ChatItem, IngestReceipt, Key, BoundUsers, SendersTo, Sorted, Indexed, NormalEnvelope,
         NormalizeEnvelope, RelayTargetsValid, DeliveryReceiptItem;
    if op.OnEvent? && NormalizeEnvelope(op.event.envelope).Success? {
      var e := NormalizeEnvelope(op.event.envelope).value;
      BoundUsersAreSenders(cfg, s.db.messages, s.db.bindings, Key(e.conversation));
      assert UsersFor(cfg, s.db, e) == Readers(cfg, s.db.messages, e);
    }
  }

  lemma CopiesGrow(cfg: Config, events: seq<EventRow>, archives: seq<seq<MessageRow>>, event: EventRow,
                   archive: seq<MessageRow>)
    requires EventsAgree(cfg, events, archives) && EventAgrees(cfg, event, archive)
    ensures EventsAgree(cfg, events + [event], archives + [archive])
    ensures Copies(cfg, events + [event], archives + [archive]) ==
            Copies(cfg, events, archives)
            + EventItems(cfg, |events| + 1, Readers(cfg, archive, event.envelope), event.envelope)
  {
    hide EventAgrees, EventItems, Readers;
    assert (events + [event])[..|events|] == events;
    assert (archives + [archive])[..|archives|] == archives;
  }

  lemma OrphansGrow(events: seq<EventRow>, event: EventRow)
    ensures OrphansOf(events + [event]) == OrphansOf(events) + OrphanOf(event)
  {
    assert (events + [event])[..|events|] == events;
  }

  lemma CopiesOfDelta(cfg: Config, s: Sys, op: Op)
    requires Indexed(cfg, s.db.messages, s.db.bindings)
    ensures var d := DeltaOf(cfg, s, op);
            Filter(d.deliveries, IsEventCopy) == if d.events == [] then [] else d.deliveries
  {
    hide DeltaOf, Indexed, IsEventCopy, IsIngestReceipt, IsDeliveryReceipt, EventAgrees, EventItems;
    var d := DeltaOf(cfg, s, op);
    DeltaByFamily(cfg, s, op);
    DeltaOfEvents(cfg, s, op);
    if d.events != [] {
      FilterAll(d.deliveries, IsEventCopy);
    } else {
      forall item | item in d.deliveries ensures !IsEventCopy(item) { FamiliesExclude(item); }
      FilterNone(d.deliveries, IsEventCopy);
    }
  }

  /** Storing a new event that agrees with the archive keeps the accounts. */
  lemma AccountsGrow(cfg: Config, messages: seq<MessageRow>, events: seq<EventRow>, archives: seq<seq<MessageRow>>,
                     orphans: seq<OrphanRow>, copies: seq<DeliveryItem>, event: EventRow)
    requires Accounts(cfg, messages, events, archives, orphans, copies) && EventAgrees(cfg, event, messages)
    requires forall i :: 0 <= i < |events| ==> events[i].gatewayMessageId != event.gatewayMessageId
    ensures Accounts(cfg, messages, events + [event], archives + [messages], orphans + OrphanOf(event),
                     copies + EventItems(cfg, |events| + 1, Readers(cfg, messages, event.envelope), event.envelope))
  {
    hide EventAgrees, EventItems, Readers, Copies, OrphansOf, OrphanOf, EventsAgree;
    CopiesGrow(cfg, events, archives, event, messages);
    OrphansGrow(events, event);
  }

  lemma AccountsPersist(cfg: Config, messages: seq<MessageRow>, more: seq<MessageRow>, events: seq<EventRow>,
                        archives: seq<seq<MessageRow>>, orphans: seq<OrphanRow>, copies: seq<DeliveryItem>)
    requires Accounts(cfg, messages, events, archives, orphans, copies)
    ensures Accounts(cfg, messages + more, events, archives, orphans, copies)
  {
    hide EventsAgree, Copies, OrphansOf;
  }

  /** The copies in the delivery table grow by the copies among the jobs a step adds. */
  lemma CopiesInTable(cfg: Config, s: Sys, op: Op)
    requires Core(cfg, s)
    ensures Filter(Items(Step(cfg, s, op).db.deliveries), IsEventCopy) ==
            Filter(Items(s.db.deliveries), IsEventCopy) + Filter(DeltaOf(cfg, s, op).deliveries, IsEventCopy)
  {
    hide DeltaOf, Step, QueueStep, IsEventCopy, Filter, Core, NewJobs;
    StepAddsDelta(cfg, s, op);
    CoreIsSafe(cfg, s);
    DeltaByFamily(cfg, s, op);
    ItemsGrow(DelQ(s), DelOp(cfg, s, op));
    assert Inserted(DelOp(cfg, s, op)) == DeltaOf(cfg, s, op).deliveries;
    FilterConcat(Items(s.db.deliveries), DeltaOf(cfg, s, op).deliveries, IsEventCopy);
  }

  lemma StepKeepsFanOut(cfg: Config, s: Sys, op: Op)
    requires Core(cfg, s) && FannedOut(cfg, s)
    ensures FannedOut(cfg, Step(cfg, s, op))
  {
    hide DeltaOf, Step, QueueStep, Indexed, IsEventCopy, EventAgrees, Filter, EventItems, OrphanOf, Core, Accounts,
         Readers;
    var t := Step(cfg, s, op);
    var d := DeltaOf(cfg, s, op);
    var copies := Filter(Items(s.db.deliveries), IsEventCopy);
    StepAddsDelta(cfg, s, op);
    StepKeepsIndex(cfg, s, op);
    DeltaOfEvents(cfg, s, op);
    CopiesOfDelta(cfg, s, op);
    DeltaByFamily(cfg, s, op);
    CopiesInTable(cfg, s, op);
    if d.events == [] {
      assert d.orphans == [] && t.archives == s.archives + [] == s.archives &&
             t.db.events == s.db.events + [] == s.db.events;
      assert copies + [] == copies && s.db.orphans + [] == s.db.orphans;
      AccountsPersist(cfg, s.db.messages, d.messages, s.db.events, s.archives, s.db.orphans, copies);
    } else {
      assert d.messages == [] && s.db.messages + [] == s.db.messages && d.events == [d.events[0]];
      AccountsGrow(cfg, s.db.messages, s.db.events, s.archives, s.db.orphans, copies, d.events[0]);
    }
  }

  lemma {:induction false} RunKeepsFanOut(cfg: Config, s: Sys, ops: seq<Op>)
    requires Core(cfg, s) && FannedOut(cfg, s)
    ensures FannedOut(cfg, Run(cfg, s, ops))
    decreases |ops|
  {
    hide Core, Step, FannedOut;
    if ops != [] {
      StepKeepsFanOut(cfg, s, ops[0]);
      StepKeepsCore(cfg, s, ops[0]);
      RunKeepsFanOut(cfg, Step(cfg, s, ops[0]), ops[1..]);
    }
  }

  lemma ReachableFanOut(cfg: Config, ops: seq<Op>)
    ensures FannedOut(cfg, Run(cfg, INITIAL, ops)) && Core(cfg, Run(cfg, INITIAL, ops))
  {
    hide Step;
    InitialCore(cfg);
    assert FannedOut(cfg, INITIAL);
    RunKeepsCore(cfg, INITIAL, ops);
    RunKeepsFanOut(cfg, INITIAL, ops);
  }

  /**
   Exact fan-out, over any history. Besides receipts, the delivery table holds precisely, in order: for each stored
   event, one `inbound` job per user who had by then written to its conversation and, if there was any, one `relay` job
   per matching peer index. No insertion was ever dropped as a duplicate.
   */
  lemma FanOutIsExact(cfg: Config, ops: seq<Op>)
    ensures var s := Run(cfg, INITIAL, ops);
            && EventsAgree(cfg, s.db.events, s.archives)
            && (forall k :: 0 <= k < |s.archives| ==> s.archives[k] <= s.db.messages)
            && Filter(Items(s.db.deliveries), IsEventCopy) == Copies(cfg, s.db.events, s.archives)
  {
    ReachableFanOut(cfg, ops);
  }

  /** Every delivery job is a receipt given on arrival, a receipt for a failed delivery, or a copy of an event. */
  lemma EveryJobHasAFamily(cfg: Config, ops: seq<Op>, i: nat)
    requires i < |Run(cfg, INITIAL, ops).db.deliveries|
    ensures var item := Run(cfg, INITIAL, ops).db.deliveries[i].item;
            IsIngestReceipt(item) || IsDeliveryReceipt(item) || IsEventCopy(item)
  {
    hide Step, Print;
    var s := Run(cfg, INITIAL, ops);
    InitialCore(cfg);
    RunKeepsCore(cfg, INITIAL, ops);
    assert Known(cfg, s, s.db.deliveries[i].item);
  }

  // --- Event bookkeeping -------------------------------------------------------------------------

  lemma {:induction false} OrphansAreFailures(events: seq<EventRow>, id: string)
    ensures (exists o <- OrphansOf(events) :: o.gatewayMessageId == id) <==>
            (exists event <- events :: event.gatewayMessageId == id && event.status == Failed)
  {
    if events != [] {
      var n := |events| - 1;
      OrphansAreFailures(events[..n], id);
      assert events == events[..n] + [events[n]];
    }
  }

  lemma {:induction false} OrphanCount(events: seq<EventRow>)
    ensures |OrphansOf(events)| == |Filter(events, (event: EventRow) => event.status == Failed)|
  {
    if events != [] {
      OrphanCount(events[..|events| - 1]);
    }
  }

  // --- Which copies there are, key by key --------------------------------------------------------

  /**
   Event `number`, read by `readers`, owes a copy under this key: to a reader, or to a matching peer if it has
   readers.
   */
  predicate Owed(cfg: Config, key: JobKey, number: int, readers: seq<UserRef>, e: BridgeEnvelope) {
    match key
    case InboundKey(n, user) => n == number && user in readers
    case RelayKey(n, p, user) =>
      n == number && readers != [] && 0 <= p < |cfg.peers| && user == cfg.peers[p].user &&
      Matches(e.conversation, cfg.peers[p].fromConversation)
    case ReceiptKey(_, _) => false
  }

  /** This is that copy: the event as it came, or moved to the peer's normalised conversation. */
  predicate IsCopy(cfg: Config, key: JobKey, e: BridgeEnvelope, item: DeliveryItem) {
    match key
    case InboundKey(_, user) => item == DeliveryItem(Print(key), InboundDelivery, user, e)
    case RelayKey(_, p, user) =>
      0 <= p < |cfg.peers| && ValidPattern(cfg.peers[p].toConversation) &&
      item == DeliveryItem(Print(key), RelayDelivery, user,
                           e.(conversation := NormalizeRef(cfg.peers[p].toConversation).value))
    case ReceiptKey(_, _) => false
  }

  ghost predicate IsOwedCopy(cfg: Config, number: int, readers: seq<UserRef>, e: BridgeEnvelope, item: DeliveryItem) {
    exists key: JobKey :: Owed(cfg, key, number, readers, e) && IsCopy(cfg, key, e, item)
  }

  ghost predicate HasCopy(cfg: Config, items: seq<DeliveryItem>, key: JobKey, e: BridgeEnvelope) {
    exists item <- items :: IsCopy(cfg, key, e, item)
  }

  lemma CopyKept(cfg: Config, front: seq<DeliveryItem>, back: seq<DeliveryItem>, key: JobKey, e: BridgeEnvelope)
    requires HasCopy(cfg, front, key, e) || HasCopy(cfg, back, key, e)
    ensures HasCopy(cfg, front + back, key, e)
  {
    hide IsCopy;
    var item :| (item in front || item in back) && IsCopy(cfg, key, e, item);
    assert item in front + back;
  }

  lemma RelayItemIsOwed(cfg: Config, number: int, i: nat, readers: seq<UserRef>, e: BridgeEnvelope)
    requires i < |cfg.peers| && readers != [] && RelayTargetsValid(cfg.peers, i, e.conversation)
    requires Matches(e.conversation, cfg.peers[i].fromConversation)
    ensures var item := RelayItem(number, i, cfg.peers[i], e);
            IsOwedCopy(cfg, number, readers, e, item) && HasCopy(cfg, [item], RelayKey(number, i, cfg.peers[i].user), e)
  {
    hide Print, NormalizeRef, Matches;
    var key, item := RelayKey(number, i, cfg.peers[i].user), RelayItem(number, i, cfg.peers[i], e);
    assert Owed(cfg, key, number, readers, e) && IsCopy(cfg, key, e, item);
    assert item in [item];
  }

  lemma {:induction false} RelayItemsAreOwed(cfg: Config, number: int, i: nat, readers: seq<UserRef>, e: BridgeEnvelope)
    requires i <= |cfg.peers| && readers != [] && RelayTargetsValid(cfg.peers, i, e.conversation)
    ensures forall item <- RelayItems(number, cfg.peers, i, e) :: IsOwedCopy(cfg, number, readers, e, item)
    ensures forall p :: i <= p < |cfg.peers| && Matches(e.conversation, cfg.peers[p].fromConversation) ==>
              HasCopy(cfg, RelayItems(number, cfg.peers, i, e), RelayKey(number, p, cfg.peers[p].user), e)
    decreases |cfg.peers| - i
  {
    hide ValidPattern, Matches, IsOwedCopy, HasCopy, RelayItem;
    if i < |cfg.peers| {
      RelayItemsAreOwed(cfg, number, i + 1, readers, e);
      var front := if Matches(e.conversation, cfg.peers[i].fromConversation)
        then [RelayItem(number, i, cfg.peers[i], e)] else [];
      var back := RelayItems(number, cfg.peers, i + 1, e);
      assert RelayItems(number, cfg.peers, i, e) == front + back;
      if front != [] {
        RelayItemIsOwed(cfg, number, i, readers, e);
      }
      forall p | i <= p < |cfg.peers| && Matches(e.conversation, cfg.peers[p].fromConversation)
        ensures HasCopy(cfg, front + back, RelayKey(number, p, cfg.peers[p].user), e)
      {
        CopyKept(cfg, front, back, RelayKey(number, p, cfg.peers[p].user), e);
      }
    }
  }

  lemma {:induction false} UserItemsAreOwed(cfg: Config, number: int, readers: seq<UserRef>, e: BridgeEnvelope)
    ensures forall item <- UserItems(number, readers, e) :: IsOwedCopy(cfg, number, readers, e, item)
    ensures forall user <- readers :: HasCopy(cfg, UserItems(number, readers, e), InboundKey(number, user), e)
  {
    hide Print;
    var items := UserItems(number, readers, e);
    forall item | item in items
      ensures IsOwedCopy(cfg, number, readers, e, item)
    {
      var k :| 0 <= k < |readers| && item == UserItem(number, readers[k], e);
      assert Owed(cfg, InboundKey(number, readers[k]), number, readers, e);
    }
    forall user | user in readers
      ensures HasCopy(cfg, items, InboundKey(number, user), e)
    {
      var k :| 0 <= k < |readers| && readers[k] == user;
      assert items[k] in items;
    }
  }

  /** The fan-out of one event holds a copy for each key it owes, and nothing else. */
  lemma EventItemsAreOwed(cfg: Config, number: int, readers: seq<UserRef>, e: BridgeEnvelope)
    requires Routable(cfg, readers, e)
    ensures forall item <- EventItems(cfg, number, readers, e) :: IsOwedCopy(cfg, number, readers, e, item)
    ensures forall key: JobKey :: Owed(cfg, key, number, readers, e) ==>
            HasCopy(cfg, EventItems(cfg, number, readers, e), key, e)
  {
    hide Matches, UserItems, RelayItems, RelayTargetsValid, IsOwedCopy, HasCopy;
    if readers != [] {
      UserItemsAreOwed(cfg, number, readers, e);
      RelayItemsAreOwed(cfg, number, 0, readers, e);
      var toUsers, toPeers := UserItems(number, readers, e), RelayItems(number, cfg.peers, 0, e);
      forall key: JobKey | Owed(cfg, key, number, readers, e)
        ensures HasCopy(cfg, toUsers + toPeers, key, e)
      {
        CopyKept(cfg, toUsers, toPeers, key, e);
      }
    }
  }

  /** The event a key is about, counted from 0. */
  function EventOf(key: JobKey): int {
    if key.ReceiptKey? then -1 else key.eventId - 1
  }

  ghost predicate OwedByTable(cfg: Config, events: seq<EventRow>, archives: seq<seq<MessageRow>>, key: JobKey)
    requires |events| == |archives|
  {
    var k := EventOf(key);
    0 <= k < |events| && Owed(cfg, key, k + 1, Readers(cfg, archives[k], events[k].envelope), events[k].envelope)
  }

  /** Under `key` these jobs hold the copy that is owed, or nothing. */
  ghost predicate Paid(cfg: Config, events: seq<EventRow>, archives: seq<seq<MessageRow>>, items: seq<DeliveryItem>,
                       key: JobKey)
    requires |events| == |archives|
  {
    && (OwedByTable(cfg, events, archives, key) <==> exists item <- items :: item.jobKey == Print(key))
    && (forall item <- items :: item.jobKey == Print(key) ==> IsCopy(cfg, key, events[EventOf(key)].envelope, item))
  }

  lemma CopyHasItsKey(cfg: Config, key: JobKey, e: BridgeEnvelope, item: DeliveryItem)
    requires IsCopy(cfg, key, e, item)
    ensures item.jobKey == Print(key)
  {
  }

  lemma EventItemsUnderKey(cfg: Config, number: int, readers: seq<UserRef>, e: BridgeEnvelope, key: JobKey)
    requires Routable(cfg, readers, e)
    ensures Owed(cfg, key, number, readers, e) <==>
            exists item <- EventItems(cfg, number, readers, e) :: item.jobKey == Print(key)
    ensures forall item <- EventItems(cfg, number, readers, e) :: item.jobKey == Print(key) ==>
            IsCopy(cfg, key, e, item)
  {
    hide Print, EventItems, Owed, Routable, IsCopy;
    EventItemsAreOwed(cfg, number, readers, e);
    forall item | item in EventItems(cfg, number, readers, e) && item.jobKey == Print(key)
      ensures Owed(cfg, key, number, readers, e) && IsCopy(cfg, key, e, item)
    {
      assert IsOwedCopy(cfg, number, readers, e, item);
      var k :| Owed(cfg, k, number, readers, e) && IsCopy(cfg, k, e, item);
      CopyHasItsKey(cfg, k, e, item);
      PrintInjective(k, key);
    }
    if Owed(cfg, key, number, readers, e) {
      assert HasCopy(cfg, EventItems(cfg, number, readers, e), key, e);
      var item :| item in EventItems(cfg, number, readers, e) && IsCopy(cfg, key, e, item);
      CopyHasItsKey(cfg, key, e, item);
    }
  }

  lemma {:induction false} CopiesArePaid(cfg: Config, events: seq<EventRow>, archives: seq<seq<MessageRow>>,
                                         key: JobKey)
    requires EventsAgree(cfg, events, archives)
    ensures Paid(cfg, events, archives, Copies(cfg, events, archives), key)
  {
    hide EventItems, Readers, NormalEnvelope, IsCopy, Print, Matches, Routable, EventRowFor;
    if events != [] {
      var n := |events| - 1;
      var e := events[n].envelope;
      var readers := Readers(cfg, archives[n], e);
      assert EventAgrees(cfg, events[n], archives[n]);
      CopiesArePaid(cfg, events[..n], archives[..n], key);
      EventItemsUnderKey(cfg, n + 1, readers, e, key);
      var older, newer := Copies(cfg, events[..n], archives[..n]), EventItems(cfg, n + 1, readers, e);
      assert forall item :: item in Copies(cfg, events, archives) <==> item in older || item in newer;
    }
  }

  /** The table under one key of an event copy. */
  lemma CopyInTable(cfg: Config, s: Sys, key: JobKey)
    requires FannedOut(cfg, s) && !key.ReceiptKey?
    ensures HasJobKey(s.db.deliveries, Print(key)) <==> OwedByTable(cfg, s.db.events, s.archives, key)
    ensures forall i :: 0 <= i < |s.db.deliveries| && s.db.deliveries[i].item.jobKey == Print(key) ==>
              OwedByTable(cfg, s.db.events, s.archives, key) &&
              IsCopy(cfg, key, s.db.events[EventOf(key)].envelope, s.db.deliveries[i].item)
  {
    hide Print, EventAgrees, Copies, OrphansOf, Indexed, Readers, OwedByTable, IsCopy;
    var items := Items(s.db.deliveries);
    CopiesArePaid(cfg, s.db.events, s.archives, key);
    forall i | 0 <= i < |s.db.deliveries| && s.db.deliveries[i].item.jobKey == Print(key)
      ensures items[i] in Filter(items, IsEventCopy)
    {
      assert items[i] in items && IsEventCopy(items[i]);
    }
    if item :| item in Filter(items, IsEventCopy) && item.jobKey == Print(key) {
      var i :| 0 <= i < |items| && items[i] == item;
      assert s.db.deliveries[i].item == item;
    }
  }

  /**
   Fan-out key by key. For every `inbound` and `relay` key, over any history: the delivery table holds a job under it if
   and only if its event owes one, and then that job is addressed as the key says and carries the event as it was
   stored, moved for a relay to the peer's conversation.
   */
  lemma CopyExistsIffOwed(cfg: Config, ops: seq<Op>, key: JobKey)
    requires !key.ReceiptKey?
    ensures var s := Run(cfg, INITIAL, ops);
            && |s.archives| == |s.db.events|
            && (HasJobKey(s.db.deliveries, Print(key)) <==> OwedByTable(cfg, s.db.events, s.archives, key))
            && (forall i :: 0 <= i < |s.db.deliveries| && s.db.deliveries[i].item.jobKey == Print(key) ==>
                  OwedByTable(cfg, s.db.events, s.archives, key) &&
                  IsCopy(cfg, key, s.db.events[EventOf(key)].envelope, s.db.deliveries[i].item))
  {
    hide Step, Print, Core, Copies, Indexed, OwedByTable, IsCopy, Filter, EventAgrees;
    ReachableFanOut(cfg, ops);
    CopyInTable(cfg, Run(cfg, INITIAL, ops), key);
  }

  /** The delivery table holds the copy of the event at index `k` for `user`. */
  predicate HasInbound(db: Db, k: nat, user: UserRef) {
    HasJobKey(db.deliveries, Print(InboundKey(k + 1, user)))
  }

  lemma InboundInTable(cfg: Config, s: Sys, k: nat, user: UserRef)
    requires FannedOut(cfg, s) && k < |s.db.events|
    ensures HasInbound(s.db, k, user) <==> user in Readers(cfg, s.archives[k], s.db.events[k].envelope)
  {
    hide Print, EventAgrees, Copies, OrphansOf, Indexed, Readers, Filter, HasJobKey, IsCopy;
    CopyInTable(cfg, s, InboundKey(k + 1, user));
  }

  lemma FailedIffOrphan(cfg: Config, s: Sys, k: nat)
    requires FannedOut(cfg, s) && k < |s.db.events|
    ensures s.db.events[k].status == Failed <==> HasOrphan(s.db, s.db.events[k].gatewayMessageId)
  {
    hide Copies, Indexed, OrphansOf, EventAgrees;
    var event := s.db.events[k];
    OrphansAreFailures(s.db.events, event.gatewayMessageId);
    assert HasOrphan(s.db, event.gatewayMessageId) <==>
           exists o <- s.db.orphans :: o.gatewayMessageId == event.gatewayMessageId;
    forall other | other in s.db.events && other.gatewayMessageId == event.gatewayMessageId
      ensures other == event
    {
      var j :| 0 <= j < |s.db.events| && s.db.events[j] == other;
    }
  }

  lemma DeliveredIffCopied(cfg: Config, s: Sys, k: nat)
    requires FannedOut(cfg, s) && k < |s.db.events|
    ensures s.db.events[k].status in {Delivered, Failed}
    ensures s.db.events[k].status == Delivered <==> exists user :: HasInbound(s.db, k, user)
  {
    hide Copies, HasInbound, Indexed, OrphansOf, NormalEnvelope, Readers, Routable;
    assert EventAgrees(cfg, s.db.events[k], s.archives[k]);
    var readers := Readers(cfg, s.archives[k], s.db.events[k].envelope);
    forall user ensures HasInbound(s.db, k, user) <==> user in readers { InboundInTable(cfg, s, k, user); }
    assert readers != [] ==> readers[0] in readers;
  }

  lemma {:induction false} OrphansComeFromFailures(events: seq<EventRow>)
    requires forall i, j :: 0 <= i < j < |events| ==> events[i].gatewayMessageId != events[j].gatewayMessageId
    ensures forall o <- OrphansOf(events) :: exists event <- events :: event.status == Failed && OrphanOf(event) == [o]
    ensures forall i, j :: 0 <= i < j < |OrphansOf(events)| ==>
              OrphansOf(events)[i].gatewayMessageId != OrphansOf(events)[j].gatewayMessageId
  {
    if events != [] {
      var n := |events| - 1;
      var front, last := OrphansOf(events[..n]), OrphanOf(events[n]);
      OrphansComeFromFailures(events[..n]);
      assert events == events[..n] + [events[n]] && OrphansOf(events) == front + last;
      forall o | o in front
        ensures exists event <- events ::
                event.status == Failed && OrphanOf(event) == [o] && event.gatewayMessageId != events[n].gatewayMessageId
      {
        var event :| event in events[..n] && event.status == Failed && OrphanOf(event) == [o];
        var i :| 0 <= i < n && events[i] == event;
      }
      assert forall i :: 0 <= i < |front| ==> front[i] in front;
    }
  }

  /**
   Event bookkeeping. In every committed state no event is left `pending`; the orphan rows are exactly the rows of the
   failed events, in order, with gateway ids unique on both sides, so that an event is `failed` if and only if its id is
   in the orphan table; and it is `delivered` if and only if some `inbound:<id>:` job for it exists.
   */
  lemma EventsAreAccountedFor(cfg: Config, ops: seq<Op>, k: nat)
    requires k < |Run(cfg, INITIAL, ops).db.events|
    ensures var db := Run(cfg, INITIAL, ops).db;
            && (db.events[k].status == Failed <==> HasOrphan(db, db.events[k].gatewayMessageId))
            && (db.events[k].status == Delivered <==> exists user :: HasInbound(db, k, user))
            && db.events[k].status in {Delivered, Failed}
            && |db.orphans| == |Filter(db.events, (event: EventRow) => event.status == Failed)|
            && db.orphans == OrphansOf(db.events)
            && (forall o <- db.orphans :: exists event <- db.events :: event.status == Failed && Abandons(event, o))
            && (forall i, j :: 0 <= i < j < |db.events| ==>
                db.events[i].gatewayMessageId != db.events[j].gatewayMessageId)
            && (forall i, j :: 0 <= i < j < |db.orphans| ==>
                db.orphans[i].gatewayMessageId != db.orphans[j].gatewayMessageId)
  {
    hide Step, HasInbound, HasOrphan, Core, OrphansOf, EventsAgree, Copies, Indexed;
    ReachableFanOut(cfg, ops);
    var s := Run(cfg, INITIAL, ops);
    FailedIffOrphan(cfg, s, k);
    DeliveredIffCopied(cfg, s, k);
    OrphanCount(s.db.events);
    OrphansComeFromFailures(s.db.events);
    OrphansSayWhatWasLost();
  }

  lemma OrphansSayWhatWasLost()
    ensures forall event, o :: OrphanOf(event) == [o] ==> Abandons(event, o)
  {
    forall event, o | OrphanOf(event) == [o] ensures Abandons(event, o) {
      assert OrphanOf(event)[0] == o;
    }
  }

  /** Routing is by key: a stored event is queued for exactly the users who had by then sent chat under its key. */
  lemma EventsReachTheirKey(cfg: Config, ops: seq<Op>, k: nat, user: UserRef)
    requires k < |Run(cfg, INITIAL, ops).db.events|
    ensures var s := Run(cfg, INITIAL, ops);
            k < |s.archives| &&
            (HasInbound(s.db, k, user) <==>
             exists row <- s.archives[k] ::
               IntakeOf(cfg, row.message).ChatMessage? && row.message.sender == user &&
               Key(ConversationOf(cfg, row.message)) == Key(s.db.events[k].envelope.conversation))
  {
    hide Step, Copies, HasInbound, Indexed, Core, OrphansOf, Key, IntakeOf;
    var s := Run(cfg, INITIAL, ops);
    ReachableFanOut(cfg, ops);
    InboundInTable(cfg, s, k, user);
    SendersToTheKey(cfg, s.archives[k], s.db.events[k].envelope.conversation, user);
  }

  /**
   That is routing by conversation for every event whose key reads in one way only, such as any without a `|` in it,
   whatever else is in the archive: it is queued for exactly the users who had sent chat to that same conversation,
   where no thread counts as the thread `-`. By `OneReadingIff` this is the exact condition.
   */
  lemma EventsReachTheirConversation(cfg: Config, ops: seq<Op>, k: nat, user: UserRef)
    requires var s := Run(cfg, INITIAL, ops); k < |s.db.events| && OneReading(s.db.events[k].envelope.conversation)
    ensures var s := Run(cfg, INITIAL, ops);
            k < |s.archives| &&
            (HasInbound(s.db, k, user) <==>
             exists row <- s.archives[k] ::
               IntakeOf(cfg, row.message).ChatMessage? && row.message.sender == user &&
               SameButNoThread(ConversationOf(cfg, row.message), s.db.events[k].envelope.conversation))
  {
    hide Step, Copies, HasInbound, Indexed, Core, OrphansOf, Key, IntakeOf, OneReading, SameButNoThread;
    var s := Run(cfg, INITIAL, ops);
    ReachableFanOut(cfg, ops);
    InboundInTable(cfg, s, k, user);
    SendersToOneReading(cfg, s.archives[k], s.db.events[k].envelope.conversation, user);
  }

  /**
   Where all traffic is unambiguous it reaches exactly the users who had sent chat to the equal conversation, even if
   its thread holds a `|`.
   */
  lemma UnambiguousTrafficIsRouted(cfg: Config, ops: seq<Op>, k: nat, user: UserRef)
    requires var s := Run(cfg, INITIAL, ops);
             && k < |s.db.events| == |s.archives|
             && Unambiguous(s.db.events[k].envelope.conversation)
             && forall row <- s.archives[k] :: IntakeOf(cfg, row.message).ChatMessage? ==>
                Unambiguous(ConversationOf(cfg, row.message))
    ensures var s := Run(cfg, INITIAL, ops);
            HasInbound(s.db, k, user) <==>
            exists row <- s.archives[k] :: IntakeOf(cfg, row.message).ChatMessage? && row.message.sender == user
                                           && ConversationOf(cfg, row.message) == s.db.events[k].envelope.conversation
  {
    hide Step, Copies, HasInbound, Indexed, Core, OrphansOf, Key, Unambiguous, IntakeOf;
    var s := Run(cfg, INITIAL, ops);
    ReachableFanOut(cfg, ops);
    InboundInTable(cfg, s, k, user);
    SendersToTheConversation(cfg, s.archives[k], s.db.events[k].envelope.conversation, user);
  }

  /** A failed event is one nobody had written to, and owes nothing under any key. */
  lemma FailedOwesNothing(cfg: Config, s: Sys, k: nat, key: JobKey)
    requires FannedOut(cfg, s) && k < |s.db.events| && s.db.events[k].status == Failed && EventOf(key) == k
    ensures !HasJobKey(s.db.deliveries, Print(key))
  {
    hide Print, Copies, OrphansOf, Indexed, Readers, Filter, HasJobKey, IsCopy, NormalEnvelope, Routable;
    assert EventAgrees(cfg, s.db.events[k], s.archives[k]);
    CopyInTable(cfg, s, key);
  }

  /**
   Orphans are never routed. An event that failed because nobody was bound to its conversation stays failed in every
   continuation, whatever bindings come later, and no `inbound` or `relay` job for it ever exists, whatever the relay
   configuration.
   */
  lemma OrphansAreNotRelayed(cfg: Config, before: seq<Op>, after: seq<Op>, k: nat, key: JobKey)
    requires k < |Run(cfg, INITIAL, before).db.events| && Run(cfg, INITIAL, before).db.events[k].status == Failed
    requires EventOf(key) == k
    ensures var s := Run(cfg, INITIAL, before);
            var t := Run(cfg, s, after);
            && k < |s.archives| && Readers(cfg, s.archives[k], s.db.events[k].envelope) == []
            && k < |t.db.events| && t.db.events[k] == s.db.events[k]
            && !HasJobKey(t.db.deliveries, Print(key))
  {
    hide Step, Print, HasJobKey, Core, OrphansOf, Copies, Indexed, Readers, NormalEnvelope, Routable, Filter;
    var s := Run(cfg, INITIAL, before);
    ReachableFanOut(cfg, before);
    assert EventAgrees(cfg, s.db.events[k], s.archives[k]);
    RunKeepsEvents(cfg, s, after);
    RunConcat(cfg, INITIAL, before, after);
    ReachableFanOut(cfg, before + after);
    FailedOwesNothing(cfg, Run(cfg, s, after), k, key);
  }

  /**
   Exactly which events are relayed to a peer with a normal pattern: those that have readers and whose conversation is
   the pattern's own, in platform, scene and chat, and in the thread where the pattern names one.
   */
  lemma RelayedIff(cfg: Config, ops: seq<Op>, k: nat, p: nat)
    requires k < |Run(cfg, INITIAL, ops).db.events| && p < |cfg.peers| && NormalRef(cfg.peers[p].fromConversation)
    ensures var s := Run(cfg, INITIAL, ops);
            var c, pattern := s.db.events[k].envelope.conversation, cfg.peers[p].fromConversation;
            HasJobKey(s.db.deliveries, Print(RelayKey(k + 1, p, cfg.peers[p].user))) <==>
            && s.db.events[k].status == Delivered
            && c == pattern.(threadId := c.threadId) && (pattern.threadId == "" || pattern.threadId == c.threadId)
  {
    hide Step, Print, HasJobKey, Core, OrphansOf, Copies, Indexed, Readers, Routable, Filter, IsCopy, NormalEnvelope;
    var s := Run(cfg, INITIAL, ops);
    ReachableFanOut(cfg, ops);
    CopyInTable(cfg, s, RelayKey(k + 1, p, cfg.peers[p].user));
    assert EventAgrees(cfg, s.db.events[k], s.archives[k]);
    ChatIdIsNotEmpty(cfg.peers[p].fromConversation);
  }

  lemma ChatIdIsNotEmpty(r: ConversationRef)
    requires NormalRef(r)
    ensures r.chatId != ""
  {
  }

  /** A peer whose pattern passed validation without being in normal form is never sent anything. */
  lemma UnnormalisedPeerGetsNothing(cfg: Config, ops: seq<Op>, p: nat, key: JobKey)
    requires p < |cfg.peers| && ValidPattern(cfg.peers[p].fromConversation) && !NormalRef(cfg.peers[p].fromConversation)
    requires key.RelayKey? && key.peer == p
    ensures !HasJobKey(Run(cfg, INITIAL, ops).db.deliveries, Print(key))
  {
    hide Step, Print, HasJobKey, Core, OrphansOf, Copies, Indexed, Readers, Routable, Filter, IsCopy, Matches,
         ValidPattern;
    var s := Run(cfg, INITIAL, ops);
    ReachableFanOut(cfg, ops);
    CopyInTable(cfg, s, key);
    var k := EventOf(key);
    if 0 <= k < |s.db.events| {
      assert EventAgrees(cfg, s.db.events[k], s.archives[k]);
      UnnormalisedPatternNeverMatches(cfg.peers[p].fromConversation, s.db.events[k].envelope.conversation);
    }
  }
}
