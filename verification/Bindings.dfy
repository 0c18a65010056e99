/** The `session_bindings` table, kept one upsert at a time, is a correct index of the message archive. */
module Bindings {
  import opened Envelopes
  import opened Conversations
  import opened JobKeys
  import opened Queues
  import opened Tables
  import opened Effects
  import opened Bridge
  import opened BridgeRuns

  /** This archived message is a chat message that binds its sender under key `k`. */
  predicate Feeds(cfg: Config, m: Message, k: BindingKey) {
    && IntakeOf(cfg, m).ChatMessage?
    && k == BindingKey(cfg.bridge, m.sender, Key(IntakeOf(cfg, m).envelope.conversation))
  }

  function ConversationOf(cfg: Config, m: Message): ConversationRef
    requires IntakeOf(cfg, m).ChatMessage?
  {
    IntakeOf(cfg, m).envelope.conversation
  }

  /** Messages `first` and `last` are the first and the last to feed `k`. */
  ghost predicate Span(cfg: Config, rows: seq<MessageRow>, k: BindingKey, first: nat, last: nat) {
    && first <= last < |rows|
    && Feeds(cfg, rows[first].message, k) && Feeds(cfg, rows[last].message, k)
    && (forall j :: 0 <= j < |rows| && Feeds(cfg, rows[j].message, k) ==> first <= j <= last)
  }

  /** The binding holds the latest conversation and time, and the time of the first message. */
  ghost predicate Summarises(cfg: Config, rows: seq<MessageRow>, k: BindingKey, b: Binding) {
    exists first: nat, last: nat :: Span(cfg, rows, k, first, last) &&
      b == Binding(ConversationOf(cfg, rows[last].message), rows[first].savedAt, rows[last].savedAt)
  }

  ghost predicate Indexed(cfg: Config, rows: seq<MessageRow>, bindings: map<BindingKey, Binding>) {
    && (forall k :: k in bindings <==> exists i :: 0 <= i < |rows| && Feeds(cfg, rows[i].message, k))
    && (forall k <- bindings :: Summarises(cfg, rows, k, bindings[k]))
  }

  lemma SummaryKept(cfg: Config, rows: seq<MessageRow>, row: MessageRow, k: BindingKey, b: Binding)
    requires Summarises(cfg, rows, k, b) && !Feeds(cfg, row.message, k)
    ensures Summarises(cfg, rows + [row], k, b)
  {
    hide IntakeOf, Key;
    var first: nat, last: nat :| Span(cfg, rows, k, first, last) &&
      b == Binding(ConversationOf(cfg, rows[last].message), rows[first].savedAt, rows[last].savedAt);
    assert Span(cfg, rows + [row], k, first, last);
  }

  lemma SummaryUpdated(cfg: Config, rows: seq<MessageRow>, row: MessageRow, k: BindingKey, b: Binding)
    requires Summarises(cfg, rows, k, b) && Feeds(cfg, row.message, k)
    ensures Summarises(cfg, rows + [row], k, Binding(ConversationOf(cfg, row.message), b.createdAt, row.savedAt))
  {
    hide IntakeOf, Key;
    var first: nat, last: nat :| Span(cfg, rows, k, first, last) &&
      b == Binding(ConversationOf(cfg, rows[last].message), rows[first].savedAt, rows[last].savedAt);
    assert Span(cfg, rows + [row], k, first, |rows|);
  }

  lemma SummaryStarted(cfg: Config, rows: seq<MessageRow>, row: MessageRow, k: BindingKey)
    requires Feeds(cfg, row.message, k) && forall i :: 0 <= i < |rows| ==> !Feeds(cfg, rows[i].message, k)
    ensures Summarises(cfg, rows + [row], k, Binding(ConversationOf(cfg, row.message), row.savedAt, row.savedAt))
  {
    hide IntakeOf, Key;
    assert Span(cfg, rows + [row], k, |rows|, |rows|);
  }

  /** Archiving one more message and upserting its binding keeps the index correct. */
  lemma UpsertKeepsIndex(cfg: Config, db: Db, row: MessageRow)
    requires Indexed(cfg, db.messages, db.bindings)
    ensures Indexed(cfg, db.messages + [row], BindingsAfter(cfg, db, row.message, row.savedAt))
  {
    hide Key, IntakeOf, Summarises;
    var m, rows, next := row.message, db.messages, BindingsAfter(cfg, db, row.message, row.savedAt);
    forall k
      ensures k in next <==> exists i :: 0 <= i < |rows + [row]| && Feeds(cfg, (rows + [row])[i].message, k)
      ensures k in next ==> Summarises(cfg, rows + [row], k, next[k])
    {
      if Feeds(cfg, m, k) {
        assert Feeds(cfg, (rows + [row])[|rows|].message, k);
        if k in db.bindings {
          SummaryUpdated(cfg, rows, row, k, db.bindings[k]);
        } else {
          SummaryStarted(cfg, rows, row, k);
        }
      } else if k in db.bindings {
        var i :| 0 <= i < |rows| && Feeds(cfg, rows[i].message, k);
        assert Feeds(cfg, (rows + [row])[i].message, k);
        SummaryKept(cfg, rows, row, k, db.bindings[k]);
      } else {
        forall i | 0 <= i < |rows + [row]|
          ensures !Feeds(cfg, (rows + [row])[i].message, k)
        {
          assert i < |rows| ==> (rows + [row])[i] == rows[i];
        }
      }
    }
  }

  lemma StepKeepsIndex(cfg: Config, s: Sys, op: Op)
    requires Core(cfg, s) && Indexed(cfg, s.db.messages, s.db.bindings)
    ensures Indexed(cfg, Step(cfg, s, op).db.messages, Step(cfg, s, op).db.bindings)
  {
    hide DeltaOf, Step, QueueStep, Indexed, BindingsAfter;
    StepAddsDelta(cfg, s, op);
    NewMessageIsNew(cfg, s, op);
    var d := DeltaOf(cfg, s, op);
    if d.messages == [] {
      assert s.db.messages + [] == s.db.messages;
    } else {
      assert d.messages == [d.messages[0]];
      UpsertKeepsIndex(cfg, s.db, d.messages[0]);
    }
  }

  lemma {:induction false} RunKeepsIndex(cfg: Config, s: Sys, ops: seq<Op>)
    requires Core(cfg, s) && Indexed(cfg, s.db.messages, s.db.bindings)
    ensures Indexed(cfg, Run(cfg, s, ops).db.messages, Run(cfg, s, ops).db.bindings)
    decreases |ops|
  {
    hide Core, Step, Indexed;
    if ops != [] {
      StepKeepsIndex(cfg, s, ops[0]);
      StepKeepsCore(cfg, s, ops[0]);
      RunKeepsIndex(cfg, Step(cfg, s, ops[0]), ops[1..]);
    }
  }

  /**
   In every reachable state the bindings are exactly those the archived chat messages to the bridge justify, each with
   the latest message's conversation and time and the first message's creation time.
   */
  lemma BindingsIndexTheArchive(cfg: Config, ops: seq<Op>)
    ensures var db := Run(cfg, INITIAL, ops).db; Indexed(cfg, db.messages, db.bindings)
  {
    InitialCore(cfg);
    RunKeepsIndex(cfg, INITIAL, ops);
  }

  /**
   There is a binding exactly for the bridge, each other user, and each key under which that user has sent the bridge a
   chat that parses.
   */
  lemma BindingExistsIff(cfg: Config, ops: seq<Op>, k: BindingKey)
    ensures var db := Run(cfg, INITIAL, ops).db;
            k in db.bindings <==>
            k.bridge == cfg.bridge && k.local != cfg.bridge &&
            exists row <- db.messages ::
              row.message.recipient == cfg.bridge && row.message.sender == k.local &&
                Parse(row.message.body).Success? &&
              Parse(row.message.body).value.kind == Chat &&
              Key(Parse(row.message.body).value.conversation) == k.conversationKey
  {
    hide Run, Key, Parse, Summarises;
    BindingsIndexTheArchive(cfg, ops);
    var db := Run(cfg, INITIAL, ops).db;
    if k in db.bindings {
      var i :| 0 <= i < |db.messages| && Feeds(cfg, db.messages[i].message, k);
      assert db.messages[i] in db.messages;
    }
    if row :| row in db.messages && Feeds(cfg, row.message, k) {
      var i :| 0 <= i < |db.messages| && db.messages[i] == row;
    }
    assert forall row <- db.messages :: Feeds(cfg, row.message, k) <==>
      k.bridge == cfg.bridge && k.local != cfg.bridge && row.message.recipient == cfg.bridge &&
      row.message.sender == k.local && Parse(row.message.body).Success? && Parse(row.message.body).value.kind == Chat &&
      Key(Parse(row.message.body).value.conversation) == k.conversationKey;
  }

  // --- Who is bound to a conversation ------------------------------------------------------------

  /** The users who have sent the bridge a chat message for a conversation with this key. */
  ghost function SendersTo(cfg: Config, rows: seq<MessageRow>, conversationKey: string): set<UserRef> {
    set row <- rows | Feeds(cfg, row.message, BindingKey(cfg.bridge, row.message.sender, conversationKey)) ::
      row.message.sender
  }

  lemma BoundUsersAreSenders(cfg: Config, rows: seq<MessageRow>, bindings: map<BindingKey, Binding>,
                             conversationKey: string)
    requires Indexed(cfg, rows, bindings)
    ensures BoundUsers(bindings, cfg.bridge, conversationKey) == SendersTo(cfg, rows, conversationKey)
  {
    hide IntakeOf, Key, Summarises;
    forall u
      ensures u in BoundUsers(bindings, cfg.bridge, conversationKey) <==> u in SendersTo(cfg, rows, conversationKey)
    {
      var k := BindingKey(cfg.bridge, u, conversationKey);
      assert u in BoundUsers(bindings, cfg.bridge, conversationKey) <==> k in bindings;
      if k in bindings {
        var i :| 0 <= i < |rows| && Feeds(cfg, rows[i].message, k);
        assert rows[i] in rows && rows[i].message.sender == u;
      }
      if u in SendersTo(cfg, rows, conversationKey) {
        var row :| row in rows && Feeds(cfg, row.message, k) && row.message.sender == u;
        var i :| 0 <= i < |rows| && rows[i] == row;
      }
    }
  }

  /** The users bound to a conversation are those who have written to one with the same key. */
  lemma SendersToTheKey(cfg: Config, rows: seq<MessageRow>, c: ConversationRef, u: UserRef)
    ensures u in SendersTo(cfg, rows, Key(c)) <==>
            exists row <- rows :: IntakeOf(cfg, row.message).ChatMessage? && row.message.sender == u &&
                                  Key(ConversationOf(cfg, row.message)) == Key(c)
  {
    hide IntakeOf, Key;
  }

  lemma ChatConversationIsNormal(cfg: Config, m: Message)
    requires IntakeOf(cfg, m).ChatMessage?
    ensures NormalRef(ConversationOf(cfg, m))
  {
    hide NormalRef;
  }

  /** If its key reads in one way only, they are those who have written to that very conversation. */
  lemma SendersToOneReading(cfg: Config, rows: seq<MessageRow>, c: ConversationRef, u: UserRef)
    requires OneReading(c)
    ensures u in SendersTo(cfg, rows, Key(c)) <==>
            exists row <- rows :: IntakeOf(cfg, row.message).ChatMessage? && row.message.sender == u &&
                                  SameButNoThread(ConversationOf(cfg, row.message), c)
  {
    hide IntakeOf, Key, OneReading, SendersTo, NormalRef;
    SendersToTheKey(cfg, rows, c, u);
    OneReadingIff(c) by { OneReadingIsNormal(c); }
    forall row | row in rows && IntakeOf(cfg, row.message).ChatMessage?
      ensures Key(ConversationOf(cfg, row.message)) == Key(c) <==> SameButNoThread(ConversationOf(cfg, row.message), c)
    {
      ChatConversationIsNormal(cfg, row.message);
      if SameButNoThread(ConversationOf(cfg, row.message), c) {
        SameButNoThreadSameKey(ConversationOf(cfg, row.message), c);
      }
    }
  }

  lemma OneReadingIsNormal(c: ConversationRef)
    requires OneReading(c)
    ensures NormalRef(c)
  {
  }

  /**
   When no two conversations in play can share a key, the users bound to one are exactly those who have written to that
   very conversation.
   */
  lemma SendersToTheConversation(cfg: Config, rows: seq<MessageRow>, c: ConversationRef, u: UserRef)
    requires Unambiguous(c)
    requires forall row <- rows :: IntakeOf(cfg, row.message).ChatMessage? ==>
             Unambiguous(ConversationOf(cfg, row.message))
    ensures u in SendersTo(cfg, rows, Key(c)) <==>
            exists row <- rows ::
              IntakeOf(cfg, row.message).ChatMessage? && row.message.sender == u &&
                ConversationOf(cfg, row.message) == c
  {
    hide IntakeOf, Key, Unambiguous;
    if u in SendersTo(cfg, rows, Key(c)) {
      var row :| row in rows && Feeds(cfg, row.message, BindingKey(cfg.bridge, u, Key(c))) && row.message.sender == u;
      KeyInjective(ConversationOf(cfg, row.message), c);
    }
  }
}
