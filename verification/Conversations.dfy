/** Conversation keys and relay patterns (internal/qqbridge/model.go, config.go). */
module Conversations {
  import opened Options
  import opened Strings
  import opened Envelopes

  // --- Keys --------------------------------------------------------------------------------------

  function ThreadSlot(threadId: string): string {
    if threadId == "" then "-" else threadId
  }

  function KeyParts(r: ConversationRef): seq<string> {
    [r.platform, SceneName(r.scene), r.chatId, ThreadSlot(r.threadId)]
  }

  /** `platform|scene|chat|thread`, with `-` for no thread */
  function Key(r: ConversationRef): string {
    Join('|', KeyParts(r))
  }

  /** No separator in the platform or the chat id. */
  predicate BarFree(r: ConversationRef) {
    '|' !in r.platform && '|' !in r.chatId
  }

  lemma BarFreeSplits(r: ConversationRef)
    requires BarFree(r) && NormalRef(r)
    ensures Splittable('|', KeyParts(r))
  {
    forall i | 0 <= i < 3
      ensures '|' !in KeyParts(r)[i]
    {
      assert SceneName(Group) == ['g', 'r', 'o', 'u', 'p'];
      assert SceneName(Private) == ['p', 'r', 'i', 'v', 'a', 't', 'e'];
    }
  }

  /**
   If neither platform nor chat id of either holds a `|`, two normal references share a key exactly when they differ at
   most in that one has no thread and the other the thread `-`.
   */
  lemma BarFreeKeysAgreeIff(a: ConversationRef, b: ConversationRef)
    requires NormalRef(a) && NormalRef(b) && BarFree(a) && BarFree(b)
    ensures Key(a) == Key(b) <==> a == b.(threadId := a.threadId) && ThreadSlot(a.threadId) == ThreadSlot(b.threadId)
  {
    if Key(a) == Key(b) {
      BarFreeSplits(a);
      BarFreeSplits(b);
      JoinInjective('|', KeyParts(a), KeyParts(b));
      assert KeyParts(a)[0] == KeyParts(b)[0] && KeyParts(a)[1] == KeyParts(b)[1];
      assert KeyParts(a)[2] == KeyParts(b)[2] && KeyParts(a)[3] == KeyParts(b)[3];
      assert |SceneName(a.scene)| == |SceneName(b.scene)|;
    }
  }

  /** A reference whose key names it alone among such references. */
  predicate Unambiguous(r: ConversationRef) {
    NormalRef(r) && BarFree(r) && r.threadId != "-"
  }

  lemma KeyInjective(a: ConversationRef, b: ConversationRef)
    requires Unambiguous(a) && Unambiguous(b) && Key(a) == Key(b)
    ensures a == b
  {
    BarFreeKeysAgreeIff(a, b);
  }

  /** Outside those hypotheses keys do collide: a thread called `-`, and a `|` inside a chat id. */
  lemma KeysCollide()
    ensures var a := ConversationRef("qq", Group, "1", "-");
            var b := ConversationRef("qq", Group, "1", "");
            NormalRef(a) && NormalRef(b) && a != b && Key(a) == Key(b)
    ensures var a := ConversationRef("qq", Group, "1|2", "3");
            var b := ConversationRef("qq", Group, "1", "2|3");
            NormalRef(a) && NormalRef(b) && a != b && Key(a) == Key(b)
  {
    var a, b := ConversationRef("qq", Group, "1|2", "3"), ConversationRef("qq", Group, "1", "2|3");
    calc {
      Key(a);
      "qq" + ['|'] + ("group" + ['|'] + ("1|2" + ['|'] + "3"));
      "qq" + ['|'] + ("group" + ['|'] + ("1" + ['|'] + "2|3"));
      Key(b);
    }
  }

  // --- Exactly when a key is shared --------------------------------------------------------------

  /** The positions of the three separators in one reading of a key. */
  datatype Split = Split(i: nat, j: nat, k: nat)

  /** This split cuts the key into a platform, a known scene, a chat and a thread slot, none of them empty or padded. */
  predicate Reads(key: string, s: Split) {
    && 0 < s.i < s.j < s.k - 1 < |key| - 2
    && key[s.i] == key[s.j] == key[s.k] == '|'
    && Trimmed(key[..s.i]) && Trimmed(key[s.j + 1..s.k]) && Trimmed(key[s.k + 1..])
    && (key[s.i + 1..s.j] == "group" || key[s.i + 1..s.j] == "private")
  }

  /** The reference it reads; a slot `-` is taken for the thread `-`. */
  function RefAt(key: string, s: Split): ConversationRef
    requires Reads(key, s)
  {
    var scene := if key[s.i + 1..s.j] == "group" then Group else Private;
    ConversationRef(key[..s.i], scene, key[s.j + 1..s.k], key[s.k + 1..])
  }

  /** Where the separators of `Key` stand. */
  function SplitOf(r: ConversationRef): Split {
    var i := |r.platform|;
    var j := i + 1 + |SceneName(r.scene)|;
    Split(i, j, j + 1 + |r.chatId|)
  }

  /** The same conversation, where no thread counts as the thread `-`. */
  predicate SameButNoThread(a: ConversationRef, b: ConversationRef) {
    a == b.(threadId := a.threadId) && ThreadSlot(a.threadId) == ThreadSlot(b.threadId)
  }

  lemma KeyUnfolds(r: ConversationRef)
    ensures Key(r) == r.platform + ['|'] + (SceneName(r.scene) + ['|'] + (r.chatId + ['|'] + ThreadSlot(r.threadId)))
  {
    var parts := KeyParts(r);
    assert parts[1..][1..][1..] == [ThreadSlot(r.threadId)];
    assert Join('|', parts[1..][1..]) == r.chatId + ['|'] + Join('|', parts[1..][1..][1..]);
    assert Join('|', parts[1..]) == SceneName(r.scene) + ['|'] + Join('|', parts[1..][1..]);
  }

  /** Where the parts of a reference are in its key. */
  lemma KeySlots(r: ConversationRef)
    ensures var key, s := Key(r), SplitOf(r);
            && s.i < s.j < s.k < |key| && key[s.i] == key[s.j] == key[s.k] == '|'
            && key[..s.i] == r.platform && key[s.i + 1..s.j] == SceneName(r.scene)
            && key[s.j + 1..s.k] == r.chatId && key[s.k + 1..] == ThreadSlot(r.threadId)
  {
    hide Key, SceneName, ThreadSlot;
    KeyUnfolds(r);
  }

  /** A normal reference is one reading of its key. */
  lemma KeyReadsItself(r: ConversationRef)
    requires NormalRef(r)
    ensures Reads(Key(r), SplitOf(r)) && SameButNoThread(r, RefAt(Key(r), SplitOf(r)))
  {
    hide Key;
    KeySlots(r);
    assert |"group"| == 5 && |"private"| == 7;
  }

  lemma ReadingIsNormal(key: string, s: Split)
    requires Reads(key, s)
    ensures NormalRef(RefAt(key, s))
    ensures SceneName(RefAt(key, s).scene) == key[s.i + 1..s.j] && ThreadSlot(RefAt(key, s).threadId) == key[s.k + 1..]
  {
    hide IsSpace;
  }

  /** A reading puts the key together again. */
  lemma ReadingCutsTheKey(key: string, s: Split)
    requires Reads(key, s)
    ensures key == key[..s.i] + ['|'] + (key[s.i + 1..s.j] + ['|'] + (key[s.j + 1..s.k] + ['|'] + key[s.k + 1..]))
  {
    hide Trimmed;
    var chatOn := key[s.j + 1..s.k] + ['|'] + key[s.k + 1..];
    assert key[s.j + 1..] == chatOn;
    assert key[s.i + 1..] == key[s.i + 1..s.j] + ['|'] + chatOn;
    assert key == key[..s.i] + ['|'] + key[s.i + 1..];
  }

  /** And every reading is a normal reference with that key. */
  lemma ReadingHasTheKey(key: string, s: Split)
    requires Reads(key, s)
    ensures NormalRef(RefAt(key, s)) && Key(RefAt(key, s)) == key && SplitOf(RefAt(key, s)) == s
  {
    hide Key, Trimmed, NormalRef, SceneName, ThreadSlot;
    ReadingIsNormal(key, s);
    ReadingCutsTheKey(key, s);
    KeyUnfolds(RefAt(key, s));
  }

  lemma SameButNoThreadSameKey(a: ConversationRef, b: ConversationRef)
    requires SameButNoThread(a, b)
    ensures Key(a) == Key(b) && SplitOf(a) == SplitOf(b)
  {
    assert KeyParts(a) == KeyParts(b);
  }

  /** Exactly when two normal references share a key: the one is, up to no thread, a reading of the other's key. */
  lemma KeysAgreeIff(a: ConversationRef, b: ConversationRef)
    requires NormalRef(a) && NormalRef(b)
    ensures Key(a) == Key(b) <==> exists s :: Reads(Key(a), s) && SameButNoThread(b, RefAt(Key(a), s))
  {
    hide Key, Reads, RefAt, NormalRef, SameButNoThread;
    KeyReadsItself(b);
    if s :| Reads(Key(a), s) && SameButNoThread(b, RefAt(Key(a), s)) {
      SameButNoThreadSameKey(b, RefAt(Key(a), s));
      ReadingHasTheKey(Key(a), s);
    }
  }

  /** A reference without a thread shares its key with the thread `-`, and the other way round. */
  lemma NoThreadIsShared(r: ConversationRef)
    requires NormalRef(r) && (r.threadId == "" || r.threadId == "-")
    ensures var other := r.(threadId := if r.threadId == "" then "-" else "");
            NormalRef(other) && other != r && Key(other) == Key(r)
  {
    hide Key;
    SameButNoThreadSameKey(r.(threadId := if r.threadId == "" then "-" else ""), r);
  }

  /**
   Exactly when a normal reference shares its key with another: its thread slot is `-`, or the key reads otherwise.
   */
  lemma KeyIsSharedIff(r: ConversationRef)
    requires NormalRef(r)
    ensures (exists other :: NormalRef(other) && other != r && Key(other) == Key(r)) <==>
            r.threadId == "" || r.threadId == "-" || exists s :: Reads(Key(r), s) && s != SplitOf(r)
  {
    hide Key, Reads, RefAt;
    KeyReadsItself(r);
    if other :| NormalRef(other) && other != r && Key(other) == Key(r) {
      KeyReadsItself(other);
    }
    if s :| Reads(Key(r), s) && s != SplitOf(r) {
      ReadingHasTheKey(Key(r), s);
      assert RefAt(Key(r), s) != r;
    }
    if r.threadId == "" || r.threadId == "-" {
      NoThreadIsShared(r);
    }
  }

  /** The key of a normal reference reads in its own way only. */
  ghost predicate OneReading(r: ConversationRef) {
    NormalRef(r) && forall s :: Reads(Key(r), s) ==> s == SplitOf(r)
  }

  /** Such a reference, and no other, shares its key with its own conversation only. */
  lemma OneReadingIff(r: ConversationRef)
    requires NormalRef(r)
    ensures OneReading(r) <==> forall other | NormalRef(other) && Key(other) == Key(r) :: SameButNoThread(other, r)
  {
    hide Key, Reads, RefAt;
    KeyReadsItself(r);
    if OneReading(r) {
      forall other | NormalRef(other) && Key(other) == Key(r) ensures SameButNoThread(other, r) {
        KeyReadsItself(other);
      }
    } else {
      var s :| Reads(Key(r), s) && s != SplitOf(r);
      ReadingHasTheKey(Key(r), s);
      if SameButNoThread(RefAt(Key(r), s), r) {
        SameButNoThreadSameKey(RefAt(Key(r), s), r);
      }
    }
  }

  /** No separator in platform, chat or thread. */
  predicate Plain(r: ConversationRef) {
    NormalRef(r) && '|' !in r.platform && '|' !in r.chatId && '|' !in r.threadId
  }

  /** The separators of a plain reference's key are the three it was joined with. */
  lemma PlainSeparators(r: ConversationRef)
    requires Plain(r)
    ensures forall n :: 0 <= n < |Key(r)| && Key(r)[n] == '|' ==> n in {SplitOf(r).i, SplitOf(r).j, SplitOf(r).k}
  {
    hide Key, NormalRef;
    KeyUnfolds(r);
    var key, own := Key(r), SplitOf(r);
    assert '|' !in SceneName(r.scene) by {
      assert SceneName(Group) == ['g', 'r', 'o', 'u', 'p'];
      assert SceneName(Private) == ['p', 'r', 'i', 'v', 'a', 't', 'e'];
      assert !r.scene.UnknownScene? by { PlainIsNormal(r); }
    }
    assert '|' !in ThreadSlot(r.threadId);
    assert forall n :: 0 <= n < own.i ==> key[n] == r.platform[n] != '|';
    assert forall n :: own.i < n < own.j ==> key[n] == SceneName(r.scene)[n - own.i - 1] != '|';
    assert forall n :: own.j < n < own.k ==> key[n] == r.chatId[n - own.j - 1] != '|';
    assert forall n :: own.k < n < |key| ==> key[n] == ThreadSlot(r.threadId)[n - own.k - 1] != '|';
  }

  lemma PlainIsNormal(r: ConversationRef)
    requires Plain(r)
    ensures NormalRef(r) && !r.scene.UnknownScene?
  {
  }

  lemma PlainHasOneReading(r: ConversationRef)
    requires Plain(r)
    ensures OneReading(r)
  {
    hide Key, NormalRef, Trimmed;
    PlainIsNormal(r);
    PlainSeparators(r);
    forall s | Reads(Key(r), s) ensures s == SplitOf(r) {
      assert Key(r)[s.i] == '|' && Key(r)[s.j] == '|' && Key(r)[s.k] == '|';
    }
  }

  /** So a plain reference shares its key with any normal one exactly if they differ at most in no thread and `-`. */
  lemma PlainKeysAgreeIff(a: ConversationRef, b: ConversationRef)
    requires Plain(a) && NormalRef(b)
    ensures Key(a) == Key(b) <==> SameButNoThread(b, a)
  {
    hide Key, OneReading;
    PlainHasOneReading(a);
    OneReadingIff(a);
    if SameButNoThread(b, a) {
      SameButNoThreadSameKey(b, a);
    }
  }

  // --- Among platforms without a separator -------------------------------------------------------

  predicate Home(r: ConversationRef) {
    NormalRef(r) && '|' !in r.platform
  }

  /** What follows platform and scene in the key. */
  function Rest(r: ConversationRef): string {
    r.chatId + ['|'] + ThreadSlot(r.threadId)
  }

  /** A separator other than the one after the chat cuts the rest into two parts that are neither empty nor padded. */
  predicate CutsElsewhere(r: ConversationRef, j: nat) {
    && j != |r.chatId| && 0 < j < |Rest(r)| - 1
    && Rest(r)[j] == '|' && Trimmed(Rest(r)[..j]) && Trimmed(Rest(r)[j + 1..])
  }

  lemma HomeKeysAgreeIff(a: ConversationRef, b: ConversationRef)
    requires Home(a) && Home(b)
    ensures Key(a) == Key(b) <==> a.platform == b.platform && a.scene == b.scene && Rest(a) == Rest(b)
  {
    KeyUnfolds(a);
    KeyUnfolds(b);
    if Key(a) == Key(b) {
      HeadIsDetermined('|', a.platform, SceneName(a.scene) + ['|'] + Rest(a),
                       b.platform, SceneName(b.scene) + ['|'] + Rest(b));
      assert SceneName(Group) == ['g', 'r', 'o', 'u', 'p'];
      assert SceneName(Private) == ['p', 'r', 'i', 'v', 'a', 't', 'e'];
      HeadIsDetermined('|', SceneName(a.scene), Rest(a), SceneName(b.scene), Rest(b));
      assert |SceneName(a.scene)| == |SceneName(b.scene)|;
    }
  }

  /** Two such references with one key differ in the cut, or both have the slot `-`. */
  lemma SharingCuts(r: ConversationRef, other: ConversationRef)
    requires Home(r) && Home(other) && other != r && Key(other) == Key(r)
    ensures r.threadId == "" || r.threadId == "-" || CutsElsewhere(r, |other.chatId|)
  {
    hide Key;
    HomeKeysAgreeIff(r, other);
    var j := |other.chatId|;
    assert Rest(r)[..j] == other.chatId && Rest(r)[j + 1..] == ThreadSlot(other.threadId);
    if j == |r.chatId| {
      assert Rest(r)[..j] == r.chatId && Rest(r)[j + 1..] == ThreadSlot(r.threadId);
    }
  }

  lemma CuttingShares(r: ConversationRef, j: nat)
    requires Home(r) && CutsElsewhere(r, j)
    ensures var other := r.(chatId := Rest(r)[..j], threadId := Rest(r)[j + 1..]);
            Home(other) && other != r && Key(other) == Key(r)
  {
    hide Key;
    var other := r.(chatId := Rest(r)[..j], threadId := Rest(r)[j + 1..]);
    assert |other.chatId| == j;
    assert Rest(other) == Rest(r);
    HomeKeysAgreeIff(r, other);
  }

  /**
   Exactly when a reference shares its key with another of them: it has no thread or the thread `-`, or the rest of its
   key can be cut elsewhere into a chat and a thread.
   */
  lemma HomeKeyIsSharedIff(r: ConversationRef)
    requires Home(r)
    ensures (exists other :: Home(other) && other != r && Key(other) == Key(r)) <==>
            r.threadId == "" || r.threadId == "-" || exists j: nat :: CutsElsewhere(r, j)
  {
    hide Key, CutsElsewhere, NormalRef;
    if other :| Home(other) && other != r && Key(other) == Key(r) {
      SharingCuts(r, other);
    }
    if r.threadId == "" || r.threadId == "-" {
      NoThreadIsShared(r);
    }
    if j: nat :| CutsElsewhere(r, j) {
      CutIsInside(r, j);
      CuttingShares(r, j);
      assert Home(r.(chatId := Rest(r)[..j], threadId := Rest(r)[j + 1..]));
    }
  }

  lemma CutIsInside(r: ConversationRef, j: nat)
    requires CutsElsewhere(r, j)
    ensures j < |Rest(r)|
  {
  }

  // --- Patterns ----------------------------------------------------------------------------------

  /** An empty chat or thread in the pattern matches anything; platform and scene are always compared. */
  predicate Matches(r: ConversationRef, pattern: ConversationRef) {
    && r.platform == pattern.platform
    && r.scene == pattern.scene
    && (pattern.chatId == "" || r.chatId == pattern.chatId)
    && (pattern.threadId == "" || r.threadId == pattern.threadId)
  }

  /** What `Validate` accepts of a relay pattern or target. */
  predicate ValidPattern(pattern: ConversationRef) {
    NormalizeRef(pattern).Success?
  }

  /**
   A pattern that passed validation without being in normal form, because its platform is unwritten or something in it
   is padded, matches no normal reference, hence no event at all.
   */
  lemma UnnormalisedPatternNeverMatches(pattern: ConversationRef, r: ConversationRef)
    requires ValidPattern(pattern) && !NormalRef(pattern) && NormalRef(r)
    ensures !Matches(r, pattern)
  {
  }

  /**
   There are such patterns: one without a platform, which validation takes for `qq`, and one with a padded chat id.
   */
  lemma UnnormalisedPatternsExist()
    ensures var p := ConversationRef("", Group, "1", "");
            ValidPattern(p) && !NormalRef(p) && NormalizeRef(p) == Success(p.(platform := "qq"))
    ensures var p := ConversationRef("qq", Group, " 1", "");
            ValidPattern(p) && !NormalRef(p) && NormalizeRef(p) == Success(p.(chatId := "1"))
  {
    assert !Blank("1") by { VisibleTextIsNotBlank("1", 0); }
    assert !Blank(" 1") by { VisibleTextIsNotBlank(" 1", 1); }
    assert TrimLeft(" 1") == "1" by { assert " 1"[1..] == "1"; }
  }

  /**
   `Validate` normalises a copy of each peer, so the bridge matches against the pattern as written. The pattern as
   written behaves like the pattern that was validated if and only if it was already in normal form; and it matches
   anything at all under the same condition.
   */
  lemma StoredPatternWorksIffNormal(pattern: ConversationRef)
    requires ValidPattern(pattern)
    ensures NormalRef(pattern) <==>
            forall r | NormalRef(r) :: Matches(r, pattern) <==> Matches(r, NormalizeRef(pattern).value)
    ensures NormalRef(pattern) <==> exists r :: NormalRef(r) && Matches(r, pattern)
  {
    var normal := NormalizeRef(pattern).value;
    assert Matches(normal, normal);
    if NormalRef(pattern) {
      assert Matches(pattern, pattern);
    } else {
      forall r | NormalRef(r) ensures !Matches(r, pattern) { UnnormalisedPatternNeverMatches(pattern, r); }
    }
  }
}
