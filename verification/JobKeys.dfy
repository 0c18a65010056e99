/**
 The printed keys of the delivery queue (internal/qqbridge/store.go, runtime.go), whose uniqueness the database
 enforces on the printed text.
 */
module JobKeys {
  import opened Strings

  datatype UserRef = UserRef(nodeId: int, userId: int)

  datatype Cursor = Cursor(nodeId: int, seqNo: int)

  datatype ReceiptFamily = InvalidReceipt | KindReceipt | DeliveryReceipt

  function FamilyName(f: ReceiptFamily): string {
    match f
    case InvalidReceipt => "invalid"
    case KindReceipt => "kind"
    case DeliveryReceipt => "delivery"
  }

  datatype JobKey =
    | InboundKey(eventId: int, target: UserRef)
    | RelayKey(eventId: int, peer: int, target: UserRef)
    | ReceiptKey(cursor: Cursor, family: ReceiptFamily)

  function Fields(k: JobKey): seq<string> {
    match k
    case InboundKey(e, t) => ["inbound", Decimal(e), Decimal(t.nodeId), Decimal(t.userId)]
    case RelayKey(e, p, t) => ["relay", Decimal(e), Decimal(p), Decimal(t.nodeId), Decimal(t.userId)]
    case ReceiptKey(c, f) => ["receipt", Decimal(c.nodeId), Decimal(c.seqNo), FamilyName(f)]
  }

  /** `inbound:%d:%d:%d`, `relay:%d:%d:%d:%d`, `receipt:%d:%d:<family>` */
  function Print(k: JobKey): string {
    Join(':', Fields(k))
  }

  lemma FieldsHaveNoColon(k: JobKey)
    ensures Splittable(':', Fields(k))
  {
    forall i | 0 <= i < |Fields(k)| - 1
      ensures ':' !in Fields(k)[i]
    {
      if i > 0 {
        var n := match k
          case InboundKey(e, t) => if i == 1 then e else t.nodeId
          case RelayKey(e, p, t) => if i == 1 then e else if i == 2 then p else t.nodeId
          case ReceiptKey(c, f) => if i == 1 then c.nodeId else c.seqNo;
        DecimalHasNo(n, ':');
      }
    }
  }

  lemma HeadOfKey(k: JobKey)
    ensures Print(k) == Fields(k)[0] + [':'] + Join(':', Fields(k)[1..])
    ensures ':' !in Fields(k)[0]
  {
  }

  /** Equal fields come from equal keys: each number is read back from its printed form. */
  lemma FieldsInjective(a: JobKey, b: JobKey)
    requires Fields(a) == Fields(b)
    ensures a == b
  {
    match a
    case InboundKey(e, t) =>
      assert Fields(b)[0] == "inbound";
      DecimalRoundTrip(e); DecimalRoundTrip(t.nodeId); DecimalRoundTrip(t.userId);
      DecimalRoundTrip(b.eventId); DecimalRoundTrip(b.target.nodeId); DecimalRoundTrip(b.target.userId);
      assert Fields(a)[1] == Fields(b)[1] && Fields(a)[2] == Fields(b)[2] && Fields(a)[3] == Fields(b)[3];
    case RelayKey(e, p, t) =>
      assert Fields(b)[0] == "relay";
      DecimalRoundTrip(e); DecimalRoundTrip(p); DecimalRoundTrip(t.nodeId); DecimalRoundTrip(t.userId);
      DecimalRoundTrip(b.eventId); DecimalRoundTrip(b.peer); DecimalRoundTrip(b.target.nodeId);
      DecimalRoundTrip(b.target.userId);
      assert Fields(a)[1] == Fields(b)[1] && Fields(a)[2] == Fields(b)[2] && Fields(a)[3] == Fields(b)[3] &&
             Fields(a)[4] == Fields(b)[4];
    case ReceiptKey(c, f) =>
      assert Fields(b)[0] == "receipt";
      DecimalRoundTrip(c.nodeId); DecimalRoundTrip(c.seqNo);
      DecimalRoundTrip(b.cursor.nodeId); DecimalRoundTrip(b.cursor.seqNo);
      assert Fields(a)[1] == Fields(b)[1] && Fields(a)[2] == Fields(b)[2] && Fields(a)[3] == Fields(b)[3];
      assert |FamilyName(f)| == |FamilyName(b.family)|;
  }

  /** Two keys print alike only if they are the same family about the same numbers, negative ones included. */
  lemma PrintInjective(a: JobKey, b: JobKey)
    requires Print(a) == Print(b)
    ensures a == b
  {
    HeadOfKey(a);
    HeadOfKey(b);
    HeadIsDetermined(':', Fields(a)[0], Join(':', Fields(a)[1..]), Fields(b)[0], Join(':', Fields(b)[1..]));
    assert |Fields(a)[0]| == |Fields(b)[0]|;
    FieldsHaveNoColon(a);
    FieldsHaveNoColon(b);
    assert |Fields(a)| == |Fields(b)|;
    JoinInjective(':', Fields(a), Fields(b));
    FieldsInjective(a, b);
  }

  lemma JoinOfMore(sep: char, a: string, rest: seq<string>)
    requires rest != []
    ensures Join(sep, [a] + rest) == a + [sep] + Join(sep, rest)
    ensures Join(sep, [a]) == a
  {
    assert ([a] + rest)[1..] == rest;
  }

  /** Three, four and five parts. */
  lemma JoinForms(a: string, b: string, c: string, d: string, e: string)
    ensures Join(':', [a, b]) == a + ":" + b
    ensures Join(':', [a, b, c, d]) == a + ":" + (b + ":" + (c + ":" + d))
    ensures Join(':', [a, b, c, d, e]) == a + ":" + (b + ":" + (c + ":" + (d + ":" + e)))
  {
    hide Join;
    JoinOfMore(':', d, [e]);
    JoinOfMore(':', e, [e]);
    JoinOfMore(':', c, [d]);
    JoinOfMore(':', a, [b]);
    JoinOfMore(':', b, [c, d]);
    JoinOfMore(':', a, [b, c, d]);
    JoinOfMore(':', d, [d]);
    JoinOfMore(':', b, [b]);
    JoinOfMore(':', c, [d, e]);
    JoinOfMore(':', b, [c, d, e]);
    JoinOfMore(':', a, [b, c, d, e]);
    assert [a] + [b, c, d, e] == [a, b, c, d, e] && [b] + [c, d, e] == [b, c, d, e] && [c] + [d, e] == [c, d, e];
    assert [a] + [b, c, d] == [a, b, c, d] && [b] + [c, d] == [b, c, d] && [c] + [d] == [c, d] && [d] + [e] == [d, e];
    assert [a] + [b] == [a, b];
  }

  /** What the keys look like. */
  lemma PrintedForm(k: JobKey)
    ensures k.InboundKey? ==>
              Print(k) == "inbound" + ":" + (Decimal(k.eventId) + ":" +
                          (Decimal(k.target.nodeId) + ":" + Decimal(k.target.userId)))
    ensures k.RelayKey? ==>
              Print(k) == "relay" + ":" + (Decimal(k.eventId) + ":" + (Decimal(k.peer) + ":" +
                          (Decimal(k.target.nodeId) + ":" + Decimal(k.target.userId))))
    ensures k.ReceiptKey? ==>
              Print(k) == "receipt" + ":" + (Decimal(k.cursor.nodeId) + ":" + (Decimal(k.cursor.seqNo) + ":" +
                          (match k.family case InvalidReceipt => "invalid" case KindReceipt => "kind"
                           case DeliveryReceipt => "delivery")))
  {
    hide Decimal, Join;
    match k
    case InboundKey(n, u) => JoinForms("inbound", Decimal(n), Decimal(u.nodeId), Decimal(u.userId), "");
    case RelayKey(n, p, u) => JoinForms("relay", Decimal(n), Decimal(p), Decimal(u.nodeId), Decimal(u.userId));
    case ReceiptKey(c, f) => JoinForms("receipt", Decimal(c.nodeId), Decimal(c.seqNo), FamilyName(f), "");
  }

  /** `messageIDFromCursor` */
  function PrintCursor(c: Cursor): string {
    Join(':', [Decimal(c.nodeId), Decimal(c.seqNo)])
  }

  lemma PrintedCursor(c: Cursor)
    ensures PrintCursor(c) == Decimal(c.nodeId) + ":" + Decimal(c.seqNo)
  {
    hide Decimal, Join;
    JoinForms(Decimal(c.nodeId), Decimal(c.seqNo), "", "", "");
  }
}
