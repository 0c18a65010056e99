/**
 Rendering content for NapCat and reading it back (internal/qqbridge/gateway_napcat.go). The wire form is modelled after
 its JSON encoding and decoding, which are taken to be inverse.
 */
module NapCatRender {
  import opened Filters
  import opened Options
  import opened Strings
  import opened Envelopes
  import opened Gateways

  /** `{"type": ..., "data": {...}}` */
  datatype Wire = Wire(kind: string, data: map<string, JsonValue>)

  /** The raw `message` field: an array of segments, or anything else. */
  datatype RawMessage = Segments(segments: seq<Wire>) | NotSegments

  // --- Rendering ---------------------------------------------------------------------------------

  function RenderSegment(s: Segment): Result<Wire, BridgeError> {
    match s.kind
    case Text => Success(Wire("text", map["text" := JString(s.text)]))
    case Image => Success(Wire("image", map["file" := JString(s.url)]))
    case Audio => Success(Wire("record", map["file" := JString(s.url)]))
    case Video => Success(Wire("video", map["file" := JString(s.url)]))
    case File => Success(Wire("file", map["file" := JString(s.url), "name" := JString(s.fileName)]))
    case Reply => Success(Wire("reply", map["id" := JString(s.messageId)]))
    case Mention => Success(Wire("at", map["qq" := JString(s.userId)]))
    case Json =>
      if s.payload.None? then Failure(Terminal("json segment payload is empty"))
      else if !s.payload.value.Encoded? then Failure(Terminal("json segment payload is invalid"))
      else Success(Wire("json", map["data" := s.payload.value.value]))
    case UnknownSegment(_) => Failure(Terminal("unsupported segment kind for napcat"))
  }

  /** The wire forms of the segments, or the first error. */
  function Rendered(content: Content): Result<seq<Wire>, BridgeError> {
    if content == [] then Success([])
    else
      match Rendered(content[..|content| - 1])
      case Failure(e) => Failure(e)
      case Success(front) =>
        match RenderSegment(content[|content| - 1])
        case Failure(e) => Failure(e)
        case Success(last) => Success(front + [last])
  }

  lemma {:induction false} FirstErrorStays(content: Content, n: nat)
    requires n <= |content| && Rendered(content[..n]).Failure?
    ensures Rendered(content) == Rendered(content[..n])
    decreases |content|
  {
    hide RenderSegment;
    if n < |content| {
      assert content[..|content| - 1][..n] == content[..n];
      FirstErrorStays(content[..|content| - 1], n);
    } else {
      assert content[..n] == content;
    }
  }

  /** The documented wire form of a segment: a type name, and under its keys the segment's own values. */
  predicate OnTheWire(s: Segment, w: Wire) {
    && (s.kind == Text ==> w.kind == "text" && w.data == map["text" := JString(s.text)])
    && (s.kind == Image ==> w.kind == "image" && w.data == map["file" := JString(s.url)])
    && (s.kind == Audio ==> w.kind == "record" && w.data == map["file" := JString(s.url)])
    && (s.kind == Video ==> w.kind == "video" && w.data == map["file" := JString(s.url)])
    && (s.kind == File ==>
          w.kind == "file" && w.data == map["file" := JString(s.url), "name" := JString(s.fileName)])
    && (s.kind == Reply ==> w.kind == "reply" && w.data == map["id" := JString(s.messageId)])
    && (s.kind == Mention ==> w.kind == "at" && w.data == map["qq" := JString(s.userId)])
    && (s.kind == Json ==> w.kind == "json" && w.data.Keys == {"data"} && s.payload == Some(Encoded(w.data["data"])))
    && !s.kind.UnknownSegment?
  }

  /** What has a wire form: every known kind, and of JSON segments those whose payload decodes. */
  predicate HasWireForm(s: Segment) {
    !s.kind.UnknownSegment? && (s.kind == Json ==> s.payload.Some? && s.payload.value.Encoded?)
  }

  lemma RenderedOnTheWire(s: Segment)
    ensures RenderSegment(s).Success? <==> HasWireForm(s)
    ensures RenderSegment(s).Success? ==> OnTheWire(s, RenderSegment(s).value)
    ensures RenderSegment(s).Failure? ==>
              !RenderSegment(s).error.retryable && RenderSegment(s).error.code == UnsupportedContent
  {
  }

  lemma {:induction false} RenderedAllOnTheWire(content: Content)
    requires Rendered(content).Success?
    ensures |Rendered(content).value| == |content|
    ensures forall i :: 0 <= i < |content| ==> OnTheWire(content[i], Rendered(content).value[i])
  {
    hide RenderSegment, OnTheWire;
    if content != [] {
      RenderedAllOnTheWire(content[..|content| - 1]);
      RenderedOnTheWire(content[|content| - 1]);
    }
  }

  method RenderNapCatSegments(content: Content) returns (r: Result<seq<Wire>, BridgeError>)
    ensures r == Rendered(content)
    ensures r.Success? <==> forall s <- content :: HasWireForm(s)
    ensures r.Success? ==> |r.value| == |content| && forall i :: 0 <= i < |content| ==>
            OnTheWire(content[i], r.value[i])
    ensures r.Failure? ==> !r.error.retryable && r.error.code == UnsupportedContent
  {
    hide RenderSegment, OnTheWire, HasWireForm;
    var message: seq<Wire> := [];
    for i := 0 to |content|
      invariant Rendered(content[..i]) == Success(message)
      invariant |message| == i && forall k :: 0 <= k < i ==>
                HasWireForm(content[k]) && OnTheWire(content[k], message[k])
    {
      var one := RenderSegment(content[i]);
      RenderedOnTheWire(content[i]);
      assert content[..i + 1][..i] == content[..i];
      if one.Failure? {
        FirstErrorStays(content, i + 1);
        assert content[i] in content;
        return Failure(one.error);
      }
      message := message + [one.value];
    }
    assert content[..|content|] == content;
    return Success(message);
  }

  // --- Parsing -----------------------------------------------------------------------------------

  function TrimQuotesLeft(s: string): string {
    if s != "" && s[0] == '"' then TrimQuotesLeft(s[1..]) else s
  }

  function TrimQuotesRight(s: string): string {
    if s != "" && s[|s| - 1] == '"' then TrimQuotesRight(s[..|s| - 1]) else s
  }

  /** `stringValue`: the first candidate that has something to say. */
  function StringValue(values: seq<JsonValue>): string {
    if values == [] then ""
    else
      match values[0]
      case JNull => StringValue(values[1..])
      case JString(s) => if TrimSpace(s) != "" then TrimSpace(s) else StringValue(values[1..])
      case JNumber(_, whole) => Decimal(whole)
      case JOther(text) => TrimQuotesRight(TrimQuotesLeft(text))
  }

  function Get(w: Wire, key: string): JsonValue {
    if key in w.data then w.data[key] else JNull
  }

  const NO_SEGMENT := Segment(Text, "", "", "", "", "", "", None)

  /** A wire segment of a known type becomes a segment; others are skipped. */
  function ParseSegment(w: Wire): seq<Segment> {
    if w.kind == "text" then [NO_SEGMENT.(kind := Text, text := StringValue([Get(w, "text")]))]
    else if w.kind == "image" then [NO_SEGMENT.(kind := Image, url := StringValue([Get(w, "url"), Get(w, "file")]))]
    else if w.kind == "record" then [NO_SEGMENT.(kind := Audio, url := StringValue([Get(w, "url"), Get(w, "file")]))]
    else if w.kind == "video" then [NO_SEGMENT.(kind := Video, url := StringValue([Get(w, "url"), Get(w, "file")]))]
    else if w.kind == "file" then
      [NO_SEGMENT.(kind := File, url := StringValue([Get(w, "url"), Get(w, "file")]),
                   fileName := StringValue([Get(w, "name")]))]
    else if w.kind == "reply" then [NO_SEGMENT.(kind := Reply, messageId := StringValue([Get(w, "id")]))]
    else if w.kind == "at" then [NO_SEGMENT.(kind := Mention, userId := StringValue([Get(w, "qq")]))]
    else if w.kind == "json" then [NO_SEGMENT.(kind := Json, payload := Some(Encoded(Get(w, "data"))))]
    else []
  }

  function ParseAll(wires: seq<Wire>): seq<Segment> {
    if wires == [] then [] else ParseAll(wires[..|wires| - 1]) + ParseSegment(wires[|wires| - 1])
  }

  function Parsed(raw: RawMessage, rawMessage: string): Result<Content, BridgeError> {
    if raw.Segments? && ParseAll(raw.segments) != [] then Success(ParseAll(raw.segments))
    else if Blank(rawMessage) then Failure(Terminal("napcat message has no usable payload"))
    else Success([NO_SEGMENT.(text := rawMessage)])
  }

  // --- What is read ------------------------------------------------------------------------------

  /** The value under `key` is a string that says something. */
  predicate Says(w: Wire, key: string, t: string) {
    key in w.data && w.data[key] == JString(t) && !Blank(t)
  }

  /** There is nothing to use under `key`: no value, null, or a blank string. */
  predicate Silent(w: Wire, key: string) {
    key !in w.data || w.data[key] == JNull || (w.data[key].JString? && Blank(w.data[key].s))
  }

  predicate KnownType(w: Wire) {
    w.kind in {"text", "image", "record", "video", "file", "reply", "at", "json"}
  }

  function KindOfType(name: string): SegmentKind {
    match name
    case "text" => Text
    case "image" => Image
    case "record" => Audio
    case "video" => Video
    case "file" => File
    case "reply" => Reply
    case "at" => Mention
    case "json" => Json
    case _ => UnknownSegment(name)
  }

  /** The value of one string field: the trimmed string under its key, or nothing when the key is silent. */
  ghost predicate FieldRead(w: Wire, key: string, value: string) {
    && (forall t :: Says(w, key, t) ==> value == TrimSpace(t))
    && (Silent(w, key) ==> value == "")
    && (key in w.data && w.data[key].JNumber? ==> value == Decimal(w.data[key].whole))
    && (key in w.data && w.data[key].JOther? ==> Unquoted(w.data[key].text, value))
  }

  /** A medium's address: the url whatever the file says, else the file. */
  ghost predicate AddressRead(w: Wire, value: string) {
    if Silent(w, "url") then FieldRead(w, "file", value) else FieldRead(w, "url", value)
  }

  /** What becomes of a segment of a known type, for wires of any origin. */
  ghost predicate ReadFrom(w: Wire, s: Segment) {
    && s.kind == KindOfType(w.kind) && !s.kind.UnknownSegment? && s.mime == ""
    && (if s.kind in {Image, Audio, Video, File} then AddressRead(w, s.url) else s.url == "")
    && (if s.kind == Text then FieldRead(w, "text", s.text) else s.text == "")
    && (if s.kind == File then FieldRead(w, "name", s.fileName) else s.fileName == "")
    && (if s.kind == Reply then FieldRead(w, "id", s.messageId) else s.messageId == "")
    && (if s.kind == Mention then FieldRead(w, "qq", s.userId) else s.userId == "")
    && (if s.kind == Json then s.payload == Some(Encoded(if "data" in w.data then w.data["data"] else JNull))
        else s.payload == None)
  }

  lemma StringValueOfField(w: Wire, key: string)
    ensures FieldRead(w, key, StringValue([Get(w, key)]))
  {
    hide TrimQuotesLeft, TrimQuotesRight, Decimal, IsSpace, Unquoted;
    assert [Get(w, key)][1..] == [];
    if key in w.data && w.data[key].JOther? {
      TrimmedQuotes(w.data[key].text);
    }
  }

  lemma StringValueOfAddress(w: Wire)
    ensures AddressRead(w, StringValue([Get(w, "url"), Get(w, "file")]))
  {
    hide TrimQuotesLeft, TrimQuotesRight, Decimal, IsSpace, Unquoted;
    StringValueOfField(w, "url");
    StringValueOfField(w, "file");
    assert [Get(w, "url")][1..] == [];
    assert [Get(w, "url"), Get(w, "file")][1..] == [Get(w, "file")];
  }

  lemma ParsedIsRead(w: Wire)
    ensures KnownType(w) ==> |ParseSegment(w)| == 1 && ReadFrom(w, ParseSegment(w)[0])
    ensures !KnownType(w) ==> ParseSegment(w) == []
  {
    hide StringValue, FieldRead, AddressRead;
    StringValueOfAddress(w);
    forall key ensures FieldRead(w, key, StringValue([Get(w, key)])) { StringValueOfField(w, key); }
  }

  /** The segments read are those of the wires of known types, one for one and in order. */
  ghost predicate AllRead(wires: seq<Wire>, content: Content) {
    var known := Filter(wires, KnownType);
    |content| == |known| && forall i :: 0 <= i < |known| ==> ReadFrom(known[i], content[i])
  }

  lemma {:induction false} ParsedAllRead(wires: seq<Wire>)
    ensures AllRead(wires, ParseAll(wires))
  {
    hide ParseSegment, ReadFrom, KnownType, Filter;
    if wires == [] {
      FilterNothing(KnownType);
    } else {
      var front, w := wires[..|wires| - 1], wires[|wires| - 1];
      ParsedAllRead(front);
      ParsedIsRead(w);
      FilterPush(front, w, KnownType);
      assert wires == front + [w];
    }
  }

  lemma SomeAreKnown(wires: seq<Wire>)
    ensures Filter(wires, KnownType) == [] <==> forall w <- wires :: !KnownType(w)
  {
    var known := Filter(wires, KnownType);
    if known != [] {
      assert known[0] in known;
    }
  }

  /**
   Numbers are read by their whole part, null is passed over, anything else gives its text without quotes around it.
   */
  lemma StringValueLaws(v: JsonValue, rest: seq<JsonValue>)
    ensures v == JNull || (v.JString? && Blank(v.s)) ==> StringValue([v] + rest) == StringValue(rest)
    ensures v.JString? && !Blank(v.s) ==> StringValue([v] + rest) == TrimSpace(v.s)
    ensures v.JNumber? ==> StringValue([v] + rest) == Decimal(v.whole)
    ensures v.JOther? ==> Unquoted(v.text, StringValue([v] + rest))
    ensures StringValue([]) == ""
  {
    hide TrimQuotesLeft, TrimQuotesRight, Decimal, IsSpace, Unquoted;
    assert ([v] + rest)[1..] == rest;
    if v.JOther? {
      TrimmedQuotes(v.text);
    }
  }

  /** All quotes at both ends are cut off, and nothing else is. */
  ghost predicate Unquoted(s: string, r: string) {
    && (exists i, j :: 0 <= i <= j <= |s| && r == s[i..j] &&
                       (forall k :: 0 <= k < i ==> s[k] == '"') && (forall k :: j <= k < |s| ==> s[k] == '"'))
    && (r != "" ==> r[0] != '"' && r[|r| - 1] != '"')
  }

  lemma {:induction false} LeftQuotes(s: string) returns (i: nat)
    ensures i <= |s| && TrimQuotesLeft(s) == s[i..] && forall k :: 0 <= k < i ==> s[k] == '"'
    ensures i < |s| ==> s[i] != '"'
  {
    if s != "" && s[0] == '"' {
      var rest := LeftQuotes(s[1..]);
      i := rest + 1;
      forall k | 0 <= k < i ensures s[k] == '"' {
        assert k > 0 ==> s[k] == s[1..][k - 1];
      }
    } else {
      i := 0;
    }
  }

  lemma {:induction false} RightQuotes(s: string) returns (j: nat)
    ensures j <= |s| && TrimQuotesRight(s) == s[..j] && forall k :: j <= k < |s| ==> s[k] == '"'
    ensures j > 0 ==> s[j - 1] != '"'
  {
    if s != "" && s[|s| - 1] == '"' {
      j := RightQuotes(s[..|s| - 1]);
      forall k | j <= k < |s| ensures s[k] == '"' {
        assert k < |s| - 1 ==> s[k] == s[..|s| - 1][k];
      }
    } else {
      j := |s|;
    }
  }

  lemma TrimmedQuotes(s: string)
    ensures Unquoted(s, TrimQuotesRight(TrimQuotesLeft(s)))
  {
    hide TrimQuotesLeft, TrimQuotesRight;
    var i := LeftQuotes(s);
    var n := RightQuotes(TrimQuotesLeft(s));
    var r := TrimQuotesRight(TrimQuotesLeft(s));
    assert r == s[i..i + n];
    forall k | i + n <= k < |s| ensures s[k] == '"' {
      assert s[k] == TrimQuotesLeft(s)[k - i];
    }
  }

  /**
   Reads the segments of known types, or the raw text where there are none: for frames of any origin. Only a frame with
   neither is refused, for good.
   */
  method ParseNapCatSegments(raw: RawMessage, rawMessage: string) returns (r: Result<Content, BridgeError>)
    ensures r == Parsed(raw, rawMessage)
    ensures raw.Segments? && (exists w <- raw.segments :: KnownType(w)) ==> r.Success? && AllRead(raw.segments, r.value)
    ensures (raw.Segments? ==> forall w <- raw.segments :: !KnownType(w)) ==>
              (r.Success? <==> !Blank(rawMessage)) &&
              (r.Success? ==> |r.value| == 1 && r.value[0].kind == Text && r.value[0].text == rawMessage &&
                              r.value[0] == Segment(Text, rawMessage, "", "", "", "", "", None))
    ensures r.Failure? ==> !r.error.retryable && r.error.code == UnsupportedContent
  {
    hide ParseSegment, KnownType, ReadFrom, Filter;
    if raw.Segments? {
      ParsedAllRead(raw.segments);
      SomeAreKnown(raw.segments);
    }
    if raw.Segments? && |raw.segments| > 0 {
      var out: seq<Segment> := [];
      for i := 0 to |raw.segments|
        invariant out == ParseAll(raw.segments[..i])
      {
        assert raw.segments[..i + 1][..i] == raw.segments[..i];
        out := out + ParseSegment(raw.segments[i]);
      }
      assert raw.segments[..|raw.segments|] == raw.segments;
      if |out| > 0 {
        return Success(out);
      }
    }
    if TrimSpace(rawMessage) == "" {
      return Failure(Terminal("napcat message has no usable payload"));
    }
    return Success([NO_SEGMENT.(text := rawMessage)]);
  }

  // --- The projection ----------------------------------------------------------------------------

  /** What of a segment survives the wire: the fields its kind transmits, trimmed, and the JSON value untouched. */
  function Canonical(s: Segment): Segment {
    NO_SEGMENT.(
      kind := s.kind,
      text := if s.kind == Text then TrimSpace(s.text) else "",
      url := if s.kind in {Image, Audio, Video, File} then TrimSpace(s.url) else "",
      fileName := if s.kind == File then TrimSpace(s.fileName) else "",
      messageId := if s.kind == Reply then TrimSpace(s.messageId) else "",
      userId := if s.kind == Mention then TrimSpace(s.userId) else "",
      payload := if s.kind == Json then s.payload else None)
  }

  function CanonicalAll(content: Content): (r: Content)
    ensures |r| == |content| && forall i :: 0 <= i < |r| ==> r[i] == Canonical(content[i])
  {
    seq(|content|, i requires 0 <= i < |content| => Canonical(content[i]))
  }

  lemma SegmentRoundTrip(s: Segment)
    requires ValidSegment(s)
    ensures RenderSegment(s).Success? && ParseSegment(RenderSegment(s).value) == [Canonical(s)]
  {
    hide TrimSpace, StringValue, Decimal, TrimQuotesLeft, TrimQuotesRight;
    StringValueOfOne();
    StringValueSkipsNull();
  }

  lemma StringValueOfOne()
    ensures forall v :: StringValue([v]) == match v
        case JNull => "" case JString(t) => TrimSpace(t) case JNumber(_, whole) => Decimal(whole)
        case JOther(text) => TrimQuotesRight(TrimQuotesLeft(text))
  {
    hide TrimSpace, Decimal, TrimQuotesLeft, TrimQuotesRight;
  }

  lemma StringValueSkipsNull()
    ensures forall v :: StringValue([JNull, v]) == StringValue([v])
  {
    hide TrimSpace, Decimal, TrimQuotesLeft, TrimQuotesRight;
    forall v ensures StringValue([JNull, v]) == StringValue([v]) {
      assert [JNull, v][1..] == [v];
    }
  }

  lemma {:induction false} ContentRoundTrip(content: Content)
    requires forall s <- content :: ValidSegment(s)
    ensures Rendered(content).Success? && |Rendered(content).value| == |content|
    ensures ParseAll(Rendered(content).value) == CanonicalAll(content)
  {
    hide RenderSegment, ParseSegment, Canonical, SegmentProblem;
    if content != [] {
      var n := |content| - 1;
      ContentRoundTrip(content[..n]);
      SegmentRoundTrip(content[n]);
      var wires := Rendered(content).value;
      assert wires[..|wires| - 1] == Rendered(content[..n]).value;
      assert CanonicalAll(content) == CanonicalAll(content[..n]) + [Canonical(content[n])];
    }
  }

  lemma CanonicalIsValid(s: Segment)
    requires ValidSegment(s)
    ensures ValidSegment(Canonical(s)) && Canonical(s).kind == s.kind && Canonical(Canonical(s)) == Canonical(s)
  {
    hide TrimSpace, Trimmed;
    TrimIsIdempotent(s.text);
    TrimIsIdempotent(s.url);
    TrimIsIdempotent(s.fileName);
    TrimIsIdempotent(s.messageId);
    TrimIsIdempotent(s.userId);
  }

  lemma TrimIsIdempotent(s: string)
    ensures TrimSpace(TrimSpace(s)) == TrimSpace(s)
  {
  }

  /**
   Sending valid content through NapCat and back is a canonical projection. It always succeeds, whatever the raw text
   beside it; it keeps the number, order and kinds of the segments; it yields valid content; and doing it again
   changes nothing.
   */
  lemma ParseAfterRender(content: Content, rawMessage: string)
    requires ValidContent(content)
    ensures Rendered(content).Success?
    ensures Parsed(Segments(Rendered(content).value), rawMessage) == Success(CanonicalAll(content))
    ensures ValidContent(CanonicalAll(content)) && CanonicalAll(CanonicalAll(content)) == CanonicalAll(content)
    ensures forall i :: 0 <= i < |content| ==> CanonicalAll(content)[i].kind == content[i].kind
  {
    hide RenderSegment, ParseSegment, Canonical, SegmentProblem;
    ContentRoundTrip(content);
    assert |CanonicalAll(content)| == |content|;
    forall i | 0 <= i < |content|
      ensures ValidSegment(CanonicalAll(content)[i]) && CanonicalAll(content)[i].kind == content[i].kind
      ensures Canonical(CanonicalAll(content)[i]) == CanonicalAll(content)[i]
    {
      CanonicalIsValid(content[i]);
    }
  }

  /** Nothing to trim, and nothing in the fields the segment's kind does not transmit. */
  predicate Faithful(s: Segment) {
    && Trimmed(s.text) && Trimmed(s.url) && Trimmed(s.fileName) && Trimmed(s.messageId) && Trimmed(s.userId)
    && s.mime == ""
    && (s.kind != Text ==> s.text == "")
    && (s.kind !in {Image, Audio, Video, File} ==> s.url == "")
    && (s.kind != File ==> s.fileName == "")
    && (s.kind != Reply ==> s.messageId == "")
    && (s.kind != Mention ==> s.userId == "")
    && (s.kind != Json ==> s.payload == None)
  }

  /** Content comes back exactly as sent if and only if every segment is faithful. */
  lemma ComesBackUnchangedIff(content: Content, rawMessage: string)
    requires ValidContent(content)
    ensures Rendered(content).Success?
    ensures Parsed(Segments(Rendered(content).value), rawMessage) == Success(content) <==>
            forall s <- content :: Faithful(s)
  {
    hide RenderSegment, ParseSegment, SegmentProblem, TrimSpace;
    ParseAfterRender(content, rawMessage);
    forall s | s in content ensures Canonical(s) == s <==> Faithful(s) { CanonicalIffFaithful(s); }
    if CanonicalAll(content) == content {
      forall s | s in content ensures Faithful(s) {
        var i :| 0 <= i < |content| && content[i] == s;
        assert CanonicalAll(content)[i] == Canonical(s);
      }
    }
    if forall s <- content :: Faithful(s) {
      assert CanonicalAll(content) == content;
    }
  }

  lemma CanonicalIffFaithful(s: Segment)
    ensures Canonical(s) == s <==> Faithful(s)
  {
    hide IsSpace;
  }

  // --- Preparing a send --------------------------------------------------------------------------

  /** The action name, the name and value of its target parameter, and the message. */
  datatype NapCatAction = NapCatAction(name: string, targetParam: string, target: string, message: seq<Wire>)

  /** `buildAction` */
  function BuildAction(c: ConversationRef, content: Content): Result<NapCatAction, BridgeError> {
    match Rendered(content)
    case Failure(e) => Failure(e)
    case Success(message) =>
      match c.scene
      case Group => Success(NapCatAction("send_group_msg", "group_id", c.chatId, message))
      case Private => Success(NapCatAction("send_private_msg", "user_id", c.chatId, message))
      case UnknownScene(_) => Failure(BridgeError(TargetNotFound, "unsupported qq conversation scene", false, None))
  }

  /**
   The part of `Send` before anything is registered. It refuses for good exactly the messages that are invalid or of a
   kind the gateway does not declare, asks for a retry exactly when a good one meets no connection, and otherwise has
   its action: once the checks have passed, building the action cannot fail.
   */
  method PrepareSend(supported: set<SegmentKind>, conversation: ConversationRef, content: Content, connected: bool)
    returns (r: Result<NapCatAction, BridgeError>)
    ensures r.Success? <==> Sendable(supported, conversation, content) && connected
    ensures r.Failure? ==> (r.error.retryable <==> Sendable(supported, conversation, content))
    ensures r.Failure? ==> r.error.code == if r.error.retryable then PlatformUnavailable else UnsupportedContent
    ensures r.Success? ==>
              && r.value.target == NormalizeRef(conversation).value.chatId
              && r.value.name == (if conversation.scene == Group then "send_group_msg" else "send_private_msg")
              && r.value.targetParam == (if conversation.scene == Group then "group_id" else "user_id")
              && Parsed(Segments(r.value.message), "") == Success(CanonicalAll(content))
              && |r.value.message| == |content|
              && forall i :: 0 <= i < |content| ==> OnTheWire(content[i], r.value.message[i])
  {
    hide RenderSegment, ParseSegment, Canonical, TrimSpace, OnTheWire;
    var c := new ConversationRefVar(conversation);
    var problem := c.NormalizeAndValidate();
    if problem.Some? {
      return Failure(BridgeError(UnsupportedContent, "conversation_ref is invalid", false, problem));
    }
    problem := ValidateContent(content);
    if problem.Some? {
      return Failure(BridgeError(UnsupportedContent, "content is invalid", false, problem));
    }
    var unsupported := SupportsAll(supported, content);
    if unsupported.Some? {
      return Failure(unsupported.value);
    }
    if !connected {
      return Failure(BridgeError(PlatformUnavailable, "napcat websocket is not connected", true, None));
    }
    ParseAfterRender(content, "");
    RenderedAllOnTheWire(content);
    r := BuildAction(c.Value(), content);
  }
}
