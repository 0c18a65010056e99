/**
 The message envelope (internal/qqbridge/model.go) and the bridge's error values (errors.go).
 Raw JSON never appears as text: a body or payload is the value it decodes to, or says that it does not decode.
 */
module Envelopes {
  import opened Options
  import opened Strings

  const ENVELOPE_VERSION := "v1alpha1"

  // Each `Unknown...` constructor stands for every other string the field can hold.
  datatype EnvelopeKind = Chat | System | Receipt | UnknownKind(name: string)
  datatype Scene = Group | Private | UnknownScene(name: string)
  datatype SegmentKind = Text | Image | Audio | Video | File | Reply | Mention | Json | UnknownSegment(name: string)

  /** A decoded JSON value; `text` is its canonical encoding, `whole` a number truncated to an integer. */
  datatype JsonValue = JNull | JString(s: string) | JNumber(text: string, whole: int) | JOther(text: string)

  /** A raw payload: no bytes, bytes that are not JSON, or the encoding of a value. */
  datatype RawJson = Empty | Broken | Encoded(value: JsonValue)

  datatype Segment = Segment(kind: SegmentKind, text: string, url: string, fileName: string, mime: string,
                             messageId: string, userId: string, payload: Option<RawJson>)

  type Content = seq<Segment>

  datatype ConversationRef = ConversationRef(platform: string, scene: Scene, chatId: string, threadId: string)

  datatype RemoteSender = RemoteSender(id: string, nickname: string, remark: string, role: string, avatarUrl: string)

  datatype MessageRef = MessageRef(id: string, replyTo: string)

  datatype BridgeEnvelope = BridgeEnvelope(version: string, kind: EnvelopeKind, conversation: ConversationRef,
                                           content: Content, remoteSender: Option<RemoteSender>,
                                           messageRef: MessageRef, metadata: map<string, string>)

  /** A message body: bytes that fail to decode, or the encoding of an envelope. */
  datatype Body = Malformed(detail: string) | Envelope(envelope: BridgeEnvelope)

  // --- Errors ------------------------------------------------------------------------------------

  datatype ReceiptCode =
    PlatformUnavailable | TargetNotFound | PermissionDenied | UnsupportedContent | RateLimited | DeliveryFailed

  function CodeName(code: ReceiptCode): string {
    match code
    case PlatformUnavailable => "platform_unavailable"
    case TargetNotFound => "target_not_found"
    case PermissionDenied => "permission_denied"
    case UnsupportedContent => "unsupported_content"
    case RateLimited => "rate_limited"
    case DeliveryFailed => "delivery_failed"
  }

  datatype BridgeError = BridgeError(code: ReceiptCode, message: string, retryable: bool, cause: Option<string>)

  function ErrorText(e: BridgeError): string {
    if e.message == "" then
      match e.cause
      case None => CodeName(e.code)
      case Some(cause) => CodeName(e.code) + ": " + cause
    else
      match e.cause
      case None => CodeName(e.code) + ": " + e.message
      case Some(cause) => CodeName(e.code) + ": " + e.message + ": " + cause
  }

  /** Whatever its message and cause, even empty ones, a bridge error never prints as blank text. */
  lemma ErrorTextIsVisible(e: BridgeError)
    ensures !Blank(ErrorText(e))
  {
    assert ErrorText(e)[0] == CodeName(e.code)[0];
    VisibleTextIsNotBlank(ErrorText(e), 0);
  }

  /** The code first, then the message and the cause where there are any, each after a colon. */
  lemma ErrorTextTellsAll(e: BridgeError)
    ensures ErrorText(e) == CodeName(e.code) + (if e.message == "" then "" else ": " + e.message)
                            + (if e.cause.None? then "" else ": " + e.cause.value)
  {
    hide CodeName;
    var code := CodeName(e.code);
    if e.message != "" {
      assert code + ": " + e.message == code + (": " + e.message);
      if e.cause.Some? {
        assert code + ": " + e.message + ": " + e.cause.value == code + (": " + e.message) + (": " + e.cause.value);
      }
    } else if e.cause.Some? {
      assert code + ": " + e.cause.value == code + "" + (": " + e.cause.value);
    }
  }

  /** Different codes print differently. */
  lemma CodeNamesDiffer(a: ReceiptCode, b: ReceiptCode)
    ensures CodeName(a) == CodeName(b) <==> a == b
  {
    assert forall c: ReceiptCode :: CodeName(c)[0] in {'p', 't', 'u', 'r', 'd'};
    assert |CodeName(PlatformUnavailable)| == 20 && |CodeName(PermissionDenied)| == 17;
    assert CodeName(TargetNotFound)[0] == 't' && CodeName(UnsupportedContent)[0] == 'u';
    assert CodeName(RateLimited)[0] == 'r' && CodeName(DeliveryFailed)[0] == 'd';
    assert CodeName(PlatformUnavailable)[0] == 'p' && CodeName(PermissionDenied)[0] == 'p';
  }

  // --- Validation --------------------------------------------------------------------------------

  function Quote(s: string): string {
    "\"" + s + "\""
  }

  function KindName(kind: EnvelopeKind): string {
    match kind
    case Chat => "chat"
    case System => "system"
    case Receipt => "receipt"
    case UnknownKind(name) => name
  }

  function SceneName(scene: Scene): string {
    match scene
    case Group => "group"
    case Private => "private"
    case UnknownScene(name) => name
  }

  /** What is wrong with one segment, if anything. */
  function SegmentProblem(s: Segment): Option<string> {
    match s.kind
    case Text => if Blank(s.text) then Some("text segment requires text") else None
    case Image => if Blank(s.url) then Some("image segment requires url") else None
    case Audio => if Blank(s.url) then Some("audio segment requires url") else None
    case Video => if Blank(s.url) then Some("video segment requires url") else None
    case File => if Blank(s.url) then Some("file segment requires url") else None
    case Reply => if Blank(s.messageId) then Some("reply segment requires message_id") else None
    case Mention => if Blank(s.userId) then Some("mention segment requires user_id") else None
    case Json =>
      if s.payload.None? || s.payload.value.Empty? || s.payload.value == Encoded(JNull)
      then Some("json segment requires payload")
      else if s.payload.value.Broken? then Some("json segment payload must be valid json") else None
    case UnknownSegment(name) => Some("unsupported segment kind " + Quote(name))
  }

  predicate ValidSegment(s: Segment) {
    SegmentProblem(s).None?
  }

  /**
   What each kind of segment must have, and that it need have nothing else: text; for the four media kinds a url, a
   file's name being optional; the message replied to; the user mentioned; a JSON value other than null.
   */
  lemma ValidSegmentIff(s: Segment)
    ensures s.kind == Text ==> (ValidSegment(s) <==> !Blank(s.text))
    ensures s.kind in {Image, Audio, Video, File} ==> (ValidSegment(s) <==> !Blank(s.url))
    ensures s.kind == Reply ==> (ValidSegment(s) <==> !Blank(s.messageId))
    ensures s.kind == Mention ==> (ValidSegment(s) <==> !Blank(s.userId))
    ensures s.kind == Json ==> (ValidSegment(s) <==> exists v :: v != JNull && s.payload == Some(Encoded(v)))
    ensures s.kind.UnknownSegment? ==> !ValidSegment(s)
  {
    hide TrimSpace;
    if s.payload.Some? && s.payload.value.Encoded? {
      assert s.payload == Some(Encoded(s.payload.value.value));
    }
  }

  predicate ValidContent(c: Content) {
    c != [] && forall s <- c :: ValidSegment(s)
  }

  /** The report for segment `i`, the first one that is invalid. */
  function SegmentReport(i: nat, problem: string): string {
    "content.segments[" + Decimal(i) + "]: " + problem
  }

  function FirstProblem(c: Content, i: nat): (problem: Option<string>)
    requires i <= |c|
    ensures problem.None? <==> forall k :: i <= k < |c| ==> ValidSegment(c[k])
    decreases |c| - i
  {
    if i == |c| then None
    else match SegmentProblem(c[i])
      case Some(problem) => Some(SegmentReport(i, problem))
      case None => FirstProblem(c, i + 1)
  }

  function ContentProblem(c: Content): (problem: Option<string>)
    ensures problem.None? <==> ValidContent(c)
  {
    if c == [] then Some("content.segments is required") else FirstProblem(c, 0)
  }

  /** Content validation scans the segments and stops at the first bad one. */
  method ValidateContent(c: Content) returns (problem: Option<string>)
    ensures problem == ContentProblem(c)
    ensures problem.None? <==> c != [] && forall s <- c :: ValidSegment(s)
    ensures c != [] && problem.Some? ==>
              exists i ::
                0 <= i < |c| && (forall j :: 0 <= j < i ==> ValidSegment(c[j])) && SegmentProblem(c[i]).Some? &&
                          problem == Some("content.segments[" + Decimal(i) + "]: " + SegmentProblem(c[i]).value)
  {
    hide SegmentProblem, Decimal;
    if |c| == 0 {
      return Some("content.segments is required");
    }
    for i := 0 to |c|
      invariant FirstProblem(c, 0) == FirstProblem(c, i)
      invariant forall j :: 0 <= j < i ==> ValidSegment(c[j])
    {
      var p := SegmentProblem(c[i]);
      if p.Some? {
        return Some(SegmentReport(i, p.value));
      }
    }
    return None;
  }

  /** The form normalisation produces: a known scene, no padding, nothing required left empty. */
  predicate NormalRef(r: ConversationRef) {
    && r.platform != "" && Trimmed(r.platform)
    && !r.scene.UnknownScene?
    && r.chatId != "" && Trimmed(r.chatId)
    && Trimmed(r.threadId)
  }

  function DefaultPlatform(platform: string): string {
    if platform == "" then "qq" else platform
  }

  /**
   Normalisation of a conversation reference. It accepts exactly the known scenes with a visible chat id, always
   yields the normal form, and leaves a reference in normal form alone.
   */
  function NormalizeRef(r: ConversationRef): (result: Result<ConversationRef, string>)
    ensures result.Success? <==> !r.scene.UnknownScene? && !Blank(r.chatId)
    ensures result.Success? ==> NormalRef(result.value) && result.value.scene == r.scene
    ensures NormalRef(r) ==> result == Success(r)
  {
    if r.scene.UnknownScene? then Failure("unsupported conversation_ref.scene " + Quote(r.scene.name))
    else if Blank(r.chatId) then Failure("conversation_ref.chat_id is required")
    else Success(ConversationRef(DefaultPlatform(TrimSpace(r.platform)), r.scene, TrimSpace(r.chatId),
                                 TrimSpace(r.threadId)))
  }

  predicate NormalEnvelope(e: BridgeEnvelope) {
    e.version == ENVELOPE_VERSION && !e.kind.UnknownKind? && NormalRef(e.conversation) && ValidContent(e.content)
  }

  function DefaultVersion(version: string): string {
    if version == "" then ENVELOPE_VERSION else version
  }

  /** Normalisation of a whole envelope: idempotent, and it touches only the version and the conversation. */
  function NormalizeEnvelope(e: BridgeEnvelope): (result: Result<BridgeEnvelope, string>)
    ensures result.Success? <==>
            && DefaultVersion(e.version) == ENVELOPE_VERSION && !e.kind.UnknownKind?
            && NormalizeRef(e.conversation).Success? && ValidContent(e.content)
    ensures result.Success? ==> NormalEnvelope(result.value)
    ensures result.Success? ==>
              result.value == e.(version := result.value.version, conversation := NormalizeRef(e.conversation).value)
    ensures NormalEnvelope(e) ==> result == Success(e)
  {
    if DefaultVersion(e.version) != ENVELOPE_VERSION then
      Failure("unsupported bridge envelope version " + Quote(e.version))
    else if e.kind.UnknownKind? then
      Failure("unsupported bridge envelope kind " + Quote(e.kind.name))
    else match NormalizeRef(e.conversation)
      case Failure(problem) => Failure(problem)
      case Success(conversation) =>
        match ContentProblem(e.content)
        case Some(problem) => Failure(problem)
        case None => Success(e.(version := ENVELOPE_VERSION, conversation := conversation))
  }

  /** Where the normal form comes from: padding goes, and a platform without visible text becomes `qq`. */
  lemma NormalizedFields(r: ConversationRef)
    requires NormalizeRef(r).Success?
    ensures var n := NormalizeRef(r).value;
            && n.platform == (if Blank(r.platform) then "qq" else TrimSpace(r.platform))
            && n.scene == r.scene && n.chatId == TrimSpace(r.chatId) && n.threadId == TrimSpace(r.threadId)
  {
    hide TrimSpace;
  }

  /** Exactly which envelopes are accepted, field by field. */
  lemma NormalizeAccepts(e: BridgeEnvelope)
    ensures NormalizeEnvelope(e).Success? <==>
            && (e.version == "" || e.version == "v1alpha1")
            && (e.kind == Chat || e.kind == System || e.kind == Receipt)
            && (e.conversation.scene == Group || e.conversation.scene == Private) && !Blank(e.conversation.chatId)
            && e.content != [] && forall s <- e.content :: ValidSegment(s)
  {
    hide TrimSpace, SegmentProblem, FirstProblem;
  }

  function Parse(body: Body): Result<BridgeEnvelope, string> {
    match body
    case Malformed(detail) => Failure("parse bridge envelope: " + detail)
    case Envelope(e) => NormalizeEnvelope(e)
  }

  // --- Addressable values ------------------------------------------------------------------------

  /** A `ConversationRef` variable: `NormalizeAndValidate` overwrites its fields one by one. */
  class ConversationRefVar {
    var platform: string
    var scene: Scene
    var chatId: string
    var threadId: string

    function Value(): ConversationRef
      reads this
    {
      ConversationRef(platform, scene, chatId, threadId)
    }

    constructor (r: ConversationRef)
      ensures Value() == r
    {
      platform, scene, chatId, threadId := r.platform, r.scene, r.chatId, r.threadId;
    }

    /** Succeeds with the normal form, or fails leaving the fields it had reached already rewritten. */
    method NormalizeAndValidate() returns (problem: Option<string>)
      modifies this
      ensures problem.None? ==> NormalizeRef(old(Value())) == Success(Value())
      ensures problem.Some? ==> NormalizeRef(old(Value())) == Failure(problem.value)
      ensures problem.Some? ==>
                Value() == old(Value()).(platform := DefaultPlatform(TrimSpace(old(platform))),
                           chatId := if scene.UnknownScene? then old(chatId) else "")
    {
      platform := TrimSpace(platform);
      if platform == "" {
        platform := "qq";
      }
      match scene {
        case Group =>
        case Private =>
        case UnknownScene(name) => return Some("unsupported conversation_ref.scene " + Quote(name));
      }
      chatId := TrimSpace(chatId);
      if chatId == "" {
        return Some("conversation_ref.chat_id is required");
      }
      threadId := TrimSpace(threadId);
      return None;
    }
  }

  /** A `BridgeEnvelope` variable. */
  class EnvelopeVar {
    var version: string
    const conversation: ConversationRefVar
    const rest: BridgeEnvelope

    function Value(): BridgeEnvelope
      reads this, conversation
    {
      rest.(version := version, conversation := conversation.Value())
    }

    constructor (e: BridgeEnvelope)
      ensures Value() == e && fresh(conversation)
    {
      version, rest := e.version, e;
      conversation := new ConversationRefVar(e.conversation);
    }

    method NormalizeAndValidate() returns (problem: Option<string>)
      modifies this, conversation
      ensures problem.None? ==> NormalizeEnvelope(old(Value())) == Success(Value())
      ensures problem.Some? ==> NormalizeEnvelope(old(Value())) == Failure(problem.value)
    {
      if version == "" {
        version := ENVELOPE_VERSION;
      }
      if version != ENVELOPE_VERSION {
        return Some("unsupported bridge envelope version " + Quote(version));
      }
      match rest.kind {
        case Chat =>
        case System =>
        case Receipt =>
        case UnknownKind(name) => return Some("unsupported bridge envelope kind " + Quote(name));
      }
      problem := conversation.NormalizeAndValidate();
      if problem.Some? {
        return;
      }
      problem := ValidateContent(rest.content);
    }
  }

  method ParseEnvelope(body: Body) returns (result: Result<BridgeEnvelope, string>)
    ensures result == Parse(body)
    ensures body.Malformed? ==> result == Failure("parse bridge envelope: " + body.detail)
    ensures body.Envelope? && NormalEnvelope(body.envelope) ==> result == Success(body.envelope)
  {
    match body {
      case Malformed(detail) =>
        result := Failure("parse bridge envelope: " + detail);
      case Envelope(e) =>
        var env := new EnvelopeVar(e);
        var problem := env.NormalizeAndValidate();
        result := if problem.Some? then Failure(problem.value) else Success(env.Value());
    }
  }

  // --- Receipts ----------------------------------------------------------------------------------

  function NewReceiptEnvelope(conversation: ConversationRef, messageRef: MessageRef, code: ReceiptCode, text: string)
    : BridgeEnvelope
  {
    var segment := Segment(Text, text, "", "", "", "", "", None);
    BridgeEnvelope(ENVELOPE_VERSION, Receipt, conversation, [segment], None, messageRef, map["code" := CodeName(code)])
  }

  function FallbackConversation(): (r: ConversationRef)
    ensures NormalRef(r)
  {
    ConversationRef("qq", Private, "__bridge_receipt__", "")
  }

  /** A receipt about a normal conversation is a normal envelope exactly when its text is visible. */
  lemma ReceiptIsNormal(conversation: ConversationRef, messageRef: MessageRef, code: ReceiptCode, text: string)
    requires NormalRef(conversation)
    ensures NormalEnvelope(NewReceiptEnvelope(conversation, messageRef, code, text)) <==> !Blank(text)
  {
    var e := NewReceiptEnvelope(conversation, messageRef, code, text);
    assert ValidContent(e.content) <==> ValidSegment(e.content[0]);
  }

  // --- Text --------------------------------------------------------------------------------------

  /** The concatenated text of the text segments. */
  function TextOf(c: Content): string {
    if c == [] then "" else TextOf(c[..|c| - 1]) + (if c[|c| - 1].kind == Text then c[|c| - 1].text else "")
  }

  /** Text segments contribute their text, others nothing. */
  lemma TextOfOne(s: Segment)
    ensures TextOf([]) == "" && TextOf([s]) == if s.kind == Text then s.text else ""
  {
    assert [s][..0] == [];
  }

  lemma TextOfPush(c: Content, s: Segment)
    ensures TextOf(c + [s]) == TextOf(c) + (if s.kind == Text then s.text else "")
  {
    assert (c + [s])[..|c|] == c;
  }

  /** And the parts of the content contribute in order. */
  lemma {:induction false} TextOfParts(a: Content, b: Content)
    ensures TextOf(a + b) == TextOf(a) + TextOf(b)
  {
    hide TextOf;
    if b == [] {
      TextOfOne(Segment(Text, "", "", "", "", "", "", None));
      assert a + b == a;
    } else {
      var front, s := b[..|b| - 1], b[|b| - 1];
      TextOfParts(a, front);
      TextOfPush(front, s);
      TextOfPush(a + front, s);
      assert b == front + [s] && a + b == (a + front) + [s];
    }
  }

  method TextSummary(c: Content) returns (summary: string)
    ensures summary == TextOf(c)
  {
    summary := "";
    for i := 0 to |c|
      invariant summary == TextOf(c[..i])
    {
      assert c[..i + 1][..i] == c[..i];
      if c[i].kind != Text {
        continue;
      }
      summary := summary + c[i].text;
    }
    assert c[..|c|] == c;
  }
}
