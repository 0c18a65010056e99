/** Gateway capabilities (internal/qqbridge/gateway.go) and the QQ Bot message builder (gateway_qqbot.go). */
module Gateways {
  import opened Filters
  import opened Options
  import opened Strings
  import opened Envelopes

  // --- Capabilities ------------------------------------------------------------------------------

  function Terminal(message: string): BridgeError {
    BridgeError(UnsupportedContent, message, false, None)
  }

  method NewGatewayCapabilities(kinds: seq<SegmentKind>) returns (supported: set<SegmentKind>)
    ensures forall k :: k in supported <==> k in kinds
  {
    supported := {};
    for i := 0 to |kinds|
      invariant forall k :: k in supported <==> k in kinds[..i]
    {
      supported := supported + {kinds[i]};
    }
  }

  /** The error, if any, is terminal; there is none exactly when every segment is of a supported kind. */
  method SupportsAll(supported: set<SegmentKind>, content: Content) returns (error: Option<BridgeError>)
    ensures error.None? <==> forall s <- content :: s.kind in supported
    ensures error.Some? ==> !error.value.retryable && error.value.code == UnsupportedContent
  {
    for i := 0 to |content|
      invariant forall s <- content[..i] :: s.kind in supported
    {
      if content[i].kind !in supported {
        return Some(Terminal("segment kind is not supported by the configured qq gateway"));
      }
    }
    return None;
  }

  const QQBOT_KINDS: set<SegmentKind> := {Text, Image, Audio, Video, Reply}

  // --- The QQ Bot builder ------------------------------------------------------------------------

  datatype ApiMessage =
    | RichMedia(fileType: nat, url: string, srvSendMsg: bool, content: string)
    | TextMessage(content: string, replyTo: Option<string>)

  predicate IsReply(s: Segment) {
    s.kind == Reply
  }

  predicate IsMedia(s: Segment) {
    s.kind in {Image, Audio, Video}
  }

  function FileType(kind: SegmentKind): nat {
    if kind == Video then 2 else if kind == Audio then 3 else 1
  }

  /** The three variables of the scan, or the error that ends it. */
  datatype Scan = Scanned(replyTo: string, text: string, media: Option<Segment>) | Aborted(error: BridgeError)

  function ScanOne(scan: Scan, s: Segment): Scan
    requires scan.Scanned?
  {
    if s.kind == Reply then
      if scan.replyTo != "" then Aborted(Terminal("multiple reply segments are not supported by qqbot"))
      else scan.(replyTo := s.messageId)
    else if s.kind == Text then scan.(text := scan.text + s.text)
    else if IsMedia(s) then
      if scan.media.Some? then Aborted(Terminal("multiple media segments are not supported by qqbot"))
      else scan.(media := Some(s))
    else Aborted(Terminal("segment kind is not supported by qqbot"))
  }

  function ScanAll(content: Content): Scan {
    if content == [] then Scanned("", "", None)
    else
      var before := ScanAll(content[..|content| - 1]);
      if before.Aborted? then before else ScanOne(before, content[|content| - 1])
  }

  function Finish(scan: Scan): Result<ApiMessage, BridgeError> {
    match scan
    case Aborted(error) => Failure(error)
    case Scanned(replyTo, text, Some(media)) =>
      if replyTo != "" then Failure(Terminal("reply with rich media is not supported by qqbot"))
      else Success(RichMedia(FileType(media.kind), media.url, true, text))
    case Scanned(replyTo, text, None) =>
      if Blank(text) then Failure(Terminal("qqbot text message content is empty"))
      else Success(TextMessage(TrimSpace(text), if replyTo == "" then None else Some(replyTo)))
  }

  lemma {:induction false} AbortStays(content: Content, n: nat)
    requires n <= |content| && ScanAll(content[..n]).Aborted?
    ensures ScanAll(content) == ScanAll(content[..n])
    decreases |content|
  {
    if n < |content| {
      assert content[..|content| - 1][..n] == content[..n];
      AbortStays(content[..|content| - 1], n);
    } else {
      assert content[..n] == content;
    }
  }

  lemma ScanGrows(content: Content, s: Segment)
    ensures ScanAll(content + [s]) == if ScanAll(content).Aborted? then ScanAll(content)
            else ScanOne(ScanAll(content), s)
  {
    hide ScanOne;
    assert (content + [s])[..|content|] == content;
  }

  lemma NothingScanned()
    ensures ScanAll([]) == Scanned("", "", None)
  {
  }

  /** `buildQQBotAPIMessage`: one pass over the segments. */
  method BuildQQBotAPIMessage(content: Content) returns (r: Result<ApiMessage, BridgeError>)
    ensures r == Finish(ScanAll(content))
    ensures r.Success? && r.value.RichMedia? ==>
              exists s <- content ::
                && s.url == r.value.url && r.value.srvSendMsg
                && (r.value.fileType == 1 <==> s.kind == Image)
                && (r.value.fileType == 2 <==> s.kind == Video)
                && (r.value.fileType == 3 <==> s.kind == Audio)
                && r.value.fileType in {1, 2, 3}
  {
    hide TrimSpace, Terminal, ScanAll;
    var replyTo, text := "", "";
    var media: Option<Segment> := None;
    NothingScanned();
    for i := 0 to |content|
      invariant ScanAll(content[..i]) == Scanned(replyTo, text, media)
      invariant media.Some? ==> media.value in content && media.value.kind in {Image, Audio, Video}
    {
      var segment := content[i];
      assert content[..i + 1] == content[..i] + [segment];
      ScanGrows(content[..i], segment);
      match segment.kind {
        case Reply =>
          if replyTo != "" {
            AbortStays(content, i + 1);
            return Failure(Terminal("multiple reply segments are not supported by qqbot"));
          }
          replyTo := segment.messageId;
        case Text =>
          text := text + segment.text;
        case Image | Audio | Video =>
          if media.Some? {
            AbortStays(content, i + 1);
            return Failure(Terminal("multiple media segments are not supported by qqbot"));
          }
          media := Some(segment);
        case _ =>
          AbortStays(content, i + 1);
          return Failure(Terminal("segment kind is not supported by qqbot"));
      }
    }
    assert content[..|content|] == content;
    if media.Some? {
      if replyTo != "" {
        return Failure(Terminal("reply with rich media is not supported by qqbot"));
      }
      var fileType := 1;
      match media.value.kind {
        case Image => fileType := 1;
        case Video => fileType := 2;
        case Audio => fileType := 3;
        case _ =>
      }
      return Success(RichMedia(fileType, media.value.url, true, text));
    }
    var trimmed := TrimSpace(text);
    if trimmed == "" {
      return Failure(Terminal("qqbot text message content is empty"));
    }
    return Success(TextMessage(trimmed, if replyTo == "" then None else Some(replyTo)));
  }

  // --- What it builds ----------------------------------------------------------------------------

  /** The reply segments, and the media segments, in order. */
  ghost function Replies(content: Content): Content {
    Filter(content, IsReply)
  }

  ghost function Media(content: Content): Content {
    Filter(content, IsMedia)
  }

  predicate SendableToQQBot(content: Content) {
    ValidContent(content) && forall s <- content :: s.kind in QQBOT_KINDS
  }

  lemma SelectGrows(content: Content, s: Segment)
    ensures Replies(content + [s]) == Replies(content) + (if s.kind == Reply then [s] else [])
    ensures Media(content + [s]) == Media(content) + (if IsMedia(s) then [s] else [])
    ensures TextOf(content + [s]) == TextOf(content) + (if s.kind == Text then s.text else "")
  {
    hide Filter;
    FilterPush(content, s, IsReply);
    FilterPush(content, s, IsMedia);
    assert (content + [s])[..|content|] == content;
  }

  /** The scan in closed form: aborted on a second reply or medium, else holding the one of each and all the text. */
  predicate ScanMatches(scan: Scan, replies: Content, media: Content, text: string) {
    match scan
    case Scanned(replyTo, seen, medium) =>
      && |replies| <= 1 && |media| <= 1
      && seen == text
      && replyTo == (if replies == [] then "" else replies[0].messageId)
      && (replies != [] ==> replyTo != "")
      && medium == (if media == [] then None else Some(media[0]))
    case Aborted(error) =>
      (|replies| > 1 || |media| > 1) &&
      error in {Terminal("multiple reply segments are not supported by qqbot"),
                Terminal("multiple media segments are not supported by qqbot")}
  }

  lemma ScanOneMatches(scan: Scan, replies: Content, media: Content, text: string, s: Segment)
    requires scan.Scanned? && ScanMatches(scan, replies, media, text)
    requires s.kind in QQBOT_KINDS && (s.kind == Reply ==> s.messageId != "")
    ensures ScanMatches(ScanOne(scan, s), replies + (if s.kind == Reply then [s] else []),
                        media + (if IsMedia(s) then [s] else []), text + (if s.kind == Text then s.text else ""))
  {
    hide Terminal;
  }

  /** More segments do not mend an aborted scan. */
  lemma AbortMatches(error: BridgeError, replies: Content, media: Content, text: string, s: Segment)
    requires ScanMatches(Aborted(error), replies, media, text)
    ensures ScanMatches(Aborted(error), replies + (if s.kind == Reply then [s] else []),
                        media + (if IsMedia(s) then [s] else []), text + (if s.kind == Text then s.text else ""))
  {
    hide Terminal;
  }

  /** Over valid segments of supported kinds the scan has its closed form; the default branch is never taken. */
  lemma {:induction false} ScanClosedForm(content: Content)
    requires forall s <- content :: ValidSegment(s) && s.kind in QQBOT_KINDS
    ensures ScanMatches(ScanAll(content), Replies(content), Media(content), TextOf(content))
  {
    hide Terminal, TrimSpace, Filter, ScanOne, ScanMatches, Replies, Media, IsMedia;
    if content == [] {
      EmptyScan();
      assert content == [];
    } else {
      var n := |content| - 1;
      var front, s := content[..n], content[n];
      ScanClosedForm(front);
      assert content == front + [s];
      SelectGrows(front, s);
      ScanGrows(front, s);
      assert ValidSegment(s) && s.kind in QQBOT_KINDS;
      if s.kind == Reply {
        NonBlankIsNonEmpty(s.messageId);
      }
      if ScanAll(front).Scanned? {
        ScanOneMatches(ScanAll(front), Replies(front), Media(front), TextOf(front), s);
      } else {
        AbortMatches(ScanAll(front).error, Replies(front), Media(front), TextOf(front), s);
      }
    }
  }

  lemma EmptyScan()
    ensures ScanMatches(ScanAll([]), Replies([]), Media([]), TextOf([]))
  {
    FilterNothing(IsReply);
    FilterNothing(IsMedia);
  }

  lemma NonBlankIsNonEmpty(s: string)
    requires !Blank(s)
    ensures s != ""
  {
  }

  predicate HasText(content: Content) {
    exists s <- content :: s.kind == Text
  }

  lemma {:induction false} TextIsVisibleIff(content: Content)
    requires forall s <- content :: ValidSegment(s)
    ensures !Blank(TextOf(content)) <==> HasText(content)
  {
    hide TrimSpace;
    if content != [] {
      var n := |content| - 1;
      TextIsVisibleIff(content[..n]);
      assert content == content[..n] + [content[n]];
      BlankConcat(TextOf(content[..n]), if content[n].kind == Text then content[n].text else "");
      assert ValidSegment(content[n]);
      assert HasText(content) <==> HasText(content[..n]) || content[n].kind == Text;
    }
  }

  lemma BlankConcat(a: string, b: string)
    ensures Blank(a + b) <==> Blank(a) && Blank(b)
    ensures Blank("")
  {
    hide TrimSpace, IsSpace;
    assert forall c :: c in a + b <==> c in a || c in b;
  }

  /**
   On valid content that passes `SupportsAll`, a message is built exactly when there is at most one reply, at most one
   medium, not both, and some medium or text; anything else is refused for good. The message carries all the text:
   verbatim beside a medium, trimmed on its own.
   */
  lemma BuildsExactly(content: Content)
    requires SendableToQQBot(content)
    ensures var r := Finish(ScanAll(content));
            var replies, media := Replies(content), Media(content);
            && (r.Success? <==>
                |replies| <= 1 && |media| <= 1 && (replies == [] || media == []) && (media != [] || HasText(content)))
            && (r.Failure? ==> !r.error.retryable && r.error.code == UnsupportedContent)
            && (r.Success? && media != [] ==>
                r.value == RichMedia(FileType(media[0].kind), media[0].url, true, TextOf(content)))
            && (r.Success? && media == [] ==>
                  r.value ==
                    TextMessage(TrimSpace(TextOf(content)), if replies == [] then None else Some(replies[0].messageId)))
  {
    hide TrimSpace, Filter, ScanAll, HasText, TextOf;
    ScanClosedForm(content);
    TextIsVisibleIff(content);
  }

  // --- Preparing a send --------------------------------------------------------------------------

  predicate Sendable(supported: set<SegmentKind>, conversation: ConversationRef, content: Content) {
    NormalizeRef(conversation).Success? && ValidContent(content) && forall s <- content :: s.kind in supported
  }

  /**
   One message of the QQ Bot API can hold it: at most one reply, at most one medium, not both, and a medium or text.
   */
  ghost predicate FitsOneMessage(content: Content) {
    && |Replies(content)| <= 1 && |Media(content)| <= 1
    && (Replies(content) == [] || Media(content) == [])
    && (Media(content) != [] || HasText(content))
  }

  /**
   A medium goes out with its url, the type number of its kind (1 for an image, 2 for a video, 3 for a voice message)
   and all the text; without one the text goes out trimmed, as an answer to the message replied to if there is one.
   */
  ghost predicate PostsTheContent(content: Content, m: ApiMessage) {
    match m
    case RichMedia(fileType, url, srvSendMsg, text) =>
      srvSendMsg && text == TextOf(content) &&
      exists s: Segment :: Filter(content, IsMedia) == [s] && s.url == url &&
        ((s.kind == Image && fileType == 1) || (s.kind == Video && fileType == 2) || (s.kind == Audio && fileType == 3))
    case TextMessage(text, replyTo) =>
      && text == TrimSpace(TextOf(content)) && Filter(content, IsMedia) == []
      && (replyTo.None? ==> forall s <- content :: s.kind != Reply)
      && (replyTo.Some? ==> exists s <- content :: s.kind == Reply && s.messageId == replyTo.value)
  }

  lemma BuiltPostsTheContent(content: Content)
    requires SendableToQQBot(content) && Finish(ScanAll(content)).Success?
    ensures PostsTheContent(content, Finish(ScanAll(content)).value)
  {
    hide TrimSpace, ScanAll, HasText, TextOf, Filter;
    BuildsExactly(content);
    var media, replies := Media(content), Replies(content);
    if media != [] {
      assert media == [media[0]] && media[0] in media;
      assert Finish(ScanAll(content)).value == RichMedia(FileType(media[0].kind), media[0].url, true, TextOf(content));
    } else {
      assert forall s <- content :: s.kind == Reply ==> s in replies;
      assert replies != [] ==> replies[0] in replies;
    }
  }

  /**
   The part of the QQ Bot `Send` before the call to the platform. It refuses for good exactly the messages that are
   invalid, of another kind than declared, or do not fit; nothing else can go wrong before the call.
   */
  method PrepareQQBotSend(conversation: ConversationRef, content: Content) returns (r: Result<ApiMessage, BridgeError>)
    ensures r.Success? <==>
            Sendable({Text, Image, Audio, Video, Reply}, conversation, content) && FitsOneMessage(content)
    ensures r.Failure? ==> !r.error.retryable && r.error.code == UnsupportedContent
    ensures r.Success? ==> PostsTheContent(content, r.value)
  {
    hide TrimSpace, Filter, ScanAll, HasText, Finish;
    var c := new ConversationRefVar(conversation);
    var problem := c.NormalizeAndValidate();
    if problem.Some? {
      return Failure(BridgeError(UnsupportedContent, "conversation_ref is invalid", false, problem));
    }
    problem := ValidateContent(content);
    if problem.Some? {
      return Failure(BridgeError(UnsupportedContent, "content is invalid", false, problem));
    }
    var unsupported := SupportsAll(QQBOT_KINDS, content);
    if unsupported.Some? {
      return Failure(unsupported.value);
    }
    BuildsExactly(content);
    r := BuildQQBotAPIMessage(content);
    if r.Success? {
      BuiltPostsTheContent(content);
    }
  }
}
