/** What the gateways make of the jobs that ingestion stores. */
module StoredJobs {
  import opened Options
  import opened Envelopes
  import opened Filters
  import opened Gateways
  import opened Tables
  import opened Bridge
  import opened Receipts

  /** The kinds NapCat declares: all there are. */
  const ALL_KINDS: set<SegmentKind> := {Text, Image, Audio, Video, File, Reply, Mention, Json}

  lemma ValidSegmentsAreOfKnownKinds(content: Content)
    requires ValidContent(content)
    ensures forall s <- content :: s.kind in ALL_KINDS
  {
    forall s | s in content ensures s.kind in ALL_KINDS { assert ValidSegment(s); }
  }

  lemma ParsedIsNormal(body: Body, e: BridgeEnvelope)
    requires Parse(body) == Success(e)
    ensures NormalEnvelope(e)
  {
  }

  /**
   Every job ever stored passes all of NapCat's checks, so that gateway refuses none of them for good before it is on
   the wire: with a connection it has its action, and without one it is to be retried.
   */
  lemma StoredJobIsSendable(cfg: Config, ops: seq<Op>, i: nat)
    requires i < |Run(cfg, INITIAL, ops).db.outbound|
    ensures var e := Run(cfg, INITIAL, ops).db.outbound[i].item.envelope;
            NormalEnvelope(e) && Sendable(ALL_KINDS, e.conversation, e.content)
  {
    hide Run, Parse;
    JobsNameTheirMessage(cfg, ops, i);
    var db := Run(cfg, INITIAL, ops).db;
    var e := db.outbound[i].item.envelope;
    var row :| row in db.messages && Parse(row.message.body) == Success(e);
    ParsedIsNormal(row.message.body, e);
    ValidSegmentsAreOfKnownKinds(e.content);
  }

  /**
   Exactly which stored jobs the QQ Bot gateway refuses for good before its call: those with a segment of a kind it does
   not declare, and those that do not fit into one message.
   */
  lemma QQBotAcceptsIff(cfg: Config, ops: seq<Op>, i: nat)
    requires i < |Run(cfg, INITIAL, ops).db.outbound|
    ensures var e := Run(cfg, INITIAL, ops).db.outbound[i].item.envelope;
            Sendable(QQBOT_KINDS, e.conversation, e.content) && FitsOneMessage(e.content) <==>
            (forall s <- e.content :: s.kind in QQBOT_KINDS) && FitsOneMessage(e.content)
    ensures var content := Run(cfg, INITIAL, ops).db.outbound[i].item.envelope.content;
            (forall s <- content :: s.kind in QQBOT_KINDS) ==>
              (Finish(ScanAll(content)).Failure? <==> !FitsOneMessage(content)) &&
              (Finish(ScanAll(content)).Failure? ==> !Finish(ScanAll(content)).error.retryable)
  {
    hide Run, ScanAll, Finish, Filter, HasText;
    StoredJobIsSendable(cfg, ops, i);
    var content := Run(cfg, INITIAL, ops).db.outbound[i].item.envelope.content;
    if forall s <- content :: s.kind in QQBOT_KINDS {
      BuildsExactly(content);
    }
  }
}
