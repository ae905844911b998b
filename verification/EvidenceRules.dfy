/** Evidence payloads: their digests, the search for the form first written, and the checks. */
module EvidenceRules {
  import opened Ledger
  import opened StoreSpec

  // ---- digests ------------------------------------------------------------

  /** Digest of the eleven identity fields. */
  function EnvelopeSha(p: Payload): Text {
    EnvelopeDigest(Identity(
      Get(p, EvidenceId), Get(p, MissionId), Get(p, Kind), Get(p, Sha256), Get(p, TaskId),
      Get(p, ToolInvocationId), Get(p, Actor), Get(p, Source), Get(p, SourceEventId),
      Get(p, VerificationStatus), Get(p, RequestSha256)))
  }

  function Stamped(p: Payload): Payload {
    p[EnvelopeSha256 := Str(EnvelopeSha(p))]
  }

  /** `_request_from_payload`. */
  function RequestIn(p: Payload, status: Value, sourceEvent: Value): Ask {
    Ask(Get(p, MissionId), Get(p, Kind), Get(p, Title), Get(p, Content), Get(p, TaskId),
        Get(p, ToolInvocationId), Get(p, Actor), Get(p, MimeType), Get(p, Source), Parents(p),
        Get(p, IdempotencyKey), sourceEvent, status)
  }

  /** `payload.get("parent_evidence", [])`. */
  function Parents(p: Payload): Value {
    if ParentEvidence in p then p[ParentEvidence] else List([])
  }

  /** Digest of `str(payload.get("content", ""))`. */
  function ContentSha(p: Payload): Text {
    ContentDigest(if Content in p then Show(p[Content]) else EMPTY)
  }

  predicate ContentIntact(p: Payload) {
    Get(p, Sha256) == Str(ContentSha(p))
  }

  // ---- the form first written ---------------------------------------------

  /** The payload with another status and source, stamped again. */
  function Candidate(p: Payload, status: Text, source: Value): Payload {
    Stamped(p[VerificationStatus := Str(status)][SourceEventId := source])
  }

  function CurrentStatus(p: Payload): Text {
    if VerificationStatus in p then Show(p[VerificationStatus]) else Lit(Unverified)
  }

  /** A request digest, when there is one, must be that of the candidate, with or without source. */
  predicate RequestAgrees(p: Payload, status: Text, source: Value) {
    Truthy(Get(p, RequestSha256)) ==>
      Show(Get(p, RequestSha256)) == RequestDigest(RequestIn(p, Str(status), source))
      || (source != Null && Show(Get(p, RequestSha256)) == RequestDigest(RequestIn(p, Str(status), Null)))
  }

  /** One of the at most six forms tried, and it is the one the row is anchored to. */
  predicate Projects(env: Envelope, p: Payload, status: Text, source: Value) {
    status in {CurrentStatus(p), Lit(Unverified), Lit(Verified)}
    && (source == Get(p, SourceEventId) || (source == Null && !Truthy(Get(p, RequestSha256))))
    && RequestAgrees(p, status, source)
    && OriginMatches(env, Candidate(p, status, source))
  }

  datatype Origin = NoOrigin | OriginForm(status: Text, source: Value)

  /** `_origin_projection`. The order of the search does not matter: see OriginIsUnique. */
  function OriginOf(env: Envelope, p: Payload): Origin {
    FirstOrigin(env, p, [CurrentStatus(p), Lit(Unverified), Lit(Verified)], [Get(p, SourceEventId), Null])
  }

  function FirstOrigin(env: Envelope, p: Payload, statuses: seq<Text>, sources: seq<Value>): Origin {
    if statuses == [] then NoOrigin
    else
      var here := FirstSource(env, p, statuses[0], sources);
      if here.OriginForm? then here else FirstOrigin(env, p, statuses[1..], sources)
  }

  function FirstSource(env: Envelope, p: Payload, status: Text, sources: seq<Value>): Origin {
    if sources == [] then NoOrigin
    else if Projects(env, p, status, sources[0]) then OriginForm(status, sources[0])
    else FirstSource(env, p, status, sources[1..])
  }

  /** `_origin_record`. */
  function OriginRecord(p: Payload, o: Origin): Payload
    requires o.OriginForm?
  {
    Candidate(p, o.status, o.source)
  }

  // ---- verification --------------------------------------------------------

  function VerifyEvent(id: Text, digest: Text, corrupt: bool, stamp: Text): Event {
    var k := VerifyKey(id, digest, corrupt);
    Event(EvidenceEventId(k),
          EventRow(if corrupt then Lit(EvidenceVerificationFailed) else Lit(EvidenceVerified),
                   id, Lit(EvidenceAggregate), Lit(EvidenceStoreActor), Key(VerifyTrace, id), stamp, Some(k),
                   Obj(VerificationPayload(id, digest, corrupt))))
  }

  function VerificationPayload(id: Text, digest: Text, corrupt: bool): Payload {
    map[EvidenceId := Str(id), Sha256 := Str(digest),
        VerificationStatus := Literal(if corrupt then Corrupt else Verified)]
  }

  /** `_verification_transition_is_valid`. */
  predicate VerificationRecorded(events: map<Text, EventRow>, id: Text, p: Payload, originStatus: Text) {
    originStatus == Lit(Verified)
    || var digest := Show(Get(p, Sha256));
       var k := VerifyKey(id, digest, false);
       EvidenceEventId(k) in events
       && var e := events[EvidenceEventId(k)];
          e.etype == Lit(EvidenceVerified) && e.aggregate == id && e.aggregateType == Lit(EvidenceAggregate)
          && e.actor == Lit(EvidenceStoreActor) && e.key == Some(k)
          && e.body == Obj(VerificationPayload(id, digest, false))
  }

  /** The checks of `is_preverified_and_integrity_bound` made on the envelope. */
  predicate LooksVerified(env: Envelope, id: Text) {
    env.rtype == Lit(EvidenceRecord) && Get(env.payload, EvidenceId) == Str(id)
    && env.mission == Get(env.payload, MissionId)
    && Get(env.payload, VerificationStatus) == Literal(Verified) && ContentIntact(env.payload)
    && OriginOf(env, env.payload).OriginForm?
    && Get(env.payload, EnvelopeSha256) == Str(EnvelopeSha(env.payload))
  }

  /** `is_preverified_and_integrity_bound`, given the envelope it read and the events it scans. */
  predicate Preverified(env: Envelope, events: map<Text, EventRow>, id: Text) {
    LooksVerified(env, id) && VerificationRecorded(events, id, env.payload, OriginOf(env, env.payload).status)
  }

  // ---- facts about the search ------------------------------------------------

  /** At most one form can be the anchored one. */
  lemma OriginIsUnique(env: Envelope, p: Payload, s: Text, source: Value, s': Text, source': Value)
    requires OriginMatches(env, Candidate(p, s, source)) && OriginMatches(env, Candidate(p, s', source'))
    ensures s == s' && source == source'
  {
    assert Candidate(p, s, source)[VerificationStatus] == Str(s);
    assert Candidate(p, s', source')[VerificationStatus] == Str(s');
    assert Candidate(p, s, source)[SourceEventId] == source;
    assert Candidate(p, s', source')[SourceEventId] == source';
  }

  /** The search finds the anchored form exactly when one of the forms it may try is anchored. */
  lemma SearchIsComplete(env: Envelope, p: Payload)
    ensures OriginOf(env, p).OriginForm? ==> Projects(env, p, OriginOf(env, p).status, OriginOf(env, p).source)
    ensures OriginOf(env, p).NoOrigin? ==> forall s, source :: !Projects(env, p, s, source)
    ensures forall s, source :: Projects(env, p, s, source) ==> OriginOf(env, p) == OriginForm(s, source)
  {
    var statuses, sources := [CurrentStatus(p), Lit(Unverified), Lit(Verified)], [Get(p, SourceEventId), Null];
    FirstOriginSound(env, p, statuses, sources);
    forall s, source | Projects(env, p, s, source) ensures OriginOf(env, p) == OriginForm(s, source) {
      assert s == statuses[0] || s == statuses[1] || s == statuses[2];
      assert source == sources[0] || source == sources[1];
      FirstOriginComplete(env, p, statuses, sources, s, source);
      OriginIsUnique(env, p, s, source, OriginOf(env, p).status, OriginOf(env, p).source);
    }
  }

  lemma {:induction false} FirstSourceSound(env: Envelope, p: Payload, status: Text, sources: seq<Value>)
    ensures var o := FirstSource(env, p, status, sources);
      o.OriginForm? ==> o.status == status && Projects(env, p, o.status, o.source)
    ensures forall source :: source in sources && Projects(env, p, status, source) ==>
      FirstSource(env, p, status, sources).OriginForm?
  {
    if sources != [] { FirstSourceSound(env, p, status, sources[1..]); }
  }

  lemma {:induction false} FirstOriginSound(env: Envelope, p: Payload, statuses: seq<Text>, sources: seq<Value>)
    ensures var o := FirstOrigin(env, p, statuses, sources);
      o.OriginForm? ==> Projects(env, p, o.status, o.source)
  {
    if statuses != [] {
      FirstSourceSound(env, p, statuses[0], sources);
      FirstOriginSound(env, p, statuses[1..], sources);
    }
  }

  lemma {:induction false} FirstOriginComplete(
    env: Envelope, p: Payload, statuses: seq<Text>, sources: seq<Value>, s: Text, source: Value)
    requires s in statuses && source in sources && Projects(env, p, s, source)
    ensures FirstOrigin(env, p, statuses, sources).OriginForm?
  {
    FirstSourceSound(env, p, statuses[0], sources);
    if s != statuses[0] { FirstOriginComplete(env, p, statuses[1..], sources, s, source); }
  }
}
