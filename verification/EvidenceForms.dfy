/** The two forms a record made by `add` ever takes, and how the checks see them. */
module EvidenceForms {
  import opened Ledger
  import opened StoreSpec
  import opened EvidenceRules
  import opened EvidenceSteps

  /** A call that won its evidence id, with everything that follows from it. */
  datatype First = First(args: AddArgs, item: Item, event: Event, final: Payload, proof: Event)

  function FirstOf(args: AddArgs): First {
    First(args, AddItem(args), AddEvent(args), VerifiedForm(Filing(args), true),
          VerifyEvent(IdOf(args), ContentDigest(args.content), false, EMPTY))
  }

  predicate Made(first: First) {
    first == FirstOf(first.args)
  }

  /** As added, or verified since. */
  predicate Filed(first: First, p: Payload) {
    p == first.item.payload || p == first.final
  }

  /** What a request asks for: a missing source event means the creation event. */
  function Meaning(args: AddArgs): Ask {
    if args.sourceEvent == Null then Asked(args).(sourceEvent := Str(EvidenceEventId(EventKey(args)))) else Asked(args)
  }

  /** What the stored request was. */
  function StoredRequest(first: AddArgs): Ask {
    Asked(first).(sourceEvent := BoundSource(first))
  }

  predicate Agrees(args: AddArgs, first: AddArgs) {
    Meaning(args) == StoredRequest(first)
  }

  /** An envelope of that record, read at any time. */
  ghost predicate EnvelopeOfFirst(env: Envelope, first: First) {
    env.id == first.item.id && env.rtype == Lit(EvidenceRecord) && env.mission == first.item.mission
    && env.created == first.item.created && Filed(first, env.payload)
    && env.integrity == Seal(env.id, env.rtype, env.mission, env.created, env.payload)
    && env.origin == ItemSeal(first.item)
  }

  predicate Standard(first: AddArgs) {
    first.status in {Lit(Unverified), Lit(Verified)}
  }

  // ---- fields of the two forms ------------------------------------------------------------

  /** What the checks look at in a payload. */
  predicate Describes(q: Payload, first: AddArgs) {
    DescribesBody(q, first) && VerificationStatus in q && EnvelopeSha256 in q
  }

  predicate DescribesBody(q: Payload, first: AddArgs) {
    Get(q, EvidenceId) == Str(IdOf(first)) && Get(q, SourceEventId) == BoundSource(first)
    && SourceEventId in q && ParentEvidence in q
    && Get(q, MissionId) == Str(first.mission) && Get(q, IdempotencyKey) == first.key
    && Get(q, CreatedAt) == Str(first.created) && Get(q, Kind) == Str(first.kind)
    && Get(q, Sha256) == Str(ContentDigest(first.content)) && ContentSha(q) == ContentDigest(first.content)
    && Get(q, RequestSha256) == Str(RequestDigest(StoredRequest(first)))
    && RequestIn(q, Null, Null) == Asked(first).(sourceEvent := Null, status := Null)
  }

  /** The same in every field but the status and the envelope digest. */
  ghost predicate Alike(p: Payload, q: Payload) {
    forall f :: f != VerificationStatus && f != EnvelopeSha256 ==> Get(p, f) == Get(q, f) && (f in p <==> f in q)
  }

  lemma SameDigest(p: Payload, q: Payload)
    requires Alike(p, q) && Get(p, VerificationStatus) == Get(q, VerificationStatus)
    ensures EnvelopeSha(p) == EnvelopeSha(q)
  {
  }

  /** Stamping writes the envelope digest, which covers no digest field of its own. */
  lemma StampKeepsFields(a: Payload)
    ensures Alike(Stamped(a), a) && Get(Stamped(a), VerificationStatus) == Get(a, VerificationStatus)
    ensures EnvelopeSha256 in Stamped(a) && Get(Stamped(a), EnvelopeSha256) == Str(EnvelopeSha(Stamped(a)))
  {
    var digest := Str(EnvelopeSha(a));
    StampedDigest(a, digest);
  }

  lemma StampedDigest(a: Payload, digest: Value)
    ensures Alike(a[EnvelopeSha256 := digest], a)
    ensures EnvelopeSha(a[EnvelopeSha256 := digest]) == EnvelopeSha(a)
    ensures Get(a[EnvelopeSha256 := digest], VerificationStatus) == Get(a, VerificationStatus)
  {
    SameDigest(a[EnvelopeSha256 := digest], a);
  }

  /** Two stamped payloads that agree elsewhere are equal. */
  lemma StampedAlike(p: Payload, q: Payload)
    requires Alike(p, q) && VerificationStatus in p && VerificationStatus in q
    requires p[VerificationStatus] == q[VerificationStatus]
    requires EnvelopeSha256 in q && q[EnvelopeSha256] == Str(EnvelopeSha(q))
    ensures Stamped(p) == q
  {
    SameDigest(p, q);
    OneFieldApart(p, q, q[EnvelopeSha256]);
  }

  lemma OneFieldApart(p: Payload, q: Payload, digest: Value)
    requires Alike(p, q) && VerificationStatus in p && VerificationStatus in q
    requires p[VerificationStatus] == q[VerificationStatus]
    requires EnvelopeSha256 in q && q[EnvelopeSha256] == digest
    ensures p[EnvelopeSha256 := digest] == q
  {
    var s := p[EnvelopeSha256 := digest];
    forall f ensures (f in s <==> f in q) && (f in s ==> s[f] == q[f]) {
      if f != VerificationStatus && f != EnvelopeSha256 { assert Get(p, f) == Get(q, f); }
    }
  }

  lemma VerifiedKeepsFields(q: Payload, ok: bool)
    ensures var v := VerifiedForm(q, ok);
      Alike(v, q) && VerificationStatus in v && v[VerificationStatus] == Literal(if ok then Verified else Corrupt)
      && EnvelopeSha256 in v && v[EnvelopeSha256] == Str(EnvelopeSha(v))
  {
    var q' := q[VerificationStatus := Literal(if ok then Verified else Corrupt)];
    StampKeepsFields(q');
  }

  /** Verifying again changes nothing. */
  lemma VerifiedTwice(v: Payload, ok: bool)
    requires VerificationStatus in v && v[VerificationStatus] == Literal(if ok then Verified else Corrupt)
    requires EnvelopeSha256 in v && v[EnvelopeSha256] == Str(EnvelopeSha(v))
    ensures VerifiedForm(v, ok) == v
  {
    assert v[VerificationStatus := v[VerificationStatus]] == v;
    StampedAlike(v, v);
  }

  lemma FilingDescribed(first: AddArgs)
    ensures Describes(Filing(first), first) && Get(Filing(first), VerificationStatus) == Str(first.status)
    ensures Get(Filing(first), EnvelopeSha256) == Str(EnvelopeSha(Filing(first)))
  {
    var a := Artifact(first)[RequestSha256 := Str(RequestDigest(StoredRequest(first)))];
    StampKeepsFields(a);
    ArtifactFields(first, Str(RequestDigest(StoredRequest(first))), a);
    AlikeDescribes(Stamped(a), a, first);
  }

  lemma ArtifactFields(first: AddArgs, digest: Value, a: Payload)
    requires a == Artifact(first)[RequestSha256 := digest] && digest == Str(RequestDigest(StoredRequest(first)))
    ensures DescribesBody(a, first) && Get(a, VerificationStatus) == Str(first.status) && VerificationStatus in a
  {
    ArtifactRequest(first, digest, a);
    ArtifactContent(first, digest, a);
  }

  lemma ArtifactRequest(first: AddArgs, digest: Value, a: Payload)
    requires a == Artifact(first)[RequestSha256 := digest]
    ensures RequestIn(a, Null, Null) == Asked(first).(sourceEvent := Null, status := Null)
  {
  }

  lemma ArtifactContent(first: AddArgs, digest: Value, a: Payload)
    requires a == Artifact(first)[RequestSha256 := digest]
    ensures ContentSha(a) == ContentDigest(first.content)
  {
  }

  lemma AlikeDescribes(p: Payload, a: Payload, first: AddArgs)
    requires DescribesBody(a, first) && Alike(p, a) && VerificationStatus in p && EnvelopeSha256 in p
    ensures Describes(p, first)
  {
  }

  lemma VerifiedDescribed(q: Payload, first: AddArgs)
    requires Describes(q, first)
    ensures Describes(VerifiedForm(q, true), first)
  {
    VerifiedKeepsFields(q, true);
    AlikeDescribes(VerifiedForm(q, true), q, first);
  }

  /** Every field but the status and the envelope digest is as added. */
  lemma FiledDescribed(first: First, p: Payload)
    requires Made(first) && Filed(first, p)
    ensures Describes(p, first.args) && Get(p, EnvelopeSha256) == Str(EnvelopeSha(p)) && ContentIntact(p)
    ensures Get(p, VerificationStatus) == if p == first.item.payload then Str(first.args.status) else Literal(Verified)
    ensures VerifiedForm(p, true) == first.final
  {
    var q := first.item.payload;
    FilingDescribed(first.args);
    VerifiedKeepsFields(q, true);
    VerifiedDescribed(q, first.args);
    VerifiedTwice(first.final, true);
  }

  // ---- the first form -------------------------------------------------------------------

  /** Putting the first status and source back gives the first form. */
  lemma CandidateIsFirst(q: Payload, status: Text)
    requires VerificationStatus in q && q[VerificationStatus] == Str(status) && SourceEventId in q
    requires EnvelopeSha256 in q && q[EnvelopeSha256] == Str(EnvelopeSha(q))
    ensures Candidate(q, status, q[SourceEventId]) == q
    ensures Candidate(VerifiedForm(q, true), status, q[SourceEventId]) == q
  {
    VerifiedKeepsFields(q, true);
    RestoredIsAlike(q, q, status);
    RestoredIsAlike(VerifiedForm(q, true), q, status);
  }

  lemma RestoredIsAlike(p: Payload, q: Payload, status: Text)
    requires VerificationStatus in q && q[VerificationStatus] == Str(status) && SourceEventId in q
    requires EnvelopeSha256 in q && q[EnvelopeSha256] == Str(EnvelopeSha(q)) && Alike(p, q)
    ensures Candidate(p, status, q[SourceEventId]) == q
  {
    var c := p[VerificationStatus := Str(status)][SourceEventId := q[SourceEventId]];
    RestoredFields(p, q, Str(status), c);
    StampedAlike(c, q);
  }

  lemma RestoredFields(p: Payload, q: Payload, status: Value, c: Payload)
    requires Alike(p, q) && SourceEventId in q && c == p[VerificationStatus := status][SourceEventId := q[SourceEventId]]
    ensures Alike(c, q) && VerificationStatus in c && c[VerificationStatus] == status
  {
  }

  lemma FiledCandidate(first: First, p: Payload)
    requires Made(first) && Filed(first, p)
    ensures Candidate(p, first.args.status, BoundSource(first.args)) == first.item.payload
  {
    FilingDescribed(first.args);
    CandidateIsFirst(first.item.payload, first.args.status);
  }

  /** The search for the first form succeeds exactly when the record was not verified since, or
      was added under one of the two standard statuses. */
  lemma OriginIsFound(env: Envelope, first: First)
    requires Made(first) && EnvelopeOfFirst(env, first)
    ensures OriginOf(env, env.payload).OriginForm? <==> env.payload == first.item.payload || Standard(first.args)
    ensures OriginOf(env, env.payload).OriginForm? ==>
      OriginOf(env, env.payload) == OriginForm(first.args.status, BoundSource(first.args))
  {
    FiledCandidate(first, env.payload);
    FiledDescribed(first, env.payload);
    SearchFinds(env, first.args, first.item, first.final);
  }

  lemma SearchFinds(env: Envelope, args: AddArgs, item: Item, final: Payload)
    requires env.origin == ItemSeal(item) && item == Item(env.id, env.rtype, env.mission, env.created, item.payload)
    requires Candidate(env.payload, args.status, BoundSource(args)) == item.payload
    requires Describes(env.payload, args)
    requires Get(env.payload, VerificationStatus)
      == if env.payload == item.payload then Str(args.status) else Literal(Verified)
    ensures OriginOf(env, env.payload).OriginForm? <==> env.payload == item.payload || Standard(args)
    ensures OriginOf(env, env.payload).OriginForm? ==>
      OriginOf(env, env.payload) == OriginForm(args.status, BoundSource(args))
  {
    var p := env.payload;
    SearchIsComplete(env, p);
    var o := OriginOf(env, p);
    if o.OriginForm? {
      OriginIsUnique(env, p, o.status, o.source, args.status, BoundSource(args));
    }
    if p == item.payload || Standard(args) {
      assert Projects(env, p, args.status, BoundSource(args));
    }
  }

  // ---- the request ------------------------------------------------------------------------

  /** The stored record answers a request exactly when the two requests mean the same. */
  lemma MatchMeansAgreement(first: AddArgs, p: Payload, args: AddArgs)
    requires Describes(p, first) && Keyed(args)
    ensures RequestMatches(p, Asked(args)) <==> Agrees(args, first)
  {
  }

  /** A call agrees with its own record unless it named an empty source event. */
  lemma AgreesWithItself(args: AddArgs)
    requires args.sourceEvent == Null || args.sourceEvent.Str?
    ensures Agrees(args, args) <==> args.sourceEvent != Str(EMPTY)
  {
  }

  /** What the repair takes from the artifact it replayed. */
  lemma ArtifactFacts(first: First, p: Payload)
    requires Made(first) && Filed(first, p)
    ensures var a := ArtifactOf(p);
      Get(a, SourceEventId) == BoundSource(first.args) && Get(a, IdempotencyKey) == first.args.key
      && Get(a, MissionId) == Str(first.args.mission) && Get(a, CreatedAt) == Str(first.args.created)
  {
    FiledDescribed(first, p);
    assert {SourceEventId, IdempotencyKey, MissionId, CreatedAt} <= ARTIFACT_FIELDS;
    ArtifactKeeps(p, SourceEventId);
    ArtifactKeeps(p, IdempotencyKey);
    ArtifactKeeps(p, MissionId);
    ArtifactKeeps(p, CreatedAt);
  }

  /** What a call without a key returns is what its record holds. */
  lemma ArtifactIsFiled(args: AddArgs)
    ensures Artifact(args) == ArtifactOf(Filing(args))
  {
    var a := Artifact(args);
    assert a.Keys == ARTIFACT_FIELDS;
    ArtifactOfStamped(a, Str(RequestDigest(StoredRequest(args))));
  }

  lemma ArtifactOfStamped(a: Payload, digest: Value)
    requires a.Keys == ARTIFACT_FIELDS
    ensures ArtifactOf(Stamped(a[RequestSha256 := digest])) == a
  {
    var p := Stamped(a[RequestSha256 := digest]);
    assert RequestSha256 !in ARTIFACT_FIELDS && EnvelopeSha256 !in ARTIFACT_FIELDS;
    assert forall f :: f in a ==> f in p && p[f] == a[f];
  }

  lemma ArtifactKeeps(p: Payload, f: Field)
    requires f in ARTIFACT_FIELDS
    ensures Get(ArtifactOf(p), f) == Get(p, f)
  {
  }

  /** The creation event is the mission's, under the record's own key. */
  lemma EventFacts(first: First)
    requires Made(first)
    ensures var e := first.event.row;
      e.etype == Lit(EvidenceCreated) && e.aggregate == first.args.mission && e.aggregateType == Lit(MissionAggregate)
      && e.actor == Lit(EvidenceStoreActor) && e.key == Some(EventKey(first.args)) && e.body.Obj?
    ensures first.item.id == IdOf(first.args) && first.item.mission == Str(first.args.mission)
    ensures first.item.rtype == Lit(EvidenceRecord) && first.proof.row.key.Some?
  {
  }

  /** Repairing the source event of a record that has one writes what was there. */
  lemma ReboundIsNoChange(first: AddArgs, p: Payload, artifact: Payload, eid: Text)
    requires Describes(p, first) && Get(p, EnvelopeSha256) == Str(EnvelopeSha(p))
    requires Get(artifact, SourceEventId) == BoundSource(first)
    ensures Rebound(p, artifact, eid) == p
  {
    assert Truthy(BoundSource(first));
    assert p[SourceEventId := Get(p, SourceEventId)] == p;
  }
}
