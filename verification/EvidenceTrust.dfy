/** What a positive trust check means when anybody may have called the store with anything. */
module EvidenceTrust {
  import opened Ledger
  import opened StoreSpec
  import opened EvidenceRules
  import opened ApprovalRuns

  /** The fields a verification (or the repair of a legacy record) may have changed. */
  predicate MayChange(f: Field, p: Payload) {
    f == VerificationStatus || f == EnvelopeSha256 || (f == SourceEventId && !Truthy(Get(p, RequestSha256)))
  }

  /** In any raw run, and with the events scanned at any later moment: trusted evidence has the
      type, mission, creation time and every other field with which it was first written. */
  lemma {:induction false} TrustedIsAsFirstWritten(moves: seq<Move>, later: seq<Move>, id: Text)
    requires EnvelopeOf(Run(moves).db.records, id).Some?
    requires Preverified(EnvelopeOf(Run(moves).db.records, id).value, Run(moves + later).db.events, id)
    ensures id in Run(moves).born
    ensures var env, first := EnvelopeOf(Run(moves).db.records, id).value, Run(moves).born[id];
      first.rtype == env.rtype == Lit(EvidenceRecord) && first.mission == env.mission && first.created == env.created
      && (forall f :: !MayChange(f, env.payload) ==> Get(first.payload, f) == Get(env.payload, f))
      && (Get(first.payload, SourceEventId) == Get(env.payload, SourceEventId)
          || (Get(first.payload, SourceEventId) == Null && !Truthy(Get(env.payload, RequestSha256))))
  {
    RunKeepsRawInv(moves);
    var env, first := EnvelopeOf(Run(moves).db.records, id).value, Run(moves).born[id];
    SearchIsComplete(env, env.payload);
    var o := OriginOf(env, env.payload);
    assert env.origin == ItemSeal(first);
    assert first.payload == Candidate(env.payload, o.status, o.source);
    CandidateFields(env.payload, o.status, o.source);
  }

  lemma CandidateFields(p: Payload, status: Text, source: Value)
    ensures var c := Candidate(p, status, source);
      Get(c, SourceEventId) == source && Get(c, VerificationStatus) == Str(status)
      && forall f :: f !in {VerificationStatus, EnvelopeSha256, SourceEventId} ==> Get(c, f) == Get(p, f)
  {
  }

  /** Trust without a durable proof goes only to evidence first written as verified. */
  lemma {:induction false} TrustNeedsProof(moves: seq<Move>, later: seq<Move>, id: Text)
    requires EnvelopeOf(Run(moves).db.records, id).Some?
    requires Preverified(EnvelopeOf(Run(moves).db.records, id).value, Run(moves + later).db.events, id)
    ensures id in Run(moves).born
    ensures Get(Run(moves).born[id].payload, VerificationStatus) == Literal(Verified)
      || var digest := ContentSha(Run(moves).born[id].payload);
         EvidenceEventId(VerifyKey(id, digest, false)) in Run(moves + later).db.events
         && Run(moves + later).db.events[EvidenceEventId(VerifyKey(id, digest, false))].body
            == Obj(VerificationPayload(id, digest, false))
  {
    RunKeepsRawInv(moves);
    var env, first := EnvelopeOf(Run(moves).db.records, id).value, Run(moves).born[id];
    SearchIsComplete(env, env.payload);
    var o := OriginOf(env, env.payload);
    assert env.origin == ItemSeal(first);
    assert first.payload == Candidate(env.payload, o.status, o.source);
    CandidateFields(env.payload, o.status, o.source);
    CandidateContent(env.payload, o.status, o.source);
  }

  lemma CandidateContent(p: Payload, status: Text, source: Value)
    ensures ContentSha(Candidate(p, status, source)) == ContentSha(p)
  {
  }
}
