/** What the evidence calls answer and leave behind, in the fields of the stored rows and events. */
module EvidenceAnswers {
  import opened Ledger
  import opened StoreSpec
  import opened StoreAnswers
  import opened EvidenceRules
  import opened EvidenceSteps

  // ---- digests, written out -------------------------------------------------------------------------

  /** The envelope digest covers these eleven fields and is the one stored. */
  predicate EnvelopeFits(p: Payload) {
    Get(p, EnvelopeSha256) == Str(EnvelopeDigest(Identity(
      Get(p, EvidenceId), Get(p, MissionId), Get(p, Kind), Get(p, Sha256), Get(p, TaskId), Get(p, ToolInvocationId),
      Get(p, Actor), Get(p, Source), Get(p, SourceEventId), Get(p, VerificationStatus), Get(p, RequestSha256))))
  }

  /** The text whose digest is compared: none counts as the empty one. */
  function TextOf(p: Payload): Text {
    if Content !in p then EMPTY else if p[Content].Str? then p[Content].t else Shown(p[Content])
  }

  predicate DigestFits(p: Payload) {
    Get(p, Sha256) == Str(ContentDigest(TextOf(p)))
  }

  /** The payload names its own id and its row's mission, under the digest of its envelope. */
  predicate Consistent(id: Text, mission: Value, p: Payload) {
    Get(p, EvidenceId) == Str(id) && Get(p, MissionId) == mission && EnvelopeFits(p)
  }

  // ---- verifying --------------------------------------------------------------------------------------

  /** Nothing but the status and the envelope digest is rewritten. */
  ghost predicate VerifiedAs(p: Payload, q: Payload, ok: bool) {
    Get(q, VerificationStatus) == Str(Lit(if ok then Verified else Corrupt)) && EnvelopeFits(q)
    && forall f :: f != VerificationStatus && f != EnvelopeSha256 ==> Get(q, f) == Get(p, f) && (f in q <==> f in p)
  }

  /** The record says so, and the event is on record. */
  ghost predicate VerificationStands(id: Text, db: Tables, db': Tables, p: Payload, ok: bool) {
    var k := VerifyKey(id, ContentDigest(TextOf(p)), !ok);
    id in db'.records && db'.records[id].body.Obj? && OneRowRewritten(db.records, db'.records, id, db'.records[id].body.p)
    && VerifiedAs(p, db'.records[id].body.p, ok)
    && OneEventStands(
         db.events, db'.events, EvidenceEventId(k), Lit(if ok then EvidenceVerified else EvidenceVerificationFailed), id,
         Lit(EvidenceAggregate), Lit(EvidenceStoreActor), k,
         map[EvidenceId := Str(id), Sha256 := Str(ContentDigest(TextOf(p))),
             VerificationStatus := Str(Lit(if ok then Verified else Corrupt))])
  }

  /** The event of a verification with this result, whatever its key. */
  predicate IsVerification(e: EventRow, id: Text, digest: Text, ok: bool) {
    e.etype == Lit(if ok then EvidenceVerified else EvidenceVerificationFailed) && e.aggregate == id
    && e.aggregateType == Lit(EvidenceAggregate) && e.actor == Lit(EvidenceStoreActor)
    && e.body == Obj(map[
         EvidenceId := Str(id), Sha256 := Str(digest), VerificationStatus := Str(Lit(if ok then Verified else Corrupt))])
  }

  /** The event is on record with its key, or nobody has the key and the id is free or holds the same
      event without a key. */
  predicate Recordable(es: map<Text, EventRow>, id: Text, digest: Text, ok: bool) {
    var k := VerifyKey(id, digest, !ok);
    var eid := EvidenceEventId(k);
    if eid in es && es[eid].key == Some(k) then IsVerification(es[eid], id, digest, ok)
    else
      (forall e :: e in es ==> es[e].key != Some(k)) && (eid in es ==> IsVerification(es[eid], id, digest, ok) && es[eid].key == None)
  }

  /** What `verify` answers, on any tables: it refuses what it cannot read, what is no evidence, what is
      not consistent and what cannot be recorded, and else says whether the content fits its digest. */
  ghost predicate VerifyAnswers(id: Text, db: Tables, db': Tables, outcome: Outcome) {
    if !IntactRow(db.records, id) then outcome == Raised(NotFound) && db' == db
    else
      var row := db.records[id];
      if row.rtype != Lit(EvidenceRecord) then outcome == Raised(WrongType) && db' == db
      else if !Consistent(id, row.mission, row.body.p) then outcome == Raised(IntegrityInvalid) && db' == db
      else if Recordable(db.events, id, ContentDigest(TextOf(row.body.p)), DigestFits(row.body.p)) then
        outcome == VerifyReturned(id, DigestFits(row.body.p)) && VerificationStands(id, db, db', row.body.p, DigestFits(row.body.p))
      else outcome == Raised(EventConflict) && db' == db
  }

  lemma EnvelopeFitsIs(p: Payload)
    ensures EnvelopeFits(p) <==> Get(p, EnvelopeSha256) == Str(EnvelopeSha(p))
  {
  }

  lemma ContentIs(p: Payload)
    ensures ContentSha(p) == ContentDigest(TextOf(p)) && (ContentIntact(p) <==> DigestFits(p))
  {
  }

  lemma VerifyReads(id: Text, stamp: Text, rs: map<Text, Row>)
    requires EnvelopeOf(rs, id).Some? && rs[id].rtype == Lit(EvidenceRecord)
    ensures var st, p := AfterVerifyRead(id, stamp, EnvelopeOf(rs, id)), rs[id].body.p;
      if Consistent(id, rs[id].mission, p) then
        st == Verifying(EnvelopeOf(rs, id).value, VerifiedForm(p, DigestFits(p)),
                        VerifyEvent(id, ContentDigest(TextOf(p)), !DigestFits(p), stamp), DigestFits(p))
      else st == Done(Raised(IntegrityInvalid))
  {
    EnvelopeFitsIs(rs[id].body.p);
    ContentIs(rs[id].body.p);
  }

  lemma VerifiedFormSays(p: Payload, ok: bool)
    ensures var q := VerifiedForm(p, ok);
      Get(q, VerificationStatus) == Str(Lit(if ok then Verified else Corrupt)) && EnvelopeFits(q)
      && forall f :: f != VerificationStatus && f != EnvelopeSha256 ==> Get(q, f) == Get(p, f)
  {
    var a := p[VerificationStatus := Str(Lit(if ok then Verified else Corrupt))];
    StampFits(a);
  }

  lemma StampFits(a: Payload)
    ensures EnvelopeFits(Stamped(a)) && forall f :: f != EnvelopeSha256 ==> Get(Stamped(a), f) == Get(a, f)
  {
  }

  lemma VerifiedFormKeys(p: Payload, ok: bool, f: Field)
    requires f != VerificationStatus && f != EnvelopeSha256
    ensures f in VerifiedForm(p, ok) <==> f in p
  {
  }

  lemma VerifyEventSays(id: Text, digest: Text, corrupt: bool, stamp: Text)
    ensures var ev, k := VerifyEvent(id, digest, corrupt, stamp), VerifyKey(id, digest, corrupt);
      ev.id == EvidenceEventId(k) && ev.row.key == Some(k)
      && ev.row.etype == Lit(if corrupt then EvidenceVerificationFailed else EvidenceVerified)
      && ev.row.aggregate == id && ev.row.aggregateType == Lit(EvidenceAggregate) && ev.row.actor == Lit(EvidenceStoreActor)
      && ev.row.body == Obj(map[
           EvidenceId := Str(id), Sha256 := Str(digest), VerificationStatus := Str(Lit(if corrupt then Corrupt else Verified))])
  {
  }

  lemma VerifyWrites(id: Text, stamp: Text, db: Tables, st: Stage, p: Payload, ok: bool)
    requires EnvelopeOf(db.records, id).Some? && db.records[id].rtype == Lit(EvidenceRecord) && db.records[id].body == Obj(p)
    requires st == Verifying(EnvelopeOf(db.records, id).value, VerifiedForm(p, ok),
                             VerifyEvent(id, ContentDigest(TextOf(p)), !ok, stamp), ok)
    ensures var result := RepairOf(db, st);
      if Recordable(db.events, id, ContentDigest(TextOf(p)), ok) then result.1.Repaired? && VerificationStands(id, db, result.0, p, ok)
      else result.1.RepairConflict? && result.0 == db
  {
    VerifyEventSays(id, ContentDigest(TextOf(p)), !ok, stamp);
    RepairStands(db, id, Lit(EvidenceRecord), st.env.integrity, st.next, st.ev);
    BindableIsRecordable(db.events, id, ContentDigest(TextOf(p)), ok, st.ev);
    if RepairOf(db, st).1.Repaired? {
      RewrittenStands(id, db, RepairOf(db, st).0, p, ok, st.ev);
    }
  }

  lemma BindableIsRecordable(es: map<Text, EventRow>, id: Text, digest: Text, ok: bool, ev: Event)
    requires var k := VerifyKey(id, digest, !ok);
      ev.id == EvidenceEventId(k) && ev.row.key == Some(k) && IsVerification(ev.row, id, digest, ok)
    ensures Bindable(es, ev) <==> Recordable(es, id, digest, ok)
  {
  }

  lemma RewrittenStands(id: Text, db: Tables, db': Tables, p: Payload, ok: bool, ev: Event)
    requires OneRowRewritten(db.records, db'.records, id, VerifiedForm(p, ok))
    requires ev.id in db'.events && db'.events == db.events[ev.id := db'.events[ev.id]] && IsTheEvent(db'.events[ev.id], ev)
    requires var digest, k := ContentDigest(TextOf(p)), VerifyKey(id, ContentDigest(TextOf(p)), !ok);
      ev.id == EvidenceEventId(k) && ev.row.key == Some(k)
      && ev.row.etype == Lit(if ok then EvidenceVerified else EvidenceVerificationFailed)
      && ev.row.aggregate == id && ev.row.aggregateType == Lit(EvidenceAggregate) && ev.row.actor == Lit(EvidenceStoreActor)
      && ev.row.body == Obj(map[
           EvidenceId := Str(id), Sha256 := Str(digest), VerificationStatus := Str(Lit(if ok then Verified else Corrupt))])
    ensures VerificationStands(id, db, db', p, ok)
  {
    VerifiedFormSays(p, ok);
    forall f | f != VerificationStatus && f != EnvelopeSha256 ensures f in VerifiedForm(p, ok) <==> f in p {
      VerifiedFormKeys(p, ok, f);
    }
  }

  lemma AloneRefuses(id: Text, stamp: Text, db: Tables)
    requires AfterVerifyRead(id, stamp, EnvelopeOf(db.records, id)).Done?
    ensures VerifyAlone(db, id, stamp) == (db, AfterVerifyRead(id, stamp, EnvelopeOf(db.records, id)).outcome)
  {
  }

  lemma AloneCommits(id: Text, stamp: Text, db: Tables, st: Stage)
    requires st == AfterVerifyRead(id, stamp, EnvelopeOf(db.records, id)) && st.Verifying? && !RepairOf(db, st).1.Refused?
    ensures VerifyAlone(db, id, stamp) == (
      RepairOf(db, st).0, if RepairOf(db, st).1.Repaired? then VerifyReturned(id, st.verified) else Raised(EventConflict))
  {
  }

  lemma VerifyMeansRead(id: Text, stamp: Text, db: Tables)
    requires EnvelopeOf(db.records, id).Some? && db.records[id].rtype == Lit(EvidenceRecord)
    ensures VerifyAnswers(id, db, VerifyAlone(db, id, stamp).0, VerifyAlone(db, id, stamp).1)
  {
    VerifyReads(id, stamp, db.records);
    IntactIsRead(db.records, id);
    var st, p := AfterVerifyRead(id, stamp, EnvelopeOf(db.records, id)), db.records[id].body.p;
    if Consistent(id, db.records[id].mission, p) {
      VerifyWrites(id, stamp, db, st, p, DigestFits(p));
      AloneCommits(id, stamp, db, st);
    } else {
      AloneRefuses(id, stamp, db);
    }
  }

  lemma VerifyMeans(id: Text, stamp: Text, db: Tables)
    ensures VerifyAnswers(id, db, VerifyAlone(db, id, stamp).0, VerifyAlone(db, id, stamp).1)
  {
    IntactIsRead(db.records, id);
    if EnvelopeOf(db.records, id).Some? && db.records[id].rtype == Lit(EvidenceRecord) {
      VerifyMeansRead(id, stamp, db);
    } else {
      AloneRefuses(id, stamp, db);
    }
  }

  /** What a true answer of `is_preverified_and_integrity_bound` has seen in the row. */
  lemma PreverifiedSees(env: Envelope, events: map<Text, EventRow>, id: Text)
    requires Preverified(env, events, id)
    ensures env.rtype == Lit(EvidenceRecord) && Consistent(id, env.mission, env.payload) && DigestFits(env.payload)
    ensures Get(env.payload, VerificationStatus) == Str(Lit(Verified))
  {
    EnvelopeFitsIs(env.payload);
    ContentIs(env.payload);
  }

  // ---- adding -----------------------------------------------------------------------------------------

  /** The eleven things a caller asks for, as the artifact has them. */
  predicate SaysAsAsked(args: AddArgs, a: Payload) {
    Get(a, MissionId) == Str(args.mission) && Get(a, Kind) == Str(args.kind) && Get(a, Title) == Str(args.title)
    && Get(a, Content) == Str(args.content) && Get(a, TaskId) == args.task && Get(a, ToolInvocationId) == args.tool
    && Get(a, Actor) == Str(args.actor) && Get(a, MimeType) == Str(args.mime) && Get(a, Source) == Str(args.source)
    && Get(a, ParentEvidence) == List(args.parents) && Get(a, IdempotencyKey) == args.key
  }

  lemma ArtifactSays(args: AddArgs)
    ensures SaysAsAsked(args, Artifact(args))
  {
  }

  lemma MatchSays(p: Payload, args: AddArgs)
    requires RequestMatches(p, Asked(args))
    ensures SaysAsAsked(args, p)
  {
  }

  lemma ArtifactOfSays(p: Payload, args: AddArgs)
    requires SaysAsAsked(args, p)
    ensures SaysAsAsked(args, ArtifactOf(p))
  {
    assert forall f :: f in ARTIFACT_FIELDS ==> Get(ArtifactOf(p), f) == Get(p, f);
  }

  lemma SettledSays(read: Option<Envelope>, id: Text, args: AddArgs)
    requires var st := AfterSettling(ReplayCheck(read, id, args), id, PayloadRead(read)); st.Done? && st.outcome.Added?
    ensures SaysAsAsked(args, AfterSettling(ReplayCheck(read, id, args), id, PayloadRead(read)).outcome.artifact)
  {
    ReplayedSays(read, id, args);
  }

  lemma RepliedSays(read: Option<Envelope>, id: Text, args: AddArgs, tries: nat)
    requires var st := AfterReplay(ReplayCheck(read, id, args), id, tries, PayloadRead(read)); st.Done? && st.outcome.Added?
    ensures SaysAsAsked(args, AfterReplay(ReplayCheck(read, id, args), id, tries, PayloadRead(read)).outcome.artifact)
  {
    ReplayedSays(read, id, args);
  }

  lemma ClaimedSays(args: AddArgs, claim: Claim)
    requires AfterClaim(args, claim).Done? && AfterClaim(args, claim).outcome.Added?
    ensures SaysAsAsked(args, AfterClaim(args, claim).outcome.artifact)
  {
    ArtifactSays(args);
  }

  lemma OnlyTheseAdd(db: Tables, args: AddArgs, st: Stage)
    requires NextAdd(db, args, st).Done? && NextAdd(db, args, st).outcome.Added?
    ensures st.Settling? || st.Replaying? || st.Creating? || st.Done?
  {
  }

  /** Whatever an add returns, new or replayed, says what this caller asked for. */
  lemma AddedSaysAsAsked(db: Tables, args: AddArgs, st: Stage)
    requires NextAdd(db, args, st).Done? && NextAdd(db, args, st).outcome.Added? && !st.Done?
    ensures SaysAsAsked(args, NextAdd(db, args, st).outcome.artifact)
  {
    OnlyTheseAdd(db, args, st);
    match st
    case Settling(id) => SettledSays(EnvelopeOf(db.records, id), id, args);
    case Replaying(id, tries) => RepliedSays(EnvelopeOf(db.records, id), id, args, tries);
    case Creating => ClaimedSays(args, SaveWithEvent(db, AddItem(args), AddEvent(args)).1);
    case Done(_) =>
  }

  lemma ReplayedSays(read: Option<Envelope>, id: Text, args: AddArgs)
    requires ReplayCheck(read, id, args).Accept?
    ensures SaysAsAsked(args, ArtifactOf(PayloadRead(read)))
  {
    MatchSays(read.value.payload, args);
    ArtifactOfSays(read.value.payload, args);
  }

  // ---- a new record -----------------------------------------------------------------------------------

  /** Under a key the id and the event go by the key; without one they go by the new id. */
  predicate NamedAsAsked(args: AddArgs, id: Text, key: Text) {
    if args.key.Str? && args.key.t != EMPTY then id == EvidenceIdOf(args.key.t) && key == args.key.t
    else args.key in {Null, Str(EMPTY)} ==> id == args.newId && key == Key(EvidenceCreate, args.newId)
  }

  /** The artifact's own fields, besides what the caller asked for. */
  predicate MadeAsAsked(args: AddArgs, id: Text, eid: Text, a: Payload) {
    Get(a, EvidenceId) == Str(id) && Get(a, Sha256) == Str(ContentDigest(args.content))
    && Get(a, VerificationStatus) == Str(args.status) && Get(a, Timestamp) == Str(args.at) && Get(a, CreatedAt) == Str(args.created)
    && Get(a, SourceEventId) == (if Truthy(args.sourceEvent) then args.sourceEvent else Str(eid))
  }

  predicate RecordSays(args: AddArgs, id: Text, eid: Text, q: Payload) {
    SaysAsAsked(args, q) && MadeAsAsked(args, id, eid, q)
    && Get(q, RequestSha256) == Str(RequestDigest(Ask(
         Str(args.mission), Str(args.kind), Str(args.title), Str(args.content), args.task, args.tool, Str(args.actor),
         Str(args.mime), Str(args.source), List(args.parents), args.key, Get(q, SourceEventId), Str(args.status))))
    && EnvelopeFits(q)
  }

  /** The new record and its creation event, with the record in it. */
  ghost predicate AddStands(args: AddArgs, id: Text, db: Tables, db': Tables) {
    exists key, q ::
      NamedAsAsked(args, id, key) && RecordSays(args, id, EvidenceEventId(key), q)
      && OneRowAdded(db.records, db'.records, id, Lit(EvidenceRecord), Str(args.mission), args.created, q)
      && OneEventStands(db.events, db'.events, EvidenceEventId(key), Lit(EvidenceCreated), args.mission, Lit(MissionAggregate),
                        Lit(EvidenceStoreActor), key, map[EvidenceId := Str(id), Kind := Str(args.kind), Record := Object(q)])
  }

  lemma NamesAre(args: AddArgs)
    ensures NamedAsAsked(args, IdOf(args), EventKey(args))
  {
  }

  lemma ArtifactMade(args: AddArgs)
    ensures MadeAsAsked(args, IdOf(args), EvidenceEventId(EventKey(args)), Artifact(args))
  {
  }

  lemma RequestIs(args: AddArgs)
    ensures Asked(args).(sourceEvent := BoundSource(args)) == Ask(
         Str(args.mission), Str(args.kind), Str(args.title), Str(args.content), args.task, args.tool, Str(args.actor),
         Str(args.mime), Str(args.source), List(args.parents), args.key,
         if Truthy(args.sourceEvent) then args.sourceEvent else Str(EvidenceEventId(EventKey(args))), Str(args.status))
  {
  }

  lemma OtherFieldSays(args: AddArgs, id: Text, eid: Text, a: Payload, q: Payload)
    requires SaysAsAsked(args, a) && MadeAsAsked(args, id, eid, a)
    requires forall f :: f != RequestSha256 && f != EnvelopeSha256 ==> Get(q, f) == Get(a, f)
    ensures SaysAsAsked(args, q) && MadeAsAsked(args, id, eid, q)
  {
  }

  lemma FilingSays(args: AddArgs)
    ensures RecordSays(args, IdOf(args), EvidenceEventId(EventKey(args)), Filing(args))
  {
    var digest := Str(RequestDigest(Asked(args).(sourceEvent := BoundSource(args))));
    ArtifactSays(args);
    ArtifactMade(args);
    RequestIs(args);
    StampFits(Artifact(args)[RequestSha256 := digest]);
    OneFieldWritten(Artifact(args), RequestSha256, digest);
    OtherFieldSays(args, IdOf(args), EvidenceEventId(EventKey(args)), Artifact(args), Filing(args));
    assert Get(Filing(args), RequestSha256) == digest;
  }

  lemma OneFieldWritten(a: Payload, f: Field, v: Value)
    ensures Get(a[f := v], f) == v && forall g :: g != f ==> Get(a[f := v], g) == Get(a, g)
  {
  }

  lemma ClaimMeans(db: Tables, args: AddArgs)
    requires SaveWithEvent(db, AddItem(args), AddEvent(args)).1.Claimed?
    ensures AddStands(args, IdOf(args), db, SaveWithEvent(db, AddItem(args), AddEvent(args)).0)
  {
    NamesAre(args);
    FilingSays(args);
    ClaimStands(db, AddItem(args), AddEvent(args));
    AddEventSays(args);
    ClaimedEventStands(db.events, SaveWithEvent(db, AddItem(args), AddEvent(args)).0.events, AddEvent(args));
    AddedStands(args, db, SaveWithEvent(db, AddItem(args), AddEvent(args)).0, EventKey(args), Filing(args));
  }

  lemma AddEventSays(args: AddArgs)
    ensures var ev := AddEvent(args);
      ev.id == EvidenceEventId(EventKey(args)) && ev.row.etype == Lit(EvidenceCreated) && ev.row.aggregate == args.mission
      && ev.row.aggregateType == Lit(MissionAggregate) && ev.row.actor == Lit(EvidenceStoreActor)
      && ev.row.key == Some(EventKey(args))
      && ev.row.body == Obj(map[EvidenceId := Str(IdOf(args)), Kind := Str(args.kind), Record := Object(Filing(args))])
  {
  }

  lemma AddedStands(args: AddArgs, db: Tables, db': Tables, key: Text, q: Payload)
    requires NamedAsAsked(args, IdOf(args), key) && RecordSays(args, IdOf(args), EvidenceEventId(key), q)
    requires OneRowAdded(db.records, db'.records, IdOf(args), Lit(EvidenceRecord), Str(args.mission), args.created, q)
    requires OneEventStands(
      db.events, db'.events, EvidenceEventId(key), Lit(EvidenceCreated), args.mission, Lit(MissionAggregate),
      Lit(EvidenceStoreActor), key, map[EvidenceId := Str(IdOf(args)), Kind := Str(args.kind), Record := Object(q)])
    ensures AddStands(args, IdOf(args), db, db')
  {
  }

  lemma AnswerSays(args: AddArgs, claim: Claim)
    ensures var next := AfterClaim(args, claim);
      next.Done? && next.outcome.Added? ==> SaysAsAsked(args, next.outcome.artifact) && next.outcome.id == IdOf(args)
  {
    if AfterClaim(args, claim).Done? && AfterClaim(args, claim).outcome.Added? { ClaimedSays(args, claim); }
  }

  lemma AnswerStands(db: Tables, args: AddArgs, db': Tables, claim: Claim)
    requires (db', claim) == SaveWithEvent(db, AddItem(args), AddEvent(args)) && IdOf(args) !in db.records
    requires !(AfterClaim(args, claim).Done? && AfterClaim(args, claim).outcome.Raised?)
    ensures AddStands(args, IdOf(args), db, db')
  {
    ClaimStands(db, AddItem(args), AddEvent(args));
    if claim.Claimed? { ClaimMeans(db, args); }
  }

  lemma ClaimCases(args: AddArgs, claim: Claim)
    ensures AfterClaim(args, claim).Done? || AfterClaim(args, claim) == Settling(IdOf(args))
  {
  }
}
