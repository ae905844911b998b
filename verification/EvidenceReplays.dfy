/** When a stored record answers an add again, and what binding it to its creation event writes. */
module EvidenceReplays {
  import opened Ledger
  import opened StoreSpec
  import opened StoreAnswers
  import opened EvidenceRules
  import opened EvidenceSteps
  import opened EvidenceAnswers
  import Runs = EvidenceRuns

  // ---- the form first written ----------------------------------------------------------------------------

  /** `q` is `p` under this status and source event, stamped again. */
  predicate FormOf(p: Payload, q: Payload, status: Text, source: Value) {
    EnvelopeSha256 in q && EnvelopeFits(q)
    && q == p[VerificationStatus := Str(status)][SourceEventId := source][EnvelopeSha256 := q[EnvelopeSha256]]
  }

  function StatusIn(p: Payload): Text {
    if VerificationStatus in p then Show(p[VerificationStatus]) else Lit(Unverified)
  }

  /** The request that a record stands for, under this status and source event. */
  function RequestOfRecord(p: Payload, status: Text, source: Value): Ask {
    Ask(Get(p, MissionId), Get(p, Kind), Get(p, Title), Get(p, Content), Get(p, TaskId), Get(p, ToolInvocationId),
        Get(p, Actor), Get(p, MimeType), Get(p, Source), if ParentEvidence in p then p[ParentEvidence] else List([]),
        Get(p, IdempotencyKey), source, Str(status))
  }

  /** A form that may be the first: under the record's own status or one of the two standard ones, with
      its own source event or, if it has no request digest, with none. */
  predicate MayBeFirst(p: Payload, status: Text, source: Value) {
    var digest := Get(p, RequestSha256);
    (status == StatusIn(p) || status == Lit(Unverified) || status == Lit(Verified))
    && (source == Get(p, SourceEventId) || (source == Null && !Truthy(digest)))
    && (Truthy(digest) ==>
          Show(digest) == RequestDigest(RequestOfRecord(p, status, source))
          || (source != Null && Show(digest) == RequestDigest(RequestOfRecord(p, status, Null))))
  }

  /** The row is anchored to that form. */
  ghost predicate AnchoredTo(env: Envelope, q: Payload, status: Text, source: Value) {
    MayBeFirst(env.payload, status, source) && FormOf(env.payload, q, status, source)
    && env.origin != EMPTY && env.origin == Seal(env.id, env.rtype, env.mission, env.created, q)
  }

  ghost predicate Traceable(env: Envelope) {
    exists q, status, source :: AnchoredTo(env, q, status, source)
  }

  lemma CandidateIsForm(p: Payload, status: Text, source: Value)
    ensures FormOf(p, Candidate(p, status, source), status, source)
  {
    StampFits(p[VerificationStatus := Str(status)][SourceEventId := source]);
  }

  lemma StampIsOne(p: Payload, d: Value)
    requires EnvelopeFits(p[EnvelopeSha256 := d])
    ensures d == Str(EnvelopeSha(p))
  {
    EnvelopeFitsIs(p[EnvelopeSha256 := d]);
  }

  lemma FormIsOne(p: Payload, q: Payload, status: Text, source: Value)
    requires FormOf(p, q, status, source)
    ensures q == Candidate(p, status, source)
  {
    StampIsOne(p[VerificationStatus := Str(status)][SourceEventId := source], q[EnvelopeSha256]);
  }

  lemma MayBeFirstMeans(p: Payload, status: Text, source: Value)
    ensures MayBeFirst(p, status, source) <==>
      status in {CurrentStatus(p), Lit(Unverified), Lit(Verified)}
      && (source == Get(p, SourceEventId) || (source == Null && !Truthy(Get(p, RequestSha256)))) && RequestAgrees(p, status, source)
  {
  }

  lemma ProjectsIsAnchored(env: Envelope, status: Text, source: Value)
    ensures Projects(env, env.payload, status, source) <==> exists q :: AnchoredTo(env, q, status, source)
    ensures Projects(env, env.payload, status, source) ==> AnchoredTo(env, Candidate(env.payload, status, source), status, source)
  {
    MayBeFirstMeans(env.payload, status, source);
    CandidateIsForm(env.payload, status, source);
    if Projects(env, env.payload, status, source) {
      assert AnchoredTo(env, Candidate(env.payload, status, source), status, source);
    } else if q :| AnchoredTo(env, q, status, source) {
      FormIsOne(env.payload, q, status, source);
      assert false;
    }
  }

  /** The search finds a form exactly for a traceable record, and what it finds is that form. */
  lemma SearchMeans(env: Envelope)
    ensures var o := OriginOf(env, env.payload);
      (o.OriginForm? <==> Traceable(env))
      && (o.OriginForm? ==> AnchoredTo(env, OriginRecord(env.payload, o), o.status, o.source))
  {
    SearchIsComplete(env, env.payload);
    var o := OriginOf(env, env.payload);
    if o.OriginForm? { ProjectsIsAnchored(env, o.status, o.source); }
    if q, status, source :| AnchoredTo(env, q, status, source) { ProjectsIsAnchored(env, status, source); }
  }

  // ---- replays ---------------------------------------------------------------------------------------------

  /** Intact evidence of that mission, consistent, with the content it names. */
  predicate Replayable(rs: map<Text, Row>, id: Text, mission: Text) {
    IntactRow(rs, id) && rs[id].rtype == Lit(EvidenceRecord) && rs[id].mission == Str(mission)
    && Consistent(id, rs[id].mission, rs[id].body.p) && DigestFits(rs[id].body.p)
  }

  function RequestOf(args: AddArgs, source: Value): Ask {
    Ask(Str(args.mission), Str(args.kind), Str(args.title), Str(args.content), args.task, args.tool, Str(args.actor),
        Str(args.mime), Str(args.source), List(args.parents), args.key, source, Str(args.status))
  }

  /** The record says what is asked for, has the source event if one is named, and the digest of this
      request, or of this request bound to the event of its key. */
  predicate AnswersTo(args: AddArgs, p: Payload) {
    var digest, source := Get(p, RequestSha256), Get(p, SourceEventId);
    SaysAsAsked(args, p) && (args.sourceEvent == Null || source == args.sourceEvent)
    && (Truthy(digest) ==>
          Show(digest) == RequestDigest(RequestOf(args, args.sourceEvent))
          || (args.sourceEvent == Null && source == Str(EvidenceEventId(Show(args.key)))
              && Show(digest) == RequestDigest(RequestOf(args, source))))
  }

  lemma MatchesMeans(args: AddArgs, p: Payload)
    ensures RequestMatches(p, Asked(args)) <==> AnswersTo(args, p)
  {
    assert Asked(args) == RequestOf(args, args.sourceEvent);
    RepeatsMeans(args, p);
  }

  lemma RepeatsMeans(args: AddArgs, p: Payload)
    ensures RepeatsFields(p, Asked(args)) <==>
      SaysAsAsked(args, p) && (args.sourceEvent == Null || Get(p, SourceEventId) == args.sourceEvent)
  {
  }

  lemma IntactMeans(rs: map<Text, Row>, id: Text, args: AddArgs)
    requires IntactRow(rs, id)
    ensures ReplayIntact(EnvelopeOf(rs, id).value, id, Asked(args)) <==> Replayable(rs, id, args.mission)
  {
    IntactIsRead(rs, id);
    EnvelopeFitsIs(rs[id].body.p);
    ContentIs(rs[id].body.p);
  }

  /** What a replay comes to, on any tables: it refuses what is no such evidence, then what cannot be
      traced or answers another request. */
  lemma ReplayExactlyWhen(rs: map<Text, Row>, id: Text, args: AddArgs)
    ensures ReplayCheck(EnvelopeOf(rs, id), id, args)
      == if !Replayable(rs, id, args.mission) then Refuse(RecordInvalid)
         else if Traceable(EnvelopeOf(rs, id).value) && AnswersTo(args, rs[id].body.p) then Accept else Refuse(RequestConflict)
  {
    IntactIsRead(rs, id);
    if IntactRow(rs, id) {
      IntactMeans(rs, id, args);
      SearchMeans(EnvelopeOf(rs, id).value);
      MatchesMeans(args, rs[id].body.p);
    }
  }

  // ---- binding a record to its event ------------------------------------------------------------------------

  /** A creation event from before events had keys or records in them. */
  predicate OldCreation(e: EventRow, a: Payload, q: Payload) {
    e.etype == Lit(EvidenceCreated) && Str(e.aggregate) == Get(a, MissionId) && e.aggregateType == Lit(MissionAggregate)
    && e.actor == Lit(EvidenceStoreActor) && (e.key == None || Str(e.key.value) == Get(a, IdempotencyKey))
    && (e.body == Obj(map[EvidenceId := Get(a, EvidenceId), Kind := Get(a, Kind)])
        || e.body == Obj(map[EvidenceId := Get(a, EvidenceId), Kind := Get(a, Kind), Record := Object(q)]))
  }

  predicate HoldsKey(es: map<Text, EventRow>, k: Text, eid: Text) {
    eid in es && es[eid].key == Some(k)
  }

  /** The event to bind to: the one that holds the key, else the one old creation event, else a new one
      with the first form in it. */
  ghost predicate BoundEvent(es: map<Text, EventRow>, a: Payload, q: Payload, eid: Text, body: Body) {
    var k := Show(Get(a, IdempotencyKey));
    if exists e :: HoldsKey(es, k, e) then HoldsKey(es, k, eid) && body == es[eid].body
    else if exists e :: e in es && OldCreation(es[e], a, q) then
      eid in es && OldCreation(es[eid], a, q) && body == es[eid].body && forall e :: e in es && e != eid ==> !OldCreation(es[e], a, q)
    else eid == EvidenceEventId(k) && body == Obj(map[EvidenceId := Get(a, EvidenceId), Kind := Get(a, Kind), Record := Object(q)])
  }

  /** What the repair will write: only the source event, if there was none, and the envelope digest. */
  ghost predicate RepairWrites(p: Payload, a: Payload, eid: Text, next: Payload) {
    Get(next, SourceEventId) == (if Truthy(Get(a, SourceEventId)) then Get(a, SourceEventId) else Str(eid)) && EnvelopeFits(next)
    && forall f :: f != SourceEventId && f != EnvelopeSha256 ==> Get(next, f) == Get(p, f)
  }

  predicate EventNames(a: Payload, ev: Event) {
    ev.row.etype == Lit(EvidenceCreated) && ev.row.aggregate == Show(Get(a, MissionId)) && ev.row.aggregateType == Lit(MissionAggregate)
    && ev.row.actor == Lit(EvidenceStoreActor) && ev.row.key == Some(Show(Get(a, IdempotencyKey)))
    && ev.row.stamp == Show(Get(a, CreatedAt))
  }

  /** What a repair plans on the events it finds. */
  ghost predicate PlanSays(env: Envelope, a: Payload, es: map<Text, EventRow>, plan: Stage) {
    (plan.Repairing? ==>
      plan.env == env && EventNames(a, plan.ev) && RepairWrites(env.payload, a, plan.ev.id, plan.next)
      && exists q, status, source :: AnchoredTo(env, q, status, source) && BoundEvent(es, a, q, plan.ev.id, plan.ev.row.body))
    && (plan.Done? ==> plan.outcome.Raised? && (plan.outcome.why == EventAmbiguous ==>
      exists q, status, source :: AnchoredTo(env, q, status, source) && TwoOld(es, a, q)))
  }

  ghost predicate TwoOld(es: map<Text, EventRow>, a: Payload, q: Payload) {
    exists d, e :: d != e && d in es && e in es && OldCreation(es[d], a, q) && OldCreation(es[e], a, q)
  }

  lemma LegacyIsOld(es: map<Text, EventRow>, st: Stage, eid: Text, q: Payload)
    requires (st.FindingEvent? || st.ScanningEvents?) && OriginOf(st.env, st.env.payload).OriginForm?
    requires q == OriginRecord(st.env.payload, OriginOf(st.env, st.env.payload))
    ensures IsLegacy(es, st, eid) <==> eid in es && OldCreation(es[eid], st.artifact, q)
  {
  }

  lemma ReboundWrites(p: Payload, a: Payload, eid: Text)
    ensures RepairWrites(p, a, eid, Rebound(p, a, eid))
  {
    StampFits(p[SourceEventId := if Truthy(Get(a, SourceEventId)) then Get(a, SourceEventId) else Str(eid)]);
  }

  lemma ToRepairSays(args: AddArgs, st: Stage, existing: Option<Text>, es: map<Text, EventRow>, plan: Stage)
    requires (st.FindingEvent? || st.ScanningEvents?) && (existing.Some? ==> existing.value in es)
    requires plan == ToRepair(args, st, existing, es)
    ensures plan.Done? ==> plan.outcome.Raised? && plan.outcome.why != EventAmbiguous
    ensures plan.Repairing? ==>
      plan.env == st.env && EventNames(st.artifact, plan.ev) && RepairWrites(st.env.payload, st.artifact, plan.ev.id, plan.next)
      && OriginOf(st.env, st.env.payload).OriginForm?
      && if existing.Some? then plan.ev.id == existing.value && plan.ev.row.body == es[existing.value].body
         else plan.ev.id == EvidenceEventId(Show(Get(st.artifact, IdempotencyKey)))
              && plan.ev.row.body == Obj(map[EvidenceId := Get(st.artifact, EvidenceId), Kind := Get(st.artifact, Kind),
                   Record := Object(OriginRecord(st.env.payload, OriginOf(st.env, st.env.payload)))])
    ensures plan.Done? || plan.Repairing?
  {
    if plan.Repairing? { ReboundWrites(st.env.payload, st.artifact, plan.ev.id); }
  }

  /** Bound to the event that holds the key. */
  lemma HolderPlans(args: AddArgs, st: Stage, es: map<Text, EventRow>, eid: Text, plan: Stage)
    requires st.FindingEvent? && HoldsKey(es, Show(Get(st.artifact, IdempotencyKey)), eid) && plan == ToRepair(args, st, Some(eid), es)
    ensures PlanSays(st.env, st.artifact, es, plan)
  {
    ToRepairSays(args, st, Some(eid), es, plan);
    if plan.Repairing? {
      var o := OriginOf(st.env, st.env.payload);
      SearchMeans(st.env);
      assert BoundEvent(es, st.artifact, OriginRecord(st.env.payload, o), plan.ev.id, plan.ev.row.body);
    }
  }

  /** Bound to the one old event, or to a new one. */
  lemma ScanPlans(args: AddArgs, st: Stage, es: map<Text, EventRow>, plan: Stage)
    requires st.ScanningEvents? && plan == AfterEventScan(args, st, es)
    requires forall e :: !HoldsKey(es, Show(Get(st.artifact, IdempotencyKey)), e)
    ensures PlanSays(st.env, st.artifact, es, plan)
  {
    SearchMeans(st.env);
    if OriginOf(st.env, st.env.payload).OriginForm? {
      var q := OriginRecord(st.env.payload, OriginOf(st.env, st.env.payload));
      forall e ensures IsLegacy(es, st, e) <==> e in es && OldCreation(es[e], st.artifact, q) { LegacyIsOld(es, st, e, q); }
      ScanBinds(args, st, es, plan, q);
    } else {
      NoOriginPlans(args, st, es, plan);
    }
  }

  lemma NoOriginPlans(args: AddArgs, st: Stage, es: map<Text, EventRow>, plan: Stage)
    requires st.ScanningEvents? && plan == AfterEventScan(args, st, es) && OriginOf(st.env, st.env.payload).NoOrigin?
    ensures plan == Done(Raised(RecordInvalid))
  {
  }

  lemma ScanBinds(args: AddArgs, st: Stage, es: map<Text, EventRow>, plan: Stage, q: Payload)
    requires st.ScanningEvents? && plan == AfterEventScan(args, st, es)
    requires OriginOf(st.env, st.env.payload).OriginForm? && q == OriginRecord(st.env.payload, OriginOf(st.env, st.env.payload))
    requires forall e :: IsLegacy(es, st, e) <==> e in es && OldCreation(es[e], st.artifact, q)
    requires forall e :: !HoldsKey(es, Show(Get(st.artifact, IdempotencyKey)), e)
    requires AnchoredTo(st.env, q, OriginOf(st.env, st.env.payload).status, OriginOf(st.env, st.env.payload).source)
    ensures PlanSays(st.env, st.artifact, es, plan)
  {
    if a, b :| a != b && IsLegacy(es, st, a) && IsLegacy(es, st, b) {
      assert TwoOld(es, st.artifact, q);
    } else if exists a :: IsLegacy(es, st, a) {
      var a := LegacyPlan(args, st, es, plan);
      ToRepairSays(args, st, Some(a), es, plan);
      assert plan.Repairing? ==> BoundEvent(es, st.artifact, q, plan.ev.id, plan.ev.row.body);
    } else {
      ToRepairSays(args, st, None, es, plan);
      assert plan.Repairing? ==> BoundEvent(es, st.artifact, q, plan.ev.id, plan.ev.row.body);
    }
  }

  lemma LegacyPlan(args: AddArgs, st: Stage, es: map<Text, EventRow>, plan: Stage) returns (a: Text)
    requires st.ScanningEvents? && plan == AfterEventScan(args, st, es)
    requires !exists a, b :: a != b && IsLegacy(es, st, a) && IsLegacy(es, st, b)
    requires exists a :: IsLegacy(es, st, a)
    ensures a in es && IsLegacy(es, st, a) && plan == ToRepair(args, st, Some(a), es)
  {
    a :| IsLegacy(es, st, a);
  }

  // ---- in every run -----------------------------------------------------------------------------------------

  /** An add that has returned returned what it was asked for. */
  predicate ReturnedAsAsked(c: Call) {
    c.job.AddJob? && c.stage.Done? && c.stage.outcome.Added? ==> SaysAsAsked(c.job.args, c.stage.outcome.artifact)
  }

  lemma StepReturnsAsAsked(db: Tables, c: Call)
    requires ReturnedAsAsked(c)
    ensures ReturnedAsAsked(StepCall(db, c))
  {
    if c.job.AddJob? && !c.stage.Done? && StepCall(db, c).stage.Done? && StepCall(db, c).stage.outcome.Added? {
      AddedSaysAsAsked(db, c.job.args, c.stage);
    }
  }

  /** Whoever else writes what, every artifact that an add returns says what its caller asked for. */
  lemma {:induction false} EveryAddReturnsAsAsked(moves: seq<Runs.Move>, i: nat)
    requires i < |Runs.Run(moves).calls|
    ensures ReturnedAsAsked(Runs.Run(moves).calls[i])
  {
    if moves != [] {
      var before, m := moves[..|moves| - 1], moves[|moves| - 1];
      if i < |Runs.Run(before).calls| {
        EveryAddReturnsAsAsked(before, i);
        if m.Advance? && m.i == i { StepReturnsAsAsked(Runs.Run(before).db, Runs.Run(before).calls[i]); }
      }
    }
  }
}
