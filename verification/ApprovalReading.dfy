/** What makes a stored approval readable, decidable and usable, on any tables: the columns of its row
    and the fields of its events. */
module ApprovalReading {
  import opened Ledger
  import opened StoreSpec
  import opened StoreAnswers
  import opened ApprovalRules
  import opened ApprovalSteps
  import opened ApprovalAnswers

  // ---- transitions on record -------------------------------------------------------------------------------

  /** The transition's event, about the mission, under the id and the key of the transition. */
  predicate TransitionAt(es: map<Text, EventRow>, kind: Word, id: Text, mission: Value, e: EventRow) {
    TransitionId(Key(kind, id)) in es && e == es[TransitionId(Key(kind, id))] && e.etype == Lit(kind) && Str(e.aggregate) == mission
    && e.aggregateType == Lit(MissionAggregate) && e.key == Some(Key(kind, id)) && e.body.Obj?
  }

  function EventOf(es: map<Text, EventRow>, kind: Word, a: Payload): Option<EventRow> {
    var eid := TransitionId(Key(kind, Show(Get(a, ApprovalId))));
    if eid in es && TransitionAt(es, kind, Show(Get(a, ApprovalId)), Get(a, MissionId), es[eid]) then Some(es[eid]) else None
  }

  /** The decision has a name and a time, and its event says the same of it, with the status that its
      action stands for. */
  predicate DecisionOnRecord(es: map<Text, EventRow>, a: Payload) {
    var e := EventOf(es, Decided, a);
    Truthy(Get(a, DecidedBy)) && Truthy(Get(a, DecidedAt)) && e.Some? && Str(e.value.actor) == Get(a, DecidedBy)
    && StatusFits(Get(a, DecisionAction), Get(e.value.body.p, Status))
    && e.value.body.p == map[
         ApprovalId := Get(a, ApprovalId), Status := Get(e.value.body.p, Status), Decision := Get(a, DecisionAction),
         Scope := Get(a, ApprovalScope), Action := Get(a, Action), RiskLevel := Get(a, RiskLevel),
         ExecutorId := Get(a, ExecutorId), ProposalSha256 := Get(a, ProposalSha256), DecidedAt := Get(a, DecidedAt)]
  }

  predicate ExpiryOnRecord(es: map<Text, EventRow>, a: Payload) {
    var e := EventOf(es, Expired, a);
    e.Some? && e.value.actor == Lit(Governance)
    && e.value.body.p == map[ApprovalId := Get(a, ApprovalId), Status := Str(Lit(ExpiredStatus)), ExpiresAt := Get(a, ExpiresAt)]
  }

  /** The use is by a named actor, for a named purpose, and by the executor if the approval names one. */
  predicate UseOnRecord(es: map<Text, EventRow>, a: Payload) {
    var e := EventOf(es, Consumed, a);
    e.Some?
    && (var p := e.value.body.p;
        Get(p, UseId).Str? && !Blank(Get(p, UseId).t) && Get(p, ActorId) == Str(e.value.actor) && !Blank(e.value.actor)
        && (Get(a, ExecutorId) == Null || Get(a, ExecutorId) == Str(e.value.actor))
        && p == map[ApprovalId := Get(a, ApprovalId), UseId := Get(p, UseId), ActorId := Str(e.value.actor),
                    ProposalSha256 := Get(a, ProposalSha256), Action := Get(a, Action), RiskLevel := Get(a, RiskLevel),
                    ExecutorId := Get(a, ExecutorId)])
  }

  /** The events bear out the status. */
  predicate BorneOut(es: map<Text, EventRow>, a: Payload) {
    var status := Get(a, Status);
    status == Str(Lit(PendingStatus))
    || (status == Str(Lit(ExpiredStatus)) && ExpiryOnRecord(es, a))
    || (status != Str(Lit(ExpiredStatus)) && DecisionOnRecord(es, a) && (status == Str(Lit(ConsumedStatus)) ==> UseOnRecord(es, a)))
  }

  // ---- reading --------------------------------------------------------------------------------------------

  /** The payload names its own row, which is anchored to the pending form of it. */
  predicate AsRequested(rs: map<Text, Row>, id: Text, a: Payload) {
    id in rs && Get(a, ApprovalId) == Str(id) && Get(a, MissionId) == rs[id].mission
    && rs[id].origin == Some(Seal(id, rs[id].rtype, rs[id].mission, rs[id].created,
         a[Status := Str(Lit(PendingStatus))][DecidedBy := Null][DecisionNote := Null][DecisionAction := Null][DecidedAt := Null]))
  }

  /** A complete approval can be read from the row. */
  predicate CanRead(rs: map<Text, Row>, id: Text, gen: Generated, a: Payload) {
    IntactRow(rs, id) && rs[id].rtype == Lit(ApprovalRecord) && Validate(rs[id].body.p, gen) == Some(a)
  }

  /** What stops a reader before the status matters. */
  predicate Refused(db: Tables, id: Text, gen: Generated, missing: Outcome, outcome: Outcome) {
    if !IntactRow(db.records, id) then outcome == missing
    else if db.records[id].rtype != Lit(ApprovalRecord) then outcome == Raised(WrongType)
    else match Validate(db.records[id].body.p, gen)
      case None => outcome == Raised(Invalid)
      case Some(a) => outcome == Raised(IntegrityInvalid) && !(AsRequested(db.records, id, a) && BorneOut(db.events, a))
  }

  predicate Sound(db: Tables, id: Text, gen: Generated, a: Payload) {
    CanRead(db.records, id, gen, a) && AsRequested(db.records, id, a) && BorneOut(db.events, a)
  }

  /** What `get` answers, on any tables. */
  ghost predicate GetAnswers(db: Tables, id: Text, gen: Generated, outcome: Outcome) {
    if exists a :: Sound(db, id, gen, a) then outcome.Got? && Sound(db, id, gen, outcome.approval)
    else Refused(db, id, gen, Missing, outcome)
  }

  // ---- deciding --------------------------------------------------------------------------------------------

  /** What `decide` says to a sound approval: the refusals in their order, or a commit. */
  predicate DecideSays(args: DecideArgs, a: Payload, outcome: Outcome) {
    if Get(a, Status) != Str(Lit(PendingStatus)) then outcome == Raised(AlreadyDecided)
    else if Blank(args.actor) then outcome == Raised(ActorRequired)
    else if Truthy(Get(a, ExpiresAt)) && !(Get(a, ExpiresAt).Str? && Get(a, ExpiresAt).t.Stamp?) then outcome == Raised(BadExpiry)
    else if Over(a, args.now) then outcome == HasExpired(args.id) || outcome == Raised(TransitionConflict)
    else if WouldApprove(args) && args.scope != Null && args.scope != Get(a, ApprovalScope) then outcome == Raised(ScopeMismatch)
    else outcome.WasDecided? || outcome == Raised(TransitionConflict)
  }

  ghost predicate DecideVerdict(db: Tables, args: DecideArgs, outcome: Outcome) {
    if exists a :: Sound(db, args.id, args.gen, a) then
      exists a :: Sound(db, args.id, args.gen, a) && DecideSays(args, a, outcome)
    else Refused(db, args.id, args.gen, Raised(NotFound), outcome)
  }

  // ---- consuming -------------------------------------------------------------------------------------------

  /** An approved single action as it was requested, with its decision and no use on record, meant for
      this actor; and nobody holds the id or the key of its use. */
  predicate Spendable(db: Tables, args: ConsumeArgs, a: Payload) {
    CanRead(db.records, args.id, args.gen, a) && Get(a, MissionId) == db.records[args.id].mission
    && db.records[args.id].origin == Some(Seal(
         args.id, Lit(ApprovalRecord), db.records[args.id].mission, db.records[args.id].created,
         a[Status := Str(Lit(PendingStatus))][DecidedBy := Null][DecisionNote := Null][DecisionAction := Null][DecidedAt := Null]))
    && Get(a, ApprovalScope) == Str(Lit(SingleAction)) && UsableBy(args, db.records[args.id].body.p)
    && DecisionOnRecord(db.events, a) && !UseOnRecord(db.events, a) && Unused(db.events, args.id)
  }

  predicate Unused(es: map<Text, EventRow>, id: Text) {
    TransitionId(Key(Consumed, id)) !in es && forall e :: e in es ==> es[e].key != Some(Key(Consumed, id))
  }

  /** A use goes through exactly where the approval is spendable. */
  ghost predicate ConsumeVerdict(db: Tables, args: ConsumeArgs, outcome: Outcome) {
    outcome.WasConsumed? <==> exists a :: Spendable(db, args, a)
  }

  // ---- the proof: transitions -------------------------------------------------------------------------------

  lemma StatusIsFit(action: Value, status: Value)
    ensures StatusFits(action, status) <==> status == Str(Lit(DecisionStatus(action)))
  {
  }

  lemma DecisionIsRecorded(es: map<Text, EventRow>, a: Payload)
    ensures DecisionRecorded(es, a) <==> DecisionOnRecord(es, a)
  {
    var e := EventOf(es, Decided, a);
    if e.Some? { StatusIsFit(Get(a, DecisionAction), Get(e.value.body.p, Status)); }
    if DecisionRecorded(es, a) {
      assert Get(DecidedPayload(a), Status) == Str(Lit(DecisionStatus(Get(a, DecisionAction))));
    }
  }

  lemma ExpiryIsRecorded(es: map<Text, EventRow>, a: Payload)
    ensures ExpiryRecorded(es, a) <==> ExpiryOnRecord(es, a)
  {
  }

  lemma UseIsRecorded(es: map<Text, EventRow>, a: Payload)
    ensures ConsumptionRecorded(es, a) <==> UseOnRecord(es, a)
  {
    if Records(es, Consumed, a) && RecordOf(es, Consumed, a).body.Obj? {
      UsePayloads(a, RecordOf(es, Consumed, a).body.p);
    }
  }

  lemma UsePayloads(a: Payload, p: Payload)
    ensures p == map[ApprovalId := Get(a, ApprovalId), UseId := Get(p, UseId), ActorId := Get(p, ActorId),
                     ProposalSha256 := Get(a, ProposalSha256), Action := Get(a, Action), RiskLevel := Get(a, RiskLevel),
                     ExecutorId := Get(a, ExecutorId)]
      <==> p.Keys == {ApprovalId, UseId, ActorId, ProposalSha256, Action, RiskLevel, ExecutorId}
           && p[ApprovalId] == Get(a, ApprovalId) && p[Action] == Get(a, Action) && p[RiskLevel] == Get(a, RiskLevel)
           && p[ExecutorId] == Get(a, ExecutorId) && p[ProposalSha256] == Get(a, ProposalSha256)
  {
  }

  lemma TerminalIsBorneOut(es: map<Text, EventRow>, a: Payload)
    ensures TerminalRecorded(es, a) <==> BorneOut(es, a)
  {
    DecisionIsRecorded(es, a);
    ExpiryIsRecorded(es, a);
    UseIsRecorded(es, a);
  }

  // ---- the proof: reading ----------------------------------------------------------------------------------

  lemma AgreesAsRequested(rs: map<Text, Row>, id: Text, a: Payload)
    requires IntactRow(rs, id)
    ensures EnvelopeAgrees(EnvelopeOf(rs, id).value, id, a) <==> AsRequested(rs, id, a)
  {
    IntactIsRead(rs, id);
  }

  /** The reads of `get` and `decide` come to the checks exactly for an approval that can be read. */
  lemma ReadMeans(db: Tables, want: Want, id: Text, gen: Generated)
    ensures var first := AfterRead(want, id, gen, EnvelopeOf(db.records, id));
      if first.Checking? then
        CanRead(db.records, id, gen, first.approval) && AsRequested(db.records, id, first.approval)
        && EnvelopeOf(db.records, id) == Some(first.env)
      else first.Done? && Refused(db, id, gen, if want.ToRead? then Missing else Raised(NotFound), first.outcome)
           && forall a :: !Sound(db, id, gen, a)
  {
    IntactIsRead(db.records, id);
    if CanReadAt(db.records, id, gen) {
      AgreesAsRequested(db.records, id, Validate(db.records[id].body.p, gen).value);
    }
  }

  predicate CanReadAt(rs: map<Text, Row>, id: Text, gen: Generated) {
    IntactRow(rs, id) && rs[id].rtype == Lit(ApprovalRecord) && Validate(rs[id].body.p, gen).Some?
  }

  /** What a read whose events are then checked answers. */
  lemma LoadMeans(db: Tables, id: Text, gen: Generated, a: Payload)
    requires CanRead(db.records, id, gen, a) && AsRequested(db.records, id, a)
    ensures TerminalRecorded(db.events, a) ==> Sound(db, id, gen, a)
    ensures !TerminalRecorded(db.events, a) ==>
      Refused(db, id, gen, Missing, Raised(IntegrityInvalid)) && Refused(db, id, gen, Raised(NotFound), Raised(IntegrityInvalid))
      && forall b :: !Sound(db, id, gen, b)
  {
    TerminalIsBorneOut(db.events, a);
  }

  /** The checks that come before the scope is compared. */
  predicate Due(args: DecideArgs, a: Payload) {
    Get(a, Status) == Str(Lit(PendingStatus)) && !Blank(args.actor)
    && (Truthy(Get(a, ExpiresAt)) ==> Get(a, ExpiresAt).Str? && Get(a, ExpiresAt).t.Stamp?)
  }

  predicate ScopeDiffers(args: DecideArgs, a: Payload) {
    WouldApprove(args) && args.scope != Null && args.scope != Get(a, ApprovalScope)
  }

  lemma NotDueRefuses(args: DecideArgs, env: Envelope, a: Payload)
    requires !Due(args, a)
    ensures var c := AfterChecks(ToDecide(args), env, a); c.Done? && DecideSays(args, a, c.outcome)
  {
  }

  lemma OverExpires(args: DecideArgs, env: Envelope, a: Payload)
    requires Due(args, a) && Over(a, args.now)
    ensures var c := AfterChecks(ToDecide(args), env, a); c.Committing? && Is(c.next, ExpiredStatus)
  {
  }

  lemma DueDecides(args: DecideArgs, env: Envelope, a: Payload)
    requires Due(args, a) && !Over(a, args.now)
    ensures var c := AfterChecks(ToDecide(args), env, a);
      if ScopeDiffers(args, a) then c == Done(Raised(ScopeMismatch)) else c.Committing? && !Is(c.next, ExpiredStatus)
  {
    var decision := Str(if args.decision != EMPTY then args.decision
                        else if args.approved then Lit(DecisionApproved) else Lit(DecisionRejected));
    ApprovingIs(args, decision);
    FormSays(a, decision, args);
  }

  lemma DueSays(args: DecideArgs, a: Payload, outcome: Outcome)
    requires Due(args, a)
    requires if Over(a, args.now) then outcome == HasExpired(args.id) || outcome == Raised(TransitionConflict)
             else if ScopeDiffers(args, a) then outcome == Raised(ScopeMismatch)
             else outcome.WasDecided? || outcome == Raised(TransitionConflict)
    ensures DecideSays(args, a, outcome)
  {
  }

  lemma ApprovingIs(args: DecideArgs, decision: Value)
    requires decision == Str(if args.decision != EMPTY then args.decision
                             else if args.approved then Lit(DecisionApproved) else Lit(DecisionRejected))
    ensures DecisionStatus(decision) == ApprovedStatus <==> WouldApprove(args)
    ensures DecisionStatus(decision) != ExpiredStatus
  {
  }

  // ---- the proof: consuming --------------------------------------------------------------------------------

  lemma UsableExactlyWhen(rs: map<Text, Row>, args: ConsumeArgs, a: Payload)
    requires CanRead(rs, args.id, args.gen, a)
    ensures Usable(args, EnvelopeOf(rs, args.id).value, a) <==>
      Get(a, MissionId) == rs[args.id].mission
      && rs[args.id].origin == Some(Seal(
           args.id, Lit(ApprovalRecord), rs[args.id].mission, rs[args.id].created,
           a[Status := Str(Lit(PendingStatus))][DecidedBy := Null][DecisionNote := Null][DecisionAction := Null][DecidedAt := Null]))
      && Get(a, ApprovalScope) == Str(Lit(SingleAction)) && UsableBy(args, rs[args.id].body.p)
  {
    IntactIsRead(rs, args.id);
    var p := rs[args.id].body.p;
    MissingFieldsTakeDefaults(p, args.gen, Status, Str(Lit(PendingStatus)));
    MissingFieldsTakeDefaults(p, args.gen, ExecutorId, Null);
    MissingFieldsTakeDefaults(p, args.gen, ApprovalScope, Str(Lit(SingleAction)));
  }

  lemma UseIsReady(rs: map<Text, Row>, args: ConsumeArgs, a: Payload)
    requires CanRead(rs, args.id, args.gen, a) && Get(rs[args.id].body.p, Status) == Str(Lit(ApprovedStatus))
    ensures ReadyFor(rs, UseUpdate(args, EnvelopeOf(rs, args.id).value))
  {
    IntactIsRead(rs, args.id);
  }

  lemma OneCommittable(db: Tables, u: Update, ev: Event)
    requires ReadyFor(db.records, u) && Present(ev.row.key)
    ensures Committable(db, [u], [ev]) <==> !Clashes(db.events, ev)
  {
    assert [u][0] == u && [ev][0] == ev;
  }

  lemma UseClashes(es: map<Text, EventRow>, args: ConsumeArgs, a: Payload)
    ensures Clashes(es, UseEvent(args, a)) <==> !Unused(es, args.id)
    ensures Present(UseEvent(args, a).row.key)
  {
    UseEventSays(args, a);
  }

  lemma CommittableExactlyWhen(db: Tables, args: ConsumeArgs, a: Payload)
    requires CanRead(db.records, args.id, args.gen, a) && Get(db.records[args.id].body.p, Status) == Str(Lit(ApprovedStatus))
    ensures Committable(db, [UseUpdate(args, EnvelopeOf(db.records, args.id).value)], [UseEvent(args, a)]) <==> Unused(db.events, args.id)
  {
    UseIsReady(db.records, args, a);
    UseClashes(db.events, args, a);
    OneCommittable(db, UseUpdate(args, EnvelopeOf(db.records, args.id).value), UseEvent(args, a));
  }

  /** The read of a use comes to the proofs exactly for an approval that is usable by this actor. */
  lemma ConsumeReadMeans(db: Tables, args: ConsumeArgs)
    ensures var first := AfterConsumeRead(args, EnvelopeOf(db.records, args.id));
      if first.Done? then first.outcome == NotConsumed && forall a :: !Spendable(db, args, a)
      else first.ProvingDecision? && CanRead(db.records, args.id, args.gen, first.approval)
           && EnvelopeOf(db.records, args.id) == Some(first.env) && Usable(args, first.env, first.approval)
           && (Spendable(db, args, first.approval) <==>
                 DecisionOnRecord(db.events, first.approval) && !UseOnRecord(db.events, first.approval) && Unused(db.events, args.id))
           && UsableBy(args, db.records[args.id].body.p)
  {
    IntactIsRead(db.records, args.id);
    if CanReadAt(db.records, args.id, args.gen) {
      UsableExactlyWhen(db.records, args, Validate(db.records[args.id].body.p, args.gen).value);
    }
  }

  // ---- whose use it was ------------------------------------------------------------------------------------

  /** Where no key is on two events, `consumption_matches` holds exactly for the actor and the use that
      the recorded use names. */
  lemma MatchesExactlyWhen(es: map<Text, EventRow>, a: Payload, actor: Text, use: Text)
    requires UniqueKeys(es)
    ensures ConsumptionMatches(es, a, actor, use) <==>
      Get(a, Status) == Str(Lit(ConsumedStatus)) && DecisionOnRecord(es, a) && UseOnRecord(es, a)
      && EventOf(es, Consumed, a).value.actor == actor && Get(EventOf(es, Consumed, a).value.body.p, UseId) == Str(use)
  {
    DecisionIsRecorded(es, a);
    UseIsRecorded(es, a);
    if UseOnRecord(es, a) {
      var k := Key(Consumed, Show(Get(a, ApprovalId)));
      forall eid | eid in es && es[eid].key == Some(k) ensures eid == TransitionId(k) {}
    }
  }
}
