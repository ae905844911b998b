/** What the approval calls answer and leave behind, in the fields of the stored rows and events. */
module ApprovalAnswers {
  import opened Ledger
  import opened StoreSpec
  import opened StoreAnswers
  import opened ApprovalRules
  import opened ApprovalSteps

  // ---- reading an approval ------------------------------------------------------------------------

  lemma FieldRead(p: Payload, gen: Generated, f: Field)
    requires Validate(p, gen).Some? && f in FIELDS
    ensures f in p ==> Get(Validate(p, gen).value, f) == p[f]
    ensures f !in p ==> Get(Validate(p, gen).value, f) == Default(f, gen)
  {
  }

  /** What a field is read as when an older record does not have it; the four fields that have no
      default are not among these. */
  predicate DefaultsTo(gen: Generated, f: Field, v: Value) {
    match f
    case Status => v == Str(Lit(PendingStatus))
    case ApprovalScope => v == Str(Lit(SingleAction))
    case ExpiresAt | ExecutorId | ProposalSha256 | DecidedBy | DecisionNote | DecisionAction | DecidedAt => v == Null
    case Reversible => v == Flag(true)
    case ExternalEffect => v == Flag(false)
    case EstimatedCost => v == Num(0.0)
    case ApprovalId => v == Str(gen.id)
    case CreatedAt => v == Str(gen.now)
    case _ => false
  }

  /** A stored approval is read with the fields it has; a field it lacks takes its default, and the
      four fields that have none must be there. */
  lemma MissingFieldsTakeDefaults(p: Payload, gen: Generated, f: Field, v: Value)
    requires Validate(p, gen).Some? && DefaultsTo(gen, f, v)
    ensures Get(Validate(p, gen).value, f) == if f in p then p[f] else v
    ensures {MissionId, Action, RiskLevel, Rationale} <= p.Keys
  {
    CompleteHasRequired(p);
    FieldRead(p, gen, f);
  }

  // ---- what a decision says -----------------------------------------------------------------

  /** The action recorded is the one named; with none named, it is yes or no as asked. */
  predicate ActionAsAsked(args: DecideArgs, p: Payload) {
    (args.decision != EMPTY ==> Get(p, DecisionAction) == Str(args.decision))
    && (args.decision == EMPTY && args.approved ==> Get(p, DecisionAction) == Str(Lit(DecisionApproved)))
    && (args.decision == EMPTY && !args.approved ==> Get(p, DecisionAction) == Str(Lit(DecisionRejected)))
  }

  const APPROVING: set<Value> := {Str(Lit(ApproveOnce)), Str(Lit(ApproveMission)), Str(Lit(DecisionApproved))}
  const RETURNING: set<Value> := {Str(Lit(RequestChanges)), Str(Lit(DecisionChangesRequested))}
  const PAUSING: set<Value> := {Str(Lit(PauseMission))}

  /** The status is the one the action stands for. */
  predicate StatusFits(action: Value, status: Value) {
    (status == Str(Lit(ApprovedStatus)) <==> action in APPROVING)
    && (status == Str(Lit(ChangesRequestedStatus)) <==> action in RETURNING)
    && (status == Str(Lit(PausedStatus)) <==> action in PAUSING)
    && (status == Str(Lit(RejectedStatus)) <==> action !in APPROVING && action !in RETURNING && action !in PAUSING)
  }

  predicate StatusFollows(p: Payload) {
    StatusFits(Get(p, DecisionAction), Get(p, Status))
  }

  predicate SignedBy(args: DecideArgs, p: Payload) {
    Get(p, DecidedBy) == Str(args.actor) && Get(p, DecisionNote) == Str(args.note) && Get(p, DecidedAt) == Str(Stamp(args.now))
  }

  predicate Undecided(p: Payload) {
    Status in p ==> p[Status] == Str(Lit(PendingStatus))
  }

  predicate SameRequest(p: Payload, q: Payload) {
    forall f :: f in p && f !in {Status, DecidedBy, DecisionNote, DecisionAction, DecidedAt} ==> Get(q, f) == p[f]
  }

  predicate Over(p: Payload, now: int) {
    Get(p, ExpiresAt).Str? && Get(p, ExpiresAt).t.Stamp? && Get(p, ExpiresAt).t.at <= now
  }

  predicate WouldApprove(args: DecideArgs) {
    Str(args.decision) in APPROVING || (args.decision == EMPTY && args.approved)
  }

  /** A new payload for an undecided one. */
  predicate DecidedAs(args: DecideArgs, p: Payload, q: Payload) {
    Undecided(p) && !Blank(args.actor) && !Over(p, args.now)
    && ActionAsAsked(args, q) && StatusFollows(q) && SignedBy(args, q) && SameRequest(p, q)
    && (WouldApprove(args) && args.scope != Null ==> args.scope == Get(q, ApprovalScope))
  }

  predicate ExpiredAs(args: DecideArgs, p: Payload, q: Payload) {
    Undecided(p) && !Blank(args.actor) && Over(p, args.now)
    && Get(q, Status) == Str(Lit(ExpiredStatus)) && forall f :: f in p && f != Status ==> Get(q, f) == p[f]
  }

  // ---- what stands on the tables --------------------------------------------------------------

  /** Under the transition's id stands an event of this kind, about this mission, by this actor; no
      other event was added or changed. */
  predicate OneEventRecorded(
    es: map<Text, EventRow>, es': map<Text, EventRow>, kind: Word, id: Text, mission: Value, actor: Text, body: Payload)
  {
    mission.Str?
    && OneEventStands(es, es', TransitionId(Key(kind, id)), Lit(kind), mission.t, Lit(MissionAggregate), actor, Key(kind, id), body)
  }

  predicate DecisionStands(args: DecideArgs, db: Tables, db': Tables, q: Payload) {
    args.id in db.records && db.records[args.id].rtype == Lit(ApprovalRecord) && db.records[args.id].body.Obj?
    && OneRowRewritten(db.records, db'.records, args.id, q) && DecidedAs(args, db.records[args.id].body.p, q)
    && OneEventRecorded(db.events, db'.events, Decided, args.id, db.records[args.id].mission, args.actor, map[
         ApprovalId := Str(args.id), Status := Get(q, Status), Decision := Get(q, DecisionAction),
         Scope := Get(q, ApprovalScope), Action := Get(q, Action), RiskLevel := Get(q, RiskLevel),
         ExecutorId := Get(q, ExecutorId), ProposalSha256 := Get(q, ProposalSha256), DecidedAt := Str(Stamp(args.now))])
  }

  predicate ExpiryStands(args: DecideArgs, db: Tables, db': Tables) {
    args.id in db.records && db.records[args.id].rtype == Lit(ApprovalRecord) && db.records[args.id].body.Obj?
    && args.id in db'.records && db'.records[args.id].body.Obj?
    && (var q := db'.records[args.id].body.p;
        OneRowRewritten(db.records, db'.records, args.id, q) && ExpiredAs(args, db.records[args.id].body.p, q)
        && OneEventRecorded(db.events, db'.events, Expired, args.id, db.records[args.id].mission, Lit(Governance), map[
             ApprovalId := Str(args.id), Status := Str(Lit(ExpiredStatus)), ExpiresAt := Get(q, ExpiresAt)]))
  }

  /** What `decide` answers, on any tables. */
  predicate DecideAnswers(args: DecideArgs, db: Tables, db': Tables, outcome: Outcome) {
    match outcome
    case WasDecided(id, q) => id == args.id && DecisionStands(args, db, db', q)
    case HasExpired(id) => id == args.id && ExpiryStands(args, db, db')
    case Raised(_) => db' == db
    case _ => false
  }

  // ---- the proof, from the steps -----------------------------------------------------------------

  lemma FormSays(a: Payload, decision: Value, args: DecideArgs)
    ensures var q := DecidedForm(a, decision, args);
      SignedBy(args, q) && SameRequest(a, q) && Get(q, DecisionAction) == decision
      && Get(q, Status) == Str(Lit(DecisionStatus(decision))) && Get(q, ApprovalScope) == Get(a, ApprovalScope)
  {
  }

  lemma StatusChosen(q: Payload)
    requires Get(q, Status) == Str(Lit(DecisionStatus(Get(q, DecisionAction))))
    ensures StatusFollows(q)
  {
  }

  /** The commit that a decision leads to. */
  lemma DecisionMade(args: DecideArgs, a: Payload, env: Envelope) returns (decision: Value)
    requires AfterChecks(ToDecide(args), env, a).Committing? && !Over(a, args.now)
    ensures AfterChecks(ToDecide(args), env, a).next == DecidedForm(a, decision, args)
    ensures args.decision != EMPTY ==> decision == Str(args.decision)
    ensures args.decision == EMPTY ==> decision == Str(Lit(if args.approved then DecisionApproved else DecisionRejected))
    ensures decision in APPROVING && args.scope != Null ==> args.scope == Get(a, ApprovalScope)
  {
    decision := Get(AfterChecks(ToDecide(args), env, a).next, DecisionAction);
  }

  lemma ActionChosen(args: DecideArgs, a: Payload, env: Envelope)
    requires AfterChecks(ToDecide(args), env, a).Committing? && !Over(a, args.now)
    ensures var q := AfterChecks(ToDecide(args), env, a).next;
      ActionAsAsked(args, q) && StatusFollows(q) && SignedBy(args, q) && SameRequest(a, q)
      && (WouldApprove(args) && args.scope != Null ==> args.scope == Get(q, ApprovalScope))
  {
    var decision := DecisionMade(args, a, env);
    FormSays(a, decision, args);
    StatusChosen(DecidedForm(a, decision, args));
    ActionMatches(args, decision, DecidedForm(a, decision, args));
  }

  lemma ActionMatches(args: DecideArgs, decision: Value, q: Payload)
    requires Get(q, DecisionAction) == decision
    requires args.decision != EMPTY ==> decision == Str(args.decision)
    requires args.decision == EMPTY ==> decision == Str(Lit(if args.approved then DecisionApproved else DecisionRejected))
    ensures ActionAsAsked(args, q) && (WouldApprove(args) <==> decision in APPROVING)
  {
  }

  lemma DecisionEvent(args: DecideArgs, a: Payload, env: Envelope)
    requires AfterChecks(ToDecide(args), env, a).Committing? && !Over(a, args.now) && Get(a, ApprovalId) == Str(args.id)
    ensures var c := AfterChecks(ToDecide(args), env, a);
      var q := c.next;
      c.ev.id == TransitionId(Key(Decided, args.id)) && c.ev.row.etype == Lit(Decided)
      && c.ev.row.aggregate == Show(Get(a, MissionId)) && c.ev.row.aggregateType == Lit(MissionAggregate)
      && c.ev.row.actor == args.actor && c.ev.row.key == Some(Key(Decided, args.id))
      && c.ev.row.body == Obj(map[
         ApprovalId := Str(args.id), Status := Get(q, Status), Decision := Get(q, DecisionAction),
         Scope := Get(q, ApprovalScope), Action := Get(q, Action), RiskLevel := Get(q, RiskLevel),
         ExecutorId := Get(q, ExecutorId), ProposalSha256 := Get(q, ProposalSha256), DecidedAt := Str(Stamp(args.now))])
  {
  }

  lemma ExpiryMade(args: DecideArgs, a: Payload, env: Envelope)
    requires AfterChecks(ToDecide(args), env, a).Committing? && Over(a, args.now)
    ensures var c := AfterChecks(ToDecide(args), env, a);
      c.next == a[Status := Str(Lit(ExpiredStatus))]
      && c.ev == MissionEvent(Expired, args.id, Get(a, MissionId), Lit(Governance), args.trace, Stamp(args.now), ExpiredPayload(a))
  {
  }

  lemma ExpiryChosen(args: DecideArgs, a: Payload, env: Envelope)
    requires AfterChecks(ToDecide(args), env, a).Committing? && Over(a, args.now)
    ensures var c := AfterChecks(ToDecide(args), env, a);
      Get(c.next, Status) == Str(Lit(ExpiredStatus)) && (forall f :: f in a && f != Status ==> Get(c.next, f) == a[f])
      && c.ev.id == TransitionId(Key(Expired, args.id)) && c.ev.row.etype == Lit(Expired)
      && c.ev.row.aggregate == Show(Get(a, MissionId)) && c.ev.row.aggregateType == Lit(MissionAggregate)
      && c.ev.row.actor == Lit(Governance) && c.ev.row.key == Some(Key(Expired, args.id))
      && c.ev.row.body == Obj(map[
           ApprovalId := Get(a, ApprovalId), Status := Str(Lit(ExpiredStatus)), ExpiresAt := Get(c.next, ExpiresAt)])
  {
    ExpiryMade(args, a, env);
  }

  lemma CommitChecked(args: DecideArgs, a: Payload, env: Envelope)
    requires AfterChecks(ToDecide(args), env, a).Committing?
    ensures Get(a, Status) == Str(Lit(PendingStatus)) && !Blank(args.actor) && AfterChecks(ToDecide(args), env, a).env == env
  {
  }

  /** The payload read, and its validated form. */
  predicate ReadFrom(db: Tables, args: DecideArgs, env: Envelope, a: Payload) {
    EnvelopeOf(db.records, args.id) == Some(env) && env.rtype == Lit(ApprovalRecord)
    && Get(a, ApprovalId) == Str(args.id) && env.mission == Get(a, MissionId) && Get(a, MissionId).Str?
    && (forall f :: f in env.payload ==> f in a && Get(a, f) == env.payload[f])
    && (ExpiresAt !in env.payload ==> Get(a, ExpiresAt) == Null)
  }

  lemma DecidedFrom(args: DecideArgs, p: Payload, a: Payload, q: Payload)
    requires (forall f :: f in p ==> Get(a, f) == p[f]) && (ExpiresAt !in p ==> Get(a, ExpiresAt) == Null)
    requires Get(a, Status) == Str(Lit(PendingStatus)) && !Blank(args.actor) && !Over(a, args.now)
    requires ActionAsAsked(args, q) && StatusFollows(q) && SignedBy(args, q) && SameRequest(a, q)
    requires WouldApprove(args) && args.scope != Null ==> args.scope == Get(q, ApprovalScope)
    requires forall f :: f in p ==> f in a
    ensures DecidedAs(args, p, q)
  {
  }

  lemma ExpiredFrom(args: DecideArgs, p: Payload, a: Payload, q: Payload)
    requires (forall f :: f in p ==> f in a && Get(a, f) == p[f]) && (ExpiresAt !in p ==> Get(a, ExpiresAt) == Null)
    requires Get(a, Status) == Str(Lit(PendingStatus)) && !Blank(args.actor) && Over(a, args.now)
    requires Get(q, Status) == Str(Lit(ExpiredStatus)) && forall f :: f in a && f != Status ==> Get(q, f) == a[f]
    ensures ExpiredAs(args, p, q)
  {
  }

  lemma DecisionReaches(args: DecideArgs, db: Tables, env: Envelope, a: Payload, c: Call)
    requires ReadFrom(db, args, env, a) && c == AfterChecks(ToDecide(args), env, a) && c.Committing? && !Over(a, args.now)
    requires Repair(db, c.env.id, Lit(ApprovalRecord), c.env.integrity, c.next, c.ev).1.Repaired?
    ensures DecisionStands(args, db, Repair(db, c.env.id, Lit(ApprovalRecord), c.env.integrity, c.next, c.ev).0, c.next)
  {
    CommitChecked(args, a, env);
    ActionChosen(args, a, env);
    DecisionEvent(args, a, env);
    RepairStands(db, args.id, Lit(ApprovalRecord), c.env.integrity, c.next, c.ev);
    DecidedFrom(args, env.payload, a, c.next);
  }

  lemma ExpiryReaches(args: DecideArgs, db: Tables, env: Envelope, a: Payload, c: Call)
    requires ReadFrom(db, args, env, a) && c == AfterChecks(ToDecide(args), env, a) && c.Committing? && Over(a, args.now)
    requires Repair(db, c.env.id, Lit(ApprovalRecord), c.env.integrity, c.next, c.ev).1.Repaired?
    ensures ExpiryStands(args, db, Repair(db, c.env.id, Lit(ApprovalRecord), c.env.integrity, c.next, c.ev).0)
  {
    CommitChecked(args, a, env);
    ExpiryChosen(args, a, env);
    RepairStands(db, args.id, Lit(ApprovalRecord), c.env.integrity, c.next, c.ev);
    ExpiredFrom(args, env.payload, a, c.next);
  }

  // ---- consuming ----------------------------------------------------------------------------------

  /** An approved single action, meant for this actor, and both names given. */
  predicate UsableBy(args: ConsumeArgs, p: Payload) {
    Get(p, Status) == Str(Lit(ApprovedStatus)) && (ApprovalScope in p ==> p[ApprovalScope] == Str(Lit(SingleAction)))
    && !Blank(args.actor) && !Blank(args.use)
    && (Get(p, ExecutorId) == Null || Get(p, ExecutorId) == Str(args.actor))
  }

  predicate UseStands(args: ConsumeArgs, db: Tables, db': Tables, a: Payload) {
    args.id in db.records && db.records[args.id].rtype == Lit(ApprovalRecord) && db.records[args.id].body.Obj?
    && (var p := db.records[args.id].body.p;
        UsableBy(args, p) && (forall f :: f in p ==> Get(a, f) == p[f])
        && OneRowRewritten(db.records, db'.records, args.id, p[Status := Str(Lit(ConsumedStatus))])
        && OneEventRecorded(db.events, db'.events, Consumed, args.id, db.records[args.id].mission, args.actor, map[
             ApprovalId := Str(args.id), UseId := Str(args.use), ActorId := Str(args.actor),
             ProposalSha256 := Get(a, ProposalSha256), Action := Get(a, Action), RiskLevel := Get(a, RiskLevel),
             ExecutorId := Get(a, ExecutorId)]))
  }

  /** What `consume_single_action` answers, on any tables. */
  predicate ConsumeAnswers(args: ConsumeArgs, db: Tables, db': Tables, outcome: Outcome) {
    match outcome
    case WasConsumed(id, actor, use, a) => id == args.id && actor == args.actor && use == args.use && UseStands(args, db, db', a)
    case NotConsumed => db' == db
    case _ => false
  }

  lemma UseCommits(args: ConsumeArgs, db: Tables, env: Envelope, a: Payload)
    requires EnvelopeOf(db.records, args.id) == Some(env) && Committable(db, [UseUpdate(args, env)], [UseEvent(args, a)])
    ensures var db', ev := CasFieldsAndEvents(db, [UseUpdate(args, env)], [UseEvent(args, a)]), UseEvent(args, a);
      db.records[args.id].rtype == Lit(ApprovalRecord)
      && OneRowRewritten(db.records, db'.records, args.id, env.payload[Status := Str(Lit(ConsumedStatus))])
      && db'.events == db.events[ev.id := ev.row]
  {
    var u := UseUpdate(args, env);
    assert [u][..0] == [] && ReadyFor(db.records, [u][0]);
    assert Updated(db.records, [u]) == db.records[args.id := Advanced(db.records, u)];
    assert WithEvents(db.events, [UseEvent(args, a)][..0]) == db.events;
  }

  lemma UseEventSays(args: ConsumeArgs, a: Payload)
    ensures var ev := UseEvent(args, a);
      ev.id == TransitionId(Key(Consumed, args.id)) && ev.row.etype == Lit(Consumed)
      && ev.row.aggregate == Show(Get(a, MissionId)) && ev.row.aggregateType == Lit(MissionAggregate)
      && ev.row.actor == args.actor && ev.row.key == Some(Key(Consumed, args.id))
      && ev.row.body == Obj(map[
             ApprovalId := Str(args.id), UseId := Str(args.use), ActorId := Str(args.actor),
             ProposalSha256 := Get(a, ProposalSha256), Action := Get(a, Action), RiskLevel := Get(a, RiskLevel),
             ExecutorId := Get(a, ExecutorId)])
  {
  }

  lemma UsableMeans(args: ConsumeArgs, env: Envelope, a: Payload)
    requires Usable(args, env, a)
    ensures env.mission == Get(a, MissionId) && Get(a, Status) == Str(Lit(ApprovedStatus))
    ensures Get(a, ApprovalScope) == Str(Lit(SingleAction)) && !Blank(args.actor) && !Blank(args.use)
    ensures Get(a, ExecutorId) == Null || Get(a, ExecutorId) == Str(args.actor)
  {
  }

  predicate ReadToUse(db: Tables, args: ConsumeArgs, env: Envelope, a: Payload) {
    EnvelopeOf(db.records, args.id) == Some(env) && Get(a, MissionId).Str? && Usable(args, env, a)
    && (forall f :: f in env.payload ==> f in a && Get(a, f) == env.payload[f])
    && (Status !in env.payload ==> Get(a, Status) == Str(Lit(PendingStatus)))
    && (ExecutorId !in env.payload ==> Get(a, ExecutorId) == Null)
  }

  lemma UseReaches(args: ConsumeArgs, db: Tables, env: Envelope, a: Payload)
    requires ReadToUse(db, args, env, a) && Committable(db, [UseUpdate(args, env)], [UseEvent(args, a)])
    ensures UseStands(args, db, CasFieldsAndEvents(db, [UseUpdate(args, env)], [UseEvent(args, a)]), a)
  {
    UseCommits(args, db, env, a);
    UseEventSays(args, a);
    UsableMeans(args, env, a);
    UsableFrom(args, env.payload, a);
  }

  lemma UsableFrom(args: ConsumeArgs, p: Payload, a: Payload)
    requires (forall f :: f in p ==> f in a && Get(a, f) == p[f]) && (Status !in p ==> Get(a, Status) == Str(Lit(PendingStatus)))
    requires ExecutorId !in p ==> Get(a, ExecutorId) == Null
    requires Get(a, Status) == Str(Lit(ApprovedStatus)) && Get(a, ApprovalScope) == Str(Lit(SingleAction))
    requires !Blank(args.actor) && !Blank(args.use) && (Get(a, ExecutorId) == Null || Get(a, ExecutorId) == Str(args.actor))
    ensures UsableBy(args, p)
  {
  }

  // ---- requesting ---------------------------------------------------------------------------------

  /** The request is stored as it is, anchored to itself, beside its event. */
  predicate RequestStands(a: Payload, id: Text, db: Tables, db': Tables) {
    Get(a, CreatedAt).Str?
    && OneRowAdded(db.records, db'.records, id, Lit(ApprovalRecord), Get(a, MissionId), Get(a, CreatedAt).t, a)
    && OneEventRecorded(db.events, db'.events, Requested, id, Get(a, MissionId), Lit(Governance), map[
         ApprovalId := Str(id), RiskLevel := Get(a, RiskLevel), Action := Get(a, Action), Scope := Get(a, ApprovalScope),
         Request := Object(a)])
  }

  /** What `request` answers, on any tables. */
  predicate RequestAnswers(a: Payload, db: Tables, db': Tables, outcome: Outcome) {
    match outcome
    case WasRequested(id, approval) => approval == a && Str(id) == Get(a, ApprovalId) && RequestStands(a, id, db, db')
    case Raised(why) => db' == db && why == RequestConflict
    case _ => false
  }

  lemma RequestMeans(a: Payload, trace: Text, stamp: Text, db: Tables)
    requires Get(a, ApprovalId).Str? && Get(a, MissionId).Str? && Get(a, CreatedAt).Str?
    ensures var c := Requesting(a, trace, stamp);
      StepCall(db, c).Done? && RequestAnswers(a, db, Written(db, c), StepCall(db, c).outcome)
  {
    ClaimStands(db, RequestItem(a), RequestEvent(a, trace, stamp));
    RequestEventSays(a, trace, stamp);
  }

  lemma RequestEventSays(a: Payload, trace: Text, stamp: Text)
    requires Get(a, ApprovalId).Str? && Get(a, MissionId).Str?
    ensures var ev, id := RequestEvent(a, trace, stamp), Get(a, ApprovalId).t;
      ev.id == TransitionId(Key(Requested, id)) && ev.row.etype == Lit(Requested)
      && Str(ev.row.aggregate) == Get(a, MissionId) && ev.row.aggregateType == Lit(MissionAggregate)
      && ev.row.actor == Lit(Governance) && ev.row.key == Some(Key(Requested, id))
      && ev.row.body == Obj(map[
         ApprovalId := Str(id), RiskLevel := Get(a, RiskLevel), Action := Get(a, Action), Scope := Get(a, ApprovalScope),
         Request := Object(a)])
  {
  }
}
