/** The approval calls as programs of atomic store steps. Between any two steps of a call, other
    callers may run. */
module ApprovalSteps {
  import opened Ledger
  import opened StoreSpec
  import opened ApprovalRules

  datatype DecideArgs = DecideArgs(
    id: Text, approved: bool, actor: Text, note: Text, decision: Text, scope: Value,
    trace: Text, now: int, gen: Generated)

  datatype ConsumeArgs = ConsumeArgs(
    id: Text, actor: Text, use: Text, trace: Text, stamp: Text, gen: Generated)

  /** Who asked for the checks: `get` only reads, `decide` goes on to a commit. */
  datatype Want = ToRead | ToDecide(args: DecideArgs)

  datatype Why =
    | NotFound | WrongType | Invalid | IntegrityInvalid | AlreadyDecided | ActorRequired
    | BadExpiry | ScopeMismatch | TransitionConflict | RequestConflict

  datatype Outcome =
    | Raised(why: Why)
    | Missing
    | Got(approval: Payload)
    | WasRequested(id: Text, approval: Payload)
    | WasDecided(id: Text, approval: Payload)
    | HasExpired(id: Text)
    | NotConsumed
    | WasConsumed(id: Text, actor: Text, use: Text, approval: Payload)

  /** A call and how far it has got. */
  datatype Call =
    | Requesting(approval: Payload, trace: Text, stamp: Text)
    | Reading(want: Want, id: Text, gen: Generated)
    | Checking(want: Want, env: Envelope, approval: Payload, decisionSeen: bool)
    | Committing(env: Envelope, next: Payload, ev: Event)
    | Consuming(args: ConsumeArgs)
    | ProvingDecision(args: ConsumeArgs, env: Envelope, approval: Payload)
    | ProvingUnused(args: ConsumeArgs, env: Envelope, approval: Payload)
    | CommittingUse(args: ConsumeArgs, env: Envelope, approval: Payload)
    | Done(outcome: Outcome)

  predicate Parsable(v: Value) {
    v.Str? && v.t.Stamp?
  }

  /** What `request` builds: a complete pending approval with a parsable expiry. */
  ghost predicate NewRequest(a: Payload) {
    Complete(a) && Original(a) == a && Parsable(Get(a, ExpiresAt))
  }

  ghost predicate Starts(c: Call) {
    match c
    case Requesting(a, _, _) => NewRequest(a)
    case Reading(want, id, gen) => want.ToDecide? ==> want.args.id == id && want.args.gen == gen
    case Consuming(_) => true
    case _ => false
  }

  function MissionEvent(w: Word, id: Text, mission: Value, actor: Text, trace: Text, stamp: Text, p: Payload): Event {
    Event(TransitionEvent(w, id),
          EventRow(Lit(w), Show(mission), Lit(MissionAggregate), actor, trace, stamp, Some(Key(w, id)), Obj(p)))
  }

  // ---- request ------------------------------------------------------------

  function RequestedPayload(a: Payload): Payload {
    map[ApprovalId := Get(a, ApprovalId), RiskLevel := Get(a, RiskLevel), Action := Get(a, Action),
        Scope := Get(a, ApprovalScope), Request := Object(a)]
  }

  function RequestItem(a: Payload): Item {
    Item(Show(Get(a, ApprovalId)), Lit(ApprovalRecord), Get(a, MissionId), Show(Get(a, CreatedAt)), a)
  }

  function RequestEvent(a: Payload, trace: Text, stamp: Text): Event {
    MissionEvent(Requested, Show(Get(a, ApprovalId)), Get(a, MissionId), Lit(Governance), trace, stamp,
                 RequestedPayload(a))
  }

  // ---- get and decide -----------------------------------------------------

  /** Everything checked on the envelope alone. */
  predicate EnvelopeAgrees(env: Envelope, id: Text, a: Payload) {
    env.id == id && Get(a, ApprovalId) == Str(id) && env.mission == Get(a, MissionId) && OriginMatches(env, Original(a))
  }

  function AfterRead(want: Want, id: Text, gen: Generated, read: Option<Envelope>): Call {
    if read.None? then Done(if want.ToRead? then Missing else Raised(NotFound))
    else
      var env := read.value;
      if env.rtype != Lit(ApprovalRecord) then Done(Raised(WrongType))
      else
        match Validate(env.payload, gen)
        case None => Done(Raised(Invalid))
        case Some(a) =>
          if EnvelopeAgrees(env, id, a) then Checking(want, env, a, false)
          else Done(Raised(IntegrityInvalid))
  }

  /** The checks have passed. */
  function AfterChecks(want: Want, env: Envelope, a: Payload): Call {
    match want
    case ToRead => Done(Got(a))
    case ToDecide(args) =>
      if !Is(a, PendingStatus) then Done(Raised(AlreadyDecided))
      else if Blank(args.actor) then Done(Raised(ActorRequired))
      else if Truthy(Get(a, ExpiresAt)) && !Parsable(Get(a, ExpiresAt)) then Done(Raised(BadExpiry))
      else if Truthy(Get(a, ExpiresAt)) && Get(a, ExpiresAt).t.at <= args.now then
        Committing(env, a[Status := Literal(ExpiredStatus)],
          MissionEvent(Expired, args.id, Get(a, MissionId), Lit(Governance), args.trace, Stamp(args.now), ExpiredPayload(a)))
      else
        var decision := Str(if args.decision != EMPTY then args.decision
                            else if args.approved then Lit(DecisionApproved) else Lit(DecisionRejected));
        if DecisionStatus(decision) == ApprovedStatus && args.scope != Null && args.scope != Get(a, ApprovalScope) then
          Done(Raised(ScopeMismatch))
        else
          var next := DecidedForm(a, decision, args);
          Committing(env, next,
            MissionEvent(Decided, args.id, Get(a, MissionId), args.actor, args.trace, Stamp(args.now), DecidedPayload(next)))
  }

  function DecidedForm(a: Payload, decision: Value, args: DecideArgs): Payload {
    a[Status := Literal(DecisionStatus(decision))][DecidedBy := Str(args.actor)][DecisionNote := Str(args.note)]
     [DecisionAction := decision][DecidedAt := Str(Stamp(args.now))]
  }

  /** One event scan. A consumed approval needs two: its decision, then its consumption. */
  ghost function Scan(events: map<Text, EventRow>, want: Want, env: Envelope, a: Payload, decisionSeen: bool): Call
  {
    var bad := Done(Raised(IntegrityInvalid));
    if Is(a, PendingStatus) then AfterChecks(want, env, a)
    else if Is(a, ExpiredStatus) then
      if ExpiryRecorded(events, a) then AfterChecks(want, env, a) else bad
    else if Is(a, ConsumedStatus) && decisionSeen then
      if ConsumptionRecorded(events, a) then AfterChecks(want, env, a) else bad
    else if !DecisionRecorded(events, a) then bad
    else if Is(a, ConsumedStatus) then Checking(want, env, a, true)
    else AfterChecks(want, env, a)
  }

  // ---- consume ------------------------------------------------------------

  function AfterConsumeRead(args: ConsumeArgs, read: Option<Envelope>): Call {
    if read.None? || read.value.rtype != Lit(ApprovalRecord) then Done(NotConsumed)
    else
      match Validate(read.value.payload, args.gen)
      case None => Done(NotConsumed)
      case Some(a) =>
        if Usable(args, read.value, a) then ProvingDecision(args, read.value, a) else Done(NotConsumed)
  }

  predicate Usable(args: ConsumeArgs, env: Envelope, a: Payload) {
    env.id == args.id && env.mission == Get(a, MissionId) && Is(a, ApprovedStatus)
    && Get(a, ApprovalScope) == Literal(SingleAction) && !Blank(args.actor) && !Blank(args.use)
    && (Get(a, ExecutorId) == Null || Get(a, ExecutorId) == Str(args.actor))
    && OriginMatches(env, Original(a))
  }

  function UseUpdate(args: ConsumeArgs, env: Envelope): Update {
    Update(args.id, Lit(ApprovalRecord), Status, Literal(ApprovedStatus), Literal(ConsumedStatus), Some(env.integrity))
  }

  function UseEvent(args: ConsumeArgs, a: Payload): Event {
    MissionEvent(Consumed, args.id, Get(a, MissionId), args.actor, args.trace, args.stamp,
                 ConsumedPayload(a, args.id, args.actor, args.use))
  }

  // ---- one step ------------------------------------------------------------

  /** The store write a call would make now, if any. */
  ghost function WriteOf(c: Call): Option<Op> {
    match c
    case Requesting(a, trace, stamp) => Some(DoSaveWithEvent(RequestItem(a), RequestEvent(a, trace, stamp)))
    case Committing(env, next, ev) => Some(DoRepair(env.id, Lit(ApprovalRecord), env.integrity, next, ev))
    case CommittingUse(args, env, a) => Some(DoCommit([UseUpdate(args, env)], [UseEvent(args, a)]))
    case _ => None
  }

  ghost function StepCall(db: Tables, c: Call): Call
  {
    match c
    case Requesting(a, trace, stamp) =>
      if SaveWithEvent(db, RequestItem(a), RequestEvent(a, trace, stamp)).1.Claimed? then
        Done(WasRequested(Show(Get(a, ApprovalId)), a))
      else Done(Raised(RequestConflict))
    case Reading(want, id, gen) => AfterRead(want, id, gen, EnvelopeOf(db.records, id))
    case Checking(want, env, a, decisionSeen) => Scan(db.events, want, env, a, decisionSeen)
    case Committing(env, next, ev) =>
      if Repair(db, env.id, Lit(ApprovalRecord), env.integrity, next, ev).1.Repaired? then
        Done(if Is(next, ExpiredStatus) then HasExpired(env.id) else WasDecided(env.id, next))
      else Done(Raised(TransitionConflict))
    case Consuming(args) => AfterConsumeRead(args, EnvelopeOf(db.records, args.id))
    case ProvingDecision(args, env, a) =>
      if DecisionRecorded(db.events, a) then ProvingUnused(args, env, a) else Done(NotConsumed)
    case ProvingUnused(args, env, a) =>
      if ConsumptionRecorded(db.events, a) then Done(NotConsumed) else CommittingUse(args, env, a)
    case CommittingUse(args, env, a) =>
      if Committable(db, [UseUpdate(args, env)], [UseEvent(args, a)]) then
        Done(WasConsumed(args.id, args.actor, args.use, a))
      else Done(NotConsumed)
    case Done(_) => c
  }

  /** The tables after the call's next atomic step. */
  ghost function Written(db: Tables, c: Call): Tables {
    match c
    case Requesting(a, trace, stamp) => SaveWithEvent(db, RequestItem(a), RequestEvent(a, trace, stamp)).0
    case Committing(env, next, ev) => Repair(db, env.id, Lit(ApprovalRecord), env.integrity, next, ev).0
    case CommittingUse(args, env, a) => CasFieldsAndEvents(db, [UseUpdate(args, env)], [UseEvent(args, a)])
    case _ => db
  }

  lemma DecidedFormComplete(a: Payload, decision: Value, args: DecideArgs)
    requires Complete(a) && decision.Str?
    ensures Complete(DecidedForm(a, decision, args))
    ensures Original(DecidedForm(a, decision, args)) == Original(a)
  {
    Rewritten(a, DecisionStatus(decision), Str(args.actor), Str(args.note), decision, Str(Stamp(args.now)));
  }
}
