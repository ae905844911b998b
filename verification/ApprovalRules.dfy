/** Approval payloads, the events that prove their transitions, and the checks made on both. */
module ApprovalRules {
  import opened Ledger
  import opened StoreSpec

  // ---- the approval model -------------------------------------------------

  const FIELDS: set<Field> := {
    ApprovalId, MissionId, Action, RiskLevel, Rationale, Impact, Reason, AffectedResources,
    ExternalEffect, Reversible, RollbackPlan, EstimatedCost, ApprovalScope, ExecutorId,
    ProposalSha256, ExpiresAt, Status, DecidedBy, DecisionNote, DecisionAction, CreatedAt,
    DecidedAt, SchemaVersion, MissionRunId, OperationRunId, CorrelationId, Provenance,
    ApprovalClass, EvidenceRefs}

  const DECISION_FIELDS: set<Field> := {Status, DecidedBy, DecisionNote, DecisionAction, DecidedAt}

  const STATUSES: set<Word> := {
    PendingStatus, ApprovedStatus, RejectedStatus, ChangesRequestedStatus, PausedStatus,
    ExpiredStatus, ConsumedStatus}

  predicate WellTyped(f: Field, v: Value) {
    match f
    case ApprovalId | MissionId | Action | Rationale | ApprovalScope | CreatedAt => v.Str?
    case RiskLevel => v.Str? && v.t in {Lit(R0), Lit(R1), Lit(R2), Lit(R3), Lit(R4)}
    case Status => v.Str? && v.t.Lit? && v.t.word in STATUSES
    case Impact | AffectedResources | EvidenceRefs => v.List?
    case ExternalEffect | Reversible => v.Flag?
    case EstimatedCost | SchemaVersion => v.Num?
    case RollbackPlan => v.Object?
    case _ => v.Null? || v.Str?
  }

  /** Values the model generates for an absent id and creation time. */
  datatype Generated = Generated(id: Text, now: Text)

  function Default(f: Field, gen: Generated): Value {
    match f
    case ApprovalId => Str(gen.id)
    case CreatedAt => Str(gen.now)
    case Status => Literal(PendingStatus)
    case ApprovalScope => Literal(SingleAction)
    case Impact | AffectedResources | EvidenceRefs => List([])
    case ExternalEffect => Flag(false)
    case Reversible => Flag(true)
    case RollbackPlan => Object(map[])
    case EstimatedCost => Num(0.0)
    case SchemaVersion => Num(1.0)
    case _ => Null
  }

  predicate Modelled(f: Field) {
    f in FIELDS
  }

  /** A dumped approval: every field, each of its type. */
  ghost predicate Complete(a: Payload) {
    forall f {:trigger Modelled(f)} :: (f in a <==> Modelled(f)) && (f in a ==> WellTyped(f, a[f]))
  }

  /** Validation: required fields present, no unknown field, every value of its type; the rest
      takes its default. */
  function Validate(p: Payload, gen: Generated): (a: Option<Payload>)
    ensures a.Some? ==> Complete(a.value) && forall f :: f in p ==> Get(a.value, f) == p[f]
    ensures Complete(p) ==> a == Some(p)
  {
    CompleteHasRequired(p);
    if MissionId in p && Action in p && RiskLevel in p && Rationale in p
       && (forall f :: f in p ==> Modelled(f) && WellTyped(f, p[f])) then
      var a := map f | f in FIELDS :: Filled(p, f, gen);
      FilledIsComplete(p, gen);
      Some(a)
    else
      None
  }

  lemma FilledIsComplete(p: Payload, gen: Generated)
    requires MissionId in p && Action in p && RiskLevel in p && Rationale in p
    requires forall f :: f in p ==> Modelled(f) && WellTyped(f, p[f])
    ensures var a := map f | f in FIELDS :: Filled(p, f, gen);
      Complete(a) && (forall f :: f in p ==> Get(a, f) == p[f]) && (Complete(p) ==> a == p)
  {
    var a := map f | f in FIELDS :: Filled(p, f, gen);
    assert forall f :: f in a <==> Modelled(f);
    if Complete(p) {
      assert forall f :: f in p <==> Modelled(f);
      assert a == p;
    }
  }

  lemma CompleteHasRequired(p: Payload)
    ensures Complete(p) ==> MissionId in p && Action in p && RiskLevel in p && Rationale in p
    ensures Complete(p) ==> forall f :: f in p ==> Modelled(f) && WellTyped(f, p[f])
  {
    assert Modelled(MissionId) && Modelled(Action) && Modelled(RiskLevel) && Modelled(Rationale);
    if Complete(p) {
      forall f | f in p ensures Modelled(f) && WellTyped(f, p[f]) {
        assert Modelled(f) || !Modelled(f);
      }
    }
  }

  function Filled(p: Payload, f: Field, gen: Generated): (v: Value)
    ensures f in p ==> v == p[f]
    ensures f !in p && f !in {MissionId, Action, RiskLevel, Rationale} ==> WellTyped(f, v)
  {
    if f in p then p[f] else Default(f, gen)
  }

  /** The approval as it was requested: pending and undecided. */
  function Original(a: Payload): Payload {
    a[Status := Literal(PendingStatus)][DecidedBy := Null][DecisionNote := Null]
     [DecisionAction := Null][DecidedAt := Null]
  }

  predicate Is(a: Payload, status: Word) {
    Get(a, Status) == Literal(status)
  }

  // ---- transition events ----------------------------------------------------

  function TransitionEvent(w: Word, id: Text): Text {
    TransitionId(Key(w, id))
  }

  /** The status a recorded decision stands for. */
  function DecisionStatus(decision: Value): Word {
    if decision in {Literal(ApproveOnce), Literal(ApproveMission), Literal(DecisionApproved)} then ApprovedStatus
    else if decision in {Literal(RequestChanges), Literal(DecisionChangesRequested)} then ChangesRequestedStatus
    else if decision == Literal(PauseMission) then PausedStatus
    else RejectedStatus
  }

  function DecidedPayload(a: Payload): Payload {
    map[ApprovalId := Get(a, ApprovalId), Status := Literal(DecisionStatus(Get(a, DecisionAction))),
        Decision := Get(a, DecisionAction), Scope := Get(a, ApprovalScope), Action := Get(a, Action),
        RiskLevel := Get(a, RiskLevel), ExecutorId := Get(a, ExecutorId),
        ProposalSha256 := Get(a, ProposalSha256), DecidedAt := Get(a, DecidedAt)]
  }

  function ExpiredPayload(a: Payload): Payload {
    map[ApprovalId := Get(a, ApprovalId), Status := Literal(ExpiredStatus), ExpiresAt := Get(a, ExpiresAt)]
  }

  function ConsumedPayload(a: Payload, id: Text, actor: Text, use: Text): Payload {
    map[ApprovalId := Str(id), UseId := Str(use), ActorId := Str(actor),
        ProposalSha256 := Get(a, ProposalSha256), Action := Get(a, Action),
        RiskLevel := Get(a, RiskLevel), ExecutorId := Get(a, ExecutorId)]
  }

  /** An event of the mission, under the transition's own id and key. */
  predicate Records(events: map<Text, EventRow>, w: Word, a: Payload) {
    var id := Show(Get(a, ApprovalId));
    TransitionEvent(w, id) in events
    && var e := events[TransitionEvent(w, id)];
       e.etype == Lit(w) && Str(e.aggregate) == Get(a, MissionId)
       && e.aggregateType == Lit(MissionAggregate) && e.key == Some(Key(w, id))
  }

  function RecordOf(events: map<Text, EventRow>, w: Word, a: Payload): EventRow
    requires Records(events, w, a)
  {
    events[TransitionEvent(w, Show(Get(a, ApprovalId)))]
  }

  /** `decision_transition_is_valid`. */
  predicate DecisionRecorded(events: map<Text, EventRow>, a: Payload) {
    Truthy(Get(a, DecidedBy)) && Truthy(Get(a, DecidedAt)) && Records(events, Decided, a)
    && Str(RecordOf(events, Decided, a).actor) == Get(a, DecidedBy)
    && RecordOf(events, Decided, a).body == Obj(DecidedPayload(a))
  }

  /** `expiry_transition_is_valid`. */
  predicate ExpiryRecorded(events: map<Text, EventRow>, a: Payload) {
    Records(events, Expired, a)
    && RecordOf(events, Expired, a).actor == Lit(Governance)
    && RecordOf(events, Expired, a).body == Obj(ExpiredPayload(a))
  }

  /** `consumption_transition_exists`. */
  predicate ConsumptionRecorded(events: map<Text, EventRow>, a: Payload) {
    Records(events, Consumed, a)
    && var e := RecordOf(events, Consumed, a);
       e.body.Obj?
       && var p := e.body.p;
          p.Keys == {ApprovalId, UseId, ActorId, ProposalSha256, Action, RiskLevel, ExecutorId}
          && p[ApprovalId] == Get(a, ApprovalId) && p[Action] == Get(a, Action)
          && p[RiskLevel] == Get(a, RiskLevel) && p[ExecutorId] == Get(a, ExecutorId)
          && p[ProposalSha256] == Get(a, ProposalSha256)
          && p[UseId].Str? && !Blank(p[UseId].t) && p[ActorId].Str? && !Blank(p[ActorId].t)
          && e.actor == p[ActorId].t
          && (Get(a, ExecutorId) == Null || p[ActorId] == Get(a, ExecutorId))
  }

  /** `terminal_transition_is_valid`. */
  predicate TerminalRecorded(events: map<Text, EventRow>, a: Payload) {
    var status := Get(a, Status);
    if status == Literal(PendingStatus) then true
    else if status == Literal(ExpiredStatus) then ExpiryRecorded(events, a)
    else if status == Literal(ConsumedStatus) then
      DecisionRecorded(events, a) && ConsumptionRecorded(events, a)
    else DecisionRecorded(events, a)
  }

  /** `consumption_matches`: the event holding the consumption key names this actor and use. */
  ghost predicate ConsumptionMatches(
    events: map<Text, EventRow>, a: Payload, actor: Text, use: Text)
  {
    (exists eid :: eid in events && events[eid].key == Some(Key(Consumed, Show(Get(a, ApprovalId))))
      && events[eid].actor == actor && events[eid].body.Obj?
      && Get(events[eid].body.p, ActorId) == Str(actor) && Get(events[eid].body.p, UseId) == Str(use)
      && Get(events[eid].body.p, ApprovalId) == Get(a, ApprovalId)
      && Get(events[eid].body.p, ProposalSha256) == Get(a, ProposalSha256)
      && Get(events[eid].body.p, Action) == Get(a, Action)
      && Get(events[eid].body.p, RiskLevel) == Get(a, RiskLevel)
      && Get(events[eid].body.p, ExecutorId) == Get(a, ExecutorId))
    && Get(a, Status) == Literal(ConsumedStatus)
    && DecisionRecorded(events, a) && ConsumptionRecorded(events, a)
  }

  // ---- facts ------------------------------------------------------------------

  /** Decided events survive every later store call, so a passed check stays passed. */
  lemma RecordsPersist(es: map<Text, EventRow>, es': map<Text, EventRow>, a: Payload)
    requires EventsGrow(es, es')
    ensures DecisionRecorded(es, a) ==> DecisionRecorded(es', a)
    ensures ExpiryRecorded(es, a) ==> ExpiryRecorded(es', a)
    ensures ConsumptionRecorded(es, a) ==> ConsumptionRecorded(es', a)
    ensures TerminalRecorded(es, a) ==> TerminalRecorded(es', a)
  {
    KeyedEventPersists(es, es', TransitionEvent(Decided, Show(Get(a, ApprovalId))));
    KeyedEventPersists(es, es', TransitionEvent(Expired, Show(Get(a, ApprovalId))));
    KeyedEventPersists(es, es', TransitionEvent(Consumed, Show(Get(a, ApprovalId))));
  }

  lemma KeyedEventPersists(es: map<Text, EventRow>, es': map<Text, EventRow>, eid: Text)
    requires EventsGrow(es, es')
    ensures eid in es && es[eid].key.Some? ==> eid in es' && es'[eid] == es[eid]
  {
  }

  /** An approval differs from its original at most in status and decision. */
  lemma OriginalFixes(a: Payload)
    requires Complete(a)
    ensures forall f :: f in Original(a) <==> f in a
    ensures forall f :: f in a && f !in DECISION_FIELDS ==> Original(a)[f] == a[f]
  {
    assert Modelled(Status) && Modelled(DecidedBy) && Modelled(DecisionNote);
    assert Modelled(DecisionAction) && Modelled(DecidedAt);
  }

  predicate Textual(v: Value) {
    v == Null || v.Str?
  }

  /** Writing one field with a value of its type keeps an approval complete. */
  lemma FieldWritten(a: Payload, f: Field, v: Value)
    requires Complete(a) && Modelled(f) && WellTyped(f, v)
    ensures Complete(a[f := v])
  {
  }

  /** Writing a status and the four decision fields keeps an approval complete and its original. */
  lemma Rewritten(a: Payload, status: Word, who: Value, note: Value, action: Value, at: Value)
    requires Complete(a) && status in STATUSES
    requires Textual(who) && Textual(note) && Textual(action) && Textual(at)
    ensures var b := a[Status := Literal(status)][DecidedBy := who][DecisionNote := note]
                     [DecisionAction := action][DecidedAt := at];
      Complete(b) && Original(b) == Original(a)
  {
    var b1 := a[Status := Literal(status)];
    FieldWritten(a, Status, Literal(status));
    var b2 := b1[DecidedBy := who];
    FieldWritten(b1, DecidedBy, who);
    var b3 := b2[DecisionNote := note];
    FieldWritten(b2, DecisionNote, note);
    var b4 := b3[DecisionAction := action];
    FieldWritten(b3, DecisionAction, action);
    FieldWritten(b4, DecidedAt, at);
    OverwrittenOriginal(a, Literal(status), who, note, action, at);
  }

  lemma OverwrittenOriginal(a: Payload, status: Value, who: Value, note: Value, action: Value, at: Value)
    ensures Original(a[Status := status][DecidedBy := who][DecisionNote := note]
                      [DecisionAction := action][DecidedAt := at]) == Original(a)
  {
  }
}
