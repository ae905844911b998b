/** Scoring a mission, and `evaluate` as a program of atomic store steps. */
module EvaluationSteps {
  import opened Ledger
  import opened StoreSpec

  datatype EvalArgs = EvalArgs(
    mission: Text, trace: Text, report: Value, state: Text, risk: Text, rollback: Value,
    evidence: int, tools: int, tokensIn: int, tokensOut: int,
    key: Value, newId: Text, created: Text, eventId: Text, stamp: Text)

  // ---- scores -------------------------------------------------------------------------

  function Min(a: real, b: real): real { if a <= b then a else b }

  function CoverageOf(args: EvalArgs): real {
    if args.evidence >= 4 then 1.0 else Min(1.0, args.evidence as real / 4.0)
  }

  function CorrectnessOf(args: EvalArgs): real {
    if Truthy(args.report) && args.state in {Lit(EvaluationState), Lit(CompletedState)} then 1.0 else 0.5
  }

  function ReliabilityOf(args: EvalArgs): real {
    if args.tools > 0 && args.evidence > 0 then 1.0 else 0.5
  }

  function SafetyOf(args: EvalArgs): real {
    if args.risk in {Lit(R0), Lit(R1), Lit(R2)} then 1.0 else 0.0
  }

  function TokenEfficiencyOf(args: EvalArgs): real {
    var total := args.tokensIn + args.tokensOut;
    Min(1.0, 500.0 / (if total > 500 then total as real else 500.0))
  }

  predicate Passes(args: EvalArgs) {
    CorrectnessOf(args) >= 0.9 && ReliabilityOf(args) >= 0.9 && SafetyOf(args) >= 0.9 && CoverageOf(args) >= 0.9
  }

  /** A mission passes exactly when it has a report in a final state, low risk, a tool call and at
      least four pieces of evidence. */
  lemma PassesExactlyWhen(args: EvalArgs)
    ensures Passes(args) <==>
      Truthy(args.report) && args.state in {Lit(EvaluationState), Lit(CompletedState)}
      && args.risk in {Lit(R0), Lit(R1), Lit(R2)} && args.tools > 0 && args.evidence >= 4
  {
    if args.evidence < 4 { assert args.evidence as real <= 3.0; }
  }

  const SCORES: set<Field> :=
    {Correctness, Reliability, Safety, EvidenceCoverage, TokenEfficiency, CostScore, RecoveryRate}

  function ScoreOf(args: EvalArgs, f: Field): real {
    match f
    case Correctness => CorrectnessOf(args)
    case Reliability => ReliabilityOf(args)
    case Safety => SafetyOf(args)
    case EvidenceCoverage => CoverageOf(args)
    case TokenEfficiency => TokenEfficiencyOf(args)
    case CostScore => if args.tokensIn + args.tokensOut < 5000 then 1.0 else 0.8
    case _ => if Truthy(args.rollback) then 1.0 else 0.5
  }

  /** More evidence never lowers a score, and every score stays between nothing and one. */
  lemma ScoresAreBounded(args: EvalArgs, more: nat, f: Field)
    requires args.evidence >= 0 && f in SCORES
    ensures 0.0 <= ScoreOf(args, f) <= ScoreOf(args.(evidence := args.evidence + more), f) <= 1.0
    ensures Get(ResultOf(args), f) == Num(ScoreOf(args, f))
    ensures Passes(args) ==> Passes(args.(evidence := args.evidence + more))
  {
    assert args.evidence as real <= (args.evidence + more) as real;
    ResultHolds(args, f);
  }

  lemma ResultHolds(args: EvalArgs, f: Field)
    requires f in SCORES
    ensures Get(ResultOf(args), f) == Num(ScoreOf(args, f))
  {
  }

  // ---- the records -----------------------------------------------------------------------

  predicate Keyed(args: EvalArgs) {
    Truthy(args.key)
  }

  function KeyOf(args: EvalArgs): Text {
    Show(args.key)
  }

  function EvaluationIdFor(args: EvalArgs): Text {
    if Keyed(args) then EvaluationIdOf(KeyOf(args)) else args.newId
  }

  const NOTE := User("Deterministic MVP evaluation; replace with domain evaluators per mission type.")

  function ResultOf(args: EvalArgs): Payload {
    map[EvaluationId := Str(EvaluationIdFor(args)), MissionId := Str(args.mission),
        Correctness := Num(CorrectnessOf(args)), Reliability := Num(ReliabilityOf(args)),
        Safety := Num(SafetyOf(args)), EvidenceCoverage := Num(CoverageOf(args)),
        TokenEfficiency := Num(TokenEfficiencyOf(args)),
        CostScore := Num(if args.tokensIn + args.tokensOut < 5000 then 1.0 else 0.8),
        RecoveryRate := Num(if Truthy(args.rollback) then 1.0 else 0.5), Passed := Flag(Passes(args)),
        Notes := List([Str(NOTE)]), IdempotencyKey := args.key, CreatedAt := Str(args.created)]
  }

  function RecordItem(args: EvalArgs): Item {
    Item(EvaluationIdFor(args), Lit(EvaluationRecord), Str(args.mission), args.created, ResultOf(args))
  }

  function MappingItem(args: EvalArgs): Item {
    Item(EvaluationMappingIdOf(KeyOf(args)), Lit(EvaluationMapping), Str(args.mission), args.created,
         map[IdempotencyKey := args.key, EvaluationId := Str(EvaluationIdFor(args))])
  }

  function EvaluatedEvent(args: EvalArgs, result: Payload): Event {
    Event(args.eventId,
          EventRow(Lit(MissionEvaluated), args.mission, Lit(MissionAggregate), Lit(EvaluationEngineActor),
                   args.trace, args.stamp, if Keyed(args) then Some(Key(EvaluationEvent, KeyOf(args))) else None,
                   Obj(result)))
  }

  // ---- the call ---------------------------------------------------------------------------

  datatype Why = IdentityConflict | EvaluationConflict | Unreadable | EventConflict

  datatype Stage =
    | Looking                              // the key's mapping
    | ReadingRecord(id: Text)
    | Saving
    | LookingAgain                         // after losing the atomic save
    | ReadingWinner(id: Text)
    | SavingAlone
    | Publishing(result: Payload)
    | Returned(result: Payload)
    | Raised(why: Why)

  datatype Call = Call(args: EvalArgs, stage: Stage)

  function Start(args: EvalArgs): Call {
    Call(args, if Keyed(args) then Looking else SavingAlone)
  }

  /** The mapping `find_record_envelope` hands back: any one that fits. */
  ghost function FoundMapping(records: map<Text, Row>, key: Value): (id: Option<Text>)
    ensures id.Some? ==> Finds(records, Lit(EvaluationMapping), IdempotencyKey, key, id.value)
    ensures id.None? ==> forall i :: !Finds(records, Lit(EvaluationMapping), IdempotencyKey, key, i)
  {
    if exists i :: Finds(records, Lit(EvaluationMapping), IdempotencyKey, key, i) then
      var i :| Finds(records, Lit(EvaluationMapping), IdempotencyKey, key, i);
      Some(i)
    else None
  }

  /** The evaluation the mapping names, if the mapping is this mission's. */
  function Target(records: map<Text, Row>, found: Option<Text>, mission: Text): Option<Text> {
    if found.None? || EnvelopeOf(records, found.value).None? then None
    else
      var env := EnvelopeOf(records, found.value).value;
      if env.mission == Str(mission) && Truthy(Get(env.payload, EvaluationId)) then
        Some(Show(Get(env.payload, EvaluationId)))
      else None
  }

  const RESULT_FIELDS: set<Field> := {
    EvaluationId, MissionId, Correctness, Reliability, Safety, EvidenceCoverage, TokenEfficiency, CostScore,
    RecoveryRate, Passed, Notes, IdempotencyKey, CreatedAt}

  /** `EvaluationResult.model_validate`, for a complete dump. */
  predicate Parses(p: Payload) {
    p.Keys == RESULT_FIELDS && p[EvaluationId].Str? && p[MissionId].Str? && p[CreatedAt].Str?
    && p[Correctness].Num? && p[Reliability].Num? && p[Safety].Num? && p[EvidenceCoverage].Num?
    && p[TokenEfficiency].Num? && p[CostScore].Num? && p[RecoveryRate].Num? && p[Passed].Flag? && p[Notes].List?
    && (p[IdempotencyKey].Str? || p[IdempotencyKey].Null?)
  }

  /** Reading the stored evaluation first: its key may be missing. */
  function AfterRecord(args: EvalArgs, read: Option<Envelope>): Stage {
    if read.None? || read.value.payload == map[] then Saving
    else if !Parses(read.value.payload) then Raised(Unreadable)
    else if Get(read.value.payload, MissionId) != Str(args.mission)
            || Get(read.value.payload, IdempotencyKey) !in {Null, args.key} then Raised(EvaluationConflict)
    else Publishing(read.value.payload)
  }

  /** Reading the winner of a lost race: its key must be this one. */
  function AfterWinner(args: EvalArgs, read: Option<Envelope>): Stage {
    if read.None? || read.value.payload == map[] then Raised(IdentityConflict)
    else if !Parses(read.value.payload) then Raised(Unreadable)
    else if Get(read.value.payload, MissionId) != Str(args.mission)
            || Get(read.value.payload, IdempotencyKey) != args.key then Raised(EvaluationConflict)
    else Publishing(read.value.payload)
  }

  function AfterLooking(args: EvalArgs, records: map<Text, Row>, found: Option<Text>): Stage {
    var target := Target(records, found, args.mission);
    if target.Some? then ReadingRecord(target.value) else Saving
  }

  function AfterLosing(args: EvalArgs, records: map<Text, Row>, found: Option<Text>): Stage {
    var target := Target(records, found, args.mission);
    if target.Some? then ReadingWinner(target.value) else Raised(IdentityConflict)
  }

  ghost function Next(db: Tables, args: EvalArgs, st: Stage): Stage {
    match st
    case Looking => AfterLooking(args, db.records, FoundMapping(db.records, args.key))
    case ReadingRecord(id) => AfterRecord(args, EnvelopeOf(db.records, id))
    case Saving =>
      if SaveAll(db.records, [RecordItem(args), MappingItem(args)]).Some? then Publishing(ResultOf(args)) else LookingAgain
    case LookingAgain => AfterLosing(args, db.records, FoundMapping(db.records, args.key))
    case ReadingWinner(id) => AfterWinner(args, EnvelopeOf(db.records, id))
    case SavingAlone => Publishing(ResultOf(args))
    case Publishing(result) =>
      if Publishes(db.events, EvaluatedEvent(args, result)) then Returned(result) else Raised(EventConflict)
    case _ => st
  }

  ghost function Written(db: Tables, c: Call): Tables {
    match c.stage
    case Saving => Apply(db, DoSaveAll([RecordItem(c.args), MappingItem(c.args)]))
    case SavingAlone => SaveRecord(db, RecordItem(c.args))
    case Publishing(result) => SaveEvent(db, EvaluatedEvent(c.args, result))
    case _ => db
  }
}
