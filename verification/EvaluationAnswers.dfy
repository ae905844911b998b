/** What an evaluation says, in numbers on the mission's own fields, and what the call leaves. */
module EvaluationAnswers {
  import opened Ledger
  import opened StoreSpec
  import opened StoreAnswers
  import opened EvaluationSteps

  // ---- the numbers -----------------------------------------------------------------------------------------

  predicate ReportedAtTheEnd(args: EvalArgs) {
    Truthy(args.report) && (args.state == Lit(EvaluationState) || args.state == Lit(CompletedState))
  }

  predicate LowRisk(args: EvalArgs) {
    args.risk == Lit(R0) || args.risk == Lit(R1) || args.risk == Lit(R2)
  }

  predicate Scored(p: Payload, f: Field, yes: bool, full: real, less: real) {
    (yes ==> Get(p, f) == Num(full)) && (!yes ==> Get(p, f) == Num(less))
  }

  /** Correct with a report at the end, reliable with a tool call and evidence, safe at low risk. */
  predicate ConductSays(args: EvalArgs, p: Payload) {
    Scored(p, Correctness, ReportedAtTheEnd(args), 1.0, 0.5) && Scored(p, Reliability, args.tools > 0 && args.evidence > 0, 1.0, 0.5)
    && Scored(p, Safety, LowRisk(args), 1.0, 0.0)
    && (Get(p, Passed) == Flag(ReportedAtTheEnd(args) && LowRisk(args) && args.tools > 0 && args.evidence >= 4))
  }

  /** A quarter for each piece of evidence, up to four. */
  predicate CoverageSays(args: EvalArgs, p: Payload) {
    Get(p, EvidenceCoverage).Num?
    && (args.evidence >= 4 ==> Get(p, EvidenceCoverage).n == 1.0)
    && (args.evidence < 4 ==> Get(p, EvidenceCoverage).n == args.evidence as real / 4.0)
  }

  /** Full efficiency up to five hundred tokens, then five hundred over what was spent; cheap below five
      thousand; full recovery with a rollback point. */
  predicate SpendingSays(args: EvalArgs, p: Payload) {
    var total := args.tokensIn + args.tokensOut;
    Get(p, TokenEfficiency).Num?
    && (total <= 500 ==> Get(p, TokenEfficiency).n == 1.0) && (total > 500 ==> Get(p, TokenEfficiency).n == 500.0 / total as real)
    && Scored(p, CostScore, total < 5000, 1.0, 0.8) && Scored(p, RecoveryRate, Truthy(args.rollback), 1.0, 0.5)
  }

  /** Under a key the evaluation goes by the key, else by its new id. */
  predicate NamedFor(args: EvalArgs, id: Text) {
    if args.key.Str? && args.key.t != EMPTY then id == EvaluationIdOf(args.key.t)
    else (args.key == Null || args.key == Str(EMPTY)) ==> id == args.newId
  }

  predicate ResultSays(args: EvalArgs, id: Text, p: Payload) {
    NamedFor(args, id) && Get(p, EvaluationId) == Str(id) && Get(p, MissionId) == Str(args.mission)
    && Get(p, IdempotencyKey) == args.key && Get(p, CreatedAt) == Str(args.created)
    && ConductSays(args, p) && CoverageSays(args, p) && SpendingSays(args, p)
  }

  // ---- what stands ------------------------------------------------------------------------------------------

  predicate RowSays(rs: map<Text, Row>, id: Text, rtype: Word, mission: Text, created: Text, p: Payload) {
    id in rs && rs[id].rtype == Lit(rtype) && rs[id].mission == Str(mission) && rs[id].created == created
    && rs[id].body == Obj(p) && SealFits(id, rs[id])
  }

  /** The evaluation is stored and, under a key, mapped. */
  ghost predicate EvaluationStands(args: EvalArgs, rs: map<Text, Row>, p: Payload) {
    exists id ::
      ResultSays(args, id, p) && RowSays(rs, id, EvaluationRecord, args.mission, args.created, p)
      && (Truthy(args.key) ==> RowSays(
            rs, EvaluationMappingIdOf(Show(args.key)), EvaluationMapping, args.mission, args.created,
            map[IdempotencyKey := args.key, EvaluationId := Str(id)]))
  }

  /** An evaluation stored before answers, of this mission and under this key. */
  ghost predicate StoredAnswers(args: EvalArgs, rs: map<Text, Row>, p: Payload) {
    Truthy(args.key) && Get(p, MissionId) == Str(args.mission) && (Get(p, IdempotencyKey) == Null || Get(p, IdempotencyKey) == args.key)
    && exists id :: IntactRow(rs, id) && rs[id].body == Obj(p)
  }

  /** The event of an evaluation: new where neither its id nor its key is taken. */
  predicate EventAnswers(args: EvalArgs, es: map<Text, EventRow>, es': map<Text, EventRow>, p: Payload) {
    var row := EventRow(Lit(MissionEvaluated), args.mission, Lit(MissionAggregate), Lit(EvaluationEngineActor), args.trace,
                        args.stamp, if Truthy(args.key) then Some(Key(EvaluationEvent, Show(args.key))) else None, Obj(p));
    es' == if Unclaimed(es, Event(args.eventId, row)) then es[args.eventId := row] else es
  }

  /** What `evaluate` returns was stored by this call or before it, and its event is published. */
  ghost predicate EvaluateAnswers(args: EvalArgs, db: Tables, db': Tables, outcome: Stage) {
    outcome.Returned? ==>
      (EvaluationStands(args, db'.records, outcome.result)
       || (StoredAnswers(args, db.records, outcome.result) && db'.records == db.records))
      && EventAnswers(args, db.events, db'.events, outcome.result)
  }

  // ---- the proof ---------------------------------------------------------------------------------------------

  lemma ConductIs(args: EvalArgs)
    ensures ConductSays(args, ResultOf(args))
  {
    PassesExactlyWhen(args);
  }

  lemma CoverageIs(args: EvalArgs)
    ensures CoverageSays(args, ResultOf(args))
  {
    if args.evidence < 4 { assert args.evidence as real / 4.0 <= 1.0; }
  }

  lemma SpendingIs(args: EvalArgs)
    ensures SpendingSays(args, ResultOf(args))
  {
    var total := args.tokensIn + args.tokensOut;
    if total > 500 { assert 500.0 / total as real <= 1.0; }
  }

  lemma ResultIs(args: EvalArgs)
    ensures ResultSays(args, EvaluationIdFor(args), ResultOf(args))
  {
    ConductIs(args);
    CoverageIs(args);
    SpendingIs(args);
  }

  lemma EventIs(args: EvalArgs, es: map<Text, EventRow>, p: Payload)
    ensures EventAnswers(args, es, SaveEvent(Tables(map[], es), EvaluatedEvent(args, p)).events, p)
  {
    SaveEventStands(Tables(map[], es), EvaluatedEvent(args, p));
  }

  lemma FirstWriteSays(it: Item, w: Word, mission: Text, rs: map<Text, Row>)
    requires it.rtype == Lit(w) && it.mission == Str(mission) && it.id in rs
    requires rs[it.id] == FirstWrite(it) || SameRecord(rs[it.id], it)
    ensures RowSays(rs, it.id, w, mission, it.created, it.payload)
  {
  }

  lemma BothSaved(rs: map<Text, Row>, a: Item, b: Item)
    requires a.id != b.id && SaveAll(rs, [a, b]).Some?
    ensures var rs' := SaveAll(rs, [a, b]).value;
      a.id in rs' && (rs'[a.id] == FirstWrite(a) || SameRecord(rs'[a.id], a))
      && b.id in rs' && (rs'[b.id] == FirstWrite(b) || SameRecord(rs'[b.id], b))
  {
    assert [a, b][..1] == [a] && [a][..0] == [];
  }

  /** A keyed evaluation that went through stands. */
  lemma SavedStands(args: EvalArgs, rs: map<Text, Row>)
    requires Keyed(args) && SaveAll(rs, [RecordItem(args), MappingItem(args)]).Some?
    ensures EvaluationStands(args, SaveAll(rs, [RecordItem(args), MappingItem(args)]).value, ResultOf(args))
  {
    var rs' := SaveAll(rs, [RecordItem(args), MappingItem(args)]).value;
    ResultIs(args);
    BothSaved(rs, RecordItem(args), MappingItem(args));
    FirstWriteSays(RecordItem(args), EvaluationRecord, args.mission, rs');
    FirstWriteSays(MappingItem(args), EvaluationMapping, args.mission, rs');
  }

  lemma SavedAloneStands(args: EvalArgs, db: Tables)
    requires !Keyed(args)
    ensures EvaluationStands(args, SaveRecord(db, RecordItem(args)).records, ResultOf(args))
  {
    ResultIs(args);
    SaveRecordStands(db, RecordItem(args));
  }

  lemma RecordAnswers(args: EvalArgs, rs: map<Text, Row>, id: Text)
    requires Keyed(args) && AfterRecord(args, EnvelopeOf(rs, id)).Publishing?
    ensures StoredAnswers(args, rs, AfterRecord(args, EnvelopeOf(rs, id)).result)
  {
    IntactIsRead(rs, id);
  }

  lemma WinnerAnswers(args: EvalArgs, rs: map<Text, Row>, id: Text)
    requires Keyed(args) && AfterWinner(args, EnvelopeOf(rs, id)).Publishing?
    ensures StoredAnswers(args, rs, AfterWinner(args, EnvelopeOf(rs, id)).result)
  {
    IntactIsRead(rs, id);
  }
}
