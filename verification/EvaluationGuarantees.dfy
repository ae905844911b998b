/** What every engine run of evaluations guarantees. */
module EvaluationGuarantees {
  import opened Ledger
  import opened StoreSpec
  import opened EvaluationSteps
  import opened EvaluationRuns

  // ---- reads -----------------------------------------------------------------------------

  /** The mapping found under a won key is the winner's. */
  lemma FoundIsWinners(rs: map<Text, Row>, won: map<Text, Win>, args: EvalArgs)
    requires StoreOk(rs, won) && AllMade(won) && Keyed(args) && Arrives(args)
    ensures match FoundMapping(rs, args.key)
      case None => KeyOf(args) !in won
      case Some(id) => KeyOf(args) in won && id == won[KeyOf(args)].mapping.id
                       && EnvelopeOf(rs, id).value.payload == won[KeyOf(args)].mapping.payload
                       && EnvelopeOf(rs, id).value.mission == won[KeyOf(args)].mapping.mission
  {
    var found, key := FoundMapping(rs, args.key), KeyOf(args);
    if key in won { WonIsFound(rs, won[key], key, args.key); }
    if found.Some? {
      FoundIsWon(rs, won, found.value, args.key);
    }
  }

  lemma WonIsFound(rs: map<Text, Row>, win: Win, key: Text, sought: Value)
    requires WinStored(rs, key, win) && Made(win) && win.args.key == Str(key) == sought
    ensures Finds(rs, Lit(EvaluationMapping), IdempotencyKey, sought, win.mapping.id)
  {
    MappingKey(win);
  }

  lemma MappingKey(win: Win)
    requires Made(win)
    ensures Get(win.mapping.payload, IdempotencyKey) == win.args.key
    ensures Get(win.mapping.payload, EvaluationId) == Str(win.record.id) && win.mapping.mission == win.record.mission
  {
  }

  lemma FoundIsWon(rs: map<Text, Row>, won: map<Text, Win>, id: Text, sought: Value)
    requires StoreOk(rs, won) && AllMade(won) && sought.Str?
    requires Finds(rs, Lit(EvaluationMapping), IdempotencyKey, sought, id)
    ensures sought.t in won && id == won[sought.t].mapping.id
    ensures EnvelopeOf(rs, id).value.payload == won[sought.t].mapping.payload
    ensures EnvelopeOf(rs, id).value.mission == won[sought.t].mapping.mission
  {
    assert Ours(rs[id]) && Accounted(won, id, rs[id]);
    var key :| key in won && (id == EvaluationIdOf(key) || id == EvaluationMappingIdOf(key));
    assert WinStored(rs, key, won[key]) && Made(won[key]);
    MappingKey(won[key]);
  }

  lemma WonFacts(won: map<Text, Win>, key: Text)
    requires AllMade(won) && key in won
    ensures var win := won[key];
      Get(win.mapping.payload, EvaluationId) == Str(win.record.id) && win.mapping.mission == win.record.mission
      && Parses(win.record.payload) && Get(win.record.payload, MissionId) == win.record.mission
      && Get(win.record.payload, IdempotencyKey) == Str(key) && win.record.payload != map[]
  {
    assert Made(won[key]);
    MappingKey(won[key]);
    WinnerParses(won[key]);
  }

  lemma TargetIsWinners(rs: map<Text, Row>, won: map<Text, Win>, args: EvalArgs)
    requires StoreOk(rs, won) && AllMade(won) && Keyed(args) && Arrives(args)
    ensures var target := Target(rs, FoundMapping(rs, args.key), args.mission);
      if KeyOf(args) in won && won[KeyOf(args)].record.mission == Str(args.mission)
      then target == Some(won[KeyOf(args)].record.id) else target == None
  {
    FoundIsWinners(rs, won, args);
    if KeyOf(args) in won {
      WonFacts(won, KeyOf(args));
      WonIdIsText(rs, won, KeyOf(args));
    }
  }

  lemma WonIdIsText(rs: map<Text, Row>, won: map<Text, Win>, key: Text)
    requires StoreOk(rs, won) && key in won
    ensures Truthy(Str(won[key].record.id)) && Show(Str(won[key].record.id)) == won[key].record.id
  {
    assert WinStored(rs, key, won[key]);
  }

  lemma RecordIsWinners(rs: map<Text, Row>, won: map<Text, Win>, args: EvalArgs, id: Text)
    requires StoreOk(rs, won) && AllMade(won) && Arrives(args) && IsTarget(won, args, id)
    ensures AfterRecord(args, EnvelopeOf(rs, id)) == Publishing(won[KeyOf(args)].record.payload)
    ensures AfterWinner(args, EnvelopeOf(rs, id)) == Publishing(won[KeyOf(args)].record.payload)
  {
    var win := won[KeyOf(args)];
    WonFacts(won, KeyOf(args));
    assert WinStored(rs, KeyOf(args), win);
    assert EnvelopeOf(rs, id).Some? && EnvelopeOf(rs, id).value.payload == win.record.payload;
  }

  lemma WinnerParses(win: Win)
    requires Made(win) && win.args.key.Str?
    ensures var p := win.record.payload;
      Parses(p) && Get(p, MissionId) == win.record.mission && Get(p, IdempotencyKey) == win.args.key && p != map[]
  {
    ResultFacts(win.args);
  }

  // ---- one step ----------------------------------------------------------------------------

  lemma ReadStep(db: Tables, won: map<Text, Win>, c: Call)
    requires StoreOk(db.records, won) && AllMade(won) && CallOk(db.records, won, c)
    requires !c.stage.Saving? && !c.stage.SavingAlone? && !c.stage.Publishing?
    ensures StageOk(db.records, won, c.args, Next(db, c.args, c.stage))
  {
    match c.stage
    case Looking => TargetIsWinners(db.records, won, c.args);
    case LookingAgain => TargetIsWinners(db.records, won, c.args);
    case ReadingRecord(id) => RecordIsWinners(db.records, won, c.args, id);
    case ReadingWinner(id) => RecordIsWinners(db.records, won, c.args, id);
    case _ =>
  }

  lemma SaveStep(db: Tables, won: map<Text, Win>, c: Call, db': Tables)
    requires StoreOk(db.records, won) && AllMade(won) && CallOk(db.records, won, c) && c.stage.Saving?
    requires db' == Written(db, c)
    ensures var won' := Winners(db, won, c);
      StoreOk(db'.records, won') && Forward(db.records, won, db'.records, won')
      && StageOk(db'.records, won', c.args, Next(db, c.args, Saving))
  {
    var win := WinOf(c.args);
    WinFacts(c.args);
    SavingIsGood(db.records, won, win, KeyOf(c.args));
    SaveOutcome(db, won, c.args, win, SaveAll(db.records, [win.record, win.mapping]), db');
    SavedStage(db, won, c.args, win);
  }

  lemma SavedStage(db: Tables, won: map<Text, Win>, args: EvalArgs, win: Win)
    requires win == WinOf(args) && Keyed(args)
    ensures var saved := SaveAll(db.records, [win.record, win.mapping]);
      Next(db, args, Saving) == (if saved.Some? then Publishing(win.record.payload) else LookingAgain)
      && Winners(db, won, Call(args, Saving)) == if saved.Some? && KeyOf(args) !in won then won[KeyOf(args) := win] else won
  {
  }

  lemma SaveOutcome(
    db: Tables, won: map<Text, Win>, args: EvalArgs, win: Win, saved: Option<map<Text, Row>>, db': Tables)
    requires StoreOk(db.records, won) && Keyed(args) && win.record.mission == Str(args.mission)
    requires if saved.None? then KeyOf(args) in won || Squatted(db.records, won, KeyOf(args))
             else if KeyOf(args) in won then saved.value == db.records && Matches(won[KeyOf(args)], win)
             else StoreOk(saved.value, won[KeyOf(args) := win])
                  && Forward(db.records, won, saved.value, won[KeyOf(args) := win])
    requires db' == match saved case None => db case Some(rs) => db.(records := rs)
    ensures var won' := if saved.Some? && KeyOf(args) !in won then won[KeyOf(args) := win] else won;
      StoreOk(db'.records, won') && Forward(db.records, won, db'.records, won')
      && StageOk(db'.records, won', args, if saved.Some? then Publishing(win.record.payload) else LookingAgain)
  {
    if saved.None? || KeyOf(args) in won { StayIsGood(db.records, won); }
  }

  /** The row of an evaluation without a key. */
  lemma AloneRow(db: Tables, won: map<Text, Win>, args: EvalArgs, db': Tables)
    requires StoreOk(db.records, won) && Arrives(args) && !Keyed(args) && db' == SaveRecord(db, RecordItem(args))
    ensures StoreOk(db'.records, won) && Forward(db.records, won, db'.records, won)
  {
    ResultFacts(args);
    AloneIsGood(db, won, RecordItem(args));
  }

  lemma AloneStage(rs: map<Text, Row>, won: map<Text, Win>, args: EvalArgs, result: Payload)
    requires !Keyed(args)
    ensures StageOk(rs, won, args, Publishing(result)) && StageOk(rs, won, args, Returned(result))
  {
  }

  lemma AloneStep(db: Tables, won: map<Text, Win>, args: EvalArgs, db': Tables)
    requires StoreOk(db.records, won) && CallOk(db.records, won, Call(args, SavingAlone))
    requires db' == Written(db, Call(args, SavingAlone))
    ensures StoreOk(db'.records, won) && Forward(db.records, won, db'.records, won)
    ensures StageOk(db'.records, won, args, Next(db, args, SavingAlone))
  {
    AloneRow(db, won, args, db');
    AloneStage(db'.records, won, args, ResultOf(args));
  }

  lemma PublishStep(db: Tables, won: map<Text, Win>, args: EvalArgs, result: Payload, db': Tables)
    requires StoreOk(db.records, won) && CallOk(db.records, won, Call(args, Publishing(result)))
    requires db' == Written(db, Call(args, Publishing(result)))
    ensures db'.records == db.records && Forward(db.records, won, db'.records, won)
    ensures StageOk(db'.records, won, args, Next(db, args, Publishing(result)))
  {
    StayIsGood(db.records, won);
  }

  /** A step that writes nothing. */
  lemma QuietStep(db: Tables, won: map<Text, Win>, c: Call)
    requires StoreOk(db.records, won) && AllMade(won) && CallOk(db.records, won, c)
    requires !c.stage.Saving? && !c.stage.SavingAlone? && !c.stage.Publishing?
    ensures Written(db, c) == db && Winners(db, won, c) == won && Forward(db.records, won, db.records, won)
    ensures StageOk(db.records, won, c.args, Next(db, c.args, c.stage))
  {
    ReadStep(db, won, c);
    StayIsGood(db.records, won);
  }

  lemma OnlySavingWins(db: Tables, won: map<Text, Win>, c: Call)
    requires !c.stage.Saving?
    ensures Winners(db, won, c) == won
  {
  }

  lemma StepIsGood(db: Tables, won: map<Text, Win>, c: Call, db': Tables)
    requires StoreOk(db.records, won) && AllMade(won) && CallOk(db.records, won, c) && db' == Written(db, c)
    ensures var won' := Winners(db, won, c);
      StoreOk(db'.records, won') && Forward(db.records, won, db'.records, won')
      && StageOk(db'.records, won', c.args, Next(db, c.args, c.stage))
  {
    if c.stage.Saving? {
      SaveStep(db, won, c, db');
    } else {
      OnlySavingWins(db, won, c);
      WritingStep(db, won, c, db');
    }
  }

  lemma WritingStep(db: Tables, won: map<Text, Win>, c: Call, db': Tables)
    requires StoreOk(db.records, won) && AllMade(won) && CallOk(db.records, won, c) && db' == Written(db, c)
    requires !c.stage.Saving?
    ensures StoreOk(db'.records, won) && Forward(db.records, won, db'.records, won)
    ensures StageOk(db'.records, won, c.args, Next(db, c.args, c.stage))
  {
    match c.stage
    case SavingAlone => AloneStep(db, won, c.args, db');
    case Publishing(result) => PublishStep(db, won, c.args, result, db');
    case _ => QuietStep(db, won, c);
  }

  lemma WinnersAreMade(db: Tables, won: map<Text, Win>, c: Call)
    requires AllMade(won) && Arrives(c.args)
    ensures AllMade(Winners(db, won, c))
  {
    if Wins(db, c) && KeyOf(c.args) !in won {
      WinFacts(c.args);
      OneMoreMade(won, KeyOf(c.args), WinOf(c.args));
    }
  }

  lemma OneMoreMade(won: map<Text, Win>, key: Text, win: Win)
    requires AllMade(won) && Made(win) && win.args.key == Str(key)
    ensures AllMade(won[key := win])
  {
    var won' := won[key := win];
    forall k | k in won' ensures Made(won'[k]) && won'[k].args.key == Str(k) {
      if k != key { assert Made(won[k]); }
    }
  }

  lemma WriteKeepsKeys(db: Tables, c: Call)
    requires UniqueKeys(db.events)
    ensures UniqueKeys(Written(db, c).events)
  {
    match c.stage
    case Saving => ApplyGrows(db, DoSaveAll([RecordItem(c.args), MappingItem(c.args)]));
    case Publishing(result) => ApplyGrows(db, DoSaveEvent(EvaluatedEvent(c.args, result)));
    case _ =>
  }

  // ---- every run ------------------------------------------------------------------------------

  lemma MoveKeepsInv(s: Sys, m: Move)
    requires Inv(s) && (m.Foreign? ==> Leaves(s.db.records, Apply(s.db, m.op).records))
    ensures Inv(Do(s, m))
  {
    if m.Advance? && m.i < |s.calls| {
      AdvanceKeepsInv(s, m.i);
    } else if m.Foreign? {
      ForeignIsGood(s.db, s.won, m.op, Do(s, m).db);
      forall i | 0 <= i < |s.calls| ensures CallOk(Do(s, m).db.records, s.won, s.calls[i]) {
        CallStays(s.db.records, s.won, Do(s, m).db.records, s.won, s.calls[i]);
      }
    }
  }

  lemma AdvanceKeepsInv(s: Sys, i: nat)
    requires Inv(s) && i < |s.calls|
    ensures Inv(Do(s, Advance(i)))
  {
    var s', c := Do(s, Advance(i)), s.calls[i];
    assert CallOk(s.db.records, s.won, c);
    StepIsGood(s.db, s.won, c, s'.db);
    WinnersAreMade(s.db, s.won, c);
    WriteKeepsKeys(s.db, c);
    CallsFollow(s, i, s', c.(stage := Next(s.db, c.args, c.stage)));
  }

  lemma CallsFollow(s: Sys, i: nat, s': Sys, c': Call)
    requires Inv(s) && i < |s.calls| && s'.calls == s.calls[i := c']
    requires Forward(s.db.records, s.won, s'.db.records, s'.won) && CallOk(s'.db.records, s'.won, c')
    ensures forall j :: 0 <= j < |s'.calls| ==> CallOk(s'.db.records, s'.won, s'.calls[j])
  {
    forall j | 0 <= j < |s'.calls| ensures CallOk(s'.db.records, s'.won, s'.calls[j]) {
      if j != i { CallStays(s.db.records, s.won, s'.db.records, s'.won, s.calls[j]); }
    }
  }

  lemma {:induction false} RunKeepsInv(moves: seq<Move>)
    requires EngineRun(moves)
    ensures Inv(Run(moves))
  {
    if moves != [] {
      RunKeepsInv(moves[..|moves| - 1]);
      MoveKeepsInv(Run(moves[..|moves| - 1]), moves[|moves| - 1]);
    }
  }

  // ---- theorems --------------------------------------------------------------------------------

  predicate CallsUnder(c: Call, key: Text) {
    Keyed(c.args) && c.args.key == Str(key)
  }

  /** All calls that return under one key are for one mission and return equal results. */
  lemma {:induction false} ReturnedEvaluationsAgree(moves: seq<Move>, i: nat, j: nat, key: Text)
    requires EngineRun(moves) && i < |Run(moves).calls| && j < |Run(moves).calls|
    requires CallsUnder(Run(moves).calls[i], key) && Run(moves).calls[i].stage.Returned?
    requires CallsUnder(Run(moves).calls[j], key) && Run(moves).calls[j].stage.Returned?
    ensures Run(moves).calls[i].stage.result == Run(moves).calls[j].stage.result
    ensures Run(moves).calls[i].args.mission == Run(moves).calls[j].args.mission
  {
    RunKeepsInv(moves);
    ReturnsWinner(Run(moves), i, key);
    ReturnsWinner(Run(moves), j, key);
  }

  /** A keyed call that has returned has the result of the winner of its key, and is for its mission. */
  lemma ReturnsWinner(s: Sys, i: nat, key: Text)
    requires Inv(s) && i < |s.calls| && CallsUnder(s.calls[i], key) && s.calls[i].stage.Returned?
    ensures key in s.won && s.won[key].record.mission == Str(s.calls[i].args.mission)
    ensures s.calls[i].stage.result == ResultOf(s.won[key].args)
  {
    assert CallOk(s.db.records, s.won, s.calls[i]) && Made(s.won[key]);
  }

  /** A key has at most one stored evaluation and one mapping, and it has both or neither. */
  lemma {:induction false} OneEvaluationPerKey(moves: seq<Move>, id: Text, key: Text)
    requires EngineRun(moves) && Truthy(Str(key)) && id in Run(moves).db.records && Ours(Run(moves).db.records[id])
    requires Run(moves).db.records[id].body.Obj?
    requires Get(Run(moves).db.records[id].body.p, IdempotencyKey) == Str(key)
    ensures var rs := Run(moves).db.records;
      id == (if rs[id].rtype == Lit(EvaluationRecord) then EvaluationIdOf(key) else EvaluationMappingIdOf(key))
      && EvaluationIdOf(key) in rs && EvaluationMappingIdOf(key) in rs
      && rs[EvaluationIdOf(key)].mission == rs[EvaluationMappingIdOf(key)].mission
  {
    RunKeepsInv(moves);
    var s := Run(moves);
    assert Accounted(s.won, id, s.db.records[id]);
    var k :| k in s.won && (id == EvaluationIdOf(k) || id == EvaluationMappingIdOf(k));
    assert WinStored(s.db.records, k, s.won[k]) && Made(s.won[k]);
    MappingKey(s.won[k]);
    WinnerParses(s.won[k]);
  }

  /** The stored evaluation of a key, once there, never changes; and a call of another mission
      with that key never returns and never writes anything. */
  lemma {:induction false} OtherMissionsChangeNothing(moves: seq<Move>, i: nat, key: Text)
    requires EngineRun(moves) && i < |Run(moves).calls| && CallsUnder(Run(moves).calls[i], key)
    requires key in Run(moves).won && Run(moves).won[key].record.mission != Str(Run(moves).calls[i].args.mission)
    ensures Do(Run(moves), Advance(i)).db == Run(moves).db && !Run(moves).calls[i].stage.Returned?
  {
    RunKeepsInv(moves);
    OtherMissionWritesNothing(Run(moves), i, key);
  }

  lemma OtherMissionWritesNothing(s: Sys, i: nat, key: Text)
    requires Inv(s) && i < |s.calls| && CallsUnder(s.calls[i], key)
    requires key in s.won && s.won[key].record.mission != Str(s.calls[i].args.mission)
    ensures Do(s, Advance(i)).db == s.db && !s.calls[i].stage.Returned?
  {
    var c := s.calls[i];
    AdvanceWrites(s, i);
    if c.stage.Saving? {
      OtherMissionSaves(s.db, s.won, c, key);
    } else {
      OtherMissionReads(s.db, s.won, c, key);
    }
  }

  lemma AdvanceWrites(s: Sys, i: nat)
    requires Inv(s) && i < |s.calls|
    ensures Do(s, Advance(i)).db == Written(s.db, s.calls[i])
    ensures StoreOk(s.db.records, s.won) && CallOk(s.db.records, s.won, s.calls[i])
  {
  }

  lemma OtherMissionSaves(db: Tables, won: map<Text, Win>, c: Call, key: Text)
    requires StoreOk(db.records, won) && Arrives(c.args) && CallsUnder(c, key) && c.stage.Saving?
    requires key in won && won[key].record.mission != Str(c.args.mission)
    ensures Written(db, c) == db
  {
    WinFacts(c.args);
    WonIsNotSavedAgain(db.records, won, WinOf(c.args), key);
    RefusedSave(db, RecordItem(c.args), MappingItem(c.args));
  }

  lemma WonIsNotSavedAgain(rs: map<Text, Row>, won: map<Text, Win>, win: Win, key: Text)
    requires StoreOk(rs, won) && WinShape(win, key) && key in won && won[key].record.mission != win.record.mission
    ensures SaveAll(rs, [win.record, win.mapping]).None?
  {
    SavingIsGood(rs, won, win, key);
  }

  lemma RefusedSave(db: Tables, record: Item, mapping: Item)
    requires SaveAll(db.records, [record, mapping]).None?
    ensures Apply(db, DoSaveAll([record, mapping])) == db
  {
  }

  lemma OtherMissionReads(db: Tables, won: map<Text, Win>, c: Call, key: Text)
    requires CallOk(db.records, won, c) && CallsUnder(c, key) && !c.stage.Saving?
    requires key in won && won[key].record.mission != Str(c.args.mission)
    ensures Written(db, c) == db && !c.stage.Returned?
  {
  }

  /** A call for the winning mission, however late, ends with the winner's result or with an event
      conflict, which is the subject of `EvaluationConflicts`; it never meets another conflict. */
  lemma {:induction false} WinningMissionNeverConflicts(moves: seq<Move>, i: nat, key: Text)
    requires EngineRun(moves) && i < |Run(moves).calls| && CallsUnder(Run(moves).calls[i], key)
    requires key in Run(moves).won && Run(moves).won[key].record.mission == Str(Run(moves).calls[i].args.mission)
    ensures var st := Run(moves).calls[i].stage;
      (st.Raised? ==> st.why == EventConflict)
      && (st.Returned? ==> st.result == ResultOf(Run(moves).won[key].args))
  {
    RunKeepsInv(moves);
    if Run(moves).calls[i].stage.Returned? { ReturnsWinner(Run(moves), i, key); }
    if Run(moves).calls[i].stage.Raised? { WinnerIsNotLost(Run(moves), i, key); }
  }

  lemma WinnerIsNotLost(s: Sys, i: nat, key: Text)
    requires Inv(s) && i < |s.calls| && CallsUnder(s.calls[i], key) && s.calls[i].stage.Raised?
    requires key in s.won && s.won[key].record.mission == Str(s.calls[i].args.mission)
    ensures s.calls[i].stage.why == EventConflict
  {
    assert CallOk(s.db.records, s.won, s.calls[i]);
  }

  /** A key once won keeps its evaluation, whatever anyone does next. */
  lemma {:induction false} WinnersStay(moves: seq<Move>, m: Move, key: Text)
    requires EngineRun(moves + [m]) && key in Run(moves).won
    ensures key in Run(moves + [m]).won && Run(moves + [m]).won[key] == Run(moves).won[key]
    ensures var id := EvaluationIdOf(key);
      id in Run(moves).db.records && id in Run(moves + [m]).db.records
      && Run(moves + [m]).db.records[id] == Run(moves).db.records[id]
  {
    assert (moves + [m])[..|moves + [m]| - 1] == moves;
    RunKeepsInv(moves);
    RunKeepsInv(moves + [m]);
    var s, s' := Run(moves), Run(moves + [m]);
    WonStaysWon(s, m, key);
    assert WinStored(s.db.records, key, s.won[key]) && WinStored(s'.db.records, key, s'.won[key]);
  }

  lemma WonStaysWon(s: Sys, m: Move, key: Text)
    requires key in s.won
    ensures key in Do(s, m).won && Do(s, m).won[key] == s.won[key]
  {
  }
}
