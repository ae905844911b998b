/** Runs of any number of evaluations, interleaved with each other and with any store call that
    leaves evaluations and their mappings alone. One key has one evaluation, for one mission. */
module EvaluationRuns {
  import opened Ledger
  import opened StoreSpec
  import opened EvaluationSteps

  /** A call that won its key, with the two records it saved. */
  datatype Win = Win(args: EvalArgs, record: Item, mapping: Item)

  function WinOf(args: EvalArgs): Win {
    Win(args, RecordItem(args), MappingItem(args))
  }

  predicate Made(win: Win) {
    win == WinOf(win.args)
  }

  /** The tables, the winner of each key, and every call so far. */
  datatype Sys = Sys(db: Tables, won: map<Text, Win>, calls: seq<Call>)

  datatype Move = Arrive(args: EvalArgs) | Advance(i: nat) | Foreign(op: Op)

  predicate Ours(row: Row) {
    row.rtype == Lit(EvaluationRecord) || row.rtype == Lit(EvaluationMapping)
  }

  /** Evaluations and mappings are the same before and after. */
  ghost predicate Leaves(rs: map<Text, Row>, rs': map<Text, Row>) {
    forall id :: (id in rs && Ours(rs[id])) || (id in rs' && Ours(rs'[id])) ==>
      id in rs && id in rs' && rs'[id] == rs[id]
  }

  /** `new_id` never yields an id derived from a key. */
  predicate Arrives(args: EvalArgs) {
    args.newId.User? && (args.key == Null || args.key.Str?)
  }

  ghost predicate Wins(db: Tables, c: Call) {
    c.stage.Saving? && Keyed(c.args) && SaveAll(db.records, [RecordItem(c.args), MappingItem(c.args)]).Some?
  }

  ghost function Winners(db: Tables, won: map<Text, Win>, c: Call): map<Text, Win> {
    if Wins(db, c) && KeyOf(c.args) !in won then won[KeyOf(c.args) := WinOf(c.args)] else won
  }

  ghost function Do(s: Sys, m: Move): Sys {
    match m
    case Arrive(args) => if Arrives(args) then s.(calls := s.calls + [Start(args)]) else s
    case Foreign(op) => s.(db := Apply(s.db, op))
    case Advance(i) =>
      if i >= |s.calls| then s
      else
        var c := s.calls[i];
        Sys(Written(s.db, c), Winners(s.db, s.won, c), s.calls[i := c.(stage := Next(s.db, c.args, c.stage))])
  }

  ghost function Run(moves: seq<Move>): Sys {
    if moves == [] then Sys(Tables(map[], map[]), map[], [])
    else Do(Run(moves[..|moves| - 1]), moves[|moves| - 1])
  }

  ghost predicate EngineRun(moves: seq<Move>) {
    moves == []
    || (EngineRun(moves[..|moves| - 1])
        && (moves[|moves| - 1].Foreign? ==>
            var db := Run(moves[..|moves| - 1]).db; Leaves(db.records, Apply(db, moves[|moves| - 1].op).records)))
  }

  // ---- the invariant --------------------------------------------------------------------

  /** The winner's two records are stored as it wrote them. */
  ghost predicate WinStored(rs: map<Text, Row>, key: Text, win: Win) {
    win.record.id == EvaluationIdOf(key) && win.mapping.id == EvaluationMappingIdOf(key)
    && win.record.rtype == Lit(EvaluationRecord) && win.mapping.rtype == Lit(EvaluationMapping)
    && win.record.id in rs && rs[win.record.id] == FirstWrite(win.record)
    && win.mapping.id in rs && rs[win.mapping.id] == FirstWrite(win.mapping)
  }

  /** Every evaluation or mapping is a winner's, or an evaluation made without a key. */
  ghost predicate Accounted(won: map<Text, Win>, id: Text, row: Row) {
    (exists key :: key in won && (id == EvaluationIdOf(key) || id == EvaluationMappingIdOf(key)))
    || (id.User? && row.rtype == Lit(EvaluationRecord) && row.body.Obj? && !Truthy(Get(row.body.p, IdempotencyKey)))
  }

  ghost predicate StoreOk(rs: map<Text, Row>, won: map<Text, Win>) {
    (forall key :: key in won ==> WinStored(rs, key, won[key]))
    && (forall id :: id in rs && Ours(rs[id]) ==> Accounted(won, id, rs[id]))
  }

  ghost predicate AllMade(won: map<Text, Win>) {
    forall key {:trigger Made(won[key])} :: key in won ==> Made(won[key]) && won[key].args.key == Str(key)
  }

  /** This mission's evaluation, as the winner saved it. */
  ghost predicate IsResult(won: map<Text, Win>, args: EvalArgs, result: Payload) {
    !Keyed(args)
    || (KeyOf(args) in won && won[KeyOf(args)].record.mission == Str(args.mission)
        && result == won[KeyOf(args)].record.payload)
  }

  ghost predicate IsTarget(won: map<Text, Win>, args: EvalArgs, id: Text) {
    Keyed(args) && KeyOf(args) in won && won[KeyOf(args)].record.mission == Str(args.mission)
    && id == won[KeyOf(args)].record.id
  }

  /** One of the key's two ids is taken by a record that is not an evaluation: nobody will win. */
  ghost predicate Squatted(rs: map<Text, Row>, won: map<Text, Win>, key: Text) {
    key !in won && (EvaluationIdOf(key) in rs || EvaluationMappingIdOf(key) in rs)
  }

  /** The key belongs to another mission, or to nobody for good. */
  ghost predicate Lost(rs: map<Text, Row>, won: map<Text, Win>, args: EvalArgs) {
    if KeyOf(args) in won then won[KeyOf(args)].record.mission != Str(args.mission)
    else Squatted(rs, won, KeyOf(args))
  }

  ghost predicate StageOk(rs: map<Text, Row>, won: map<Text, Win>, args: EvalArgs, st: Stage) {
    match st
    case Looking => Keyed(args)
    case Saving => Keyed(args)
    case LookingAgain => Keyed(args) && (KeyOf(args) in won || Squatted(rs, won, KeyOf(args)))
    case ReadingRecord(id) => IsTarget(won, args, id)
    case ReadingWinner(id) => IsTarget(won, args, id)
    case SavingAlone => !Keyed(args)
    case Publishing(result) => IsResult(won, args, result)
    case Returned(result) => IsResult(won, args, result)
    case Raised(why) => why == EventConflict || (why == IdentityConflict && Keyed(args) && Lost(rs, won, args))
  }

  ghost predicate CallOk(rs: map<Text, Row>, won: map<Text, Win>, c: Call) {
    Arrives(c.args) && StageOk(rs, won, c.args, c.stage)
  }

  ghost predicate Inv(s: Sys) {
    UniqueKeys(s.db.events) && StoreOk(s.db.records, s.won) && AllMade(s.won)
    && forall i :: 0 <= i < |s.calls| ==> CallOk(s.db.records, s.won, s.calls[i])
  }

  // ---- what moves do ------------------------------------------------------------------------

  /** Ids stay taken, winners stay, and a squatted key stays unwon. */
  ghost predicate Forward(rs: map<Text, Row>, won: map<Text, Win>, rs': map<Text, Row>, won': map<Text, Win>) {
    rs.Keys <= rs'.Keys && (forall key :: key in won ==> key in won' && won'[key] == won[key])
    && (forall key :: Squatted(rs, won, key) ==> Squatted(rs', won', key))
  }

  lemma CallStays(rs: map<Text, Row>, won: map<Text, Win>, rs': map<Text, Row>, won': map<Text, Win>, c: Call)
    requires CallOk(rs, won, c) && Forward(rs, won, rs', won')
    ensures CallOk(rs', won', c)
  {
  }

  lemma WinFacts(args: EvalArgs)
    requires Keyed(args) && args.key.Str?
    ensures var win := WinOf(args);
      win.record.id == EvaluationIdOf(KeyOf(args)) && win.mapping.id == EvaluationMappingIdOf(KeyOf(args))
      && win.record.rtype == Lit(EvaluationRecord) && win.mapping.rtype == Lit(EvaluationMapping)
      && win.record.mission == Str(args.mission) == win.mapping.mission && args.key == Str(KeyOf(args))
  {
  }

  lemma ResultFacts(args: EvalArgs)
    requires args.key == Null || args.key.Str?
    ensures var p := ResultOf(args);
      Parses(p) && Get(p, MissionId) == Str(args.mission) && Get(p, IdempotencyKey) == args.key && p != map[]
  {
    var p := ResultOf(args);
    assert p.Keys == RESULT_FIELDS;
    assert MissionId in p;
  }

  /** Saving two records at once goes through exactly when each is absent or there already. */
  lemma TwoItems(rs: map<Text, Row>, a: Item, b: Item)
    requires a.id != b.id
    ensures SaveAll(rs, [a, b]).Some? <==> (a.id in rs ==> SameRecord(rs[a.id], a)) && (b.id in rs ==> SameRecord(rs[b.id], b))
    ensures SaveAll(rs, [a, b]).Some? ==>
      SaveAll(rs, [a, b]).value == Added(Added(rs, a), b)
  {
    var both := [a, b];
    assert both[..1] == [a] && both[1] == b && [a][..0] == [];
    assert SaveAll(rs, []) == Some(rs);
    assert [a][..|[a]| - 1] == [] && both[..|both| - 1] == [a];
  }

  function Added(rs: map<Text, Row>, it: Item): map<Text, Row> {
    if it.id in rs then rs else rs[it.id := FirstWrite(it)]
  }

  lemma StayIsGood(rs: map<Text, Row>, won: map<Text, Win>)
    ensures Forward(rs, won, rs, won)
  {
  }

  lemma ForeignIsGood(db: Tables, won: map<Text, Win>, op: Op, db': Tables)
    requires UniqueKeys(db.events) && StoreOk(db.records, won) && db' == Apply(db, op) && Leaves(db.records, db'.records)
    ensures UniqueKeys(db'.events) && StoreOk(db'.records, won) && Forward(db.records, won, db'.records, won)
  {
    ApplyGrows(db, op);
    LeftIsGood(db.records, won, db'.records);
  }

  lemma LeftIsGood(rs: map<Text, Row>, won: map<Text, Win>, rs': map<Text, Row>)
    requires StoreOk(rs, won) && Leaves(rs, rs') && rs.Keys <= rs'.Keys
    ensures StoreOk(rs', won) && Forward(rs, won, rs', won)
  {
    forall key | key in won ensures WinStored(rs', key, won[key]) {
      assert WinStored(rs, key, won[key]);
      assert Ours(rs[won[key].record.id]) && Ours(rs[won[key].mapping.id]);
    }
  }

  /** An id of the key that is taken means the key is won, or squatted. */
  lemma TakenMeansLost(rs: map<Text, Row>, won: map<Text, Win>, win: Win, key: Text)
    requires StoreOk(rs, won) && key !in won
    requires win.record.id == EvaluationIdOf(key) && win.mapping.id == EvaluationMappingIdOf(key)
    requires win.record.rtype == Lit(EvaluationRecord) && win.mapping.rtype == Lit(EvaluationMapping)
    ensures win.record.id in rs ==> !SameRecord(rs[win.record.id], win.record)
    ensures win.mapping.id in rs ==> !SameRecord(rs[win.mapping.id], win.mapping)
  {
    NotOursAtKey(rs, won, win.record.id, key);
    NotOursAtKey(rs, won, win.mapping.id, key);
  }

  lemma NotOursAtKey(rs: map<Text, Row>, won: map<Text, Win>, id: Text, key: Text)
    requires StoreOk(rs, won) && key !in won && (id == EvaluationIdOf(key) || id == EvaluationMappingIdOf(key))
    ensures id in rs ==> !Ours(rs[id])
  {
  }

  /** The atomic save: a first win, a replay of the very same records, or a loss that changes
      nothing. */
  lemma SavingIsGood(rs: map<Text, Row>, won: map<Text, Win>, win: Win, key: Text)
    requires StoreOk(rs, won) && WinShape(win, key)
    ensures var saved := SaveAll(rs, [win.record, win.mapping]);
      if saved.None? then key in won || Squatted(rs, won, key)
      else if key in won then saved.value == rs && Matches(won[key], win)
      else StoreOk(saved.value, won[key := win]) && Forward(rs, won, saved.value, won[key := win])
  {
    TwoItems(rs, win.record, win.mapping);
    var saved := SaveAll(rs, [win.record, win.mapping]);
    if key !in won {
      TakenMeansLost(rs, won, win, key);
      if saved.Some? { FirstWinIsGood(rs, won, win, key, saved.value); }
    } else {
      assert WinStored(rs, key, won[key]);
    }
  }

  ghost predicate WinShape(win: Win, key: Text) {
    win.record.id == EvaluationIdOf(key) && win.mapping.id == EvaluationMappingIdOf(key)
    && win.record.rtype == Lit(EvaluationRecord) && win.mapping.rtype == Lit(EvaluationMapping)
  }

  predicate Matches(a: Win, b: Win) {
    a.record.mission == b.record.mission && a.record.payload == b.record.payload
  }

  lemma FirstWinIsGood(rs: map<Text, Row>, won: map<Text, Win>, win: Win, key: Text, rs': map<Text, Row>)
    requires StoreOk(rs, won) && WinShape(win, key) && key !in won
    requires win.record.id !in rs && win.mapping.id !in rs
    requires rs' == rs[win.record.id := FirstWrite(win.record)][win.mapping.id := FirstWrite(win.mapping)]
    ensures StoreOk(rs', won[key := win]) && Forward(rs, won, rs', won[key := win])
  {
    var won' := won[key := win];
    assert rs.Keys <= rs'.Keys;
    AllStored(rs, won, win, key, rs', won');
    AllAccounted(rs, won, win, key, rs');
    SquattersStay(rs, won, win, key, rs');
  }

  lemma AllStored(rs: map<Text, Row>, won: map<Text, Win>, win: Win, key: Text, rs': map<Text, Row>, won': map<Text, Win>)
    requires (forall k :: k in won ==> WinStored(rs, k, won[k])) && WinShape(win, key) && won' == won[key := win]
    requires win.record.id !in rs && win.mapping.id !in rs
    requires rs' == rs[win.record.id := FirstWrite(win.record)][win.mapping.id := FirstWrite(win.mapping)]
    ensures forall k :: k in won' ==> WinStored(rs', k, won'[k])
  {
    forall k | k in won' ensures WinStored(rs', k, won'[k]) {
      if k != key { StillStored(rs, k, won[k], win, key, rs'); }
    }
  }

  lemma StillStored(rs: map<Text, Row>, k: Text, other: Win, win: Win, key: Text, rs': map<Text, Row>)
    requires WinStored(rs, k, other) && WinShape(win, key) && k != key
    requires rs' == rs[win.record.id := FirstWrite(win.record)][win.mapping.id := FirstWrite(win.mapping)]
    ensures WinStored(rs', k, other)
  {
  }

  lemma AllAccounted(rs: map<Text, Row>, won: map<Text, Win>, win: Win, key: Text, rs': map<Text, Row>)
    requires (forall id :: id in rs && Ours(rs[id]) ==> Accounted(won, id, rs[id])) && WinShape(win, key)
    requires rs' == rs[win.record.id := FirstWrite(win.record)][win.mapping.id := FirstWrite(win.mapping)]
    ensures forall id :: id in rs' && Ours(rs'[id]) ==> Accounted(won[key := win], id, rs'[id])
  {
    forall id | id in rs' && Ours(rs'[id]) ensures Accounted(won[key := win], id, rs'[id]) {
      if id == win.record.id || id == win.mapping.id {
        assert key in won[key := win];
      } else {
        StillAccounted(won, key, win, id, rs[id]);
      }
    }
  }

  lemma StillAccounted(won: map<Text, Win>, key: Text, win: Win, id: Text, row: Row)
    requires Accounted(won, id, row)
    ensures Accounted(won[key := win], id, row)
  {
    if k :| k in won && (id == EvaluationIdOf(k) || id == EvaluationMappingIdOf(k)) { assert k in won[key := win]; }
  }

  lemma SquattersStay(rs: map<Text, Row>, won: map<Text, Win>, win: Win, key: Text, rs': map<Text, Row>)
    requires WinShape(win, key) && win.record.id !in rs && win.mapping.id !in rs && rs.Keys <= rs'.Keys && key !in won
    ensures Forward(rs, won, rs', won[key := win])
  {
  }

  lemma AloneIsGood(db: Tables, won: map<Text, Win>, it: Item)
    requires StoreOk(db.records, won) && it.id.User? && it.rtype == Lit(EvaluationRecord)
    requires !Truthy(Get(it.payload, IdempotencyKey))
    ensures var db' := SaveRecord(db, it); StoreOk(db'.records, won) && Forward(db.records, won, db'.records, won)
  {
    var rs, rs' := db.records, SaveRecord(db, it).records;
    forall key | key in won ensures WinStored(rs', key, won[key]) {
      assert WinStored(rs, key, won[key]);
    }
    forall id | id in rs' && Ours(rs'[id]) ensures Accounted(won, id, rs'[id]) {
      if id != it.id { assert Accounted(won, id, rs[id]); }
    }
  }
}
