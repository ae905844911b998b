/** Why an evaluation reports an event conflict: somebody else holds the key of its event. */
module EvaluationConflicts {
  import opened Ledger
  import opened StoreSpec
  import opened EvaluationSteps
  import opened EvaluationRuns
  import opened EvaluationGuarantees

  /** An event under the id or the key of this one, but of another producer or under another key. */
  predicate Contests(es: map<Text, EventRow>, ev: Event, e: Text) {
    e in es && (e == ev.id || (ev.row.key.Some? && es[e].key == ev.row.key))
    && !(SameProducer(es[e], ev.row) && es[e].key == ev.row.key)
  }

  /** Publishing fails only in the face of such an event. */
  lemma UnpublishedIsContested(es: map<Text, EventRow>, ev: Event)
    requires UniqueKeys(es) && !Publishes(es, ev) && (ev.row.key.None? || Present(ev.row.key))
    ensures exists e :: Contests(es, ev, e)
  {
    var after := InsertOrIgnore(es, ev);
    if !Clashes(es, ev) {
      assert Answers(after, ev, ev.id) && SameProducer(after[ev.id], ev.row);
    } else if ev.row.key.Some? && KeyTaken(es, ev.row.key.value) {
      var e :| e in es && es[e].key == ev.row.key;
      assert Answers(after, ev, e);
      assert Contests(es, ev, e);
    } else {
      assert ev.id in es;
      if !Contests(es, ev, ev.id) { assert Answers(after, ev, ev.id); }
    }
  }

  // ---- in every run ---------------------------------------------------------------------------

  /** The call's event, whatever it says. */
  function EventOf(args: EvalArgs): Event {
    EvaluatedEvent(args, map[])
  }

  ghost predicate Contested(es: map<Text, EventRow>, args: EvalArgs) {
    exists e :: Contests(es, EventOf(args), e)
  }

  lemma ConflictIsContested(db: Tables, args: EvalArgs, st: Stage)
    requires UniqueKeys(db.events) && Next(db, args, st) == Raised(EventConflict) && st != Raised(EventConflict)
    ensures Contested(db.events, args)
  {
    if st.Publishing? {
      UnpublishedIsContested(db.events, EvaluatedEvent(args, st.result));
      var e :| Contests(db.events, EvaluatedEvent(args, st.result), e);
      assert Contests(db.events, EventOf(args), e);
    }
  }

  /** In some state before the last the id or the key of the call's event was contested. */
  ghost predicate WasContested(moves: seq<Move>, args: EvalArgs) {
    moves != []
    && (Contested(Run(moves[..|moves| - 1]).db.events, args) || WasContested(moves[..|moves| - 1], args))
  }

  lemma OnlyAdvanceConflicts(s: Sys, m: Move, i: nat)
    requires i < |Do(s, m).calls| && Do(s, m).calls[i].stage == Raised(EventConflict)
    ensures i < |s.calls| && Do(s, m).calls[i].args == s.calls[i].args
    ensures s.calls[i].stage == Raised(EventConflict)
            || Next(s.db, s.calls[i].args, s.calls[i].stage) == Raised(EventConflict)
  {
  }

  lemma ConflictStep(s: Sys, m: Move, i: nat)
    requires UniqueKeys(s.db.events) && i < |Do(s, m).calls| && Do(s, m).calls[i].stage == Raised(EventConflict)
    ensures i < |s.calls| && Do(s, m).calls[i].args == s.calls[i].args
    ensures s.calls[i].stage == Raised(EventConflict) || Contested(s.db.events, s.calls[i].args)
  {
    OnlyAdvanceConflicts(s, m, i);
    if s.calls[i].stage != Raised(EventConflict) {
      ConflictIsContested(s.db, s.calls[i].args, s.calls[i].stage);
    }
  }

  /** A call reports an event conflict only if, when it came to publish, the id or the key of its event
      was held by an event of another producer or of another key. */
  lemma {:induction false} ConflictWasContested(moves: seq<Move>, i: nat)
    requires EngineRun(moves) && i < |Run(moves).calls| && Run(moves).calls[i].stage == Raised(EventConflict)
    ensures WasContested(moves, Run(moves).calls[i].args)
  {
    var most, m := moves[..|moves| - 1], moves[|moves| - 1];
    RunKeepsInv(most);
    ConflictStep(Run(most), m, i);
    if Run(most).calls[i].stage == Raised(EventConflict) { ConflictWasContested(most, i); }
  }

  // ---- when nobody else takes the key -----------------------------------------------------------

  /** The events that hold the key are the same before and after. */
  ghost predicate SameHolders(es: map<Text, EventRow>, es': map<Text, EventRow>, k: Text) {
    forall e :: (e in es && es[e].key == Some(k)) || (e in es' && es'[e].key == Some(k)) ==>
      e in es && e in es' && es'[e] == es[e]
  }

  /** Others leave the events of the key alone, and the generated event id of a call under it is new when it is used. */
  ghost predicate QuietMove(s: Sys, m: Move, key: Text) {
    match m
    case Foreign(op) => SameHolders(s.db.events, Apply(s.db, op).events, Key(EvaluationEvent, key))
    case Advance(i) =>
      i < |s.calls| && CallsUnder(s.calls[i], key) && s.calls[i].stage.Publishing? ==>
        s.calls[i].args.eventId !in s.db.events
    case Arrive(_) => true
  }

  ghost predicate QuietRun(moves: seq<Move>, key: Text) {
    moves == [] || (QuietRun(moves[..|moves| - 1], key) && QuietMove(Run(moves[..|moves| - 1]), moves[|moves| - 1], key))
  }

  /** The event of the key is the winner's, and no call under the key has met a conflict. */
  ghost predicate Uncontested(es: map<Text, EventRow>, won: map<Text, Win>, key: Text) {
    forall e :: e in es && es[e].key == Some(Key(EvaluationEvent, key)) ==>
      key in won && SameProducer(es[e], EventOf(won[key].args).row)
  }

  ghost predicate NoConflict(calls: seq<Call>, key: Text) {
    forall i :: 0 <= i < |calls| && CallsUnder(calls[i], key) ==> calls[i].stage != Raised(EventConflict)
  }

  lemma SameHoldersUncontested(es: map<Text, EventRow>, es': map<Text, EventRow>, won: map<Text, Win>, won': map<Text, Win>, key: Text)
    requires Uncontested(es, won, key) && SameHolders(es, es', Key(EvaluationEvent, key))
    requires key in won ==> key in won' && won'[key] == won[key]
    ensures Uncontested(es', won', key)
  {
  }

  lemma PublishedByWinner(db: Tables, won: map<Text, Win>, args: EvalArgs, result: Payload, key: Text)
    requires Uncontested(db.events, won, key) && Keyed(args) && KeyOf(args) == key && args.eventId !in db.events
    requires key in won && Str(args.mission) == won[key].record.mission && Made(won[key])
    ensures Uncontested(SaveEvent(db, EvaluatedEvent(args, result)).events, won, key)
    ensures Publishes(db.events, EvaluatedEvent(args, result))
  {
    var ev := EvaluatedEvent(args, result);
    var after := InsertOrIgnore(db.events, ev);
    assert won[key].args.mission == args.mission;
    if Clashes(db.events, ev) {
      var e :| e in db.events && db.events[e].key == ev.row.key;
      assert Answers(after, ev, e) && SameProducer(after[e], ev.row);
    } else {
      assert Answers(after, ev, ev.id) && SameProducer(after[ev.id], ev.row);
    }
  }

  lemma OthersPublishElsewhere(db: Tables, c: Call, key: Text)
    requires Arrives(c.args) && (!CallsUnder(c, key) || !c.stage.Publishing?)
    ensures SameHolders(db.events, Written(db, c).events, Key(EvaluationEvent, key))
  {
  }

  /** The winner's publication goes through; any other step leaves the events of the key alone. */
  lemma StepStaysQuiet(db: Tables, won: map<Text, Win>, c: Call, key: Text)
    requires CallOk(db.records, won, c) && AllMade(won) && Uncontested(db.events, won, key)
    requires CallsUnder(c, key) && c.stage.Publishing? ==> c.args.eventId !in db.events
    ensures Uncontested(Written(db, c).events, won, key)
    ensures CallsUnder(c, key) && c.stage.Publishing? ==> Next(db, c.args, c.stage).Returned?
  {
    if CallsUnder(c, key) && c.stage.Publishing? {
      assert Made(won[key]);
      PublishedByWinner(db, won, c.args, c.stage.result, key);
    } else {
      OthersPublishElsewhere(db, c, key);
      SameHoldersUncontested(db.events, Written(db, c).events, won, won, key);
    }
  }

  lemma OnlyPublishingConflicts(db: Tables, args: EvalArgs, st: Stage)
    requires st != Raised(EventConflict) && !st.Publishing?
    ensures Next(db, args, st) != Raised(EventConflict)
  {
  }

  lemma NoConflictAfter(calls: seq<Call>, i: nat, c': Call, key: Text)
    requires NoConflict(calls, key) && i < |calls| && (CallsUnder(c', key) ==> c'.stage != Raised(EventConflict))
    ensures NoConflict(calls[i := c'], key)
  {
  }

  lemma AdvanceStaysQuiet(s: Sys, i: nat, key: Text)
    requires Inv(s) && i < |s.calls| && QuietMove(s, Advance(i), key)
    requires Uncontested(s.db.events, s.won, key) && NoConflict(s.calls, key)
    ensures Uncontested(Do(s, Advance(i)).db.events, Do(s, Advance(i)).won, key)
    ensures NoConflict(Do(s, Advance(i)).calls, key)
  {
    var c, s' := s.calls[i], Do(s, Advance(i));
    assert CallOk(s.db.records, s.won, c);
    WonStays(s, Advance(i), key);
    StepStaysQuiet(s.db, s.won, c, key);
    SameHoldersUncontested(s'.db.events, s'.db.events, s.won, s'.won, key);
    if !c.stage.Publishing? && c.stage != Raised(EventConflict) { OnlyPublishingConflicts(s.db, c.args, c.stage); }
    NoConflictAfter(s.calls, i, c.(stage := Next(s.db, c.args, c.stage)), key);
  }

  lemma WonStays(s: Sys, m: Move, key: Text)
    ensures key in s.won ==> key in Do(s, m).won && Do(s, m).won[key] == s.won[key]
  {
    if key in s.won { WonStaysWon(s, m, key); }
  }

  lemma {:induction false} QuietRunsMeetNoConflict(moves: seq<Move>, key: Text)
    requires EngineRun(moves) && QuietRun(moves, key)
    ensures Uncontested(Run(moves).db.events, Run(moves).won, key) && NoConflict(Run(moves).calls, key)
  {
    if moves != [] {
      var most, m := moves[..|moves| - 1], moves[|moves| - 1];
      QuietRunsMeetNoConflict(most, key);
      RunKeepsInv(most);
      match m
      case Advance(i) => if i < |Run(most).calls| { AdvanceStaysQuiet(Run(most), i, key); }
      case Foreign(op) =>
        SameHoldersUncontested(Run(most).db.events, Run(moves).db.events, Run(most).won, Run(moves).won, key);
      case Arrive(_) =>
    }
  }

  /** Where others leave the events of the key alone, every finished call of the winning mission returns
      the winner's result. */
  lemma {:induction false} WinningMissionReturns(moves: seq<Move>, i: nat, key: Text)
    requires EngineRun(moves) && QuietRun(moves, key) && i < |Run(moves).calls| && CallsUnder(Run(moves).calls[i], key)
    requires Run(moves).calls[i].stage.Returned? || Run(moves).calls[i].stage.Raised?
    requires key in Run(moves).won && Run(moves).won[key].record.mission == Str(Run(moves).calls[i].args.mission)
    ensures Run(moves).calls[i].stage == Returned(ResultOf(Run(moves).won[key].args))
  {
    QuietRunsMeetNoConflict(moves, key);
    WinningMissionNeverConflicts(moves, i, key);
  }
}
