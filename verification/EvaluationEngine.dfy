/** The evaluation engine on the live store: one call ends where its program of steps leads when no
    other caller interferes, whichever fitting mappings its two searches hand back. */
module Evaluations {
  import opened Ledger
  import opened StoreSpec
  import opened Sqlite
  import opened Bus
  import opened EvaluationSteps
  import A = EvaluationAnswers

  /** What `find_record_envelope` may have handed back. */
  ghost predicate MayFind(records: map<Text, Row>, key: Value, found: Option<Text>) {
    match found
    case Some(id) => Finds(records, Lit(EvaluationMapping), IdempotencyKey, key, id)
    case None => forall id :: !Finds(records, Lit(EvaluationMapping), IdempotencyKey, key, id)
  }

  /** A keyed call up to its event: replay, save, or adopt the winner. */
  function Prepared(db: Tables, args: EvalArgs, found: Option<Text>, refound: Option<Text>): Stage {
    var replay := match AfterLooking(args, db.records, found)
      case ReadingRecord(id) => AfterRecord(args, EnvelopeOf(db.records, id))
      case _ => Saving;
    if !replay.Saving? then replay
    else if SaveAll(db.records, [RecordItem(args), MappingItem(args)]).Some? then Publishing(ResultOf(args))
    else Adopted(db.records, args, refound)
  }

  function Adopted(records: map<Text, Row>, args: EvalArgs, refound: Option<Text>): Stage {
    match AfterLosing(args, records, refound)
    case ReadingWinner(id) => AfterWinner(args, EnvelopeOf(records, id))
    case lost => lost
  }

  /** The tables once the call is ready to publish. */
  function Stored(db: Tables, args: EvalArgs, found: Option<Text>): Tables {
    if !Keyed(args) then SaveRecord(db, RecordItem(args))
    else match AfterLooking(args, db.records, found)
      case ReadingRecord(id) =>
        if AfterRecord(args, EnvelopeOf(db.records, id)).Saving? then
          Apply(db, DoSaveAll([RecordItem(args), MappingItem(args)]))
        else db
      case _ => Apply(db, DoSaveAll([RecordItem(args), MappingItem(args)]))
  }

  class EvaluationEngine {
    const store: SQLiteStore
    const bus: EventBus

    ghost predicate Valid()
      reads this, bus, store
    {
      bus.store == store && bus.Valid()
    }

    constructor (store: SQLiteStore, bus: EventBus)
      requires bus.store == store && bus.Valid()
      ensures Valid() && this.store == store && this.bus == bus
    {
      this.store := store;
      this.bus := bus;
    }

    method FindMapping(key: Value) returns (found: Option<Text>)
      ensures MayFind(store.records, key, found)
    {
      var env := store.FindRecordEnvelope(Lit(EvaluationMapping), IdempotencyKey, key);
      return if env.Some? then Some(env.value.id) else None;
    }

    method ReplayOrSave(args: EvalArgs) returns (next: Stage, ghost found: Option<Text>, ghost refound: Option<Text>)
      requires Valid() && Keyed(args)
      modifies store
      ensures store.Valid() && store.events == old(store.events)
      ensures MayFind(old(store.records), args.key, found) && MayFind(old(store.records), args.key, refound)
      ensures store.Now() == Stored(old(store.Now()), args, found)
      ensures next == Prepared(old(store.Now()), args, found, refound)
    {
      var first := FindMapping(args.key);
      found, refound := first, first;
      next := AfterLooking(args, store.records, first);
      if next.ReadingRecord? {
        var read := store.GetRecordEnvelope(next.id);
        next := AfterRecord(args, read);
        if !next.Saving? {
          return;
        }
      }
      var saved := store.SaveRecordsAtomically([RecordItem(args), MappingItem(args)]);
      if saved {
        return Publishing(ResultOf(args)), found, refound;
      }
      next, refound := Adopt(args);
    }

    /** A call that lost its save looks for the winner and adopts its result. */
    method Adopt(args: EvalArgs) returns (next: Stage, ghost found: Option<Text>)
      ensures MayFind(store.records, args.key, found)
      ensures next == Adopted(store.records, args, found)
    {
      var again := FindMapping(args.key);
      found := again;
      next := AfterLosing(args, store.records, again);
      if next.ReadingWinner? {
        var read := store.GetRecordEnvelope(next.id);
        next := AfterWinner(args, read);
      }
    }

    /** Subscribers hear of the evaluation exactly when this call inserted its event. */
    method PublishEvaluation(args: EvalArgs, result: Payload) returns (outcome: Stage)
      requires bus.store == store && store.Valid() && InboxesOk(bus.inboxes, store.events)
      requires args.eventId !in store.events
      modifies store, bus
      ensures Valid() && store.Now() == SaveEvent(old(store.Now()), EvaluatedEvent(args, result))
      ensures outcome == if Publishes(old(store.events), EvaluatedEvent(args, result)) then Returned(result)
                         else Raised(EventConflict)
      ensures bus.inboxes == if Clashes(old(store.events), EvaluatedEvent(args, result)) then old(bus.inboxes)
                             else Delivered(old(bus.inboxes), EvaluatedEvent(args, result))
    {
      var publication := bus.Publish(EvaluatedEvent(args, result));
      return if publication.Published? then Returned(result) else Raised(EventConflict);
    }

    method Evaluate(args: EvalArgs) returns (outcome: Stage, ghost found: Option<Text>, ghost refound: Option<Text>)
      requires Valid() && args.eventId !in store.events
      modifies store, bus
      ensures Valid()
      ensures Keyed(args) ==> MayFind(old(store.records), args.key, found) && MayFind(old(store.records), args.key, refound)
      ensures var db := Stored(old(store.Now()), args, found);
        var ready := if Keyed(args) then Prepared(old(store.Now()), args, found, refound) else Publishing(ResultOf(args));
        if ready.Publishing? then
          store.Now() == SaveEvent(db, EvaluatedEvent(args, ready.result))
          && outcome == if Publishes(db.events, EvaluatedEvent(args, ready.result)) then Returned(ready.result)
                        else Raised(EventConflict)
        else store.Now() == db && outcome == ready
      ensures var db := Stored(old(store.Now()), args, found);
        var ready := if Keyed(args) then Prepared(old(store.Now()), args, found, refound) else Publishing(ResultOf(args));
        bus.inboxes == if ready.Publishing? && !Clashes(db.events, EvaluatedEvent(args, ready.result))
                       then Delivered(old(bus.inboxes), EvaluatedEvent(args, ready.result)) else old(bus.inboxes)
      ensures A.EvaluateAnswers(args, old(store.Now()), store.Now(), outcome)
    {
      outcome, found, refound := PrepareAndPublish(args);
      NothingReturned(old(store.Now()), args, found, refound);
      EvaluateMeans(old(store.Now()), args, found, refound,
                    if Keyed(args) then Prepared(old(store.Now()), args, found, refound) else Publishing(ResultOf(args)),
                    store.Now(), outcome);
    }

    method PrepareAndPublish(args: EvalArgs) returns (outcome: Stage, ghost found: Option<Text>, ghost refound: Option<Text>)
      requires Valid() && args.eventId !in store.events
      modifies store, bus
      ensures Valid()
      ensures Keyed(args) ==> MayFind(old(store.records), args.key, found) && MayFind(old(store.records), args.key, refound)
      ensures var db := Stored(old(store.Now()), args, found);
        var ready := if Keyed(args) then Prepared(old(store.Now()), args, found, refound) else Publishing(ResultOf(args));
        if ready.Publishing? then
          store.Now() == SaveEvent(db, EvaluatedEvent(args, ready.result))
          && outcome == if Publishes(db.events, EvaluatedEvent(args, ready.result)) then Returned(ready.result)
                        else Raised(EventConflict)
        else store.Now() == db && outcome == ready
      ensures var db := Stored(old(store.Now()), args, found);
        var ready := if Keyed(args) then Prepared(old(store.Now()), args, found, refound) else Publishing(ResultOf(args));
        bus.inboxes == if ready.Publishing? && !Clashes(db.events, EvaluatedEvent(args, ready.result))
                       then Delivered(old(bus.inboxes), EvaluatedEvent(args, ready.result)) else old(bus.inboxes)
    {
      var ready := Publishing(ResultOf(args));
      found, refound := None, None;
      if Keyed(args) {
        ready, found, refound := ReplayOrSave(args);
      } else {
        store.SaveRecord(RecordItem(args));
      }
      if ready.Publishing? {
        outcome := PublishEvaluation(args, ready.result);
      } else {
        outcome := ready;
      }
    }
  }

  /** The class's account of a keyed call is the account the runs use: reading, saving and adopting
      are the same stages, when each search hands back what the step would. */
  lemma PreparedIsTheSteps(db: Tables, args: EvalArgs)
    requires Keyed(args)
    ensures var found := FoundMapping(db.records, args.key);
      var first := Next(db, args, Start(args).stage);
      var second := Next(db, args, first);
      var saved := if first.Saving? || second.Saving? then Next(db, args, Saving) else second;
      Prepared(db, args, found, found) ==
        (if !saved.LookingAgain? then saved
         else var again := Next(db, args, LookingAgain);
           if again.ReadingWinner? then Next(db, args, again) else again)
  {
  }

  /** A keyed call that is ready to publish has stored its evaluation or found one. */
  lemma PreparedMeans(db: Tables, args: EvalArgs, found: Option<Text>, refound: Option<Text>)
    requires Keyed(args) && Prepared(db, args, found, refound).Publishing?
    ensures var result, rs := Prepared(db, args, found, refound).result, Stored(db, args, found).records;
      A.EvaluationStands(args, rs, result) || (A.StoredAnswers(args, db.records, result) && rs == db.records)
  {
    var first := AfterLooking(args, db.records, found);
    if first.ReadingRecord? && AfterRecord(args, EnvelopeOf(db.records, first.id)).Publishing? {
      A.RecordAnswers(args, db.records, first.id);
    } else {
      SavedOrAdopted(db, args, found, refound);
    }
  }

  lemma SavedOrAdopted(db: Tables, args: EvalArgs, found: Option<Text>, refound: Option<Text>)
    requires Keyed(args) && Prepared(db, args, found, refound).Publishing?
    requires var first := AfterLooking(args, db.records, found);
      first.ReadingRecord? ==> AfterRecord(args, EnvelopeOf(db.records, first.id)).Saving?
    ensures var result, rs := Prepared(db, args, found, refound).result, Stored(db, args, found).records;
      A.EvaluationStands(args, rs, result) || (A.StoredAnswers(args, db.records, result) && rs == db.records)
  {
    StoredBySave(db, args, found);
    if SaveAll(db.records, [RecordItem(args), MappingItem(args)]).Some? {
      A.SavedStands(args, db.records);
    } else {
      AdoptedMeans(db.records, args, refound);
    }
  }

  lemma StoredBySave(db: Tables, args: EvalArgs, found: Option<Text>)
    requires Keyed(args)
    requires var first := AfterLooking(args, db.records, found);
      first.ReadingRecord? ==> AfterRecord(args, EnvelopeOf(db.records, first.id)).Saving?
    ensures var saved := SaveAll(db.records, [RecordItem(args), MappingItem(args)]);
      Stored(db, args, found).records == if saved.Some? then saved.value else db.records
  {
  }

  lemma AdoptedMeans(rs: map<Text, Row>, args: EvalArgs, refound: Option<Text>)
    requires Keyed(args) && Adopted(rs, args, refound).Publishing?
    ensures A.StoredAnswers(args, rs, Adopted(rs, args, refound).result)
  {
    var again := AfterLosing(args, rs, refound);
    if again.ReadingWinner? { A.WinnerAnswers(args, rs, again.id); }
  }

  lemma NothingReturned(db: Tables, args: EvalArgs, found: Option<Text>, refound: Option<Text>)
    ensures !Prepared(db, args, found, refound).Returned?
  {
  }

  lemma StoredKeepsEvents(db: Tables, args: EvalArgs, found: Option<Text>)
    ensures Stored(db, args, found).events == db.events
  {
  }

  /** What `evaluate` answers, from what it stored and what it published. */
  lemma EvaluateMeans(
    db: Tables, args: EvalArgs, found: Option<Text>, refound: Option<Text>, ready: Stage, db': Tables, outcome: Stage)
    requires ready == if Keyed(args) then Prepared(db, args, found, refound) else Publishing(ResultOf(args))
    requires outcome.Returned? ==> ready.Publishing? && outcome.result == ready.result
    requires outcome.Returned? ==> db' == SaveEvent(Stored(db, args, found), EvaluatedEvent(args, ready.result))
    ensures A.EvaluateAnswers(args, db, db', outcome)
  {
    if outcome.Returned? {
      StoredKeepsEvents(db, args, found);
      A.EventIs(args, db.events, ready.result);
      if Keyed(args) { PreparedMeans(db, args, found, refound); } else { A.SavedAloneStands(args, db); }
    }
  }
}
