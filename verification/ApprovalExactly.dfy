/** When the approval calls succeed: exact conditions on the stored fields, in every engine run. */
module ApprovalExactly {
  import opened Ledger
  import opened StoreSpec
  import opened ApprovalRules
  import opened ApprovalSteps
  import opened ApprovalRuns
  import opened ApprovalLifecycle
  import opened ApprovalGuarantees
  import opened ApprovalAnswers
  import opened Approvals

  function Stored(db: Tables, id: Text): Payload
    requires IsApproval(db, id) && db.records[id].body.Obj?
  {
    db.records[id].body.p
  }

  // ---- every approval is read as it is stored -----------------------------------------------------

  lemma ReadsWell(db: Tables, id: Text)
    requires StoreOk(db) && IsApproval(db, id)
    ensures EnvelopeOf(db.records, id).Some? && db.records[id].body.Obj?
    ensures var env, p := EnvelopeOf(db.records, id).value, db.records[id].body.p;
      env.payload == p && env.rtype == Lit(ApprovalRecord) && env.id == id && env.mission == Get(p, MissionId)
      && env.integrity == Seal(id, env.rtype, env.mission, env.created, p) && db.records[id].integrity == Some(env.integrity)
      && Complete(p) && EnvelopeAgrees(env, id, p)
  {
    assert RowOk(db.events, id, db.records[id]);
  }

  lemma TerminalOnRecord(db: Tables, id: Text)
    requires StoreOk(db) && IsApproval(db, id)
    ensures db.records[id].body.Obj? && TerminalRecorded(db.events, db.records[id].body.p)
  {
    assert RowOk(db.events, id, db.records[id]);
  }

  lemma Loads(db: Tables, want: Want, id: Text, gen: Generated)
    requires StoreOk(db) && IsApproval(db, id)
    ensures db.records[id].body.Obj? && EnvelopeOf(db.records, id).Some?
    ensures Poised(db, Reading(want, id, gen)) == AfterChecks(want, EnvelopeOf(db.records, id).value, db.records[id].body.p)
  {
    ReadsWell(db, id);
    TerminalOnRecord(db, id);
    var p := db.records[id].body.p;
    assert Validate(p, gen) == Some(p);
    PoisedAfterReading(db, want, id, gen);
  }

  lemma NothingToLoad(db: Tables, want: Want, id: Text, gen: Generated)
    requires !IsApproval(db, id)
    ensures Poised(db, Reading(want, id, gen)) == Done(
      if EnvelopeOf(db.records, id).Some? then Raised(WrongType) else if want.ToRead? then Missing else Raised(NotFound))
  {
    PoisedAfterReading(db, want, id, gen);
  }

  /** In every engine run `get` returns an approval exactly as it is stored. */
  lemma {:induction false} GetExactly(moves: seq<Move>, id: Text, gen: Generated)
    requires EngineRun(moves)
    ensures var db := Run(moves).db;
      Poised(db, Reading(ToRead, id, gen)) == Done(
        if id in db.records && db.records[id].rtype == Lit(ApprovalRecord) && db.records[id].body.Obj? then Got(db.records[id].body.p)
        else if EnvelopeOf(db.records, id).Some? then Raised(WrongType) else Missing)
  {
    RunKeepsEngineInv(moves);
    if IsApproval(Run(moves).db, id) {
      Loads(Run(moves).db, ToRead, id, gen);
    } else {
      NothingToLoad(Run(moves).db, ToRead, id, gen);
    }
  }

  // ---- deciding -----------------------------------------------------------------------------------

  predicate BadlyDated(p: Payload) {
    Truthy(Get(p, ExpiresAt)) && !(Get(p, ExpiresAt).Str? && Get(p, ExpiresAt).t.Stamp?)
  }

  /** What `decide` answers about an approval that is stored with this payload. */
  ghost predicate ExpectedDecision(args: DecideArgs, es: map<Text, EventRow>, p: Payload, outcome: Outcome) {
    if Get(p, Status) != Str(Lit(PendingStatus)) then outcome == Raised(AlreadyDecided)
    else if Blank(args.actor) then outcome == Raised(ActorRequired)
    else if BadlyDated(p) then outcome == Raised(BadExpiry)
    else if Over(p, args.now) then
      outcome == if KeyTaken(es, Key(Expired, args.id)) then Raised(TransitionConflict) else HasExpired(args.id)
    else if WouldApprove(args) && args.scope != Null && args.scope != Get(p, ApprovalScope) then outcome == Raised(ScopeMismatch)
    else if KeyTaken(es, Key(Decided, args.id)) then outcome == Raised(TransitionConflict)
    else outcome.WasDecided? && outcome.id == args.id
  }

  lemma ApprovingIsApproved(args: DecideArgs)
    ensures var decision := Str(if args.decision != EMPTY then args.decision
                                else if args.approved then Lit(DecisionApproved) else Lit(DecisionRejected));
      DecisionStatus(decision) == ApprovedStatus <==> WouldApprove(args)
  {
  }

  lemma CommitsUnlessTaken(db: Tables, c: Call, kind: Word, id: Text)
    requires StoreOk(db) && IsApproval(db, id) && Get(db.records[id].body.p, Status) == Str(Lit(PendingStatus)) && db.records[id].body.Obj?
    requires c.Committing? && c.env.id == id && db.records[id].integrity == Some(c.env.integrity)
    requires kind in {Decided, Expired} && c.ev.id == TransitionId(Key(kind, id)) && c.ev.row.key == Some(Key(kind, id))
    ensures StepCall(db, c) == Done(
      if KeyTaken(db.events, Key(kind, id)) then Raised(TransitionConflict)
      else if Is(c.next, ExpiredStatus) then HasExpired(id) else WasDecided(id, c.next))
  {
    assert RowOk(db.events, id, db.records[id]);
    PendingHasNoEvents(db, id);
  }

  lemma RefusesAsExpected(args: DecideArgs, es: map<Text, EventRow>, env: Envelope, p: Payload, c: Call)
    requires c == AfterChecks(ToDecide(args), env, p) && c.Done?
    ensures ExpectedDecision(args, es, p, c.outcome)
  {
    ApprovingIsApproved(args);
  }

  lemma CommitMeans(args: DecideArgs, env: Envelope, p: Payload)
    requires AfterChecks(ToDecide(args), env, p).Committing?
    ensures Get(p, Status) == Str(Lit(PendingStatus)) && !Blank(args.actor) && !BadlyDated(p)
    ensures !Over(p, args.now) ==> !(WouldApprove(args) && args.scope != Null && args.scope != Get(p, ApprovalScope))
  {
    ApprovingIsApproved(args);
  }

  lemma CommitsAsExpected(db: Tables, args: DecideArgs, env: Envelope, p: Payload, c: Call)
    requires StoreOk(db) && IsApproval(db, args.id) && db.records[args.id].body == Obj(p)
    requires EnvelopeOf(db.records, args.id) == Some(env) && Get(p, ApprovalId) == Str(args.id)
    requires c == AfterChecks(ToDecide(args), env, p) && c.Committing?
    ensures StepCall(db, c).Done? && ExpectedDecision(args, db.events, p, StepCall(db, c).outcome)
  {
    CommitChecked(args, p, env);
    CommitMeans(args, env, p);
    if Over(p, args.now) {
      ExpiryChosen(args, p, env);
      CommitsUnlessTaken(db, c, Expired, args.id);
    } else {
      DecidedIsNotExpired(args, env, p);
      DecisionEvent(args, p, env);
      CommitsUnlessTaken(db, c, Decided, args.id);
    }
  }

  lemma DecidedIsNotExpired(args: DecideArgs, env: Envelope, p: Payload)
    requires AfterChecks(ToDecide(args), env, p).Committing? && !Over(p, args.now)
    ensures !Is(AfterChecks(ToDecide(args), env, p).next, ExpiredStatus)
  {
    var decision := DecisionMade(args, p, env);
    FormSays(p, decision, args);
  }

  lemma DecidesAsExpected(db: Tables, args: DecideArgs, env: Envelope, p: Payload, c: Call)
    requires StoreOk(db) && IsApproval(db, args.id) && db.records[args.id].body == Obj(p)
    requires EnvelopeOf(db.records, args.id) == Some(env) && Get(p, ApprovalId) == Str(args.id)
    requires c == AfterChecks(ToDecide(args), env, p) && (c.Committing? || c.Done?)
    ensures StepCall(db, c).Done? && ExpectedDecision(args, db.events, p, StepCall(db, c).outcome)
  {
    if c.Committing? {
      CommitsAsExpected(db, args, env, p, c);
    } else {
      RefusesAsExpected(args, db.events, env, p, c);
    }
  }

  /** In every engine run `decide`, with nobody else about, answers as the stored fields and the
      arguments say; it fails for no other reason. */
  lemma {:induction false} DecideExactly(moves: seq<Move>, args: DecideArgs)
    requires EngineRun(moves)
    ensures var db := Run(moves).db;
      var done := StepCall(db, Poised(db, Reading(ToDecide(args), args.id, args.gen)));
      done.Done?
      && (if args.id in db.records && db.records[args.id].rtype == Lit(ApprovalRecord) then
            db.records[args.id].body.Obj? && ExpectedDecision(args, db.events, db.records[args.id].body.p, done.outcome)
          else done.outcome == Raised(if EnvelopeOf(db.records, args.id).Some? then WrongType else NotFound))
  {
    RunKeepsEngineInv(moves);
    var db := Run(moves).db;
    if IsApproval(db, args.id) {
      Loads(db, ToDecide(args), args.id, args.gen);
      ReadsWell(db, args.id);
      var env := EnvelopeOf(db.records, args.id).value;
      CheckRaises(args, env, env.payload);
      DecidesAsExpected(db, args, env, env.payload, AfterChecks(ToDecide(args), env, env.payload));
    } else {
      NothingToLoad(db, ToDecide(args), args.id, args.gen);
    }
  }

  // ---- consuming ----------------------------------------------------------------------------------

  lemma ApprovedIsUnused(db: Tables, id: Text)
    requires StoreOk(db) && IsApproval(db, id) && db.records[id].body.Obj? && Is(db.records[id].body.p, ApprovedStatus)
    ensures DecisionRecorded(db.events, db.records[id].body.p) && !ConsumptionRecorded(db.events, db.records[id].body.p)
    ensures TransitionId(Key(Consumed, id)) !in db.events
  {
    assert RowOk(db.events, id, db.records[id]);
  }

  lemma UseCommitsExactly(db: Tables, args: ConsumeArgs, env: Envelope, a: Payload)
    requires EnvelopeOf(db.records, args.id) == Some(env) && env.rtype == Lit(ApprovalRecord)
    requires Get(env.payload, Status) == Str(Lit(ApprovedStatus)) && TransitionId(Key(Consumed, args.id)) !in db.events
    ensures Committable(db, [UseUpdate(args, env)], [UseEvent(args, a)]) <==> !KeyTaken(db.events, Key(Consumed, args.id))
  {
    var us, es := [UseUpdate(args, env)], [UseEvent(args, a)];
    assert ReadyFor(db.records, us[0]);
    assert es[0].row.key == Some(Key(Consumed, args.id));
  }

  lemma UsableExactly(db: Tables, args: ConsumeArgs, env: Envelope, p: Payload)
    requires EnvelopeAgrees(env, args.id, p) && Complete(p)
    ensures Usable(args, env, p) <==> UsableBy(args, p)
  {
    assert Modelled(ApprovalScope);
  }

  lemma ConsumeReads(db: Tables, args: ConsumeArgs)
    requires StoreOk(db) && IsApproval(db, args.id) && db.records[args.id].body.Obj?
    ensures EnvelopeOf(db.records, args.id).Some?
    ensures var env, p := EnvelopeOf(db.records, args.id).value, db.records[args.id].body.p;
      env.payload == p && env.rtype == Lit(ApprovalRecord)
      && AfterConsumeRead(args, Some(env)) == if UsableBy(args, p) then ProvingDecision(args, env, p) else Done(NotConsumed)
  {
    ReadsWell(db, args.id);
    var env, p := EnvelopeOf(db.records, args.id).value, db.records[args.id].body.p;
    assert Validate(p, args.gen) == Some(p);
    UsableExactly(db, args, env, p);
  }

  lemma ConsumesExactly(db: Tables, args: ConsumeArgs)
    requires StoreOk(db) && IsApproval(db, args.id) && db.records[args.id].body.Obj?
    ensures var done := StepCall(db, Poised(db, Consuming(args)));
      done.Done?
      && (done.outcome.WasConsumed? <==>
          UsableBy(args, db.records[args.id].body.p) && !KeyTaken(db.events, Key(Consumed, args.id)))
  {
    var p := db.records[args.id].body.p;
    PoisedToUse(db, args);
    if UsableBy(args, p) {
      var env := EnvelopeOf(db.records, args.id).value;
      ApprovedIsUnused(db, args.id);
      UseCommitsExactly(db, args, env, p);
      UseDecides(db, args, env, p);
    } else {
      NotUsed(db);
    }
  }

  lemma PoisedToUse(db: Tables, args: ConsumeArgs)
    requires StoreOk(db) && IsApproval(db, args.id) && db.records[args.id].body.Obj?
    ensures var p := db.records[args.id].body.p;
      if UsableBy(args, p) then
        EnvelopeOf(db.records, args.id).Some?
        && (var env := EnvelopeOf(db.records, args.id).value;
            env.payload == p && env.rtype == Lit(ApprovalRecord) && Poised(db, Consuming(args)) == CommittingUse(args, env, p))
      else Poised(db, Consuming(args)) == Done(NotConsumed)
  {
    ConsumeReads(db, args);
    PoisedAfterConsumeRead(db, args);
    if UsableBy(args, db.records[args.id].body.p) { ApprovedIsUnused(db, args.id); }
  }

  lemma NotUsed(db: Tables)
    ensures StepCall(db, Done(NotConsumed)) == Done(NotConsumed)
  {
  }

  lemma UseDecides(db: Tables, args: ConsumeArgs, env: Envelope, p: Payload)
    ensures StepCall(db, CommittingUse(args, env, p)) == Done(
      if Committable(db, [UseUpdate(args, env)], [UseEvent(args, p)]) then WasConsumed(args.id, args.actor, args.use, p)
      else NotConsumed)
  {
  }

  /** In every engine run `consume_single_action`, with nobody else about, returns true exactly for an
      approved single action that is meant for the actor, with both names given, unless somebody else
      holds the key of its event. */
  lemma {:induction false} ConsumeExactly(moves: seq<Move>, args: ConsumeArgs)
    requires EngineRun(moves)
    ensures var db := Run(moves).db;
      var done := StepCall(db, Poised(db, Consuming(args)));
      done.Done?
      && (done.outcome.WasConsumed? <==>
          args.id in db.records && db.records[args.id].rtype == Lit(ApprovalRecord) && db.records[args.id].body.Obj?
          && UsableBy(args, db.records[args.id].body.p) && !KeyTaken(db.events, Key(Consumed, args.id)))
  {
    RunKeepsEngineInv(moves);
    var db := Run(moves).db;
    if IsApproval(db, args.id) {
      assert RowOk(db.events, args.id, db.records[args.id]);
      ConsumesExactly(db, args);
    } else {
      PoisedAfterConsumeRead(db, args);
    }
  }

  // ---- requesting ---------------------------------------------------------------------------------

  /** `request` succeeds exactly when its id is free, and so are the id and the key of its event, or
      what holds them is that very event. */
  lemma RequestExactly(db: Tables, a: Payload, trace: Text, stamp: Text)
    requires Get(a, ApprovalId).Str? && Get(a, MissionId).Str?
    ensures var id, ev := Get(a, ApprovalId).t, RequestEvent(a, trace, stamp);
      StepCall(db, Requesting(a, trace, stamp)).outcome.WasRequested?
      <==> id !in db.records
           && if TransitionId(Key(Requested, id)) in db.events then
                var e := db.events[TransitionId(Key(Requested, id))];
                e.key == Some(Key(Requested, id)) && SameIdentity(e, ev.row)
              else !KeyTaken(db.events, Key(Requested, id))
  {
    RequestEventSays(a, trace, stamp);
  }
}
