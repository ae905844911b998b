/** A run after which verified evidence is not trusted. */
module EvidenceCases {
  import opened Ledger
  import opened StoreSpec
  import opened EvidenceRules
  import opened EvidenceSteps
  import opened EvidenceForms
  import opened EvidenceRuns
  import opened EvidenceInvariant
  import opened EvidenceGuarantees

  lemma {:induction false} NextMove(moves: seq<Move>, m: Move)
    requires EngineRun(moves) && !m.Foreign?
    ensures EngineRun(moves + [m]) && Run(moves + [m]) == Do(Run(moves), m)
  {
    assert (moves + [m])[..|moves + [m]| - 1] == moves;
  }

  function AddedTo(args: AddArgs): Tables {
    var it, ev := AddItem(args), AddEvent(args);
    Tables(map[it.id := FirstWrite(it)], map[ev.id := ev.row])
  }

  lemma ClaimsOnEmpty(it: Item, ev: Event)
    ensures SaveWithEvent(Tables(map[], map[]), it, ev)
      == (Tables(map[it.id := FirstWrite(it)], map[ev.id := ev.row]), Claimed(true, ev))
  {
  }

  lemma ClaimStep(db: Tables, args: AddArgs, db': Tables, claim: Claim, c: Call)
    requires SaveWithEvent(db, AddItem(args), AddEvent(args)) == (db', claim) && claim.Claimed?
    requires c == Call(AddJob(args), Creating)
    ensures Written(db, c) == db' && Claims(db, c) && StepCall(db, c) == Call(AddJob(args), AfterClaim(args, claim))
  {
  }

  lemma ClaimTurn(db: Tables, won: map<Text, First>, args: AddArgs, db': Tables, claim: Claim, c: Call)
    requires Written(db, c) == db' && Claims(db, c) && StepCall(db, c) == Call(AddJob(args), AfterClaim(args, claim))
    requires c == Call(AddJob(args), Creating)
    ensures Do(Sys(db, won, [c]), Advance(0))
      == Sys(db', won[IdOf(args) := FirstOf(args)], [Call(AddJob(args), AfterClaim(args, claim))])
  {
    AloneAdvances(db, won, c);
    ClaimWins(db, won, c);
  }

  lemma AloneAdvances(db: Tables, won: map<Text, First>, c: Call)
    ensures Do(Sys(db, won, [c]), Advance(0)) == Sys(Written(db, c), Winners(db, won, c), [StepCall(db, c)])
  {
    assert [c][0 := StepCall(db, c)] == [StepCall(db, c)];
  }

  lemma ClaimWins(db: Tables, won: map<Text, First>, c: Call)
    requires Claims(db, c)
    ensures Winners(db, won, c) == won[IdOf(c.job.args) := FirstOf(c.job.args)]
  {
  }

  lemma UnkeyedAdd(args: AddArgs, ev: Event)
    requires args.key == Null
    ensures Start(AddJob(args)) == Call(AddJob(args), Creating) && IdOf(args) == args.newId
    ensures AfterClaim(args, Claimed(true, ev)) == Done(Added(args.newId, Artifact(args)))
  {
  }

  /** The only call so far, on an empty store, is about to claim its record. */
  lemma AddTurn(args: AddArgs)
    requires args.key == Null
    ensures Do(Sys(Tables(map[], map[]), map[], [Start(AddJob(args))]), Advance(0))
      == Sys(AddedTo(args), map[args.newId := FirstOf(args)], [Call(AddJob(args), Done(Added(args.newId, Artifact(args))))])
  {
    var none, claim, c := Tables(map[], map[]), Claimed(true, AddEvent(args)), Call(AddJob(args), Creating);
    ClaimsOnEmpty(AddItem(args), AddEvent(args));
    ClaimStep(none, args, AddedTo(args), claim, c);
    ClaimTurn(none, map[], args, AddedTo(args), claim, c);
    UnkeyedAdd(args, AddEvent(args));
  }

  lemma ArriveTurn(s: Sys, job: Job)
    ensures Do(s, Arrive(job)) == s.(calls := s.calls + [Start(job)])
  {
  }

  lemma {:induction false} FirstCallRuns(job: Job, after: Sys) returns (moves: seq<Move>)
    requires after == Do(Sys(Tables(map[], map[]), map[], [Start(job)]), Advance(0))
    ensures EngineRun(moves) && Run(moves) == after
  {
    NextMove([], Arrive(job));
    ArriveTurn(Run([]), job);
    moves := [] + [Arrive(job)];
    assert [] + [Start(job)] == [Start(job)];
    NextMove(moves, Advance(0));
    moves := moves + [Advance(0)];
  }

  /** Evidence added without a key to an empty store. */
  lemma {:induction false} AddsOne(args: AddArgs) returns (moves: seq<Move>)
    requires args.key == Null
    ensures EngineRun(moves) && Run(moves) == Sys(AddedTo(args), map[args.newId := FirstOf(args)], [AddDone(args)])
  {
    AddTurn(args);
    moves := FirstCallRuns(AddJob(args), Sys(AddedTo(args), map[args.newId := FirstOf(args)], [AddDone(args)]));
  }

  function AddDone(args: AddArgs): Call {
    Call(AddJob(args), Done(Added(args.newId, Artifact(args))))
  }

  lemma FirstWriteReads(it: Item)
    ensures EnvelopeOf(map[it.id := FirstWrite(it)], it.id)
      == Some(Envelope(it.id, it.rtype, it.mission, it.created, ItemSeal(it), ItemSeal(it), it.payload))
  {
  }

  /** The verification reads the record as it was added. */
  lemma ReadsAdded(args: AddArgs, stamp: Text, env: Envelope)
    requires args.key == Null && EnvelopeOf(AddedTo(args).records, args.newId) == Some(env)
    ensures env.id == args.newId && env.integrity == ItemSeal(AddItem(args))
    ensures AfterVerifyRead(args.newId, stamp, Some(env))
      == Verifying(env, FirstOf(args).final, VerifyEvent(args.newId, ContentDigest(args.content), false, stamp), true)
  {
    EventFacts(FirstOf(args));
    FirstWriteReads(AddItem(args));
    FirstReadsWell(FirstOf(args), args.newId, stamp, env);
  }

  lemma RepairsFirst(it: Item, ev: Event, st: Stage)
    requires st.Verifying? && it.rtype == Lit(EvidenceRecord) && st.env.id == it.id && st.env.integrity == ItemSeal(it)
    requires Present(st.ev.row.key) && st.ev.id != ev.id && st.ev.row.key != ev.row.key
    ensures RepairOf(Tables(map[it.id := FirstWrite(it)], map[ev.id := ev.row]), st).1.Repaired?
  {
    assert Bind(map[ev.id := ev.row], st.ev) == Some(st.ev.row);
  }

  /** Its event is new. */
  lemma VerifyCommitsOn(args: AddArgs, stamp: Text, st: Stage)
    requires args.key == Null && st.Verifying? && st.env.id == args.newId && st.env.integrity == ItemSeal(AddItem(args))
    requires st.ev == VerifyEvent(args.newId, ContentDigest(args.content), false, stamp)
    ensures RepairOf(AddedTo(args), st).1.Repaired?
  {
    var it, ev := AddItem(args), AddEvent(args);
    assert it.id == args.newId && it.rtype == Lit(EvidenceRecord) && ev.row.key == Some(Key(EvidenceCreate, args.newId));
    assert ev.id == EvidenceEventId(Key(EvidenceCreate, args.newId));
    RepairsFirst(it, ev, st);
  }

  /** The two steps of a verification. */
  lemma ReadTurn(db: Tables, won: map<Text, First>, done: Call, id: Text, stamp: Text, st: Stage)
    requires st == AfterVerifyRead(id, stamp, EnvelopeOf(db.records, id))
    ensures Do(Sys(db, won, [done, Start(VerifyJob(id, stamp))]), Advance(1)) == Sys(db, won, [done, Call(VerifyJob(id, stamp), st)])
  {
    SecondAdvances(db, won, done, Start(VerifyJob(id, stamp)));
  }

  lemma SecondAdvances(db: Tables, won: map<Text, First>, done: Call, c: Call)
    ensures Do(Sys(db, won, [done, c]), Advance(1)) == Sys(Written(db, c), Winners(db, won, c), [done, StepCall(db, c)])
  {
    assert [done, c][1 := StepCall(db, c)] == [done, StepCall(db, c)];
  }

  lemma VerifyTurn(db: Tables, won: map<Text, First>, done: Call, id: Text, stamp: Text, st: Stage)
    requires st.Verifying? && st.verified && RepairOf(db, st).1.Repaired?
    ensures Do(Sys(db, won, [done, Call(VerifyJob(id, stamp), st)]), Advance(1))
      == Sys(RepairOf(db, st).0, won, [done, Call(VerifyJob(id, stamp), Done(VerifyReturned(id, true)))])
  {
    SecondAdvances(db, won, done, Call(VerifyJob(id, stamp), st));
  }

  lemma {:induction false} VerifyRuns(
    one: seq<Move>, db: Tables, won: map<Text, First>, done: Call, id: Text, stamp: Text, st: Stage) returns (moves: seq<Move>)
    requires EngineRun(one) && Run(one) == Sys(db, won, [done])
    requires st == AfterVerifyRead(id, stamp, EnvelopeOf(db.records, id))
    requires st.Verifying? && st.verified && RepairOf(db, st).1.Repaired?
    ensures EngineRun(moves) && Run(moves)
      == Sys(RepairOf(db, st).0, won, [done, Call(VerifyJob(id, stamp), Done(VerifyReturned(id, true)))])
  {
    NextMove(one, Arrive(VerifyJob(id, stamp)));
    ArriveTurn(Run(one), VerifyJob(id, stamp));
    assert [done] + [Start(VerifyJob(id, stamp))] == [done, Start(VerifyJob(id, stamp))];
    moves := one + [Arrive(VerifyJob(id, stamp))];
    ReadTurn(db, won, done, id, stamp, st);
    NextMove(moves, Advance(1));
    moves := moves + [Advance(1)];
    VerifyTurn(db, won, done, id, stamp, st);
    NextMove(moves, Advance(1));
    moves := moves + [Advance(1)];
  }

  lemma VerifyReady(args: AddArgs, stamp: Text, st: Stage)
    requires args.key == Null && st == AfterVerifyRead(args.newId, stamp, EnvelopeOf(AddedTo(args).records, args.newId))
    ensures st.Verifying? && st.verified && RepairOf(AddedTo(args), st).1.Repaired?
  {
    FirstWriteReads(AddItem(args));
    assert AddItem(args).id == args.newId;
    ReadsAdded(args, stamp, EnvelopeOf(AddedTo(args).records, args.newId).value);
    VerifyCommitsOn(args, stamp, st);
  }

  lemma {:induction false} AddsAndVerifies(args: AddArgs, stamp: Text) returns (moves: seq<Move>)
    requires args.key == Null
    ensures EngineRun(moves) && Run(moves).won == map[args.newId := FirstOf(args)]
    ensures Run(moves).calls == [AddDone(args), Call(VerifyJob(args.newId, stamp), Done(VerifyReturned(args.newId, true)))]
  {
    var one := AddsOne(args);
    var st := AfterVerifyRead(args.newId, stamp, EnvelopeOf(AddedTo(args).records, args.newId));
    VerifyReady(args, stamp, st);
    moves := VerifyRuns(one, AddedTo(args), map[args.newId := FirstOf(args)], AddDone(args), args.newId, stamp, st);
  }

  /** Evidence is added under a status of its own making and then verified: the verification returns
      true, and the record does not count as verified and bound. */
  lemma {:induction false} OddStatusIsNotTrusted(args: AddArgs, stamp: Text) returns (moves: seq<Move>)
    requires args.key == Null && !Standard(args)
    ensures EngineRun(moves)
    ensures Run(moves).calls == [AddDone(args), Call(VerifyJob(args.newId, stamp), Done(VerifyReturned(args.newId, true)))]
    ensures var db := Run(moves).db;
      EnvelopeOf(db.records, args.newId).Some? && !Preverified(EnvelopeOf(db.records, args.newId).value, db.events, args.newId)
  {
    moves := AddsAndVerifies(args, stamp);
    VerifiedIsTrusted(moves, 1, args.newId);
  }
}
