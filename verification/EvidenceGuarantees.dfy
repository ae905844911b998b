/** What every engine run of evidence calls guarantees. */
module EvidenceGuarantees {
  import opened Ledger
  import opened StoreSpec
  import opened EvidenceRules
  import opened EvidenceSteps
  import opened EvidenceForms
  import opened EvidenceRuns
  import opened EvidenceInvariant

  // ---- idempotent add converges -----------------------------------------------------------

  predicate AddsUnder(c: Call, key: Value) {
    c.job.AddJob? && c.job.args.key == key
  }

  predicate Returned(c: Call) {
    c.stage.Done? && c.stage.outcome.Added?
  }

  /** At most one evidence record carries a key, and the one event that holds the key is its
      creation event. */
  lemma {:induction false} OneRecordPerKey(moves: seq<Move>, id: Text, key: Value)
    requires EngineRun(moves) && Truthy(key) && IsEvidence(Run(moves).db, id)
    requires Run(moves).db.records[id].body.Obj? && Get(Run(moves).db.records[id].body.p, IdempotencyKey) == key
    ensures id == EvidenceIdOf(Show(key))
    ensures var events := Run(moves).db.events;
      EvidenceEventId(Show(key)) in events && events[EvidenceEventId(Show(key))].etype == Lit(EvidenceCreated)
      && forall eid :: eid in events && events[eid].key == Some(Show(key)) ==> eid == EvidenceEventId(Show(key))
  {
    RunKeepsInv(moves);
    var s := Run(moves);
    var first := s.won[id];
    assert RowOk(s.db, id, first) && Made(first);
    FiledDescribed(first, s.db.records[id].body.p);
    EventFacts(first);
    CreationEventId(first);
  }

  lemma CreationEventId(first: First)
    requires Made(first)
    ensures first.event.id == EvidenceEventId(EventKey(first.args))
  {
  }

  /** The two artifacts differ at most in their verification status. */
  ghost predicate SameArtifact(a: Payload, b: Payload) {
    forall f :: f != VerificationStatus ==> Get(a, f) == Get(b, f)
  }

  /** All calls that return under one key asked for the same thing and get the same artifact. */
  lemma {:induction false} ReturnedAddsAgree(moves: seq<Move>, i: nat, j: nat, key: Value)
    requires EngineRun(moves) && i < |Run(moves).calls| && j < |Run(moves).calls| && Truthy(key)
    requires AddsUnder(Run(moves).calls[i], key) && Returned(Run(moves).calls[i])
    requires AddsUnder(Run(moves).calls[j], key) && Returned(Run(moves).calls[j])
    ensures var a, b := Run(moves).calls[i], Run(moves).calls[j];
      Meaning(a.job.args) == Meaning(b.job.args) && a.stage.outcome.id == b.stage.outcome.id
      && SameArtifact(a.stage.outcome.artifact, b.stage.outcome.artifact)
  {
    RunKeepsInv(moves);
    var s := Run(moves);
    var a, b := s.calls[i], s.calls[j];
    assert CallOk(s.db, s.won, a) && CallOk(s.db, s.won, b);
    var first := s.won[EvidenceIdOf(Show(key))];
    assert Made(first);
    ArtifactsAlike(first, a.stage.outcome.artifact, b.stage.outcome.artifact);
  }

  lemma ArtifactsAlike(first: First, a: Payload, b: Payload)
    requires Made(first) && ArtifactOk(first, a) && ArtifactOk(first, b)
    ensures SameArtifact(a, b)
  {
    FormsAreAlike(first);
    AlikeArtifacts(first.item.payload, first.final);
    AlikeArtifacts(first.final, first.item.payload);
  }

  lemma FormsAreAlike(first: First)
    requires Made(first)
    ensures Alike(first.final, first.item.payload)
  {
    VerifiedKeepsFields(first.item.payload, true);
  }

  lemma AlikeArtifacts(p: Payload, q: Payload)
    requires Alike(p, q)
    ensures SameArtifact(ArtifactOf(p), ArtifactOf(q))
  {
    assert EnvelopeSha256 !in ARTIFACT_FIELDS;
    forall f | f != VerificationStatus ensures Get(ArtifactOf(p), f) == Get(ArtifactOf(q), f) {
      if f in ARTIFACT_FIELDS { ArtifactKeeps(p, f); ArtifactKeeps(q, f); }
    }
  }

  /** The record of this key was verified since it was added under a status of its own making. */
  ghost predicate Untraceable(s: Sys, id: Text)
    requires id in s.won
  {
    !Standard(s.won[id].args) && Verifieds(s.db, id, s.won[id])
  }

  /** A keyed call that finds its evidence id taken by a record returns only if it asked for what
      that record was added for; it fails only if it asked for something else, or the record can
      no longer be traced to its first form, or with an event conflict, which is the subject of
      `EvidenceConflicts`. The two repair attempts are always enough. */
  lemma {:induction false} FinishedAddsAreRight(moves: seq<Move>, i: nat, key: Value)
    requires EngineRun(moves) && i < |Run(moves).calls| && Truthy(key) && AddsUnder(Run(moves).calls[i], key)
    requires Run(moves).calls[i].stage.Done?
    ensures var s, c := Run(moves), Run(moves).calls[i];
      var id := EvidenceIdOf(Show(key));
      match c.stage.outcome
      case Added(got, artifact) =>
        got == id && id in s.won && Agrees(c.job.args, s.won[id].args)
        && SameArtifact(artifact, Artifact(s.won[id].args))
      case Raised(why) =>
        why in {RequestConflict, RecordInvalid, EventConflict}
        && (why != EventConflict && id in s.won ==>
            !Agrees(c.job.args, s.won[id].args) || Untraceable(s, id))
      case VerifyReturned(_, _) => false
  {
    RunKeepsInv(moves);
    var s, c := Run(moves), Run(moves).calls[i];
    assert CallOk(s.db, s.won, c);
    if c.stage.outcome.Added? {
      var first := s.won[EvidenceIdOf(Show(key))];
      assert Made(first);
      FirstFacts(first);
      ArtifactsAlike(first, c.stage.outcome.artifact, ArtifactOf(first.item.payload));
    }
  }

  /** No add gives up on its repair: a record changes at most once, so the second attempt goes
      through. */
  lemma {:induction false} RetriesSuffice(moves: seq<Move>, i: nat)
    requires EngineRun(moves) && i < |Run(moves).calls| && Run(moves).calls[i].job.AddJob?
    ensures Run(moves).calls[i].stage != Done(Raised(GaveUp))
    ensures Run(moves).calls[i].stage != Done(Raised(EventAmbiguous))
  {
    RunKeepsInv(moves);
    assert CallOk(Run(moves).db, Run(moves).won, Run(moves).calls[i]);
  }

  /** Once a record holds the key's evidence id, no add under that key changes the store,
      whether it agrees with the record or not. */
  lemma {:induction false} LaterAddsChangeNothing(moves: seq<Move>, i: nat, key: Value)
    requires EngineRun(moves) && i < |Run(moves).calls| && Truthy(key) && AddsUnder(Run(moves).calls[i], key)
    requires IsEvidence(Run(moves).db, EvidenceIdOf(Show(key)))
    ensures Do(Run(moves), Advance(i)).db == Run(moves).db && Do(Run(moves), Advance(i)).won == Run(moves).won
  {
    RunKeepsInv(moves);
    LaterAddWritesNothing(Run(moves), i, key);
  }

  lemma LaterAddWritesNothing(s: Sys, i: nat, key: Value)
    requires Inv(s) && i < |s.calls| && Truthy(key) && AddsUnder(s.calls[i], key) && IsEvidence(s.db, EvidenceIdOf(Show(key)))
    ensures Do(s, Advance(i)).db == s.db && Do(s, Advance(i)).won == s.won
  {
    var c := s.calls[i];
    CallIsOk(s, i);
    if c.stage.Creating? {
      assert c == Call(AddJob(c.job.args), Creating);
      LostChangesNothing(s.db, c.job.args);
    } else {
      AddStep(s.db, s.won, c, Written(s.db, c));
    }
    StepWithoutWriting(s, i);
  }

  lemma StepWithoutWriting(s: Sys, i: nat)
    requires i < |s.calls| && Written(s.db, s.calls[i]) == s.db && !Claims(s.db, s.calls[i])
    ensures Do(s, Advance(i)).db == s.db && Do(s, Advance(i)).won == s.won
  {
  }

  lemma LostChangesNothing(db: Tables, args: AddArgs)
    requires IdOf(args) in db.records
    ensures var c := Call(AddJob(args), Creating); Written(db, c) == db && !Claims(db, c)
  {
  }

  // ---- verification and replay commute ---------------------------------------------------------

  predicate HasVerified(c: Call, id: Text) {
    c.job.VerifyJob? && c.stage.Done? && c.stage.outcome.VerifyReturned? && c.stage.outcome.id == id
  }

  /** Once a verification has returned (it can only return true), the record counts as verified
      and bound in this and every later state, exactly when it was added under one of the two
      standard statuses. */
  lemma {:induction false} VerifiedIsTrusted(moves: seq<Move>, i: nat, id: Text)
    requires EngineRun(moves) && i < |Run(moves).calls| && HasVerified(Run(moves).calls[i], id)
    ensures Run(moves).calls[i].stage.outcome.verified && id in Run(moves).won
    ensures var db := Run(moves).db;
      EnvelopeOf(db.records, id).Some?
      && (Preverified(EnvelopeOf(db.records, id).value, db.events, id) <==> Standard(Run(moves).won[id].args))
  {
    RunKeepsInv(moves);
    var s := Run(moves);
    assert CallOk(s.db, s.won, s.calls[i]);
    var first := s.won[id];
    assert Made(first);
    ReadIsOk(s.db, s.won, id);
    FinalIsTrusted(s.db.events, EnvelopeOf(s.db.records, id).value, first);
  }

  lemma VerifiedFacts(db: Tables, won: map<Text, First>, c: Call, id: Text)
    requires CallOk(db, won, c) && HasVerified(c, id)
    ensures id in won && IsFinal(db, id, won[id]) && VerifiedOnRecord(db.events, won[id])
  {
  }

  /** The record read now, its events read then. */
  lemma FinalStaysTrusted(db: Tables, won: map<Text, First>, later: map<Text, EventRow>, id: Text)
    requires StoreOk(db, won) && AllMade(won) && id in won && IsFinal(db, id, won[id]) && VerifiedOnRecord(later, won[id])
    ensures EnvelopeOf(db.records, id).Some?
    ensures Preverified(EnvelopeOf(db.records, id).value, later, id) <==> Standard(won[id].args)
  {
    assert Made(won[id]) && RowOk(db, id, won[id]);
    ReadIsOk(db, won, id);
    FinalIsTrusted(later, EnvelopeOf(db.records, id).value, won[id]);
  }

  lemma TrustLastsBetween(now: Sys, later: Sys, c: Call, id: Text)
    requires StoreOk(now.db, now.won) && AllMade(now.won) && CallOk(now.db, now.won, c) && HasVerified(c, id)
    requires StoreOk(later.db, later.won) && AllMade(later.won) && CallOk(later.db, later.won, c)
    requires id in now.won && id in later.won && later.won[id] == now.won[id]
    ensures EnvelopeOf(now.db.records, id).Some? && EnvelopeOf(later.db.records, id).Some?
    ensures Preverified(EnvelopeOf(now.db.records, id).value, later.db.events, id) <==> Standard(now.won[id].args)
    ensures Preverified(EnvelopeOf(later.db.records, id).value, later.db.events, id) <==> Standard(now.won[id].args)
  {
    VerifiedFacts(now.db, now.won, c, id);
    VerifiedFacts(later.db, later.won, c, id);
    FinalStaysTrusted(now.db, now.won, later.db.events, id);
    FinalStaysTrusted(later.db, later.won, later.db.events, id);
  }

  lemma CallIsOk(s: Sys, i: nat)
    requires Inv(s) && i < |s.calls|
    ensures CallOk(s.db, s.won, s.calls[i]) && StoreOk(s.db, s.won) && AllMade(s.won)
  {
  }

  /** It stays so for ever, also for a check that reads the record now and its events later. */
  lemma {:induction false} TrustLasts(moves: seq<Move>, more: seq<Move>, i: nat, id: Text)
    requires EngineRun(moves + more) && EngineRun(moves) && i < |Run(moves).calls| && HasVerified(Run(moves).calls[i], id)
    ensures var now, later := Run(moves), Run(moves + more);
      id in now.won && EnvelopeOf(now.db.records, id).Some? && EnvelopeOf(later.db.records, id).Some?
      && (Preverified(EnvelopeOf(now.db.records, id).value, later.db.events, id) <==> Standard(now.won[id].args))
      && (Preverified(EnvelopeOf(later.db.records, id).value, later.db.events, id) <==> Standard(now.won[id].args))
  {
    RunKeepsInv(moves);
    RunKeepsInv(moves + more);
    CallIsOk(Run(moves), i);
    VerifiedFacts(Run(moves).db, Run(moves).won, Run(moves).calls[i], id);
    FinishedStays(moves, more, i, id);
    CallIsOk(Run(moves + more), i);
    TrustLastsBetween(Run(moves), Run(moves + more), Run(moves).calls[i], id);
  }

  lemma {:induction false} FinishedStays(moves: seq<Move>, more: seq<Move>, i: nat, id: Text)
    requires EngineRun(moves + more) && i < |Run(moves).calls| && Run(moves).calls[i].stage.Done? && id in Run(moves).won
    ensures i < |Run(moves + more).calls| && Run(moves + more).calls[i] == Run(moves).calls[i]
    ensures id in Run(moves + more).won && Run(moves + more).won[id] == Run(moves).won[id]
    decreases |more|
  {
    if more == [] {
      assert moves + more == moves;
    } else {
      var most, m := more[..|more| - 1], more[|more| - 1];
      assert moves + more == moves + most + [m];
      OneMoveMore(moves + most, m);
      FinishedStays(moves, most, i, id);
      RunKeepsInv(moves + most);
      FinishedStaysAfter(Run(moves + most), m, i, id);
    }
  }

  lemma {:induction false} OneMoveMore(moves: seq<Move>, m: Move)
    requires EngineRun(moves + [m])
    ensures EngineRun(moves) && Run(moves + [m]) == Do(Run(moves), m)
    ensures m.Foreign? ==> Leaves(Run(moves).db, Apply(Run(moves).db, m.op))
  {
    assert (moves + [m])[..|moves + [m]| - 1] == moves;
  }

  lemma FinishedStaysAfter(s: Sys, m: Move, i: nat, id: Text)
    requires Inv(s) && (m.Foreign? ==> Leaves(s.db, Apply(s.db, m.op)))
    requires i < |s.calls| && s.calls[i].stage.Done? && id in s.won
    ensures var s' := Do(s, m); i < |s'.calls| && s'.calls[i] == s.calls[i] && id in s'.won && s'.won[id] == s.won[id]
  {
    MoveKeepsInv(s, m);
    DoneStaysDone(s, m, i);
  }

  lemma DoneStaysDone(s: Sys, m: Move, i: nat)
    requires i < |s.calls| && s.calls[i].stage.Done?
    ensures i < |Do(s, m).calls| && Do(s, m).calls[i] == s.calls[i]
  {
  }

  lemma FinalIsTrusted(events: map<Text, EventRow>, env: Envelope, first: First)
    requires Made(first) && EnvelopeOfFirst(env, first) && env.payload == first.final
    requires VerifiedOnRecord(events, first)
    ensures Preverified(env, events, first.item.id) <==> Standard(first.args)
  {
    OriginIsFound(env, first);
    FiledDescribed(first, env.payload);
    FinalStatus(first);
    EventFacts(first);
    ProofRecorded(events, first, env.payload);
    FinalPassesChecks(env, first.item.id, first.args);
    if !Standard(first.args) && env.payload == first.item.payload { NonStandardDiffers(first); }
  }

  lemma FinalStatus(first: First)
    requires Made(first)
    ensures Get(first.final, VerificationStatus) == Literal(Verified)
  {
    VerifiedKeepsFields(first.item.payload, true);
  }

  lemma NonStandardDiffers(first: First)
    requires Made(first) && !Standard(first.args)
    ensures first.final != first.item.payload
  {
    FinalStatus(first);
    FiledDescribed(first, first.item.payload);
  }

  lemma FinalPassesChecks(env: Envelope, id: Text, args: AddArgs)
    requires Describes(env.payload, args) && id == IdOf(args) && env.rtype == Lit(EvidenceRecord)
    requires env.mission == Str(args.mission) && ContentIntact(env.payload)
    requires Get(env.payload, VerificationStatus) == Literal(Verified)
    requires Get(env.payload, EnvelopeSha256) == Str(EnvelopeSha(env.payload))
    ensures LooksVerified(env, id) <==> OriginOf(env, env.payload).OriginForm?
  {
  }

  lemma ProofRecorded(events: map<Text, EventRow>, first: First, p: Payload)
    requires Made(first) && VerifiedOnRecord(events, first)
    requires Get(p, Sha256) == Str(ContentDigest(first.args.content))
    ensures forall status :: VerificationRecorded(events, IdOf(first.args), p, status)
  {
  }

  /** After a verification has returned, no further verification changes the store. */
  lemma {:induction false} SecondVerifyChangesNothing(moves: seq<Move>, i: nat, j: nat, id: Text)
    requires EngineRun(moves) && i < |Run(moves).calls| && HasVerified(Run(moves).calls[i], id)
    requires j < |Run(moves).calls| && Run(moves).calls[j].job.VerifyJob? && Run(moves).calls[j].job.id == id
    ensures Do(Run(moves), Advance(j)).db == Run(moves).db
  {
    RunKeepsInv(moves);
    var s := Run(moves);
    assert CallOk(s.db, s.won, s.calls[i]) && CallOk(s.db, s.won, s.calls[j]);
    VerifyAgain(s.db, s.won, id, s.calls[j]);
  }

  lemma VerifyAgain(db: Tables, won: map<Text, First>, id: Text, c: Call)
    requires StoreOk(db, won) && AllMade(won) && id in won && c.job.VerifyJob? && c.job.id == id && CallOk(db, won, c)
    requires IsFinal(db, id, won[id]) && VerifiedOnRecord(db.events, won[id])
    ensures Written(db, c) == db
  {
    if c.stage.Verifying? {
      assert Made(won[id]) && RowOk(db, id, won[id]);
      AnyVerifyIsNoChange(db, won, id, c.job.stamp, c.stage);
    }
  }

  lemma AnyVerifyIsNoChange(db: Tables, won: map<Text, First>, id: Text, stamp: Text, st: Stage)
    requires st.Verifying? && VerifyOk(db, won, id, stamp, st) && Made(won[id]) && RowOk(db, id, won[id])
    requires IsFinal(db, id, won[id]) && VerifiedOnRecord(db.events, won[id])
    ensures RepairOf(db, st).0 == db
  {
    ProofFacts(won[id], stamp, id, st.ev);
    VerifyAgainIsNoChange(db, won[id], id, st);
  }

  lemma VerifyAgainIsNoChange(db: Tables, first: First, id: Text, st: Stage)
    requires RowOk(db, id, first) && IsFinal(db, id, first) && VerifiedOnRecord(db.events, first)
    requires st.Verifying? && st.env.id == id && st.next == first.final && st.ev.id == first.proof.id
    requires SameIdentity(st.ev.row, first.proof.row) && st.ev.row.key == first.proof.row.key
    ensures RepairOf(db, st).0 == db
  {
    if RepairOf(db, st).1.Repaired? {
      assert Bind(db.events, st.ev) == Some(db.events[st.ev.id]);
      assert Reseal(id, db.records[id], st.next) == db.records[id];
      assert db.records[id := db.records[id]] == db.records;
      assert db.events[st.ev.id := db.events[st.ev.id]] == db.events;
    }
  }

  /** A verification that loses its race loses it to another verification. */
  lemma {:induction false} LostRaceMeansVerified(moves: seq<Move>, i: nat)
    requires EngineRun(moves) && i < |Run(moves).calls| && Run(moves).calls[i].job.VerifyJob?
    requires Run(moves).calls[i].stage == Done(Raised(LostRace))
    ensures var s, id := Run(moves), Run(moves).calls[i].job.id;
      id in s.won && id in s.db.records && s.db.records[id].body == Obj(VerifiedForm(Filing(s.won[id].args), true))
  {
    RunKeepsInv(moves);
    var s, id := Run(moves), Run(moves).calls[i].job.id;
    assert CallOk(s.db, s.won, s.calls[i]) && Made(s.won[id]);
  }

  // ---- a replay left alone succeeds ------------------------------------------------------------

  /** The call after `n` steps with nobody else about, on a store it does not change. */
  ghost function After(db: Tables, c: Call, n: nat): Call
    decreases n
  {
    if n == 0 then c else After(db, StepCall(db, c), n - 1)
  }

  ghost predicate WritesNothing(db: Tables, c: Call, n: nat)
    decreases n
  {
    n > 0 ==> Written(db, c) == db && WritesNothing(db, StepCall(db, c), n - 1)
  }

  ghost predicate Answerable(db: Tables, won: map<Text, First>, args: AddArgs) {
    Keyed(args) && IdOf(args) in won && !Refusable(db, won, args)
  }

  /** An agreeing call for a traceable record returns in six steps, verified or not, and writes
      nothing. */
  lemma {:induction false} ReplaySucceeds(moves: seq<Move>, args: AddArgs)
    requires EngineRun(moves) && Answerable(Run(moves).db, Run(moves).won, args)
    ensures Returned(After(Run(moves).db, Start(AddJob(args)), 6))
    ensures WritesNothing(Run(moves).db, Start(AddJob(args)), 6)
  {
    RunKeepsInv(moves);
    FoundInStore(Run(moves).db, Run(moves).won, args);
    ReplayGoesOn(Run(moves).db, Run(moves).won, args, Start(AddJob(args)));
  }

  lemma FoundInStore(db: Tables, won: map<Text, First>, args: AddArgs)
    requires StoreOk(db, won) && AllMade(won) && Answerable(db, won, args)
    ensures FoundByKey(db.records, args.key).Some?
  {
    var id := IdOf(args);
    ReadIsOk(db, won, id);
    assert Made(won[id]);
    FiledKey(won[id], args, EnvelopeOf(db.records, id).value.payload);
    assert Finds(db.records, Lit(EvidenceRecord), IdempotencyKey, args.key, id);
  }

  lemma FiledKey(first: First, args: AddArgs, p: Payload)
    requires Made(first) && Filed(first, p) && Agrees(args, first.args)
    ensures Get(p, IdempotencyKey) == args.key
  {
    FiledDescribed(first, p);
    assert Meaning(args).key == StoredRequest(first.args).key;
  }

  /** How many steps such a call still takes. */
  function Left(st: Stage): nat {
    match st
    case LookingUpKey => 6
    case Replaying(_, _) => 5
    case Rereading(_, _, _) => 4
    case FindingEvent(_, _, _, _) => 3
    case Repairing(_, _, _, _, _) => 2
    case Settling(_) => 1
    case _ => 0
  }

  /** What it read is still what is stored. */
  predicate UpToDate(db: Tables, st: Stage) {
    st.FindingEvent? || st.Repairing? ==>
      st.env.id == st.id && SealedAs(db.records, st.id, Lit(EvidenceRecord), st.env.integrity)
  }

  lemma {:induction false} ReplayGoesOn(db: Tables, won: map<Text, First>, args: AddArgs, c: Call)
    requires StoreOk(db, won) && AllMade(won) && Answerable(db, won, args) && FoundByKey(db.records, args.key).Some?
    requires c.job == AddJob(args) && CallOk(db, won, c) && Left(c.stage) > 0 && UpToDate(db, c.stage)
    ensures Returned(After(db, c, Left(c.stage))) && WritesNothing(db, c, Left(c.stage))
    decreases Left(c.stage)
  {
    AddStep(db, won, c, Written(db, c));
    ReplayMoves(db, won, args, c.stage);
    if Left(c.stage) > 1 {
      ReplayGoesOn(db, won, args, StepCall(db, c));
    } else {
      assert After(db, StepCall(db, c), 0) == StepCall(db, c);
    }
  }

  lemma ReplayMoves(db: Tables, won: map<Text, First>, args: AddArgs, st: Stage)
    requires StoreOk(db, won) && AllMade(won) && Answerable(db, won, args) && FoundByKey(db.records, args.key).Some?
    requires AddOk(db, won, args, st) && AddOk(db, won, args, NextAdd(db, args, st))
    requires Left(st) > 0 && UpToDate(db, st)
    ensures if Left(st) > 1 then Left(NextAdd(db, args, st)) == Left(st) - 1 && UpToDate(db, NextAdd(db, args, st))
            else NextAdd(db, args, st).Done? && NextAdd(db, args, st).outcome.Added?
  {
    match st
    case Replaying(id, tries) =>
      var env := EnvelopeOf(db.records, id).value;
      ReadIsOk(db, won, id);
      assert Made(won[id]);
      FiledDescribed(won[id], env.payload);
      KeyOfFirst(won[id], args);
      AcceptedReplay(db, won, args, ReplayCheck(Some(env), id, args), id, tries, env.payload);
    case Settling(id) =>
      var env := EnvelopeOf(db.records, id).value;
      ReadIsOk(db, won, id);
      AcceptedSettling(db, won, args, ReplayCheck(Some(env), id, args), id, env.payload);
    case Rereading(id, _, _) =>
      ReadIsOk(db, won, id);
      RereadGoesOn(db, won, args, st, EnvelopeOf(db.records, id).value);
    case FindingEvent(_, _, _, _) => FindGoesOn(db, won, args, st);
    case Repairing(_, _, _, _, _) => RepairIsNoChange(db, won, st);
    case _ =>
  }

  lemma KeyOfFirst(first: First, args: AddArgs)
    requires Agrees(args, first.args)
    ensures first.args.key == args.key
  {
    assert Meaning(args).key == StoredRequest(first.args).key;
  }

  lemma AcceptedReplay(
    db: Tables, won: map<Text, First>, args: AddArgs, check: Replay, id: Text, tries: nat, p: Payload)
    requires Answerable(db, won, args) && AddOk(db, won, args, AfterReplay(check, id, tries, p))
    requires check in {Accept, Refuse(RecordInvalid), Refuse(RequestConflict)} && Truthy(Get(p, IdempotencyKey))
    ensures AfterReplay(check, id, tries, p).Rereading?
  {
  }

  lemma AcceptedSettling(db: Tables, won: map<Text, First>, args: AddArgs, check: Replay, id: Text, p: Payload)
    requires Answerable(db, won, args) && AddOk(db, won, args, AfterSettling(check, id, p))
    requires check in {Accept, Refuse(RecordInvalid), Refuse(RequestConflict)}
    ensures AfterSettling(check, id, p).Done? && AfterSettling(check, id, p).outcome.Added?
  {
  }

  lemma RereadGoesOn(db: Tables, won: map<Text, First>, args: AddArgs, st: Stage, env: Envelope)
    requires st.Rereading? && Answerable(db, won, args) && EnvelopeOf(db.records, st.id) == Some(env)
    requires AddOk(db, won, args, st) && AddOk(db, won, args, AfterReread(st, Some(env)))
    requires SnapOk(db, won, st.id, env)
    ensures AfterReread(st, Some(env)).FindingEvent? && UpToDate(db, AfterReread(st, Some(env)))
  {
  }

  lemma FindGoesOn(db: Tables, won: map<Text, First>, args: AddArgs, st: Stage)
    requires st.FindingEvent? && Answerable(db, won, args) && UpToDate(db, st)
    requires AddOk(db, won, args, NextAdd(db, args, st)) && AddOk(db, won, args, st)
    ensures NextAdd(db, args, st).Repairing? && UpToDate(db, NextAdd(db, args, st))
  {
    var existing := KeyHolder(db.events, Show(Get(st.artifact, IdempotencyKey)));
    if existing.Some? {
      RepairPlanned(args, st, existing, db.events);
      PlanGoesOn(db, won, args, st, ToRepair(args, st, existing, db.events));
    }
  }

  lemma RepairPlanned(args: AddArgs, st: Stage, existing: Option<Text>, events: map<Text, EventRow>)
    requires st.FindingEvent? && (existing.Some? ==> existing.value in events)
    ensures Plans(st, ToRepair(args, st, existing, events))
  {
  }

  predicate Plans(st: Stage, plan: Stage)
    requires st.FindingEvent?
  {
    plan in {Done(Raised(BadEvent)), Done(Raised(RecordInvalid))}
    || (plan.Repairing? && plan.id == st.id && plan.env == st.env)
  }

  lemma PlanGoesOn(db: Tables, won: map<Text, First>, args: AddArgs, st: Stage, plan: Stage)
    requires st.FindingEvent? && Plans(st, plan) && Answerable(db, won, args) && UpToDate(db, st)
    requires AddOk(db, won, args, plan)
    ensures plan.Repairing? && UpToDate(db, plan)
  {
  }
}
