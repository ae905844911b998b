/** Every step of an evidence call keeps the invariant of EvidenceRuns. */
module EvidenceInvariant {
  import opened Ledger
  import opened StoreSpec
  import opened EvidenceRules
  import opened EvidenceSteps
  import opened EvidenceForms
  import opened EvidenceRuns

  // ---- a call's knowledge survives other callers ------------------------------------------

  lemma FinalStays(db: Tables, won: map<Text, First>, db': Tables, won': map<Text, First>, id: Text)
    requires Forward(db, won, db', won') && id in won && IsFinal(db, id, won[id])
    ensures id in won' && IsFinal(db', id, won'[id])
  {
  }

  lemma ProofStays(db: Tables, won: map<Text, First>, db': Tables, won': map<Text, First>, id: Text)
    requires Forward(db, won, db', won') && id in won && VerifiedOnRecord(db.events, won[id])
    requires won[id].proof.row.key.Some?
    ensures id in won' && VerifiedOnRecord(db'.events, won'[id])
  {
    OnRecordPersists(db.events, db'.events, won[id].proof);
  }

  lemma SnapStays(db: Tables, won: map<Text, First>, db': Tables, won': map<Text, First>, id: Text, env: Envelope)
    requires Forward(db, won, db', won') && SnapOk(db, won, id, env) && won[id].proof.row.key.Some?
    ensures SnapOk(db', won', id, env)
  {
    if env.payload != won[id].item.payload {
      FinalStays(db, won, db', won', id);
      ProofStays(db, won, db', won', id);
    }
  }

  lemma ProofIsKeyed(db: Tables, won: map<Text, First>, id: Text)
    requires StoreOk(db, won) && id in won
    ensures won[id].proof.row.key.Some?
  {
    assert RowOk(db, id, won[id]);
  }

  lemma AddStays(
    db: Tables, won: map<Text, First>, db': Tables, won': map<Text, First>, args: AddArgs, st: Stage)
    requires StoreOk(db, won) && Forward(db, won, db', won') && AddOk(db, won, args, st)
    ensures AddOk(db', won', args, st)
  {
    if st.FindingEvent? || st.Repairing? {
      ProofIsKeyed(db, won, st.id);
      SnapStays(db, won, db', won', st.id, st.env);
    }
    if st.Repairing? { OnRecordPersists(db.events, db'.events, st.ev); }
    if st.Done? && st.outcome.Raised? { FailureStays(db, won, db', won', args, st.outcome.why); }
  }

  lemma FailureStays(
    db: Tables, won: map<Text, First>, db': Tables, won': map<Text, First>, args: AddArgs, why: Why)
    requires Forward(db, won, db', won') && FailureOk(db, won, args, why)
    ensures FailureOk(db', won', args, why)
  {
  }

  lemma VerifyStays(
    db: Tables, won: map<Text, First>, db': Tables, won': map<Text, First>, id: Text, stamp: Text, st: Stage)
    requires StoreOk(db, won) && Forward(db, won, db', won') && VerifyOk(db, won, id, stamp, st)
    ensures VerifyOk(db', won', id, stamp, st)
  {
    if st.Verifying? || (st.Done? && st.outcome.VerifyReturned?) { ProofIsKeyed(db, won, id); }
    if st.Verifying? { SnapStays(db, won, db', won', id, st.env); }
    if st.Done? && st.outcome.VerifyReturned? { ProofStays(db, won, db', won', id); }
  }

  lemma CallStays(db: Tables, won: map<Text, First>, db': Tables, won': map<Text, First>, c: Call)
    requires StoreOk(db, won) && Forward(db, won, db', won') && CallOk(db, won, c)
    ensures CallOk(db', won', c)
  {
    match c.job
    case AddJob(args) => AddStays(db, won, db', won', args, c.stage);
    case VerifyJob(id, stamp) => VerifyStays(db, won, db', won', id, stamp, c.stage);
  }

  // ---- reads -------------------------------------------------------------------------------

  lemma ReadIsOk(db: Tables, won: map<Text, First>, id: Text)
    requires StoreOk(db, won) && id in won
    ensures EnvelopeOf(db.records, id).Some? && SnapOk(db, won, id, EnvelopeOf(db.records, id).value)
    ensures IsFinal(db, id, won[id]) ==> EnvelopeOf(db.records, id).value.payload == won[id].final
  {
    assert RowOk(db, id, won[id]);
  }

  /** What the replay check makes of a record made by `add`. */
  lemma ReplayOfFirst(env: Envelope, first: First, id: Text, args: AddArgs)
    requires Made(first) && EnvelopeOfFirst(env, first) && id == first.item.id == IdOf(args) && Keyed(args)
    ensures ReplayCheck(Some(env), id, args).Accept? ==> Agrees(args, first.args)
    ensures ReplayCheck(Some(env), id, args) == Refuse(RecordInvalid) ==> !Agrees(args, first.args)
    ensures ReplayCheck(Some(env), id, args) == Refuse(RequestConflict) ==>
      !Agrees(args, first.args) || (!Standard(first.args) && env.payload != first.item.payload)
    ensures ReplayCheck(Some(env), id, args) in {Accept, Refuse(RecordInvalid), Refuse(RequestConflict)}
    ensures ReplayCheck(Some(env), id, args).Accept? ==> OriginOf(env, env.payload).OriginForm?
  {
    FiledDescribed(first, env.payload);
    OriginIsFound(env, first);
    ReplayByFacts(env, first.args, id, args);
  }

  lemma ReplayByFacts(env: Envelope, firstArgs: AddArgs, id: Text, args: AddArgs)
    requires Describes(env.payload, firstArgs) && env.rtype == Lit(EvidenceRecord) && env.id == id
    requires env.mission == Str(firstArgs.mission) && id == IdOf(firstArgs) == IdOf(args) && Keyed(args)
    requires Get(env.payload, EnvelopeSha256) == Str(EnvelopeSha(env.payload)) && ContentIntact(env.payload)
    ensures ReplayCheck(Some(env), id, args) ==
      if Str(firstArgs.mission) != Str(args.mission) then Refuse(RecordInvalid)
      else if OriginOf(env, env.payload).NoOrigin? then Refuse(RequestConflict)
      else if RequestMatches(env.payload, Asked(args)) then Accept
      else Refuse(RequestConflict)
    ensures RequestMatches(env.payload, Asked(args)) <==> Agrees(args, firstArgs)
    ensures Str(firstArgs.mission) != Str(args.mission) ==> !Agrees(args, firstArgs)
  {
    MatchMeansAgreement(firstArgs, env.payload, args);
  }

  // ---- each step of an add ------------------------------------------------------------------

  lemma LookupStep(db: Tables, won: map<Text, First>, args: AddArgs)
    requires StoreOk(db, won) && AllMade(won) && Keyed(args)
    ensures AddOk(db, won, args, NextAdd(db, args, LookingUpKey))
  {
    var found := FoundByKey(db.records, args.key);
    if found.Some? {
      var id := found.value;
      assert IsEvidence(db, id) && RowOk(db, id, won[id]);
      ReadIsOk(db, won, id);
      FiledDescribed(won[id], EnvelopeOf(db.records, id).value.payload);
      assert Made(won[id]);
    }
  }

  lemma SettleStep(db: Tables, won: map<Text, First>, args: AddArgs, id: Text)
    requires StoreOk(db, won) && AllMade(won) && AddOk(db, won, args, Settling(id))
    ensures AddOk(db, won, args, NextAdd(db, args, Settling(id)))
  {
    var read := EnvelopeOf(db.records, id);
    if id in won {
      ReadIsOk(db, won, id);
      ReplayOfFirst(read.value, won[id], id, args);
    } else {
      assert !IsEvidence(db, id);
    }
  }

  lemma ReplayStep(db: Tables, won: map<Text, First>, args: AddArgs, id: Text, tries: nat)
    requires StoreOk(db, won) && AllMade(won) && AddOk(db, won, args, Replaying(id, tries))
    ensures AddOk(db, won, args, NextAdd(db, args, Replaying(id, tries)))
  {
    var read := EnvelopeOf(db.records, id);
    ReadIsOk(db, won, id);
    ReplayOfFirst(read.value, won[id], id, args);
    ReplayAccepted(db, won, args, id, tries, read.value, ReplayCheck(read, id, args));
  }

  lemma ReplayAccepted(
    db: Tables, won: map<Text, First>, args: AddArgs, id: Text, tries: nat, env: Envelope, check: Replay)
    requires AddOk(db, won, args, Replaying(id, tries)) && SnapOk(db, won, id, env) && id in db.records
    requires match check
      case Accept => Agrees(args, won[id].args)
      case Refuse(why) => why in {RecordInvalid, RequestConflict} && Refusable(db, won, args)
    ensures AddOk(db, won, args, AfterReplay(check, id, tries, env.payload))
  {
    assert Filed(won[id], env.payload);
  }

  lemma RereadStep(db: Tables, won: map<Text, First>, args: AddArgs, st: Stage)
    requires StoreOk(db, won) && AllMade(won) && st.Rereading? && AddOk(db, won, args, st)
    ensures AddOk(db, won, args, NextAdd(db, args, st))
  {
    var read := EnvelopeOf(db.records, st.id);
    ReadIsOk(db, won, st.id);
    OriginIsFound(read.value, won[st.id]);
    RereadAccepted(db, won, args, st, read);
  }

  lemma RereadAccepted(db: Tables, won: map<Text, First>, args: AddArgs, st: Stage, read: Option<Envelope>)
    requires st.Rereading? && AddOk(db, won, args, st) && read.Some? && SnapOk(db, won, st.id, read.value)
    requires IsFinal(db, st.id, won[st.id]) ==> read.value.payload == won[st.id].final
    requires OriginOf(read.value, read.value.payload).NoOrigin? ==> Refusable(db, won, args)
    requires st.id in db.records
    ensures AddOk(db, won, args, AfterReread(st, read))
  {
  }

  /** The record's own creation event is the one that holds its key. */
  lemma FindStep(db: Tables, won: map<Text, First>, args: AddArgs, st: Stage)
    requires StoreOk(db, won) && AllMade(won) && st.FindingEvent? && AddOk(db, won, args, st)
    ensures AddOk(db, won, args, NextAdd(db, args, st))
  {
    var first := won[st.id];
    assert Made(first) && RowOk(db, st.id, first);
    FindFacts(first, st.artifact, st.env);
    CreationHoldsKey(db.events, first, Show(Get(st.artifact, IdempotencyKey)));
    FoundAccepted(db, won, args, st);
    FindsHolder(db, args, st, first.event.id);
  }

  lemma FindsHolder(db: Tables, args: AddArgs, st: Stage, eid: Text)
    requires st.FindingEvent? && KeyHolder(db.events, Show(Get(st.artifact, IdempotencyKey))) == Some(eid)
    ensures eid in db.events && NextAdd(db, args, st) == ToRepair(args, st, Some(eid), db.events)
  {
  }

  lemma CreationHoldsKey(events: map<Text, EventRow>, first: First, k: Text)
    requires UniqueKeys(events) && OnRecord(events, first.event) && first.event.row.key == Some(k)
    ensures KeyHolder(events, k) == Some(first.event.id)
  {
    assert first.event.id in events && events[first.event.id].key == Some(k);
  }

  lemma FindFacts(first: First, artifact: Payload, env: Envelope)
    requires Made(first) && ArtifactOk(first, artifact) && Filed(first, env.payload)
    ensures FoundFacts(first, artifact, env)
  {
    EventFacts(first);
    ArtifactFacts(first, first.item.payload);
    ArtifactFacts(first, first.final);
    FiledDescribed(first, env.payload);
    ReboundIsNoChange(first.args, env.payload, artifact, first.event.id);
  }

  predicate FoundFacts(first: First, artifact: Payload, env: Envelope) {
    var e := first.event.row;
    e.etype == Lit(EvidenceCreated) && e.aggregate == first.args.mission && e.aggregateType == Lit(MissionAggregate)
    && e.actor == Lit(EvidenceStoreActor) && e.key == Some(EventKey(first.args)) && e.body.Obj?
    && Get(artifact, MissionId) == Str(first.args.mission) && Get(artifact, IdempotencyKey) == first.args.key
    && Rebound(env.payload, artifact, first.event.id) == env.payload
  }

  lemma FoundAccepted(db: Tables, won: map<Text, First>, args: AddArgs, st: Stage)
    requires st.FindingEvent? && AddOk(db, won, args, st)
    requires OnRecord(db.events, won[st.id].event) && FoundFacts(won[st.id], st.artifact, st.env)
    ensures AddOk(db, won, args, ToRepair(args, st, Some(won[st.id].event.id), db.events))
  {
  }

  lemma RepairStep(db: Tables, won: map<Text, First>, args: AddArgs, st: Stage)
    requires StoreOk(db, won) && st.Repairing? && AddOk(db, won, args, st)
    ensures AddOk(db, won, args, NextAdd(db, args, st)) && RepairOf(db, st).0 == db
  {
    RepairIsNoChange(db, won, st);
    assert RowOk(db, st.id, won[st.id]);
  }

  lemma CreateStep(db: Tables, won: map<Text, First>, args: AddArgs, db': Tables)
    requires StoreOk(db, won) && db' == SaveWithEvent(db, AddItem(args), AddEvent(args)).0
    ensures var claim := SaveWithEvent(db, AddItem(args), AddEvent(args)).1;
      var won' := if claim.Claimed? then won[IdOf(args) := FirstOf(args)] else won;
      GoodMove(db, won, db', won') && AddOk(db', won', args, AfterClaim(args, claim))
  {
    var first := FirstOf(args);
    FirstFacts(first);
    ClaimAndGo(db, won, args, first, db');
  }

  lemma FirstFacts(first: First)
    requires Made(first)
    ensures first.item.rtype == Lit(EvidenceRecord) && first.event.row.key.Some? && first.proof.row.key.Some?
    ensures first.item.id == IdOf(first.args) && ArtifactOf(first.item.payload) == Artifact(first.args)
  {
    EventFacts(first);
    ArtifactIsFiled(first.args);
  }

  lemma ClaimAndGo(db: Tables, won: map<Text, First>, args: AddArgs, first: First, db': Tables)
    requires StoreOk(db, won) && db' == SaveWithEvent(db, first.item, first.event).0
    requires first.item.rtype == Lit(EvidenceRecord) && first.event.row.key.Some? && first.proof.row.key.Some?
    requires first.args == args && first.item.id == IdOf(args) && ArtifactOf(first.item.payload) == Artifact(args)
    ensures var claim := SaveWithEvent(db, first.item, first.event).1;
      var won' := if claim.Claimed? then won[IdOf(args) := first] else won;
      GoodMove(db, won, db', won') && AddOk(db', won', args, AfterClaim(args, claim))
  {
    var claim := SaveWithEvent(db, first.item, first.event).1;
    if claim.Claimed? { CreateIsGood(db, won, first, db'); } else { StayIsGood(db, won); }
    assert claim.Lost? ==> first.item.id in db.records;
    CreateAccepted(db, db', won, args, first, claim);
  }

  lemma CreateAccepted(
    db: Tables, db': Tables, won: map<Text, First>, args: AddArgs, first: First, claim: Claim)
    requires first.args == args && first.item.id == IdOf(args) && ArtifactOf(first.item.payload) == Artifact(args)
    requires claim.Lost? || claim.Claimed? ==> first.item.id in db'.records
    requires claim.Lost? ==> first.item.id in db.records
    ensures AddOk(db', if claim.Claimed? then won[first.item.id := first] else won, args, AfterClaim(args, claim))
  {
  }

  // ---- each step of a verification ------------------------------------------------------------

  lemma ReadToVerifyStep(db: Tables, won: map<Text, First>, id: Text, stamp: Text)
    requires StoreOk(db, won) && AllMade(won)
    ensures VerifyOk(db, won, id, stamp, NextVerify(db, id, stamp, ReadingToVerify))
  {
    if id in won {
      var env := EnvelopeOf(db.records, id);
      ReadIsOk(db, won, id);
      assert Made(won[id]);
      FirstReadsWell(won[id], id, stamp, env.value);
    } else {
      assert !IsEvidence(db, id);
    }
  }

  lemma FirstReadsWell(first: First, id: Text, stamp: Text, env: Envelope)
    requires Made(first) && EnvelopeOfFirst(env, first) && env.id == id == first.item.id
    ensures AfterVerifyRead(id, stamp, Some(env))
            == Verifying(env, first.final, VerifyEvent(id, ContentDigest(first.args.content), false, stamp), true)
  {
    FiledDescribed(first, env.payload);
  }

  lemma VerifyStep(db: Tables, won: map<Text, First>, id: Text, stamp: Text, st: Stage, db': Tables)
    requires StoreOk(db, won) && AllMade(won) && st.Verifying? && VerifyOk(db, won, id, stamp, st)
    requires db' == RepairOf(db, st).0
    ensures GoodMove(db, won, db', won) && VerifyOk(db', won, id, stamp, NextVerify(db, id, stamp, st))
  {
    assert Made(won[id]);
    ProofFacts(won[id], stamp, id, st.ev);
    VerifyCommits(db, won, id, stamp, st, db');
  }

  lemma ProofFacts(first: First, stamp: Text, id: Text, ev: Event)
    requires Made(first) && id == first.item.id && ev == VerifyEvent(id, ContentDigest(first.args.content), false, stamp)
    ensures ev.id == first.proof.id && SameIdentity(ev.row, first.proof.row) && ev.row.key == first.proof.row.key
  {
  }

  lemma VerifyCommits(db: Tables, won: map<Text, First>, id: Text, stamp: Text, st: Stage, db': Tables)
    requires StoreOk(db, won) && st.Verifying? && VerifyOk(db, won, id, stamp, st)
    requires st.ev.id == won[id].proof.id && SameIdentity(st.ev.row, won[id].proof.row)
    requires st.ev.row.key == won[id].proof.row.key && db' == RepairOf(db, st).0
    ensures GoodMove(db, won, db', won) && VerifyOk(db', won, id, stamp, NextVerify(db, id, stamp, st))
  {
    var result := RepairOf(db, st).1;
    if result.Repaired? {
      VerifyIsGood(db, won, id, st, db');
    } else {
      StayIsGood(db, won);
      if result.Refused? { LostToVerification(db, won, id, st.env); }
    }
  }

  // ---- every move ----------------------------------------------------------------------------

  lemma AddStep(db: Tables, won: map<Text, First>, c: Call, db': Tables)
    requires StoreOk(db, won) && AllMade(won) && c.job.AddJob? && CallOk(db, won, c) && !c.stage.Creating?
    requires db' == Written(db, c)
    ensures db' == db && CallOk(db, won, StepCall(db, c))
  {
    var args, st := c.job.args, c.stage;
    match st
    case LookingUpKey => LookupStep(db, won, args);
    case Settling(id) => SettleStep(db, won, args, id);
    case Replaying(id, tries) => ReplayStep(db, won, args, id, tries);
    case Rereading(_, _, _) => RereadStep(db, won, args, st);
    case FindingEvent(_, _, _, _) => FindStep(db, won, args, st);
    case Repairing(_, _, _, _, _) => RepairStep(db, won, args, st);
    case _ =>
  }

  lemma StepIsGood(db: Tables, won: map<Text, First>, c: Call, db': Tables)
    requires StoreOk(db, won) && AllMade(won) && CallOk(db, won, c) && db' == Written(db, c)
    ensures GoodMove(db, won, db', Winners(db, won, c)) && CallOk(db', Winners(db, won, c), StepCall(db, c))
  {
    if c.job.AddJob? {
      if c.stage.Creating? {
        CreateStep(db, won, c.job.args, db');
      } else {
        AddStep(db, won, c, db');
        StayIsGood(db, won);
      }
    } else {
      VerifyJobStep(db, won, c, db');
    }
  }

  lemma VerifyJobStep(db: Tables, won: map<Text, First>, c: Call, db': Tables)
    requires StoreOk(db, won) && AllMade(won) && c.job.VerifyJob? && CallOk(db, won, c) && db' == Written(db, c)
    ensures GoodMove(db, won, db', won) && CallOk(db', won, StepCall(db, c))
  {
    if c.stage.Verifying? {
      VerifyStep(db, won, c.job.id, c.job.stamp, c.stage, db');
    } else {
      StayIsGood(db, won);
      if c.stage.ReadingToVerify? { ReadToVerifyStep(db, won, c.job.id, c.job.stamp); }
    }
  }

  lemma WinnersAreMade(db: Tables, won: map<Text, First>, c: Call)
    requires AllMade(won)
    ensures AllMade(Winners(db, won, c))
  {
    if c.job.AddJob? {
      FirstIsMade(c.job.args);
      OneMoreMade(won, IdOf(c.job.args), FirstOf(c.job.args));
    }
  }

  lemma OneMoreMade(won: map<Text, First>, id: Text, first: First)
    requires AllMade(won) && Made(first)
    ensures AllMade(won[id := first])
  {
    var won' := won[id := first];
    forall i | i in won' ensures Made(won'[i]) {
      if i != id { assert Made(won[i]); }
    }
  }

  lemma FirstIsMade(args: AddArgs)
    ensures Made(FirstOf(args)) && FirstOf(args).args == args
  {
  }

  lemma MoveKeepsInv(s: Sys, m: Move)
    requires Inv(s) && (m.Foreign? ==> Leaves(s.db, Apply(s.db, m.op)))
    ensures Inv(Do(s, m)) && Forward(s.db, s.won, Do(s, m).db, Do(s, m).won)
  {
    if m.Advance? && m.i < |s.calls| {
      AdvanceIsGood(s, m.i);
    } else if m.Foreign? {
      ForeignIsGood(s.db, s.won, m.op, Do(s, m).db);
    } else {
      StayIsGood(s.db, s.won);
    }
    InvFollows(s, m, Do(s, m));
  }

  lemma InvFollows(s: Sys, m: Move, s': Sys)
    requires Inv(s) && s' == Do(s, m) && GoodMove(s.db, s.won, s'.db, s'.won) && AllMade(s'.won)
    requires m.Advance? && m.i < |s.calls| ==> CallOk(s'.db, s'.won, StepCall(s.db, s.calls[m.i]))
    ensures Inv(s')
  {
    CallsStay(s, m);
  }

  lemma AdvanceIsGood(s: Sys, i: nat)
    requires Inv(s) && i < |s.calls|
    ensures var s' := Do(s, Advance(i));
      GoodMove(s.db, s.won, s'.db, s'.won) && AllMade(s'.won) && CallOk(s'.db, s'.won, StepCall(s.db, s.calls[i]))
  {
    assert CallOk(s.db, s.won, s.calls[i]);
    StepIsGood(s.db, s.won, s.calls[i], Do(s, Advance(i)).db);
    WinnersAreMade(s.db, s.won, s.calls[i]);
  }

  lemma CallsStay(s: Sys, m: Move)
    requires Inv(s) && GoodMove(s.db, s.won, Do(s, m).db, Do(s, m).won)
    requires m.Advance? && m.i < |s.calls| ==> CallOk(Do(s, m).db, Do(s, m).won, StepCall(s.db, s.calls[m.i]))
    ensures forall i :: 0 <= i < |Do(s, m).calls| ==> CallOk(Do(s, m).db, Do(s, m).won, Do(s, m).calls[i])
  {
    var s' := Do(s, m);
    forall i | 0 <= i < |s'.calls| ensures CallOk(s'.db, s'.won, s'.calls[i]) {
      if i < |s.calls| && s'.calls[i] == s.calls[i] { CallStays(s.db, s.won, s'.db, s'.won, s.calls[i]); }
    }
  }

  lemma {:induction false} RunKeepsInv(moves: seq<Move>)
    requires EngineRun(moves)
    ensures Inv(Run(moves))
  {
    if moves != [] {
      RunKeepsInv(moves[..|moves| - 1]);
      MoveKeepsInv(Run(moves[..|moves| - 1]), moves[|moves| - 1]);
    }
  }
}
