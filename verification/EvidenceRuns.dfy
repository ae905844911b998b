/** Runs of any number of evidence calls, interleaved with each other and with any store call that
    leaves evidence records alone (it may write any event, and take any key). */
module EvidenceRuns {
  import opened Ledger
  import opened StoreSpec
  import opened EvidenceRules
  import opened EvidenceSteps
  import opened EvidenceForms

  /** The tables, the call that won each evidence id, and every call so far. */
  datatype Sys = Sys(db: Tables, won: map<Text, First>, calls: seq<Call>)

  datatype Move =
    | Arrive(job: Job)
    | Advance(i: nat)
    | Foreign(op: Op)

  predicate IsEvidence(db: Tables, id: Text) {
    id in db.records && db.records[id].rtype == Lit(EvidenceRecord)
  }

  ghost predicate Leaves(db: Tables, db': Tables) {
    forall id :: IsEvidence(db, id) || IsEvidence(db', id) ==>
      id in db.records && id in db'.records && db'.records[id] == db.records[id]
  }

  ghost predicate Claims(db: Tables, c: Call) {
    c.job.AddJob? && c.stage.Creating? && SaveWithEvent(db, AddItem(c.job.args), AddEvent(c.job.args)).1.Claimed?
  }

  ghost function Winners(db: Tables, won: map<Text, First>, c: Call): map<Text, First> {
    if Claims(db, c) then won[IdOf(c.job.args) := FirstOf(c.job.args)] else won
  }

  ghost function Do(s: Sys, m: Move): Sys {
    match m
    case Arrive(job) => s.(calls := s.calls + [Start(job)])
    case Foreign(op) => s.(db := Apply(s.db, op))
    case Advance(i) =>
      if i >= |s.calls| then s
      else Sys(Written(s.db, s.calls[i]), Winners(s.db, s.won, s.calls[i]), s.calls[i := StepCall(s.db, s.calls[i])])
  }

  ghost function Run(moves: seq<Move>): Sys {
    if moves == [] then Sys(Tables(map[], map[]), map[], [])
    else Do(Run(moves[..|moves| - 1]), moves[|moves| - 1])
  }

  ghost predicate EngineRun(moves: seq<Move>) {
    moves == []
    || (EngineRun(moves[..|moves| - 1])
        && (moves[|moves| - 1].Foreign? ==>
            var db := Run(moves[..|moves| - 1]).db; Leaves(db, Apply(db, moves[|moves| - 1].op))))
  }

  // ---- the invariant ------------------------------------------------------------------

  ghost predicate OnRecord(events: map<Text, EventRow>, ev: Event) {
    ev.id in events && SameIdentity(events[ev.id], ev.row) && events[ev.id].key == ev.row.key
  }

  /** The verification of that record's content is on record. */
  ghost predicate VerifiedOnRecord(events: map<Text, EventRow>, first: First) {
    OnRecord(events, first.proof)
  }

  /** Verified since it was added, or verified from the start. */
  ghost predicate IsFinal(db: Tables, id: Text, first: First) {
    id in db.records && db.records[id].body == Obj(first.final)
  }

  ghost predicate RowOk(db: Tables, id: Text, first: First) {
    id in db.records && first.item.id == id
    && var row := db.records[id];
       row.rtype == Lit(EvidenceRecord) && row.mission == first.item.mission && row.created == first.item.created
       && row.body.Obj? && Filed(first, row.body.p) && row.integrity == Some(SealOf(id, row, row.body.p))
       && row.origin == Some(ItemSeal(first.item))
       && OnRecord(db.events, first.event) && first.event.row.key.Some? && first.proof.row.key.Some?
       && (row.body.p != first.item.payload ==> VerifiedOnRecord(db.events, first))
  }

  ghost predicate StoreOk(db: Tables, won: map<Text, First>) {
    UniqueKeys(db.events)
    && (forall id :: id in won <==> IsEvidence(db, id))
    && (forall id :: id in won ==> RowOk(db, id, won[id]))
  }

  ghost predicate AllMade(won: map<Text, First>) {
    forall id {:trigger Made(won[id])} :: id in won ==> Made(won[id])
  }

  /** An envelope as it stood at some earlier moment. */
  ghost predicate SnapOk(db: Tables, won: map<Text, First>, id: Text, env: Envelope) {
    id in won && env.id == id && EnvelopeOfFirst(env, won[id])
    && (env.payload != won[id].item.payload ==> IsFinal(db, id, won[id]) && VerifiedOnRecord(db.events, won[id]))
  }

  /** A second attempt means somebody verified the record in between. */
  ghost predicate TriesOk(db: Tables, won: map<Text, First>, id: Text, tries: nat) {
    id in won && (tries == 2 || (tries == 1 && IsFinal(db, id, won[id])))
  }

  ghost predicate ArtifactOk(first: First, artifact: Payload) {
    artifact == ArtifactOf(first.item.payload) || artifact == ArtifactOf(first.final)
  }

  ghost predicate ReplayOk(db: Tables, won: map<Text, First>, args: AddArgs, id: Text, tries: nat) {
    Keyed(args) && id == IdOf(args) && TriesOk(db, won, id, tries) && Keyed(won[id].args)
  }

  ghost predicate SnapIsLast(won: map<Text, First>, id: Text, tries: nat, env: Envelope)
    requires id in won
  {
    tries == 1 ==> env.payload == won[id].final
  }

  ghost predicate RepairOk(db: Tables, won: map<Text, First>, st: Stage)
    requires st.Repairing? && st.id in won
  {
    SnapOk(db, won, st.id, st.env) && SnapIsLast(won, st.id, st.tries, st.env)
    && st.next == st.env.payload && OnRecord(db.events, st.ev) && Present(st.ev.row.key)
  }

  /** The winner asked for something else, or can no longer be traced to its first form. */
  ghost predicate Refusable(db: Tables, won: map<Text, First>, args: AddArgs)
    requires IdOf(args) in won
  {
    var first := won[IdOf(args)];
    !Agrees(args, first.args) || (!Standard(first.args) && Verifieds(db, IdOf(args), first))
  }

  /** Why an add failed. */
  ghost predicate FailureOk(db: Tables, won: map<Text, First>, args: AddArgs, why: Why) {
    var id := IdOf(args);
    match why
    case RequestConflict => Keyed(args) && id in won && Refusable(db, won, args)
    case RecordInvalid => Keyed(args) && id in db.records && (id in won ==> Refusable(db, won, args))
    case EventConflict => true
    case RecordLost => !Keyed(args) && id in db.records
    case _ => false
  }

  /** Changed by a verification. */
  ghost predicate Verifieds(db: Tables, id: Text, first: First) {
    IsFinal(db, id, first) && first.final != first.item.payload
  }

  ghost predicate AddOutcomeOk(db: Tables, won: map<Text, First>, args: AddArgs, out: Outcome) {
    match out
    case Raised(why) => FailureOk(db, won, args, why)
    case Added(id, artifact) =>
      id == IdOf(args) && id in won && (if Keyed(args) then Agrees(args, won[id].args) else won[id].args == args)
      && ArtifactOk(won[id], artifact)
    case VerifyReturned(_, _) => false
  }

  ghost predicate AddOk(db: Tables, won: map<Text, First>, args: AddArgs, st: Stage) {
    match st
    case LookingUpKey => Keyed(args)
    case Creating => true
    case Settling(id) => Keyed(args) && id == IdOf(args) && id in db.records
    case Replaying(id, tries) => ReplayOk(db, won, args, id, tries)
    case Rereading(id, tries, artifact) =>
      ReplayOk(db, won, args, id, tries) && Agrees(args, won[id].args) && ArtifactOk(won[id], artifact)
    case FindingEvent(id, tries, artifact, env) =>
      ReplayOk(db, won, args, id, tries) && Agrees(args, won[id].args) && ArtifactOk(won[id], artifact)
      && SnapOk(db, won, id, env) && SnapIsLast(won, id, tries, env) && OriginOf(env, env.payload).OriginForm?
    case Repairing(id, tries, _, _, _) =>
      ReplayOk(db, won, args, id, tries) && Agrees(args, won[id].args) && RepairOk(db, won, st)
    case Done(out) => AddOutcomeOk(db, won, args, out)
    case _ => false
  }

  ghost predicate VerifyOk(db: Tables, won: map<Text, First>, id: Text, stamp: Text, st: Stage) {
    match st
    case ReadingToVerify => true
    case Verifying(env, next, ev, verified) =>
      verified && SnapOk(db, won, id, env) && next == won[id].final
      && ev == VerifyEvent(id, ContentDigest(won[id].args.content), false, stamp)
    case Done(VerifyReturned(i, verified)) =>
      verified && i == id && id in won && IsFinal(db, id, won[id]) && VerifiedOnRecord(db.events, won[id])
    case Done(Raised(why)) =>
      why in {NotFound, WrongType, EventConflict} || (why == LostRace && id in won && IsFinal(db, id, won[id]))
    case _ => false
  }

  ghost predicate CallOk(db: Tables, won: map<Text, First>, c: Call) {
    match c.job
    case AddJob(args) => AddOk(db, won, args, c.stage)
    case VerifyJob(id, stamp) => VerifyOk(db, won, id, stamp, c.stage)
  }

  ghost predicate Inv(s: Sys) {
    StoreOk(s.db, s.won) && AllMade(s.won) && forall i :: 0 <= i < |s.calls| ==> CallOk(s.db, s.won, s.calls[i])
  }

  // ---- what every move does to the store ---------------------------------------------------

  /** Winners stay, events stay, and a record only ever becomes final. */
  ghost predicate Forward(db: Tables, won: map<Text, First>, db': Tables, won': map<Text, First>) {
    EventsGrow(db.events, db'.events)
    && (forall id :: id in db.records ==> id in db'.records && (id !in won ==> id !in won'))
    && (forall id :: id in won ==> id in won' && won'[id] == won[id])
    && (forall id :: id in won && id in db.records && id in db'.records ==>
        db'.records[id].body == db.records[id].body || db'.records[id].body == Obj(won[id].final))
  }

  ghost predicate GoodMove(db: Tables, won: map<Text, First>, db': Tables, won': map<Text, First>) {
    StoreOk(db', won') && Forward(db, won, db', won')
  }

  lemma OnRecordPersists(es: map<Text, EventRow>, es': map<Text, EventRow>, ev: Event)
    requires OnRecord(es, ev) && ev.row.key.Some? && EventsGrow(es, es')
    ensures OnRecord(es', ev)
  {
    assert KeepsEvent(es[ev.id], es'[ev.id]);
  }

  lemma StayIsGood(db: Tables, won: map<Text, First>)
    requires StoreOk(db, won)
    ensures GoodMove(db, won, db, won)
  {
  }

  lemma ForeignIsGood(db: Tables, won: map<Text, First>, op: Op, db': Tables)
    requires StoreOk(db, won) && db' == Apply(db, op) && Leaves(db, db')
    ensures GoodMove(db, won, db', won)
  {
    ApplyGrows(db, op);
    forall id | id in won ensures RowOk(db', id, won[id]) {
      assert IsEvidence(db, id);
      RowPersists(db, db', id, won[id]);
    }
  }

  lemma RowPersists(db: Tables, db': Tables, id: Text, first: First)
    requires RowOk(db, id, first) && EventsGrow(db.events, db'.events)
    requires id in db'.records && db'.records[id] == db.records[id]
    ensures RowOk(db', id, first)
  {
    OnRecordPersists(db.events, db'.events, first.event);
    if VerifiedOnRecord(db.events, first) {
      OnRecordPersists(db.events, db'.events, first.proof);
    }
  }

  lemma CreateIsGood(db: Tables, won: map<Text, First>, first: First, db': Tables)
    requires StoreOk(db, won) && SaveWithEvent(db, first.item, first.event).1.Claimed?
    requires db' == SaveWithEvent(db, first.item, first.event).0
    requires first.item.rtype == Lit(EvidenceRecord) && first.event.row.key.Some? && first.proof.row.key.Some?
    ensures GoodMove(db, won, db', won[first.item.id := first]) && first.item.id in db'.records
  {
    var id := first.item.id;
    ClaimGrows(db, first.item, first.event);
    assert !IsEvidence(db, id);
    NewRowOk(db, first, db');
    OneRowIsGood(db, won, db', id, db'.records[id], first);
  }

  lemma NewRowOk(db: Tables, first: First, db': Tables)
    requires SaveWithEvent(db, first.item, first.event).1.Claimed?
    requires db' == SaveWithEvent(db, first.item, first.event).0
    requires first.item.rtype == Lit(EvidenceRecord) && first.event.row.key.Some? && first.proof.row.key.Some?
    ensures RowOk(db', first.item.id, first) && first.item.id !in db.records
    ensures db'.records == db.records[first.item.id := FirstWrite(first.item)]
  {
  }

  /** One evidence row written, the rest as before. */
  lemma OneRowIsGood(db: Tables, won: map<Text, First>, db': Tables, id: Text, row: Row, first: First)
    requires StoreOk(db, won) && UniqueKeys(db'.events) && EventsGrow(db.events, db'.events)
    requires db'.records == db.records[id := row] && RowOk(db', id, first)
    requires if id in won then first == won[id] && (row.body == db.records[id].body || row.body == Obj(first.final))
             else id !in db.records
    ensures GoodMove(db, won, db', won[id := first])
  {
    var won' := won[id := first];
    forall other | other in won' ensures RowOk(db', other, won'[other]) {
      if other != id { RowPersists(db, db', other, won[other]); }
    }
    forall other ensures other in won' <==> IsEvidence(db', other) {
      if other != id { assert IsEvidence(db', other) <==> IsEvidence(db, other); }
    }
    OneRowGoesForward(db, won, db', id, row, first);
  }

  lemma OneRowGoesForward(db: Tables, won: map<Text, First>, db': Tables, id: Text, row: Row, first: First)
    requires EventsGrow(db.events, db'.events) && db'.records == db.records[id := row]
    requires id in won ==>
      first == won[id] && id in db.records && (row.body == db.records[id].body || row.body == Obj(first.final))
    requires id !in won ==> id !in db.records
    ensures Forward(db, won, db', won[id := first])
  {
  }

  // ---- verification commits -----------------------------------------------------------------

  lemma VerifyIsGood(db: Tables, won: map<Text, First>, id: Text, st: Stage, db': Tables)
    requires StoreOk(db, won) && st.Verifying? && SnapOk(db, won, id, st.env)
    requires st.next == won[id].final && st.ev.id == won[id].proof.id
    requires SameIdentity(st.ev.row, won[id].proof.row) && st.ev.row.key == won[id].proof.row.key
    requires RepairOf(db, st).1.Repaired? && db' == RepairOf(db, st).0
    ensures GoodMove(db, won, db', won) && IsFinal(db', id, won[id]) && VerifiedOnRecord(db'.events, won[id])
  {
    var first := won[id];
    assert RowOk(db, id, first);
    VerifiedRow(db, first, id, st, db');
    assert won[id := first] == won;
    OneRowIsGood(db, won, db', id, db'.records[id], first);
  }

  lemma VerifiedRow(db: Tables, first: First, id: Text, st: Stage, db': Tables)
    requires UniqueKeys(db.events) && RowOk(db, id, first) && st.Verifying? && st.env.id == id
    requires st.next == first.final && st.ev.id == first.proof.id
    requires SameIdentity(st.ev.row, first.proof.row) && st.ev.row.key == first.proof.row.key
    requires RepairOf(db, st).1.Repaired? && db' == RepairOf(db, st).0
    ensures RowOk(db', id, first) && VerifiedOnRecord(db'.events, first) && IsFinal(db', id, first)
    ensures UniqueKeys(db'.events) && EventsGrow(db.events, db'.events)
    ensures db'.records == db.records[id := db'.records[id]]
  {
    BindKeeps(db.events, st.ev);
    BoundIsOnRecord(db.events, st.ev, db'.events);
    VerifiedRowOk(db, db', id, first);
  }

  lemma BoundIsOnRecord(events: map<Text, EventRow>, ev: Event, events': map<Text, EventRow>)
    requires ev.row.key.Some? && Bind(events, ev).Some? && events' == events[ev.id := Bind(events, ev).value]
    ensures OnRecord(events', ev)
  {
  }

  lemma VerifiedRowOk(db: Tables, db': Tables, id: Text, first: First)
    requires RowOk(db, id, first) && EventsGrow(db.events, db'.events) && id in db'.records
    requires db'.records[id] == Reseal(id, db.records[id], first.final)
    requires VerifiedOnRecord(db'.events, first)
    ensures RowOk(db', id, first)
  {
    OnRecordPersists(db.events, db'.events, first.event);
  }

  /** A verification is refused only because another verification came first. */
  lemma LostToVerification(db: Tables, won: map<Text, First>, id: Text, env: Envelope)
    requires StoreOk(db, won) && SnapOk(db, won, id, env)
    requires !SealedAs(db.records, id, Lit(EvidenceRecord), env.integrity)
    ensures IsFinal(db, id, won[id]) && env.payload != won[id].final
  {
    assert RowOk(db, id, won[id]);
  }

  // ---- repairs --------------------------------------------------------------------------------

  /** Repairing a record made by `add` writes exactly what is there. */
  lemma RepairIsNoChange(db: Tables, won: map<Text, First>, st: Stage)
    requires StoreOk(db, won) && st.Repairing? && st.id in won && RepairOk(db, won, st)
    ensures RepairOf(db, st).0 == db && !RepairOf(db, st).1.RepairConflict?
    ensures RepairOf(db, st).1.Refused? ==> st.tries != 1 && IsFinal(db, st.id, won[st.id])
  {
    assert RowOk(db, st.id, won[st.id]);
    if SealedAs(db.records, st.id, Lit(EvidenceRecord), st.env.integrity) {
      assert Bind(db.events, st.ev) == Some(db.events[st.ev.id]);
      assert Reseal(st.id, db.records[st.id], st.next) == db.records[st.id];
      assert db.records[st.id := db.records[st.id]] == db.records;
      assert db.events[st.ev.id := db.events[st.ev.id]] == db.events;
    } else {
      LostToVerification(db, won, st.id, st.env);
    }
  }
}
