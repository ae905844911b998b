/** Why an evidence call reports an event conflict: somebody else holds the id or the key of its event. */
module EvidenceConflicts {
  import opened Ledger
  import opened StoreSpec
  import opened EvidenceSteps
  import opened EvidenceForms
  import opened EvidenceRuns
  import opened EvidenceInvariant
  import opened EvidenceGuarantees

  /** An event under the id or the key of this one that is not this one. */
  predicate Contests(es: map<Text, EventRow>, ev: Event, e: Text) {
    e in es && (e == ev.id || es[e].key == ev.row.key)
    && !(e == ev.id && SameIdentity(es[e], ev.row) && es[e].key == ev.row.key)
  }

  ghost predicate Contested(es: map<Text, EventRow>, ev: Event) {
    exists e :: Contests(es, ev, e)
  }

  lemma ClaimConflictIsContested(db: Tables, it: Item, ev: Event)
    requires SaveWithEvent(db, it, ev).1.ClaimConflict?
    ensures Contested(db.events, ev)
  {
    if ev.id in db.events {
      assert Contests(db.events, ev, ev.id);
    } else {
      var e :| e in db.events && db.events[e].key == ev.row.key;
      assert Contests(db.events, ev, e);
    }
  }

  lemma UnboundIsContested(es: map<Text, EventRow>, ev: Event)
    requires ev.row.key.Some? && Bind(es, ev).None?
    ensures Contested(es, ev)
  {
    if KeyTaken(es, ev.row.key.value) {
      var e :| e in es && es[e].key == ev.row.key;
      assert Contests(es, ev, e);
    } else {
      assert Contests(es, ev, ev.id);
    }
  }

  /** Contesting depends on the identity of an event only. */
  lemma AlikeContested(es: map<Text, EventRow>, ev: Event, ev': Event)
    requires Contested(es, ev) && ev.id == ev'.id && SameIdentity(ev.row, ev'.row) && ev.row.key == ev'.row.key
    ensures Contested(es, ev')
  {
    var e :| Contests(es, ev, e);
    assert Contests(es, ev', e);
  }

  // ---- in every run -----------------------------------------------------------------------------

  /** The id or the key of the event that the call records is held by another event. */
  ghost predicate Disputed(s: Sys, job: Job) {
    match job
    case AddJob(args) => Contested(s.db.events, AddEvent(args))
    case VerifyJob(id, _) => id in s.won && Contested(s.db.events, s.won[id].proof)
  }

  predicate Conflicted(c: Call) {
    c.stage == Done(Raised(EventConflict))
  }

  lemma ReadingNeverConflicts(db: Tables, args: AddArgs, st: Stage)
    requires st.LookingUpKey? || st.Settling? || st.Replaying? || st.Rereading?
    ensures NextAdd(db, args, st) != Done(Raised(EventConflict))
  {
    match st
    case Settling(id) => CheckNeverConflicts(EnvelopeOf(db.records, id), id, args);
    case Replaying(id, _) => CheckNeverConflicts(EnvelopeOf(db.records, id), id, args);
    case _ =>
  }

  lemma CheckNeverConflicts(read: Option<Envelope>, id: Text, args: AddArgs)
    ensures ReplayCheck(read, id, args) != Refuse(EventConflict)
  {
  }

  lemma FindingNeverConflicts(db: Tables, args: AddArgs, st: Stage)
    requires st.FindingEvent?
    ensures NextAdd(db, args, st) != Done(Raised(EventConflict))
  {
    var existing := KeyHolder(db.events, Show(Get(st.artifact, IdempotencyKey)));
    if existing.Some? { PlanNeverConflicts(args, st, existing, db.events); }
  }

  lemma PlanNeverConflicts(args: AddArgs, st: Stage, existing: Option<Text>, events: map<Text, EventRow>)
    requires st.FindingEvent? && (existing.Some? ==> existing.value in events)
    ensures ToRepair(args, st, existing, events) != Done(Raised(EventConflict))
  {
  }

  lemma RepairingNeverConflicts(db: Tables, won: map<Text, First>, args: AddArgs, st: Stage)
    requires StoreOk(db, won) && st.Repairing? && AddOk(db, won, args, st)
    ensures NextAdd(db, args, st) != Done(Raised(EventConflict))
  {
    RepairIsNoChange(db, won, st);
  }

  /** An add meets a conflict only when it claims its record. */
  lemma OnlyClaimsConflict(db: Tables, won: map<Text, First>, args: AddArgs, st: Stage)
    requires StoreOk(db, won) && AddOk(db, won, args, st) && st != Done(Raised(EventConflict)) && !st.Creating?
    ensures NextAdd(db, args, st) != Done(Raised(EventConflict))
  {
    match st
    case FindingEvent(_, _, _, _) => FindingNeverConflicts(db, args, st);
    case Repairing(_, _, _, _, _) => RepairingNeverConflicts(db, won, args, st);
    case Done(_) =>
    case _ => ReadingNeverConflicts(db, args, st);
  }

  lemma AddConflictIsDisputed(db: Tables, won: map<Text, First>, args: AddArgs, st: Stage)
    requires StoreOk(db, won) && AddOk(db, won, args, st)
    requires st != Done(Raised(EventConflict)) && NextAdd(db, args, st) == Done(Raised(EventConflict))
    ensures Contested(db.events, AddEvent(args))
  {
    if st.Creating? {
      ClaimRefused(args, SaveWithEvent(db, AddItem(args), AddEvent(args)).1);
      ClaimConflictIsContested(db, AddItem(args), AddEvent(args));
    } else {
      OnlyClaimsConflict(db, won, args, st);
    }
  }

  lemma ClaimRefused(args: AddArgs, claim: Claim)
    ensures AfterClaim(args, claim) == Done(Raised(EventConflict)) <==> claim.ClaimConflict?
  {
  }

  lemma VerifyConflictIsDisputed(db: Tables, won: map<Text, First>, id: Text, stamp: Text, st: Stage)
    requires AllMade(won) && StoreOk(db, won) && VerifyOk(db, won, id, stamp, st)
    requires st != Done(Raised(EventConflict)) && NextVerify(db, id, stamp, st) == Done(Raised(EventConflict))
    ensures id in won && Contested(db.events, won[id].proof)
  {
    if st.Verifying? {
      assert Made(won[id]);
      ProofFacts(won[id], stamp, id, st.ev);
      UnboundVerification(db, st);
      AlikeContested(db.events, st.ev, won[id].proof);
    } else {
      VerifyReads(id, stamp, EnvelopeOf(db.records, id));
    }
  }

  lemma UnboundVerification(db: Tables, st: Stage)
    requires st.Verifying? && Present(st.ev.row.key) && RepairOf(db, st).1.RepairConflict?
    ensures Contested(db.events, st.ev)
  {
    UnboundIsContested(db.events, st.ev);
  }

  lemma VerifyReads(id: Text, stamp: Text, read: Option<Envelope>)
    ensures AfterVerifyRead(id, stamp, read) != Done(Raised(EventConflict))
  {
  }

  lemma ConflictIsDisputed(s: Sys, c: Call)
    requires StoreOk(s.db, s.won) && AllMade(s.won) && CallOk(s.db, s.won, c)
    requires !Conflicted(c) && Conflicted(StepCall(s.db, c))
    ensures Disputed(s, c.job)
  {
    match c.job
    case AddJob(args) =>
      AddConflictIsDisputed(s.db, s.won, args, c.stage);
    case VerifyJob(id, stamp) => VerifyConflictIsDisputed(s.db, s.won, id, stamp, c.stage);
  }

  lemma OnlyAdvanceConflicts(s: Sys, m: Move, i: nat)
    requires i < |Do(s, m).calls| && Conflicted(Do(s, m).calls[i])
    ensures i < |s.calls| && Do(s, m).calls[i].job == s.calls[i].job
    ensures Conflicted(s.calls[i]) || Do(s, m).calls[i] == StepCall(s.db, s.calls[i])
  {
  }

  lemma ConflictStep(s: Sys, m: Move, i: nat)
    requires Inv(s) && i < |Do(s, m).calls| && Conflicted(Do(s, m).calls[i])
    ensures i < |s.calls| && Do(s, m).calls[i].job == s.calls[i].job
    ensures Conflicted(s.calls[i]) || Disputed(s, s.calls[i].job)
  {
    OnlyAdvanceConflicts(s, m, i);
    CallIsOk(s, i);
    if !Conflicted(s.calls[i]) { ConflictIsDisputed(s, s.calls[i]); }
  }

  /** In some state before the last the call's event was disputed. */
  ghost predicate WasDisputed(moves: seq<Move>, job: Job) {
    moves != []
    && (Disputed(Run(moves[..|moves| - 1]), job) || WasDisputed(moves[..|moves| - 1], job))
  }

  /** A call reports an event conflict only if, when it came to record its event, another event held
      the id or the key. */
  lemma {:induction false} ConflictWasDisputed(moves: seq<Move>, i: nat)
    requires EngineRun(moves) && i < |Run(moves).calls| && Conflicted(Run(moves).calls[i])
    ensures WasDisputed(moves, Run(moves).calls[i].job)
  {
    var most, m := moves[..|moves| - 1], moves[|moves| - 1];
    RunKeepsInv(most);
    ConflictStep(Run(most), m, i);
    if Conflicted(Run(most).calls[i]) { ConflictWasDisputed(most, i); }
  }

  // ---- when nobody else takes the key -------------------------------------------------------------

  predicate Holds(es: map<Text, EventRow>, k: Text, e: Text) {
    e in es && (e == EvidenceEventId(k) || es[e].key == Some(k))
  }

  ghost predicate SameHolders(es: map<Text, EventRow>, es': map<Text, EventRow>, k: Text) {
    forall e :: Holds(es, k, e) || Holds(es', k, e) ==> e in es && e in es' && es'[e] == es[e]
  }

  predicate AddsAs(c: Call, k: Text) {
    c.job.AddJob? && Keyed(c.job.args) && Show(c.job.args.key) == k
  }

  /** Only adds under the key touch the events that hold its id or the key itself. */
  ghost predicate QuietMove(s: Sys, m: Move, k: Text) {
    match m
    case Foreign(op) => SameHolders(s.db.events, Apply(s.db, op).events, k)
    case Advance(i) =>
      i < |s.calls| && !AddsAs(s.calls[i], k) ==> SameHolders(s.db.events, Written(s.db, s.calls[i]).events, k)
    case Arrive(_) => true
  }

  ghost predicate QuietRun(moves: seq<Move>, k: Text) {
    moves == [] || (QuietRun(moves[..|moves| - 1], k) && QuietMove(Run(moves[..|moves| - 1]), moves[|moves| - 1], k))
  }

  /** Whoever holds the key has won its evidence id. */
  ghost predicate Undisputed(es: map<Text, EventRow>, won: map<Text, First>, k: Text) {
    forall e :: Holds(es, k, e) ==> EvidenceIdOf(k) in won
  }

  ghost predicate NoConflict(calls: seq<Call>, k: Text) {
    forall i :: 0 <= i < |calls| && AddsAs(calls[i], k) ==> !Conflicted(calls[i])
  }

  lemma SameHoldersUndisputed(
    es: map<Text, EventRow>, es': map<Text, EventRow>, won: map<Text, First>, won': map<Text, First>, k: Text)
    requires Undisputed(es, won, k) && SameHolders(es, es', k) && (EvidenceIdOf(k) in won ==> EvidenceIdOf(k) in won')
    ensures Undisputed(es', won', k)
  {
    forall e | Holds(es', k, e) ensures EvidenceIdOf(k) in won' {
      assert Holds(es, k, e);
    }
  }

  /** With the key free, its first add claims record and event together. */
  lemma ClaimGoesThrough(db: Tables, won: map<Text, First>, args: AddArgs, k: Text)
    requires StoreOk(db, won) && Undisputed(db.events, won, k) && Keyed(args) && Show(args.key) == k
    ensures !SaveWithEvent(db, AddItem(args), AddEvent(args)).1.ClaimConflict?
    ensures var c := Call(AddJob(args), Creating); Undisputed(Written(db, c).events, Winners(db, won, c), k)
  {
    var claim := SaveWithEvent(db, AddItem(args), AddEvent(args)).1;
    if claim.ClaimConflict? {
      assert IsEvidence(db, IdOf(args)) <==> IdOf(args) in won;
      ClaimConflictIsContested(db, AddItem(args), AddEvent(args));
      var e :| Contests(db.events, AddEvent(args), e);
      assert Holds(db.events, k, e);
    }
    ClaimWins(db, won, args, k, claim);
  }

  lemma ClaimWins(db: Tables, won: map<Text, First>, args: AddArgs, k: Text, claim: Claim)
    requires claim == SaveWithEvent(db, AddItem(args), AddEvent(args)).1 && Keyed(args) && Show(args.key) == k
    requires Undisputed(db.events, won, k)
    ensures var c := Call(AddJob(args), Creating); Undisputed(Written(db, c).events, Winners(db, won, c), k)
  {
  }

  lemma AddStaysQuiet(db: Tables, won: map<Text, First>, c: Call, k: Text)
    requires StoreOk(db, won) && AllMade(won) && CallOk(db, won, c) && Undisputed(db.events, won, k) && AddsAs(c, k)
    requires !Conflicted(c)
    ensures !Conflicted(StepCall(db, c)) && Undisputed(Written(db, c).events, Winners(db, won, c), k)
  {
    if c.stage.Creating? {
      assert c == Call(AddJob(c.job.args), Creating);
      ClaimGoesThrough(db, won, c.job.args, k);
      ClaimRefused(c.job.args, SaveWithEvent(db, AddItem(c.job.args), AddEvent(c.job.args)).1);
    } else {
      AddStep(db, won, c, Written(db, c));
      OnlyClaimsConflict(db, won, c.job.args, c.stage);
    }
  }

  lemma NoConflictAfter(calls: seq<Call>, i: nat, c': Call, k: Text)
    requires NoConflict(calls, k) && i < |calls| && (AddsAs(c', k) ==> !Conflicted(c'))
    ensures NoConflict(calls[i := c'], k)
  {
  }

  lemma WinnersRemain(s: Sys, m: Move, id: Text)
    requires id in s.won
    ensures id in Do(s, m).won
  {
  }

  lemma AdvanceStaysQuiet(s: Sys, i: nat, k: Text)
    requires Inv(s) && i < |s.calls| && QuietMove(s, Advance(i), k)
    requires Undisputed(s.db.events, s.won, k) && NoConflict(s.calls, k)
    ensures Undisputed(Do(s, Advance(i)).db.events, Do(s, Advance(i)).won, k) && NoConflict(Do(s, Advance(i)).calls, k)
  {
    var c := s.calls[i];
    CallIsOk(s, i);
    if AddsAs(c, k) {
      AddStaysQuiet(s.db, s.won, c, k);
    } else {
      if EvidenceIdOf(k) in s.won { WinnersRemain(s, Advance(i), EvidenceIdOf(k)); }
      SameHoldersUndisputed(s.db.events, Do(s, Advance(i)).db.events, s.won, Do(s, Advance(i)).won, k);
    }
    NoConflictAfter(s.calls, i, StepCall(s.db, c), k);
  }

  lemma {:induction false} QuietRunsMeetNoConflict(moves: seq<Move>, k: Text)
    requires EngineRun(moves) && QuietRun(moves, k)
    ensures Undisputed(Run(moves).db.events, Run(moves).won, k) && NoConflict(Run(moves).calls, k)
  {
    if moves != [] {
      var most, m := moves[..|moves| - 1], moves[|moves| - 1];
      QuietRunsMeetNoConflict(most, k);
      RunKeepsInv(most);
      match m
      case Advance(i) => if i < |Run(most).calls| { AdvanceStaysQuiet(Run(most), i, k); }
      case Foreign(op) => SameHoldersUndisputed(Run(most).db.events, Run(moves).db.events, Run(most).won, Run(moves).won, k);
      case Arrive(_) =>
    }
  }

  /** Where nobody else takes the key, every finished add that asked for what the record was added for
      returns it, as long as the record can be traced to its first form. */
  lemma {:induction false} AgreeingAddReturns(moves: seq<Move>, i: nat, key: Value)
    requires EngineRun(moves) && QuietRun(moves, Show(key)) && Truthy(key)
    requires i < |Run(moves).calls| && AddsUnder(Run(moves).calls[i], key) && Run(moves).calls[i].stage.Done?
    requires var s, id := Run(moves), EvidenceIdOf(Show(key));
      id in s.won && Agrees(s.calls[i].job.args, s.won[id].args) && !Untraceable(s, id)
    ensures Returned(Run(moves).calls[i])
    ensures SameArtifact(Run(moves).calls[i].stage.outcome.artifact, Artifact(Run(moves).won[EvidenceIdOf(Show(key))].args))
  {
    QuietRunsMeetNoConflict(moves, Show(key));
    FinishedAddsAreRight(moves, i, key);
  }

  // ---- which calls are quiet by themselves ----------------------------------------------------------

  /** Adds under other keys, adds without a key and verifications never touch a key that a caller
      made up: only calls of other code have to be quiet. */
  ghost predicate OthersQuiet(s: Sys, m: Move, k: Text) {
    m.Foreign? ==> SameHolders(s.db.events, Apply(s.db, m.op).events, k)
  }

  ghost predicate OthersQuietRun(moves: seq<Move>, k: Text) {
    moves == []
    || (OthersQuietRun(moves[..|moves| - 1], k) && OthersQuiet(Run(moves[..|moves| - 1]), moves[|moves| - 1], k))
  }

  lemma OtherClaimIsQuiet(db: Tables, it: Item, ev: Event, k: Text)
    requires ev.id != EvidenceEventId(k) && ev.row.key != Some(k)
    ensures SameHolders(db.events, SaveWithEvent(db, it, ev).0.events, k)
  {
  }

  lemma OtherAddIsQuiet(db: Tables, won: map<Text, First>, c: Call, name: string)
    requires StoreOk(db, won) && AllMade(won) && CallOk(db, won, c) && c.job.AddJob? && !AddsAs(c, User(name))
    ensures SameHolders(db.events, Written(db, c).events, User(name))
  {
    if c.stage.Creating? {
      OtherEvent(c.job.args, name);
      OtherClaimIsQuiet(db, AddItem(c.job.args), AddEvent(c.job.args), User(name));
    } else {
      AddStep(db, won, c, Written(db, c));
    }
  }

  lemma OtherEvent(args: AddArgs, name: string)
    requires !(Keyed(args) && Show(args.key) == User(name))
    ensures AddEvent(args).id != EvidenceEventId(User(name)) && AddEvent(args).row.key != Some(User(name))
  {
  }

  lemma VerifyIsQuiet(db: Tables, won: map<Text, First>, c: Call, name: string)
    requires CallOk(db, won, c) && c.job.VerifyJob?
    ensures SameHolders(db.events, Written(db, c).events, User(name))
  {
  }

  lemma OwnCallsAreQuiet(s: Sys, i: nat, name: string)
    requires Inv(s) && i < |s.calls|
    ensures QuietMove(s, Advance(i), User(name))
  {
    CallIsOk(s, i);
    if s.calls[i].job.AddJob? {
      if !AddsAs(s.calls[i], User(name)) { OtherAddIsQuiet(s.db, s.won, s.calls[i], name); }
    } else {
      VerifyIsQuiet(s.db, s.won, s.calls[i], name);
    }
  }

  lemma {:induction false} CallersKeysAreQuiet(moves: seq<Move>, name: string)
    requires EngineRun(moves) && OthersQuietRun(moves, User(name))
    ensures QuietRun(moves, User(name))
  {
    if moves != [] {
      var most, m := moves[..|moves| - 1], moves[|moves| - 1];
      CallersKeysAreQuiet(most, name);
      RunKeepsInv(most);
      if m.Advance? && m.i < |Run(most).calls| { OwnCallsAreQuiet(Run(most), m.i, name); }
    }
  }
}
