/** What every engine run of approval calls guarantees. */
module ApprovalGuarantees {
  import opened Ledger
  import opened StoreSpec
  import opened ApprovalRules
  import opened ApprovalSteps
  import opened ApprovalRuns
  import opened ApprovalLifecycle

  // ---- a call's knowledge survives other callers ---------------------------------

  lemma SettledStays(db: Tables, db': Tables, id: Text)
    requires Settled(db, id) && RowsAdvance(db, db')
    ensures Settled(db', id)
  {
    assert IsApproval(db', id) && Advances(db.records[id].body.p, db'.records[id].body.p);
  }

  lemma UseStaysOnRecord(db: Tables, db': Tables, id: Text, actor: Text, use: Text, a: Payload)
    requires UseOnRecord(db, id, actor, use, a) && RowsAdvance(db, db') && EventsGrow(db.events, db'.events)
    ensures UseOnRecord(db', id, actor, use, a)
  {
    assert IsApproval(db', id) && Advances(db.records[id].body.p, db'.records[id].body.p);
    KeyedEventPersists(db.events, db'.events, TransitionEvent(Consumed, id));
  }

  lemma CallPersists(db: Tables, db': Tables, c: Call)
    requires CallOk(db, c) && RowsAdvance(db, db') && EventsGrow(db.events, db'.events)
    ensures CallOk(db', c)
  {
    if c.Checking? || c.ProvingDecision? || c.ProvingUnused? || c.CommittingUse? {
      RecordsPersist(db.events, db'.events, c.approval);
    } else if c.Committing? {
      RecordsPersist(db.events, db'.events, c.env.payload);
    } else if c.Done? {
      var out := c.outcome;
      if out.WasDecided? || out.HasExpired? { SettledStays(db, db', out.id); }
      if out.WasConsumed? { UseStaysOnRecord(db, db', out.id, out.actor, out.use, out.approval); }
    }
  }

  // ---- each step of a call -----------------------------------------------------------

  /** Reading an approval yields a snapshot that passes every check made on the envelope. */
  lemma ReadIsOk(db: Tables, id: Text, gen: Generated)
    requires StoreOk(db) && IsApproval(db, id)
    ensures var env := EnvelopeOf(db.records, id);
      env.Some? && Validate(env.value.payload, gen) == Some(env.value.payload)
      && EnvelopeAgrees(env.value, id, env.value.payload) && SnapOk(db.events, env.value, env.value.payload)
  {
    assert RowOk(db.events, id, db.records[id]);
  }

  lemma ReadingIsOk(db: Tables, c: Call)
    requires StoreOk(db) && CallOk(db, c) && (c.Reading? || c.Consuming? || c.ProvingDecision? || c.ProvingUnused? || c.Done?)
    ensures CallOk(db, StepCall(db, c))
  {
    if c.Reading? && IsApproval(db, c.id) { ReadIsOk(db, c.id, c.gen); }
    if c.Consuming? && IsApproval(db, c.args.id) { ReadIsOk(db, c.args.id, c.args.gen); }
  }

  /** The event scans never fail on a snapshot, whatever other callers did since it was read. */
  lemma CheckingIsOk(db: Tables, c: Call)
    requires CallOk(db, c) && c.Checking?
    ensures CallOk(db, StepCall(db, c))
  {
    PrepareIsOk(db, c.want, c.env, c.approval);
  }

  lemma PreparedExpiry(env: Envelope, a: Payload, next: Payload, trace: Text, stamp: Text)
    requires Complete(a) && Original(a) == a == env.payload && env.mission == Get(a, MissionId)
    requires next == a[Status := Literal(ExpiredStatus)]
    ensures Prepared(env, next, MissionEvent(Expired, env.id, env.mission, Lit(Governance), trace, stamp, ExpiredPayload(a)))
  {
    ExpiryIsPrepared(a);
  }

  lemma PreparedDecision(env: Envelope, a: Payload, decision: Value, args: DecideArgs, next: Payload)
    requires Complete(a) && Original(a) == a == env.payload && decision.Str? && !Blank(args.actor)
    requires next == DecidedForm(a, decision, args)
    ensures Prepared(env, next, MissionEvent(Decided, env.id, env.mission, args.actor, args.trace, Stamp(args.now),
                                             DecidedPayload(next)))
  {
    DecisionIsPrepared(a, decision, args);
  }

  lemma PrepareIsOk(db: Tables, want: Want, env: Envelope, a: Payload)
    requires SnapOk(db.events, env, a) && (want.ToDecide? ==> want.args.id == env.id)
    ensures CallOk(db, AfterChecks(want, env, a))
  {
    if want.ToDecide? && AfterChecks(want, env, a).Committing? {
      var args, c := want.args, AfterChecks(want, env, a);
      if Truthy(Get(a, ExpiresAt)) && Get(a, ExpiresAt).t.at <= args.now {
        PreparedExpiry(env, a, c.next, args.trace, Stamp(args.now));
      } else {
        var decision := Str(if args.decision != EMPTY then args.decision
                            else if args.approved then Lit(DecisionApproved) else Lit(DecisionRejected));
        PreparedDecision(env, a, decision, args, c.next);
      }
    }
  }

  lemma ExpiryIsPrepared(a: Payload)
    requires Complete(a) && Original(a) == a
    ensures var next := a[Status := Literal(ExpiredStatus)];
      Complete(next) && Original(next) == a && ExpiredPayload(next) == ExpiredPayload(a)
  {
    FieldWritten(a, Status, Literal(ExpiredStatus));
    var next := a[Status := Literal(ExpiredStatus)];
    assert Original(next) == Original(a);
  }

  lemma DecisionIsPrepared(a: Payload, decision: Value, args: DecideArgs)
    requires Complete(a) && Original(a) == a && decision.Str? && !Blank(args.actor)
    ensures var next := DecidedForm(a, decision, args);
      Complete(next) && Original(next) == a && !Is(next, ExpiredStatus)
      && Is(next, DecisionStatus(Get(next, DecisionAction)))
      && Truthy(Get(next, DecidedBy)) && Truthy(Get(next, DecidedAt)) && Get(next, DecidedBy) == Str(args.actor)
  {
    DecidedFormComplete(a, decision, args);
  }

  lemma RequestingStep(db: Tables, db': Tables, c: Call)
    requires StoreOk(db) && CallOk(db, c) && c.Requesting?
    requires db' == SaveWithEvent(db, RequestItem(c.approval), RequestEvent(c.approval, c.trace, c.stamp)).0
    ensures GoodWrite(db, db') && CallOk(db', StepCall(db, c))
  {
    RequestIsGood(db, db', c.approval, c.trace, c.stamp);
  }

  lemma CommittingStep(db: Tables, db': Tables, c: Call)
    requires StoreOk(db) && CallOk(db, c) && c.Committing?
    requires db' == Repair(db, c.env.id, Lit(ApprovalRecord), c.env.integrity, c.next, c.ev).0
    ensures GoodWrite(db, db') && CallOk(db', StepCall(db, c))
  {
    if Repair(db, c.env.id, Lit(ApprovalRecord), c.env.integrity, c.next, c.ev).1.Repaired? {
      RepairedStep(db, db', c);
    } else {
      RefusedCall(db, c);
      NoChangeIsGood(db);
    }
  }

  lemma RefusedCall(db: Tables, c: Call)
    requires c.Committing? && !Repair(db, c.env.id, Lit(ApprovalRecord), c.env.integrity, c.next, c.ev).1.Repaired?
    ensures Repair(db, c.env.id, Lit(ApprovalRecord), c.env.integrity, c.next, c.ev).0 == db
    ensures StepCall(db, c) == Done(Raised(TransitionConflict)) && CallOk(db, StepCall(db, c))
  {
  }

  lemma RepairedStep(db: Tables, db': Tables, c: Call)
    requires StoreOk(db) && CallOk(db, c) && c.Committing?
    requires Repair(db, c.env.id, Lit(ApprovalRecord), c.env.integrity, c.next, c.ev).1.Repaired?
    requires db' == Repair(db, c.env.id, Lit(ApprovalRecord), c.env.integrity, c.next, c.ev).0
    ensures GoodWrite(db, db') && CallOk(db', StepCall(db, c))
  {
    DecideIsGood(db, db', c.env, c.next, c.ev);
    SettledOutcome(db', c.env.id, c.next);
    RepairedCall(db, c);
  }

  lemma RepairedCall(db: Tables, c: Call)
    requires c.Committing?
    requires Repair(db, c.env.id, Lit(ApprovalRecord), c.env.integrity, c.next, c.ev).1.Repaired?
    ensures StepCall(db, c) == Done(if Is(c.next, ExpiredStatus) then HasExpired(c.env.id) else WasDecided(c.env.id, c.next))
  {
  }

  lemma SettledOutcome(db: Tables, id: Text, next: Payload)
    requires Settled(db, id)
    ensures CallOk(db, Done(if Is(next, ExpiredStatus) then HasExpired(id) else WasDecided(id, next)))
  {
  }

  lemma UsingStep(db: Tables, db': Tables, c: Call)
    requires StoreOk(db) && CallOk(db, c) && c.CommittingUse?
    requires db' == CasFieldsAndEvents(db, [UseUpdate(c.args, c.env)], [UseEvent(c.args, c.approval)])
    ensures GoodWrite(db, db') && CallOk(db', StepCall(db, c))
  {
    if Committable(db, [UseUpdate(c.args, c.env)], [UseEvent(c.args, c.approval)]) {
      UseIsGood(db, db', c.args, c.env, c.approval);
    } else {
      NoChangeIsGood(db);
    }
  }

  lemma ReadingStep(db: Tables, c: Call)
    requires StoreOk(db) && CallOk(db, c) && !c.Requesting? && !c.Committing? && !c.CommittingUse?
    ensures GoodWrite(db, db) && CallOk(db, StepCall(db, c))
  {
    NoChangeIsGood(db);
    if c.Checking? { CheckingIsOk(db, c); } else { ReadingIsOk(db, c); }
  }

  /** A step leaves the store good and the call's own claims true. */
  lemma StepIsGood(db: Tables, db': Tables, c: Call)
    requires StoreOk(db) && CallOk(db, c) && db' == Written(db, c)
    ensures GoodWrite(db, db') && CallOk(db', StepCall(db, c))
  {
    match c
    case Requesting(_, _, _) => RequestingStep(db, db', c);
    case Committing(_, _, _) => CommittingStep(db, db', c);
    case CommittingUse(_, _, _) => UsingStep(db, db', c);
    case _ => ReadingStep(db, c);
  }

  // ---- one settler -----------------------------------------------------------------------

  /** A step that settles an approval found it pending. */
  lemma NewSettlerFoundPending(db: Tables, c: Call, id: Text)
    requires StoreOk(db) && CallOk(db, c) && Settles(StepCall(db, c), id) && !Settles(c, id)
    ensures !Settled(db, id)
  {
    if c.Committing? {
      DecideTables(db, c.env, c.next, c.ev);
    } else {
      OtherStepsSettleNothing(db, c, id);
    }
  }

  lemma OtherStepsSettleNothing(db: Tables, c: Call, id: Text)
    requires !c.Committing? && Settles(StepCall(db, c), id)
    ensures Settles(c, id)
  {
  }

  lemma SettlerIsSettled(db: Tables, c: Call, id: Text)
    requires CallOk(db, c) && Settles(c, id)
    ensures Settled(db, id)
  {
  }

  lemma NewSettlerIsAlone(s: Sys, i: nat, j: nat, id: Text)
    requires EngineInv(s) && i < |s.calls| && j < |s.calls| && i != j
    requires Settles(StepCall(s.db, s.calls[i]), id)
    ensures !Settles(s.calls[j], id)
  {
    assert CallOk(s.db, s.calls[i]) && CallOk(s.db, s.calls[j]);
    if Settles(s.calls[j], id) {
      SettlerIsSettled(s.db, s.calls[j], id);
      if !Settles(s.calls[i], id) { NewSettlerFoundPending(s.db, s.calls[i], id); }
    }
  }

  lemma OneSettlerAfterStep(s: Sys, i: nat)
    requires EngineInv(s) && i < |s.calls|
    ensures OneSettler(s.calls[i := StepCall(s.db, s.calls[i])])
  {
    var calls := s.calls[i := StepCall(s.db, s.calls[i])];
    forall j, k, id | 0 <= j < k < |calls| && Settles(calls[j], id) ensures !Settles(calls[k], id) {
      if j == i { NewSettlerIsAlone(s, i, k, id); }
      if k == i && Settles(calls[k], id) { NewSettlerIsAlone(s, i, j, id); }
    }
  }

  // ---- the invariant over every run ---------------------------------------------------

  lemma MoveKeepsEngineInv(s: Sys, m: Move)
    requires EngineInv(s) && (m.Foreign? ==> Leaves(s.db, Apply(s.db, m.op)))
    ensures EngineInv(Do(s, m)) && RowsAdvance(s.db, Do(s, m).db)
    ensures EventsGrow(s.db.events, Do(s, m).db.events)
  {
    var s' := Do(s, m);
    if m.Foreign? {
      ForeignIsGood(s.db, m.op);
    } else if m.Advance? && m.i < |s.calls| {
      StepIsGood(s.db, s'.db, s.calls[m.i]);
      OneSettlerAfterStep(s, m.i);
    } else {
      NoChangeIsGood(s.db);
    }
    CallsPersist(s, m);
  }

  lemma CallsPersist(s: Sys, m: Move)
    requires EngineInv(s) && GoodWrite(s.db, Do(s, m).db)
    requires m.Advance? && m.i < |s.calls| ==> CallOk(Do(s, m).db, StepCall(s.db, s.calls[m.i]))
    ensures forall i :: 0 <= i < |Do(s, m).calls| ==> CallOk(Do(s, m).db, Do(s, m).calls[i])
  {
    var s' := Do(s, m);
    forall i | 0 <= i < |s'.calls| ensures CallOk(s'.db, s'.calls[i]) {
      if i < |s.calls| && s'.calls[i] == s.calls[i] { CallPersists(s.db, s'.db, s.calls[i]); }
    }
  }

  lemma {:induction false} RunKeepsEngineInv(moves: seq<Move>)
    requires EngineRun(moves)
    ensures EngineInv(Run(moves))
  {
    if moves != [] {
      RunKeepsEngineInv(moves[..|moves| - 1]);
      MoveKeepsEngineInv(Run(moves[..|moves| - 1]), moves[|moves| - 1]);
    }
  }

  // ---- theorems --------------------------------------------------------------------------

  /** Status only moves from pending to decided or expired and from approved to consumed; the
      request itself never changes. */
  lemma {:induction false} LifecycleIsMonotone(moves: seq<Move>, m: Move)
    requires EngineRun(moves + [m])
    ensures RowsAdvance(Run(moves).db, Run(moves + [m]).db)
  {
    assert (moves + [m])[..|moves + [m]| - 1] == moves;
    RunKeepsEngineInv(moves);
    MoveKeepsEngineInv(Run(moves), m);
  }

  /** Of any number of callers deciding (or expiring) one approval, at most one commits. */
  lemma {:induction false} OneDeciderWins(moves: seq<Move>, i: nat, j: nat, id: Text)
    requires EngineRun(moves) && i < j < |Run(moves).calls| && Settles(Run(moves).calls[i], id)
    ensures !Settles(Run(moves).calls[j], id)
  {
    RunKeepsEngineInv(moves);
  }

  /** The first commit of callers that read the same pending record goes through, unless some
      other producer already took the transition's key. */
  lemma {:induction false} FirstDeciderCommits(moves: seq<Move>, i: nat)
    requires EngineRun(moves) && i < |Run(moves).calls| && Run(moves).calls[i].Committing?
    requires var c := Run(moves).calls[i];
      !Settled(Run(moves).db, c.env.id) && IsApproval(Run(moves).db, c.env.id)
      && Run(moves).db.records[c.env.id].integrity == Some(c.env.integrity)
    ensures var c := Run(moves).calls[i];
      c.ev.row.key.Some?
      && (Settles(StepCall(Run(moves).db, c), c.env.id) <==> !KeyTaken(Run(moves).db.events, c.ev.row.key.value))
  {
    RunKeepsEngineInv(moves);
    assert CallOk(Run(moves).db, Run(moves).calls[i]);
    UnsettledCommits(Run(moves).db, Run(moves).calls[i]);
  }

  lemma UnsettledCommits(db: Tables, c: Call)
    requires StoreOk(db) && CallOk(db, c) && c.Committing? && !Settled(db, c.env.id) && IsApproval(db, c.env.id)
    requires db.records[c.env.id].integrity == Some(c.env.integrity)
    ensures c.ev.row.key.Some?
    ensures Settles(StepCall(db, c), c.env.id) <==> !KeyTaken(db.events, c.ev.row.key.value)
  {
    assert RowOk(db.events, c.env.id, db.records[c.env.id]);
    PendingHasNoEvents(db, c.env.id);
  }

  /** `get` and `decide` never report a broken record, even when another caller's transition
      lands between their envelope read and their event scans. */
  lemma {:induction false} ReadsNeverFail(moves: seq<Move>, i: nat)
    requires EngineRun(moves) && i < |Run(moves).calls|
    ensures Run(moves).calls[i] != Done(Raised(IntegrityInvalid)) && Run(moves).calls[i] != Done(Raised(Invalid))
  {
    RunKeepsEngineInv(moves);
    assert CallOk(Run(moves).db, Run(moves).calls[i]);
  }

  /** No approval has both a decided and an expired event; a consumed event stands next to a
      decided event whose status is approved; and only approvals have transition events. */
  lemma {:induction false} EventsTellOneStory(moves: seq<Move>, id: Text)
    requires EngineRun(moves)
    ensures var db := Run(moves).db;
      (Absent(db.events, Decided, id) || Absent(db.events, Expired, id))
      && (!Absent(db.events, Consumed, id) ==> IsApproval(db, id) && ApprovedOnRecord(db.events, id))
      && (!Absent(db.events, Decided, id) || !Absent(db.events, Expired, id) ==> IsApproval(db, id))
  {
    RunKeepsEngineInv(moves);
    var db := Run(moves).db;
    if IsApproval(db, id) { StoryOfOne(db.events, id, db.records[id]); }
  }

  predicate ApprovedOnRecord(events: map<Text, EventRow>, id: Text) {
    TransitionEvent(Decided, id) in events && events[TransitionEvent(Decided, id)].body.Obj?
    && Get(events[TransitionEvent(Decided, id)].body.p, Status) == Literal(ApprovedStatus)
  }

  lemma StoryOfOne(events: map<Text, EventRow>, id: Text, row: Row)
    requires RowOk(events, id, row)
    ensures Absent(events, Decided, id) || Absent(events, Expired, id)
    ensures !Absent(events, Consumed, id) ==> ApprovedOnRecord(events, id)
  {
    if !Absent(events, Consumed, id) {
      UsedRowIsConsumed(events, id, row);
      ConsumedWasDecided(events, id, row);
    }
  }

  lemma ConsumedWasDecided(events: map<Text, EventRow>, id: Text, row: Row)
    requires RowOk(events, id, row) && Is(row.body.p, ConsumedStatus)
    ensures ApprovedOnRecord(events, id)
  {
    ConsumedIsRecorded(events, id, row);
  }

  /** The decision, and a status of approved, were already there when the consumed event was
      written. */
  lemma {:induction false} DecisionPrecedesUse(moves: seq<Move>, m: Move, id: Text)
    requires EngineRun(moves + [m])
    requires Absent(Run(moves).db.events, Consumed, id) && !Absent(Run(moves + [m]).db.events, Consumed, id)
    ensures IsApproval(Run(moves).db, id) && ApprovedOnRecord(Run(moves).db.events, id)
    ensures Run(moves).db.records[id].body.Obj? && Is(Run(moves).db.records[id].body.p, ApprovedStatus)
  {
    LifecycleIsMonotone(moves, m);
    assert (moves + [m])[..|moves + [m]| - 1] == moves;
    RunKeepsEngineInv(moves);
    RunKeepsEngineInv(moves + [m]);
    UseFollowsApproval(Run(moves).db, Run(moves + [m]).db, id);
  }

  lemma UseFollowsApproval(db: Tables, db': Tables, id: Text)
    requires StoreOk(db) && StoreOk(db') && RowsAdvance(db, db')
    requires Absent(db.events, Consumed, id) && !Absent(db'.events, Consumed, id)
    ensures IsApproval(db, id) && ApprovedOnRecord(db.events, id)
    ensures db.records[id].body.Obj? && Is(db.records[id].body.p, ApprovedStatus)
  {
    UsedIsConsumed(db', id);
    ConsumedWasApproved(db, db', id);
    UnusedIsNotConsumed(db, id);
  }

  lemma UsedIsConsumed(db: Tables, id: Text)
    requires StoreOk(db) && !Absent(db.events, Consumed, id)
    ensures IsApproval(db, id) && db.records[id].body.Obj? && Is(db.records[id].body.p, ConsumedStatus)
  {
    assert IsApproval(db, id);
    UsedRowIsConsumed(db.events, id, db.records[id]);
  }

  lemma UnusedIsNotConsumed(db: Tables, id: Text)
    requires StoreOk(db) && IsApproval(db, id) && Absent(db.events, Consumed, id)
    ensures db.records[id].body.Obj? && !Is(db.records[id].body.p, ConsumedStatus)
    ensures Is(db.records[id].body.p, ApprovedStatus) ==> ApprovedOnRecord(db.events, id)
  {
    UnusedRowIsNotConsumed(db.events, id, db.records[id]);
  }

  lemma ConsumedWasApproved(db: Tables, db': Tables, id: Text)
    requires RowsAdvance(db, db')
    requires IsApproval(db', id) && db'.records[id].body.Obj? && Is(db'.records[id].body.p, ConsumedStatus)
    ensures IsApproval(db, id) && db.records[id].body.Obj?
    ensures Is(db.records[id].body.p, ApprovedStatus) || Is(db.records[id].body.p, ConsumedStatus)
  {
    assert Settled(db', id);
  }

  lemma UsedRowIsConsumed(events: map<Text, EventRow>, id: Text, row: Row)
    requires RowOk(events, id, row) && !Absent(events, Consumed, id)
    ensures Is(row.body.p, ConsumedStatus)
  {
  }

  lemma UnusedRowIsNotConsumed(events: map<Text, EventRow>, id: Text, row: Row)
    requires RowOk(events, id, row) && Absent(events, Consumed, id)
    ensures !Is(row.body.p, ConsumedStatus)
    ensures Is(row.body.p, ApprovedStatus) ==> ApprovedOnRecord(events, id)
  {
  }

  /** Once a call has consumed an approval, its record matches exactly that actor and use. */
  lemma {:induction false} ConsumptionBelongsToItsUser(moves: seq<Move>, i: nat, actor: Text, use: Text)
    requires EngineRun(moves) && i < |Run(moves).calls|
    requires Run(moves).calls[i].Done? && Run(moves).calls[i].outcome.WasConsumed?
    ensures var db, out := Run(moves).db, Run(moves).calls[i].outcome;
      IsApproval(db, out.id) && db.records[out.id].body.Obj?
      && (ConsumptionMatches(db.events, db.records[out.id].body.p, actor, use)
          <==> actor == out.actor && use == out.use)
  {
    RunKeepsEngineInv(moves);
    var db, out := Run(moves).db, Run(moves).calls[i].outcome;
    assert CallOk(db, Run(moves).calls[i]);
    UseMatches(db, out.id, out.actor, out.use, out.approval, actor, use);
  }

  lemma UseMatches(db: Tables, id: Text, actor: Text, use: Text, a: Payload, actor': Text, use': Text)
    requires StoreOk(db) && UseOnRecord(db, id, actor, use, a)
    ensures ConsumptionMatches(db.events, db.records[id].body.p, actor', use') <==> actor' == actor && use' == use
  {
    UseMatchesItself(db, id, actor, use, a);
    if ConsumptionMatches(db.events, db.records[id].body.p, actor', use') {
      UseMatchesNobodyElse(db, id, actor, use, a, actor', use');
    }
  }

  lemma UseMatchesItself(db: Tables, id: Text, actor: Text, use: Text, a: Payload)
    requires StoreOk(db) && UseOnRecord(db, id, actor, use, a)
    ensures ConsumptionMatches(db.events, db.records[id].body.p, actor, use)
    ensures Show(Get(db.records[id].body.p, ApprovalId)) == id
  {
    var p, eid := db.records[id].body.p, TransitionEvent(Consumed, id);
    ConsumedIsRecorded(db.events, id, db.records[id]);
    SameOriginalSameFields(p, a);
    EventMatches(db.events[eid].body.p, p, a, id, actor, use);
    assert db.events[eid].key == Some(Key(Consumed, Show(Get(p, ApprovalId))));
  }

  lemma EventMatches(e: Payload, p: Payload, a: Payload, id: Text, actor: Text, use: Text)
    requires e == ConsumedPayload(a, id, actor, use) && Get(p, ApprovalId) == Str(id)
    requires forall f :: f in {ProposalSha256, Action, RiskLevel, ExecutorId} ==> Get(p, f) == Get(a, f)
    ensures Get(e, ActorId) == Str(actor) && Get(e, UseId) == Str(use) && Get(e, ApprovalId) == Get(p, ApprovalId)
    ensures Get(e, ProposalSha256) == Get(p, ProposalSha256) && Get(e, Action) == Get(p, Action)
    ensures Get(e, RiskLevel) == Get(p, RiskLevel) && Get(e, ExecutorId) == Get(p, ExecutorId)
  {
    assert ProposalSha256 in {ProposalSha256, Action, RiskLevel, ExecutorId};
  }

  lemma ConsumedIsRecorded(events: map<Text, EventRow>, id: Text, row: Row)
    requires RowOk(events, id, row) && Is(row.body.p, ConsumedStatus)
    ensures DecisionRecorded(events, row.body.p) && ConsumptionRecorded(events, row.body.p)
    ensures Get(row.body.p, ApprovalId) == Str(id)
  {
  }

  lemma SameOriginalSameFields(p: Payload, a: Payload)
    requires Original(p) == Original(a)
    ensures forall f :: f in {ProposalSha256, Action, RiskLevel, ExecutorId} ==> Get(p, f) == Get(a, f)
  {
    forall f | f in {ProposalSha256, Action, RiskLevel, ExecutorId} ensures Get(p, f) == Get(a, f) {
      assert Get(Original(p), f) == Get(p, f) && Get(Original(a), f) == Get(a, f);
    }
  }

  lemma UseMatchesNobodyElse(
    db: Tables, id: Text, actor: Text, use: Text, a: Payload, actor': Text, use': Text)
    requires UniqueKeys(db.events) && UseOnRecord(db, id, actor, use, a)
    requires Show(Get(db.records[id].body.p, ApprovalId)) == id
    requires ConsumptionMatches(db.events, db.records[id].body.p, actor', use')
    ensures actor' == actor && use' == use
  {
    var other := MatchingEvent(db.events, db.records[id].body.p, actor', use');
    TheEventNamesTheUser(db, id, actor, use, a, other);
  }

  lemma TheEventNamesTheUser(db: Tables, id: Text, actor: Text, use: Text, a: Payload, other: Text)
    requires UniqueKeys(db.events) && UseOnRecord(db, id, actor, use, a)
    requires other in db.events && db.events[other].key == Some(Key(Consumed, id)) && db.events[other].body.Obj?
    ensures db.events[other].actor == actor && Get(db.events[other].body.p, UseId) == Str(use)
  {
    KeyNamesOneEvent(db.events, other, TransitionEvent(Consumed, id), Key(Consumed, id));
  }

  lemma KeyNamesOneEvent(events: map<Text, EventRow>, a: Text, b: Text, k: Text)
    requires UniqueKeys(events) && a in events && b in events && events[a].key == Some(k) && events[b].key == Some(k)
    ensures a == b
  {
  }

  lemma MatchingEvent(events: map<Text, EventRow>, p: Payload, actor: Text, use: Text) returns (eid: Text)
    requires ConsumptionMatches(events, p, actor, use)
    ensures eid in events && events[eid].key == Some(Key(Consumed, Show(Get(p, ApprovalId))))
    ensures events[eid].actor == actor && events[eid].body.Obj? && Get(events[eid].body.p, UseId) == Str(use)
  {
    eid :| eid in events && events[eid].key == Some(Key(Consumed, Show(Get(p, ApprovalId))))
      && events[eid].actor == actor && events[eid].body.Obj? && Get(events[eid].body.p, UseId) == Str(use);
  }

  // ---- one decider, for good ------------------------------------------------------------------

  /** A finished call stays finished, with the same outcome. */
  lemma {:induction false} DoneStaysDone(moves: seq<Move>, n: nat, i: nat)
    requires n <= |moves| && i < |Run(moves[..n]).calls| && Run(moves[..n]).calls[i].Done?
    ensures i < |Run(moves).calls| && Run(moves).calls[i] == Run(moves[..n]).calls[i]
  {
    if n < |moves| {
      var most := moves[..|moves| - 1];
      assert most[..n] == moves[..n];
      DoneStaysDone(most, n, i);
    } else {
      assert moves[..n] == moves;
    }
  }

  /** Once one caller has decided an approval, or found it expired, no other ever does, whenever it
      began or ends. */
  lemma {:induction false} OneDeciderWinsForGood(moves: seq<Move>, n: nat, i: nat, j: nat, id: Text)
    requires EngineRun(moves) && n <= |moves| && i < |Run(moves[..n]).calls| && Settles(Run(moves[..n]).calls[i], id)
    requires j < |Run(moves).calls| && j != i
    ensures i < |Run(moves).calls| && Settles(Run(moves).calls[i], id) && !Settles(Run(moves).calls[j], id)
  {
    DoneStaysDone(moves, n, i);
    if i < j {
      OneDeciderWins(moves, i, j, id);
    } else if Settles(Run(moves).calls[j], id) {
      OneDeciderWins(moves, j, i, id);
    }
  }
}
