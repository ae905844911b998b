/** Runs in which approvals are only touched by the approval engine: every other caller may write
    anything except approval records and transition events. */
module ApprovalLifecycle {
  import opened Ledger
  import opened StoreSpec
  import opened ApprovalRules
  import opened ApprovalSteps
  import opened ApprovalRuns

  predicate IsApproval(db: Tables, id: Text) {
    id in db.records && db.records[id].rtype == Lit(ApprovalRecord)
  }

  /** A store call that leaves approval records and transition events alone. */
  ghost predicate Leaves(db: Tables, db': Tables) {
    (forall id :: IsApproval(db, id) || IsApproval(db', id) ==>
      IsApproval(db, id) && IsApproval(db', id) && db'.records[id] == db.records[id])
    && (forall k :: TransitionId(k) in db.events || TransitionId(k) in db'.events ==>
      TransitionId(k) in db.events && TransitionId(k) in db'.events
      && db'.events[TransitionId(k)] == db.events[TransitionId(k)])
  }

  ghost predicate EngineRun(moves: seq<Move>) {
    moves == []
    || (EngineRun(moves[..|moves| - 1])
        && (moves[|moves| - 1].Foreign? ==>
            var db := Run(moves[..|moves| - 1]).db; Leaves(db, Apply(db, moves[|moves| - 1].op))))
  }

  // ---- the invariant ------------------------------------------------------------

  predicate Absent(events: map<Text, EventRow>, w: Word, id: Text) {
    TransitionEvent(w, id) !in events
  }

  /** The events that exist are those the status stands for, and no others. */
  predicate StateOk(events: map<Text, EventRow>, id: Text, p: Payload) {
    if Is(p, PendingStatus) then
      Original(p) == p && Absent(events, Decided, id) && Absent(events, Expired, id) && Absent(events, Consumed, id)
    else if Is(p, ExpiredStatus) then
      ExpiryRecorded(events, p) && Absent(events, Decided, id) && Absent(events, Consumed, id)
    else if Is(p, ConsumedStatus) then
      DecisionRecorded(events, p) && DecisionStatus(Get(p, DecisionAction)) == ApprovedStatus
      && ConsumptionRecorded(events, p) && Absent(events, Expired, id)
    else
      DecisionRecorded(events, p) && Is(p, DecisionStatus(Get(p, DecisionAction)))
      && Absent(events, Expired, id) && Absent(events, Consumed, id)
  }

  /** Sealed, complete, about itself, and anchored to its own request. */
  ghost predicate Sound(id: Text, row: Row) {
    Intact(id, row) && Complete(row.body.p) && Get(row.body.p, ApprovalId) == Str(id)
    && row.mission == Get(row.body.p, MissionId)
    && row.origin == Some(SealOf(id, row, Original(row.body.p)))
  }

  ghost predicate RowOk(events: map<Text, EventRow>, id: Text, row: Row) {
    Sound(id, row) && StateOk(events, id, row.body.p)
  }

  ghost predicate StoreOk(db: Tables) {
    UniqueKeys(db.events)
    && (forall id :: IsApproval(db, id) ==> RowOk(db.events, id, db.records[id]))
    && (forall id :: !IsApproval(db, id) ==>
        Absent(db.events, Decided, id) && Absent(db.events, Expired, id) && Absent(db.events, Consumed, id))
  }

  /** A snapshot of an approval as it stood at some earlier moment, with its events. */
  ghost predicate SnapOk(events: map<Text, EventRow>, env: Envelope, a: Payload) {
    env.rtype == Lit(ApprovalRecord) && a == env.payload && Complete(a) && Get(a, ApprovalId) == Str(env.id)
    && env.mission == Get(a, MissionId)
    && env.integrity == Seal(env.id, env.rtype, env.mission, env.created, a)
    && OriginMatches(env, Original(a)) && TerminalRecorded(events, a)
    && (Is(a, PendingStatus) ==> Original(a) == a)
    && (Is(a, ApprovedStatus) ==> DecisionStatus(Get(a, DecisionAction)) == ApprovedStatus)
  }

  /** The commit a decider prepares from a pending snapshot. */
  ghost predicate Prepared(env: Envelope, next: Payload, ev: Event) {
    Complete(next) && Original(next) == env.payload
    && ev.row.key.Some?
    && if Is(next, ExpiredStatus) then
         ev == MissionEvent(Expired, env.id, env.mission, Lit(Governance), ev.row.trace, ev.row.stamp, ExpiredPayload(next))
       else
         Is(next, DecisionStatus(Get(next, DecisionAction)))
         && Truthy(Get(next, DecidedBy)) && Truthy(Get(next, DecidedAt)) && Get(next, DecidedBy) == Str(ev.row.actor)
         && ev == MissionEvent(Decided, env.id, env.mission, ev.row.actor, ev.row.trace, ev.row.stamp, DecidedPayload(next))
  }

  /** The consumption on record is the one this outcome reports. */
  ghost predicate UseOnRecord(db: Tables, id: Text, actor: Text, use: Text, a: Payload) {
    IsApproval(db, id) && db.records[id].body.Obj? && Is(db.records[id].body.p, ConsumedStatus)
    && Original(db.records[id].body.p) == Original(a)
    && TransitionEvent(Consumed, id) in db.events
    && db.events[TransitionEvent(Consumed, id)].actor == actor
    && db.events[TransitionEvent(Consumed, id)].key == Some(Key(Consumed, id))
    && db.events[TransitionEvent(Consumed, id)].body == Obj(ConsumedPayload(a, id, actor, use))
  }

  ghost predicate OutcomeOk(db: Tables, out: Outcome) {
    match out
    case Raised(why) => why != IntegrityInvalid && why != Invalid
    case WasDecided(id, _) => Settled(db, id)
    case HasExpired(id) => Settled(db, id)
    case WasConsumed(id, actor, use, a) => UseOnRecord(db, id, actor, use, a)
    case _ => true
  }

  ghost predicate Settled(db: Tables, id: Text) {
    IsApproval(db, id) && db.records[id].body.Obj? && !Is(db.records[id].body.p, PendingStatus)
  }

  ghost predicate CallOk(db: Tables, c: Call) {
    match c
    case Requesting(a, _, _) => NewRequest(a)
    case Reading(want, id, gen) => want.ToDecide? ==> want.args.id == id
    case Checking(want, env, a, _) => SnapOk(db.events, env, a) && (want.ToDecide? ==> want.args.id == env.id)
    case Committing(env, next, ev) =>
      SnapOk(db.events, env, env.payload) && Is(env.payload, PendingStatus) && Prepared(env, next, ev)
    case Consuming(_) => true
    case ProvingDecision(args, env, a) => SnapOk(db.events, env, a) && Usable(args, env, a)
    case ProvingUnused(args, env, a) => SnapOk(db.events, env, a) && Usable(args, env, a)
    case CommittingUse(args, env, a) => SnapOk(db.events, env, a) && Usable(args, env, a)
    case Done(out) => OutcomeOk(db, out)
  }

  /** The call took the approval out of pending. */
  predicate Settles(c: Call, id: Text) {
    c.Done? && ((c.outcome.WasDecided? && c.outcome.id == id) || (c.outcome.HasExpired? && c.outcome.id == id))
  }

  ghost predicate OneSettler(calls: seq<Call>) {
    forall i, j, id :: 0 <= i < j < |calls| && Settles(calls[i], id) ==> !Settles(calls[j], id)
  }

  ghost predicate EngineInv(s: Sys) {
    StoreOk(s.db) && (forall i :: 0 <= i < |s.calls| ==> CallOk(s.db, s.calls[i])) && OneSettler(s.calls)
  }

  // ---- how records may change ------------------------------------------------------

  const AFTER_PENDING: set<Word> :=
    {ApprovedStatus, RejectedStatus, ChangesRequestedStatus, PausedStatus, ExpiredStatus}

  /** Pending to decided or expired, approved to consumed, nothing else; and never the request. */
  predicate Advances(p: Payload, p': Payload) {
    p' == p
    || (Is(p, PendingStatus) && Original(p') == Original(p) && exists w :: w in AFTER_PENDING && Is(p', w))
    || (Is(p, ApprovedStatus) && p' == p[Status := Literal(ConsumedStatus)])
  }

  ghost predicate RowsAdvance(db: Tables, db': Tables) {
    (forall id :: IsApproval(db, id) ==>
      IsApproval(db', id) && db'.records[id].mission == db.records[id].mission
      && db'.records[id].created == db.records[id].created
      && db.records[id].body.Obj? && db'.records[id].body.Obj?
      && Advances(db.records[id].body.p, db'.records[id].body.p))
    && (forall id :: IsApproval(db', id) && !IsApproval(db, id) ==> !Settled(db', id))
  }

  /** What a write must establish for everything else to carry over. */
  ghost predicate GoodWrite(db: Tables, db': Tables) {
    StoreOk(db') && RowsAdvance(db, db') && EventsGrow(db.events, db'.events)
  }

  // ---- each write is good -------------------------------------------------------------

  /** The three transition events of one approval are the same in both tables. */
  predicate SameTransitions(es: map<Text, EventRow>, es': map<Text, EventRow>, id: Text) {
    SameEvent(es, es', TransitionEvent(Decided, id)) && SameEvent(es, es', TransitionEvent(Expired, id))
    && SameEvent(es, es', TransitionEvent(Consumed, id))
  }

  predicate SameEvent(es: map<Text, EventRow>, es': map<Text, EventRow>, eid: Text) {
    (eid in es <==> eid in es') && (eid in es ==> es'[eid] == es[eid])
  }

  lemma SameTransitionsSameState(es: map<Text, EventRow>, es': map<Text, EventRow>, id: Text, row: Row)
    requires RowOk(es, id, row) && SameTransitions(es, es', id)
    ensures RowOk(es', id, row)
  {
  }

  lemma NoChangeIsGood(db: Tables)
    requires StoreOk(db)
    ensures GoodWrite(db, db)
  {
  }

  lemma ForeignIsGood(db: Tables, op: Op)
    requires StoreOk(db) && Leaves(db, Apply(db, op))
    ensures GoodWrite(db, Apply(db, op))
  {
    ApplyGrows(db, op);
    var db' := Apply(db, op);
    forall id | IsApproval(db', id) ensures RowOk(db'.events, id, db'.records[id]) {
      assert RowOk(db.events, id, db.records[id]);
      SameTransitionsSameState(db.events, db'.events, id, db.records[id]);
    }
    forall id | !IsApproval(db', id)
      ensures Absent(db'.events, Decided, id) && Absent(db'.events, Expired, id) && Absent(db'.events, Consumed, id)
    {
      assert !IsApproval(db, id);
    }
    forall id | IsApproval(db, id) ensures IsApproval(db', id) && db'.records[id] == db.records[id] && db.records[id].body.Obj? {
      assert RowOk(db.events, id, db.records[id]);
    }
  }

  lemma RequestIsGood(db: Tables, db': Tables, a: Payload, trace: Text, stamp: Text)
    requires StoreOk(db) && NewRequest(a)
    requires db' == SaveWithEvent(db, RequestItem(a), RequestEvent(a, trace, stamp)).0
    ensures GoodWrite(db, db')
  {
    var it, ev := RequestItem(a), RequestEvent(a, trace, stamp);
    ClaimGrows(db, it, ev);
    if it.id in db'.records && it.id !in db.records {
      NewRequestHasId(a);
      NewRowIsGood(db, db', it, ev);
    } else {
      NoChangeIsGood(db);
    }
  }

  /** A request event is no transition of any approval. */
  lemma OldRowStaysOk(db: Tables, events: map<Text, EventRow>, born: Text, ev: Event, id: Text)
    requires StoreOk(db) && IsApproval(db, id) && ev.id == TransitionEvent(Requested, born)
    requires events == db.events || events == db.events[ev.id := ev.row]
    ensures RowOk(events, id, db.records[id])
  {
    assert RowOk(db.events, id, db.records[id]);
    SameTransitionsSameState(db.events, events, id, db.records[id]);
  }

  lemma NewRowIsGood(db: Tables, db': Tables, it: Item, ev: Event)
    requires StoreOk(db) && UniqueKeys(db'.events) && EventsGrow(db.events, db'.events)
    requires it.id !in db.records && db'.records == db.records[it.id := FirstWrite(it)]
    requires db'.events == db.events || db'.events == db.events[ev.id := ev.row]
    requires ev.id == TransitionEvent(Requested, it.id) && it.rtype == Lit(ApprovalRecord)
    requires Complete(it.payload) && Original(it.payload) == it.payload && Is(it.payload, PendingStatus)
    requires Get(it.payload, ApprovalId) == Str(it.id) && it.mission == Get(it.payload, MissionId)
    ensures GoodWrite(db, db')
  {
    assert !IsApproval(db, it.id);
    NewRowOk(db, db'.events, it, ev);
    forall id | IsApproval(db', id) ensures RowOk(db'.events, id, db'.records[id]) {
      if id != it.id { OldRowStaysOk(db, db'.events, it.id, ev, id); }
    }
    forall id | IsApproval(db, id) ensures db'.records[id] == db.records[id] && db.records[id].body.Obj? {
      assert RowOk(db.events, id, db.records[id]) && Sound(id, db.records[id]);
    }
    forall id | !IsApproval(db', id)
      ensures Absent(db'.events, Decided, id) && Absent(db'.events, Expired, id) && Absent(db'.events, Consumed, id)
    {
      StillAbsent(db, db'.events, it.id, ev, id);
    }
  }

  lemma StillAbsent(db: Tables, events: map<Text, EventRow>, born: Text, ev: Event, id: Text)
    requires StoreOk(db) && !IsApproval(db, id) && ev.id == TransitionEvent(Requested, born)
    requires events == db.events || events == db.events[ev.id := ev.row]
    ensures Absent(events, Decided, id) && Absent(events, Expired, id) && Absent(events, Consumed, id)
  {
  }

  lemma NewRowOk(db: Tables, events: map<Text, EventRow>, it: Item, ev: Event)
    requires StoreOk(db) && !IsApproval(db, it.id) && ev.id == TransitionEvent(Requested, it.id)
    requires events == db.events || events == db.events[ev.id := ev.row]
    requires Complete(it.payload) && Original(it.payload) == it.payload && Is(it.payload, PendingStatus)
    requires Get(it.payload, ApprovalId) == Str(it.id) && it.mission == Get(it.payload, MissionId)
    ensures RowOk(events, it.id, FirstWrite(it))
  {
    StillAbsent(db, events, it.id, ev, it.id);
  }

  lemma NewRequestHasId(a: Payload)
    requires NewRequest(a)
    ensures Is(a, PendingStatus) && Get(a, ApprovalId).Str?
  {
    assert Modelled(ApprovalId) && WellTyped(ApprovalId, a[ApprovalId]);
    assert Original(a)[Status] == Literal(PendingStatus);
  }

  /** A compare-and-set against a snapshot's seal only goes through on that very payload. */
  lemma SealPinsPayload(db: Tables, env: Envelope, a: Payload)
    requires SnapOk(db.events, env, a) && SealedAs(db.records, env.id, Lit(ApprovalRecord), env.integrity)
    ensures IsApproval(db, env.id) && db.records[env.id].body == Obj(a)
    ensures db.records[env.id].mission == env.mission && db.records[env.id].created == env.created
  {
  }

  /** One row replaced, and one transition event of that row added. */
  function WithRowAndEvent(db: Tables, id: Text, row: Row, w: Word, e: EventRow): Tables {
    Tables(db.records[id := row], db.events[TransitionEvent(w, id) := e])
  }

  lemma OneRowRows(db: Tables, db': Tables, id: Text, row: Row, w: Word, e: EventRow, other: Text)
    requires db' == WithRowAndEvent(db, id, row, w, e) && StoreOk(db) && IsApproval(db', other)
    requires RowOk(db.events[TransitionEvent(w, id) := e], id, row)
    ensures RowOk(db'.events, other, db'.records[other])
  {
    if other != id { OtherRowStaysOk(db, other, w, id, e); }
  }

  lemma OneRowOthers(db: Tables, db': Tables, id: Text, row: Row, w: Word, e: EventRow, other: Text)
    requires db' == WithRowAndEvent(db, id, row, w, e) && StoreOk(db) && row.rtype == Lit(ApprovalRecord)
    requires !IsApproval(db', other)
    ensures Absent(db'.events, Decided, other) && Absent(db'.events, Expired, other) && Absent(db'.events, Consumed, other)
  {
    assert !IsApproval(db, other) && other != id;
  }

  lemma OneRowIsGood(db: Tables, db': Tables, id: Text, row: Row, w: Word, e: EventRow)
    requires db' == WithRowAndEvent(db, id, row, w, e)
    requires StoreOk(db) && IsApproval(db, id) && TransitionEvent(w, id) !in db.events
    requires UniqueKeys(db.events[TransitionEvent(w, id) := e])
    requires row.rtype == Lit(ApprovalRecord) && RowOk(db.events[TransitionEvent(w, id) := e], id, row)
    requires row.mission == db.records[id].mission && row.created == db.records[id].created
    requires db.records[id].body.Obj? && Advances(db.records[id].body.p, row.body.p)
    ensures GoodWrite(db, db')
  {
    forall other | IsApproval(db', other) ensures RowOk(db'.events, other, db'.records[other]) {
      OneRowRows(db, db', id, row, w, e, other);
    }
    forall other | !IsApproval(db', other)
      ensures Absent(db'.events, Decided, other) && Absent(db'.events, Expired, other) && Absent(db'.events, Consumed, other)
    {
      OneRowOthers(db, db', id, row, w, e, other);
    }
    OneRowAdvances(db, db', id, row, w, e);
  }

  lemma OneRowAdvances(db: Tables, db': Tables, id: Text, row: Row, w: Word, e: EventRow)
    requires db' == WithRowAndEvent(db, id, row, w, e)
    requires StoreOk(db) && IsApproval(db, id) && row.rtype == Lit(ApprovalRecord) && row.body.Obj?
    requires row.mission == db.records[id].mission && row.created == db.records[id].created
    requires db.records[id].body.Obj? && Advances(db.records[id].body.p, row.body.p)
    ensures RowsAdvance(db, db')
  {
    forall other | IsApproval(db, other) && other != id ensures db.records[other].body.Obj? {
      assert Sound(other, db.records[other]);
    }
  }

  lemma OtherRowStaysOk(db: Tables, other: Text, w: Word, id: Text, e: EventRow)
    requires StoreOk(db) && IsApproval(db, other) && other != id
    ensures RowOk(db.events[TransitionEvent(w, id) := e], other, db.records[other])
  {
    OtherSameTransitions(db.events, w, id, e, other);
    SameTransitionsSameState(db.events, db.events[TransitionEvent(w, id) := e], other, db.records[other]);
  }

  lemma OtherSameTransitions(es: map<Text, EventRow>, w: Word, id: Text, e: EventRow, other: Text)
    requires other != id
    ensures SameTransitions(es, es[TransitionEvent(w, id) := e], other)
  {
  }

  // ---- decide -------------------------------------------------------------------------

  lemma DecideIsGood(db: Tables, db': Tables, env: Envelope, next: Payload, ev: Event)
    requires StoreOk(db) && CallOk(db, Committing(env, next, ev))
    requires Repair(db, env.id, Lit(ApprovalRecord), env.integrity, next, ev).1.Repaired?
    requires db' == Repair(db, env.id, Lit(ApprovalRecord), env.integrity, next, ev).0
    ensures GoodWrite(db, db') && Settled(db', env.id) && IsApproval(db, env.id) && !Settled(db, env.id)
  {
    DecideTables(db, env, next, ev);
    DecidedRowOk(db, env, next, ev);
    OneRowIsGood(db, db', env.id, Reseal(env.id, db.records[env.id], next), TransitionOf(next), ev.row);
  }

  function TransitionOf(next: Payload): Word {
    if Is(next, ExpiredStatus) then Expired else Decided
  }

  lemma DecideTables(db: Tables, env: Envelope, next: Payload, ev: Event)
    requires StoreOk(db) && CallOk(db, Committing(env, next, ev))
    requires Repair(db, env.id, Lit(ApprovalRecord), env.integrity, next, ev).1.Repaired?
    ensures IsApproval(db, env.id) && db.records[env.id].body == Obj(env.payload)
    ensures db.records[env.id].mission == env.mission && db.records[env.id].created == env.created
    ensures ev.id == TransitionEvent(TransitionOf(next), env.id) && ev.id !in db.events
    ensures UniqueKeys(db.events[ev.id := ev.row])
    ensures Repair(db, env.id, Lit(ApprovalRecord), env.integrity, next, ev).0
      == WithRowAndEvent(db, env.id, Reseal(env.id, db.records[env.id], next), TransitionOf(next), ev.row)
  {
    SealPinsPayload(db, env, env.payload);
    PendingHasNoEvents(db, env.id);
    BindKeeps(db.events, ev);
  }

  lemma PendingHasNoEvents(db: Tables, id: Text)
    requires StoreOk(db) && IsApproval(db, id)
    requires db.records[id].body.Obj? && Is(db.records[id].body.p, PendingStatus)
    ensures Absent(db.events, Decided, id) && Absent(db.events, Expired, id) && Absent(db.events, Consumed, id)
  {
    assert RowOk(db.events, id, db.records[id]);
  }

  lemma DecidedRowOk(db: Tables, env: Envelope, next: Payload, ev: Event)
    requires StoreOk(db) && CallOk(db, Committing(env, next, ev))
    requires IsApproval(db, env.id) && db.records[env.id].body == Obj(env.payload)
    requires db.records[env.id].mission == env.mission && db.records[env.id].created == env.created
    ensures RowOk(db.events[ev.id := ev.row], env.id, Reseal(env.id, db.records[env.id], next))
    ensures Advances(env.payload, next) && !Is(next, PendingStatus)
  {
    assert RowOk(db.events, env.id, db.records[env.id]);
    NextFields(env, next);
    PendingHasNoEvents(db, env.id);
    NextStateOk(db.events, env, next, ev);
  }

  lemma NextStateOk(events: map<Text, EventRow>, env: Envelope, next: Payload, ev: Event)
    requires Prepared(env, next, ev) && Get(next, ApprovalId) == Str(env.id) && env.mission == Get(next, MissionId)
    requires env.mission.Str?
    requires Absent(events, Decided, env.id) && Absent(events, Expired, env.id) && Absent(events, Consumed, env.id)
    ensures StateOk(events[ev.id := ev.row], env.id, next)
    ensures !Is(next, PendingStatus) && exists w :: w in AFTER_PENDING && Is(next, w)
  {
    if Is(next, ExpiredStatus) {
      ExpiredStateOk(events, env, next, ev);
    } else {
      DecidedStateOk(events, env, next, ev);
    }
  }

  lemma ExpiredStateOk(events: map<Text, EventRow>, env: Envelope, next: Payload, ev: Event)
    requires Prepared(env, next, ev) && Get(next, ApprovalId) == Str(env.id) && env.mission == Get(next, MissionId)
    requires env.mission.Str? && Is(next, ExpiredStatus)
    requires Absent(events, Decided, env.id) && Absent(events, Consumed, env.id)
    ensures StateOk(events[ev.id := ev.row], env.id, next)
    ensures ExpiredStatus in AFTER_PENDING
  {
    assert ExpiryRecorded(events[ev.id := ev.row], next);
  }

  lemma DecidedStateOk(events: map<Text, EventRow>, env: Envelope, next: Payload, ev: Event)
    requires Prepared(env, next, ev) && Get(next, ApprovalId) == Str(env.id) && env.mission == Get(next, MissionId)
    requires env.mission.Str? && !Is(next, ExpiredStatus)
    requires Absent(events, Expired, env.id) && Absent(events, Consumed, env.id)
    ensures StateOk(events[ev.id := ev.row], env.id, next)
    ensures DecisionStatus(Get(next, DecisionAction)) in AFTER_PENDING && !Is(next, PendingStatus)
  {
    assert DecisionRecorded(events[ev.id := ev.row], next);
  }

  lemma NextFields(env: Envelope, next: Payload)
    requires Complete(next) && Original(next) == env.payload
    ensures Get(next, ApprovalId) == Get(env.payload, ApprovalId) && Get(next, MissionId) == Get(env.payload, MissionId)
    ensures Original(env.payload) == Original(next) && Get(next, MissionId).Str?
  {
    assert Modelled(ApprovalId) && Modelled(MissionId);
  }

  // ---- consume ------------------------------------------------------------------------

  lemma UseIsGood(db: Tables, db': Tables, args: ConsumeArgs, env: Envelope, a: Payload)
    requires StoreOk(db) && CallOk(db, CommittingUse(args, env, a))
    requires Committable(db, [UseUpdate(args, env)], [UseEvent(args, a)])
    requires db' == CasFieldsAndEvents(db, [UseUpdate(args, env)], [UseEvent(args, a)])
    ensures GoodWrite(db, db') && UseOnRecord(db', args.id, args.actor, args.use, a)
  {
    UseTables(db, args, env, a);
    UsedRowOk(db, args, env, a);
    OneRowIsGood(db, db', args.id, UsedRow(db, args, a), Consumed, UseEvent(args, a).row);
  }

  function UsedRow(db: Tables, args: ConsumeArgs, a: Payload): Row
    requires args.id in db.records
  {
    Reseal(args.id, db.records[args.id], a[Status := Literal(ConsumedStatus)])
  }

  /** A use commits on exactly the approval it validated, and writes exactly its new status. */
  lemma UseTables(db: Tables, args: ConsumeArgs, env: Envelope, a: Payload)
    requires UniqueKeys(db.events) && SnapOk(db.events, env, a) && env.id == args.id
    requires Committable(db, [UseUpdate(args, env)], [UseEvent(args, a)])
    ensures IsApproval(db, args.id) && db.records[args.id].body == Obj(a)
    ensures CasFieldsAndEvents(db, [UseUpdate(args, env)], [UseEvent(args, a)])
      == WithRowAndEvent(db, args.id, UsedRow(db, args, a), Consumed, UseEvent(args, a).row)
    ensures UseEvent(args, a).id !in db.events
    ensures UniqueKeys(db.events[UseEvent(args, a).id := UseEvent(args, a).row])
  {
    var us, es := [UseUpdate(args, env)], [UseEvent(args, a)];
    WithEventsUnique(db.events, es);
    assert ReadyFor(db.records, us[0]) && !Clashes(db.events, es[0]);
    SealPinsPayload(db, env, a);
    UpdatedOne(db.records, us[0]);
    WithEventsOne(db.events, es[0]);
  }

  lemma UsedRowOk(db: Tables, args: ConsumeArgs, env: Envelope, a: Payload)
    requires StoreOk(db) && CallOk(db, CommittingUse(args, env, a))
    requires IsApproval(db, args.id) && db.records[args.id].body == Obj(a)
    requires UseEvent(args, a).id !in db.events
    ensures var p' := a[Status := Literal(ConsumedStatus)];
      RowOk(db.events[UseEvent(args, a).id := UseEvent(args, a).row], args.id, UsedRow(db, args, a))
      && Advances(a, p') && Original(p') == Original(a)
  {
    assert RowOk(db.events, args.id, db.records[args.id]);
    MissionIsText(a);
    UsedStateOk(db.events, args, a);
    UsedSound(args.id, db.records[args.id], a);
  }

  lemma UsedSound(id: Text, row: Row, a: Payload)
    requires Sound(id, row) && row.body == Obj(a)
    ensures Sound(id, Reseal(id, row, a[Status := Literal(ConsumedStatus)]))
    ensures Original(a[Status := Literal(ConsumedStatus)]) == Original(a)
  {
    FieldWritten(a, Status, Literal(ConsumedStatus));
    var p' := a[Status := Literal(ConsumedStatus)];
    assert Original(p') == Original(a);
  }

  lemma UsedStateOk(events: map<Text, EventRow>, args: ConsumeArgs, a: Payload)
    requires StateOk(events, args.id, a) && Is(a, ApprovedStatus) && UseEvent(args, a).id !in events
    requires Get(a, ApprovalId) == Str(args.id) && Get(a, MissionId).Str? && !Blank(args.actor) && !Blank(args.use)
    requires Get(a, ExecutorId) == Null || Get(a, ExecutorId) == Str(args.actor)
    ensures StateOk(events[UseEvent(args, a).id := UseEvent(args, a).row], args.id, a[Status := Literal(ConsumedStatus)])
  {
    UseKeepsDecision(events, UseEvent(args, a), a);
    UseIsRecorded(events, args, a, a[Status := Literal(ConsumedStatus)]);
  }

  lemma UseKeepsDecision(events: map<Text, EventRow>, ev: Event, a: Payload)
    requires DecisionRecorded(events, a) && ev.id !in events
    ensures DecisionRecorded(events[ev.id := ev.row], a[Status := Literal(ConsumedStatus)])
  {
    assert DecidedPayload(a[Status := Literal(ConsumedStatus)]) == DecidedPayload(a);
  }

  lemma UseIsRecorded(events: map<Text, EventRow>, args: ConsumeArgs, a: Payload, used: Payload)
    requires used == a[Status := Literal(ConsumedStatus)]
    requires Get(a, ApprovalId) == Str(args.id) && Get(a, MissionId).Str? && !Blank(args.actor) && !Blank(args.use)
    requires Get(a, ExecutorId) == Null || Get(a, ExecutorId) == Str(args.actor)
    ensures ConsumptionRecorded(events[UseEvent(args, a).id := UseEvent(args, a).row], used)
  {
  }

  lemma MissionIsText(a: Payload)
    requires Complete(a)
    ensures Get(a, MissionId).Str? && Get(a, ApprovalId).Str?
  {
    assert Modelled(MissionId) && WellTyped(MissionId, a[MissionId]);
    assert Modelled(ApprovalId) && WellTyped(ApprovalId, a[ApprovalId]);
  }
}
