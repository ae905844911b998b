/** The approval engine on the live store: each call does what its program of steps does when no
    other caller interferes, and tells subscribers exactly of the events it inserted. */
module Approvals {
  import opened Ledger
  import opened StoreSpec
  import opened Sqlite
  import opened Bus
  import opened ApprovalRules
  import opened ApprovalSteps
  import A = ApprovalAnswers
  import R = ApprovalReading

  /** Runs a call up to its write (or its end); no call reads more than three times first. */
  ghost function Poised(db: Tables, c: Call): Call {
    ReadOn(db, ReadOn(db, ReadOn(db, c)))
  }

  ghost function ReadOn(db: Tables, c: Call): Call {
    if WriteOf(c).Some? then c else StepCall(db, c)
  }

  /** With nobody else about, the scans of a read amount to one check of its events. */
  lemma PoisedAfterReading(db: Tables, want: Want, id: Text, gen: Generated)
    ensures var first := AfterRead(want, id, gen, EnvelopeOf(db.records, id));
      Poised(db, Reading(want, id, gen)) == AfterLoading(db.events, want, first)
  {
    var first := AfterRead(want, id, gen, EnvelopeOf(db.records, id));
    assert ReadOn(db, Reading(want, id, gen)) == first;
    ReadForms(want, id, gen, EnvelopeOf(db.records, id));
    if first.Checking? {
      TwoScans(db, want, first.env, first.approval);
    } else {
      Rests(db, first);
    }
  }

  lemma ReadForms(want: Want, id: Text, gen: Generated, read: Option<Envelope>)
    ensures var first := AfterRead(want, id, gen, read);
      first.Done? || (first.Checking? && first == Checking(want, first.env, first.approval, false))
  {
  }

  function AfterLoading(events: map<Text, EventRow>, want: Want, first: Call): Call {
    if !first.Checking? then first
    else if TerminalRecorded(events, first.approval) then AfterChecks(want, first.env, first.approval)
    else Done(Raised(IntegrityInvalid))
  }

  lemma TwoScans(db: Tables, want: Want, env: Envelope, a: Payload)
    ensures ReadOn(db, ReadOn(db, Checking(want, env, a, false)))
      == AfterLoading(db.events, want, Checking(want, env, a, false))
  {
    var c := ReadOn(db, Checking(want, env, a, false));
    assert c == Scan(db.events, want, env, a, false);
    ChecksRest(db, want, env, a);
    if c.Checking? { ConsumedScans(db, want, env, a); }
  }

  lemma ChecksRest(db: Tables, want: Want, env: Envelope, a: Payload)
    ensures ReadOn(db, AfterChecks(want, env, a)) == AfterChecks(want, env, a) 
    ensures AfterChecks(want, env, a).Done? || AfterChecks(want, env, a).Committing?
  {
    Rests(db, AfterChecks(want, env, a));
  }

  lemma Rests(db: Tables, c: Call)
    requires c.Done? || c.Committing?
    ensures ReadOn(db, c) == c
  {
  }

  lemma ConsumedScans(db: Tables, want: Want, env: Envelope, a: Payload)
    requires Scan(db.events, want, env, a, false).Checking?
    ensures Scan(db.events, want, env, a, false) == Checking(want, env, a, true) && Is(a, ConsumedStatus)
    ensures ReadOn(db, Checking(want, env, a, true)) == AfterLoading(db.events, want, Checking(want, env, a, false))
  {
    ChecksRest(db, want, env, a);
  }

  lemma PoisedAfterConsumeRead(db: Tables, args: ConsumeArgs)
    ensures var first := AfterConsumeRead(args, EnvelopeOf(db.records, args.id));
      Poised(db, Consuming(args)) ==
        if first.Done? || !DecisionRecorded(db.events, first.approval) || ConsumptionRecorded(db.events, first.approval)
        then Done(NotConsumed) else CommittingUse(args, first.env, first.approval)
  {
    var first := AfterConsumeRead(args, EnvelopeOf(db.records, args.id));
    assert ReadOn(db, Consuming(args)) == first;
    if !first.Done? { TwoProofs(db, args, first.env, first.approval); }
  }

  lemma TwoProofs(db: Tables, args: ConsumeArgs, env: Envelope, a: Payload)
    ensures ReadOn(db, ReadOn(db, ProvingDecision(args, env, a))) ==
      if !DecisionRecorded(db.events, a) || ConsumptionRecorded(db.events, a)
      then Done(NotConsumed) else CommittingUse(args, env, a)
  {
    var c := ReadOn(db, ProvingDecision(args, env, a));
    assert c == if DecisionRecorded(db.events, a) then ProvingUnused(args, env, a) else Done(NotConsumed);
  }

  // ---- what the answers mean --------------------------------------------------------------------

  lemma ChecksRead(db: Tables, args: DecideArgs)
    requires var first := AfterRead(ToDecide(args), args.id, args.gen, EnvelopeOf(db.records, args.id)); first.Checking?
    ensures var first := AfterRead(ToDecide(args), args.id, args.gen, EnvelopeOf(db.records, args.id));
      A.ReadFrom(db, args, first.env, first.approval)
  {
    assert Modelled(MissionId);
    A.MissingFieldsTakeDefaults(EnvelopeOf(db.records, args.id).value.payload, args.gen, ExpiresAt, Null);
  }

  lemma CommitAnswers(db: Tables, args: DecideArgs, env: Envelope, a: Payload, c: Call)
    requires A.ReadFrom(db, args, env, a) && c == AfterChecks(ToDecide(args), env, a) && c.Committing?
    ensures StepCall(db, c).Done? && A.DecideAnswers(args, db, Written(db, c), StepCall(db, c).outcome)
  {
    A.CommitChecked(args, a, env);
    RefusedLeaves(db, c);
    if !StepCall(db, c).outcome.Raised? {
      if A.Over(a, args.now) { ExpiryAnswers(db, args, env, a, c); } else { DecisionAnswers(db, args, env, a, c); }
    }
  }

  lemma ExpiryAnswers(db: Tables, args: DecideArgs, env: Envelope, a: Payload, c: Call)
    requires A.ReadFrom(db, args, env, a) && c == AfterChecks(ToDecide(args), env, a) && c.Committing? && A.Over(a, args.now)
    requires Repair(db, c.env.id, Lit(ApprovalRecord), c.env.integrity, c.next, c.ev).1.Repaired?
    ensures Is(c.next, ExpiredStatus)
    ensures A.ExpiryStands(args, db, Repair(db, c.env.id, Lit(ApprovalRecord), c.env.integrity, c.next, c.ev).0)
  {
    A.ExpiryChosen(args, a, env);
    A.ExpiryReaches(args, db, env, a, c);
  }

  lemma DecisionAnswers(db: Tables, args: DecideArgs, env: Envelope, a: Payload, c: Call)
    requires A.ReadFrom(db, args, env, a) && c == AfterChecks(ToDecide(args), env, a) && c.Committing? && !A.Over(a, args.now)
    requires Repair(db, c.env.id, Lit(ApprovalRecord), c.env.integrity, c.next, c.ev).1.Repaired?
    ensures !Is(c.next, ExpiredStatus)
    ensures A.DecisionStands(args, db, Repair(db, c.env.id, Lit(ApprovalRecord), c.env.integrity, c.next, c.ev).0, c.next)
  {
    A.ActionChosen(args, a, env);
    A.DecisionReaches(args, db, env, a, c);
  }

  lemma RefusedLeaves(db: Tables, c: Call)
    requires c.Committing?
    ensures StepCall(db, c).Done? && (StepCall(db, c).outcome.Raised? ==> Written(db, c) == db)
    ensures !StepCall(db, c).outcome.Raised? ==>
      Repair(db, c.env.id, Lit(ApprovalRecord), c.env.integrity, c.next, c.ev).1.Repaired?
      && Written(db, c) == Repair(db, c.env.id, Lit(ApprovalRecord), c.env.integrity, c.next, c.ev).0
      && StepCall(db, c).outcome == if Is(c.next, ExpiredStatus) then HasExpired(c.env.id) else WasDecided(c.env.id, c.next)
  {
  }

  lemma DoneAnswers(db: Tables, args: DecideArgs, c: Call)
    requires c.Done? && c.outcome.Raised?
    ensures StepCall(db, c) == c && A.DecideAnswers(args, db, Written(db, c), c.outcome)
  {
  }

  /** A call that is poised has failed, or is about to commit what its read led to. */
  lemma PoisedCases(db: Tables, args: DecideArgs, c: Call)
    requires c == Poised(db, Reading(ToDecide(args), args.id, args.gen))
    ensures (c.Done? && c.outcome.Raised?)
            || (var first := AfterRead(ToDecide(args), args.id, args.gen, EnvelopeOf(db.records, args.id));
                first.Checking? && c.Committing? && c == AfterChecks(ToDecide(args), first.env, first.approval))
  {
    PoisedAfterReading(db, ToDecide(args), args.id, args.gen);
    ReadRaises(args, EnvelopeOf(db.records, args.id));
    var first := AfterRead(ToDecide(args), args.id, args.gen, EnvelopeOf(db.records, args.id));
    if first.Checking? { CheckRaises(args, first.env, first.approval); }
  }

  lemma ReadRaises(args: DecideArgs, read: Option<Envelope>)
    ensures var first := AfterRead(ToDecide(args), args.id, args.gen, read);
      first.Checking? || (first.Done? && first.outcome.Raised?)
  {
  }

  lemma CheckRaises(args: DecideArgs, env: Envelope, a: Payload)
    ensures var c := AfterChecks(ToDecide(args), env, a); c.Committing? || (c.Done? && c.outcome.Raised?)
  {
  }

  lemma DecideMeans(db: Tables, args: DecideArgs, c: Call)
    requires c == Poised(db, Reading(ToDecide(args), args.id, args.gen))
    ensures StepCall(db, c).Done? && A.DecideAnswers(args, db, Written(db, c), StepCall(db, c).outcome)
  {
    PoisedCases(db, args, c);
    if c.Done? {
      DoneAnswers(db, args, c);
    } else {
      var first := AfterRead(ToDecide(args), args.id, args.gen, EnvelopeOf(db.records, args.id));
      ChecksRead(db, args);
      CommitAnswers(db, args, first.env, first.approval, c);
    }
  }

  lemma ReadsToUse(db: Tables, args: ConsumeArgs)
    requires !AfterConsumeRead(args, EnvelopeOf(db.records, args.id)).Done?
    ensures var first := AfterConsumeRead(args, EnvelopeOf(db.records, args.id));
      first.ProvingDecision? && A.ReadToUse(db, args, first.env, first.approval)
  {
    assert Modelled(MissionId);
    A.MissingFieldsTakeDefaults(EnvelopeOf(db.records, args.id).value.payload, args.gen, Status, Str(Lit(PendingStatus)));
    A.MissingFieldsTakeDefaults(EnvelopeOf(db.records, args.id).value.payload, args.gen, ExecutorId, Null);
  }

  lemma UseAnswers(db: Tables, args: ConsumeArgs, env: Envelope, a: Payload)
    requires A.ReadToUse(db, args, env, a)
    ensures var c := CommittingUse(args, env, a);
      StepCall(db, c).Done? && A.ConsumeAnswers(args, db, Written(db, c), StepCall(db, c).outcome)
  {
    if Committable(db, [UseUpdate(args, env)], [UseEvent(args, a)]) { A.UseReaches(args, db, env, a); }
  }

  lemma ConsumeMeans(db: Tables, args: ConsumeArgs)
    ensures var c := Poised(db, Consuming(args));
      StepCall(db, c).Done? && A.ConsumeAnswers(args, db, Written(db, c), StepCall(db, c).outcome)
  {
    PoisedAfterConsumeRead(db, args);
    var first := AfterConsumeRead(args, EnvelopeOf(db.records, args.id));
    if !first.Done? {
      ReadsToUse(db, args);
      UseAnswers(db, args, first.env, first.approval);
    }
  }

  lemma RequestMeans(db: Tables, a: Payload, trace: Text, stamp: Text)
    requires NewRequest(a)
    ensures var c := Requesting(a, trace, stamp);
      StepCall(db, c).Done? && A.RequestAnswers(a, db, Written(db, c), StepCall(db, c).outcome)
  {
    assert Modelled(ApprovalId) && Modelled(MissionId) && Modelled(CreatedAt);
    A.RequestMeans(a, trace, stamp, db);
  }

  lemma GetMeans(db: Tables, id: Text, gen: Generated, outcome: Outcome)
    requires Done(outcome) == Poised(db, Reading(ToRead, id, gen))
    ensures R.GetAnswers(db, id, gen, outcome)
  {
    PoisedAfterReading(db, ToRead, id, gen);
    R.ReadMeans(db, ToRead, id, gen);
    var first := AfterRead(ToRead, id, gen, EnvelopeOf(db.records, id));
    if first.Checking? { R.LoadMeans(db, id, gen, first.approval); }
  }

  lemma VerdictMeans(db: Tables, args: DecideArgs, outcome: Outcome)
    requires Done(outcome) == StepCall(db, Poised(db, Reading(ToDecide(args), args.id, args.gen)))
    ensures R.DecideVerdict(db, args, outcome)
  {
    PoisedAfterReading(db, ToDecide(args), args.id, args.gen);
    R.ReadMeans(db, ToDecide(args), args.id, args.gen);
    var first := AfterRead(ToDecide(args), args.id, args.gen, EnvelopeOf(db.records, args.id));
    if first.Checking? {
      R.LoadMeans(db, args.id, args.gen, first.approval);
      if TerminalRecorded(db.events, first.approval) { CheckedSays(db, args, first.env, first.approval, outcome); }
    }
  }

  lemma CheckedSays(db: Tables, args: DecideArgs, env: Envelope, a: Payload, outcome: Outcome)
    requires EnvelopeOf(db.records, args.id) == Some(env) && Done(outcome) == StepCall(db, AfterChecks(ToDecide(args), env, a))
    ensures R.DecideSays(args, a, outcome)
  {
    var c := AfterChecks(ToDecide(args), env, a);
    if !R.Due(args, a) {
      R.NotDueRefuses(args, env, a);
    } else {
      if A.Over(a, args.now) { R.OverExpires(args, env, a); } else { R.DueDecides(args, env, a); }
      if c.Committing? { CommitSays(db, args, env, a, c); }
      R.DueSays(args, a, outcome);
    }
  }

  lemma CommitSays(db: Tables, args: DecideArgs, env: Envelope, a: Payload, c: Call)
    requires EnvelopeOf(db.records, args.id) == Some(env) && c == AfterChecks(ToDecide(args), env, a) && c.Committing?
    ensures StepCall(db, c) == Done(Raised(TransitionConflict))
      || StepCall(db, c) == Done(if Is(c.next, ExpiredStatus) then HasExpired(args.id) else WasDecided(args.id, c.next))
  {
    A.CommitChecked(args, a, env);
  }

  lemma UseMeans(db: Tables, args: ConsumeArgs, outcome: Outcome)
    requires Done(outcome) == StepCall(db, Poised(db, Consuming(args)))
    ensures R.ConsumeVerdict(db, args, outcome)
  {
    PoisedAfterConsumeRead(db, args);
    R.ConsumeReadMeans(db, args);
    var first := AfterConsumeRead(args, EnvelopeOf(db.records, args.id));
    if !first.Done? {
      R.DecisionIsRecorded(db.events, first.approval);
      R.UseIsRecorded(db.events, first.approval);
      R.CommittableExactlyWhen(db, args, first.approval);
      assert R.CanRead(db.records, args.id, args.gen, first.approval);
    }
  }

  class ApprovalEngine {
    const store: SQLiteStore
    const bus: EventBus

    ghost predicate Valid()
      reads this, bus, store
    {
      bus.store == store && bus.Valid()
    }

    constructor (store: SQLiteStore, bus: EventBus)
      requires bus.store == store && bus.Valid()
      ensures Valid() && this.store == store && this.bus == bus
    {
      this.store := store;
      this.bus := bus;
    }

    // ---- event scans ----

    method DecisionTransitionIsValid(a: Payload) returns (ok: bool)
      ensures ok == DecisionRecorded(store.events, a) == R.DecisionOnRecord(store.events, a)
    {
      R.DecisionIsRecorded(store.events, a);
      if !Truthy(Get(a, DecidedBy)) || !Truthy(Get(a, DecidedAt)) {
        return false;
      }
      var k := Key(Decided, Show(Get(a, ApprovalId)));
      var all := store.ListEvents();
      if TransitionId(k) in store.events {
        assert Event(TransitionId(k), store.events[TransitionId(k)]) in all;
      }
      var i := 0;
      while i < |all|
        invariant 0 <= i <= |all|
        invariant forall j :: 0 <= j < i ==> !(all[j].id == TransitionId(k) && DecisionRecorded(store.events, a))
      {
        var e := all[i].row;
        if all[i].id == TransitionId(k) && e.etype == Lit(Decided) && Str(e.aggregate) == Get(a, MissionId)
           && e.aggregateType == Lit(MissionAggregate) && Str(e.actor) == Get(a, DecidedBy)
           && e.key == Some(k) && e.body == Obj(DecidedPayload(a)) {
          return true;
        }
        i := i + 1;
      }
      return false;
    }

    method ExpiryTransitionIsValid(a: Payload) returns (ok: bool)
      ensures ok == ExpiryRecorded(store.events, a) == R.ExpiryOnRecord(store.events, a)
    {
      R.ExpiryIsRecorded(store.events, a);
      var k := Key(Expired, Show(Get(a, ApprovalId)));
      var all := store.ListEvents();
      if TransitionId(k) in store.events {
        assert Event(TransitionId(k), store.events[TransitionId(k)]) in all;
      }
      var i := 0;
      while i < |all|
        invariant 0 <= i <= |all|
        invariant forall j :: 0 <= j < i ==> !(all[j].id == TransitionId(k) && ExpiryRecorded(store.events, a))
      {
        var e := all[i].row;
        if all[i].id == TransitionId(k) && e.etype == Lit(Expired) && Str(e.aggregate) == Get(a, MissionId)
           && e.aggregateType == Lit(MissionAggregate) && e.actor == Lit(Governance)
           && e.key == Some(k) && e.body == Obj(ExpiredPayload(a)) {
          return true;
        }
        i := i + 1;
      }
      return false;
    }

    method ConsumptionTransitionExists(a: Payload) returns (ok: bool)
      ensures ok == ConsumptionRecorded(store.events, a) == R.UseOnRecord(store.events, a)
    {
      R.UseIsRecorded(store.events, a);
      var k := Key(Consumed, Show(Get(a, ApprovalId)));
      var all := store.ListEvents();
      if TransitionId(k) in store.events {
        assert Event(TransitionId(k), store.events[TransitionId(k)]) in all;
      }
      var i := 0;
      while i < |all|
        invariant 0 <= i <= |all|
        invariant forall j :: 0 <= j < i ==> !(all[j].id == TransitionId(k) && ConsumptionRecorded(store.events, a))
      {
        if all[i].id == TransitionId(k) && ConsumptionRecorded(store.events, a) {
          return true;
        }
        i := i + 1;
      }
      return false;
    }

    method TerminalTransitionIsValid(a: Payload) returns (ok: bool)
      ensures ok == TerminalRecorded(store.events, a) == R.BorneOut(store.events, a)
    {
      R.TerminalIsBorneOut(store.events, a);
      if Is(a, PendingStatus) {
        return true;
      }
      if Is(a, ExpiredStatus) {
        ok := ExpiryTransitionIsValid(a);
        return;
      }
      ok := DecisionTransitionIsValid(a);
      if ok && Is(a, ConsumedStatus) {
        ok := ConsumptionTransitionExists(a);
      }
    }

    // ---- calls ----

    method Request(a: Payload, trace: Text, stamp: Text) returns (outcome: Outcome)
      requires Valid() && NewRequest(a)
      modifies store, bus
      ensures Valid() && store.Now() == Written(old(store.Now()), Requesting(a, trace, stamp))
      ensures Done(outcome) == StepCall(old(store.Now()), Requesting(a, trace, stamp))
      ensures bus.inboxes == if RequestEvent(a, trace, stamp).id in old(store.events) || !outcome.WasRequested?
                             then old(bus.inboxes) else Delivered(old(bus.inboxes), RequestEvent(a, trace, stamp))
      ensures A.RequestAnswers(a, old(store.Now()), store.Now(), outcome)
    {
      RequestMeans(store.Now(), a, trace, stamp);
      outcome := SaveRequest(a, trace, stamp);
    }

    method SaveRequest(a: Payload, trace: Text, stamp: Text) returns (outcome: Outcome)
      requires Valid() && NewRequest(a)
      modifies store, bus
      ensures Valid() && store.Now() == Written(old(store.Now()), Requesting(a, trace, stamp))
      ensures Done(outcome) == StepCall(old(store.Now()), Requesting(a, trace, stamp))
      ensures bus.inboxes == if RequestEvent(a, trace, stamp).id in old(store.events) || !outcome.WasRequested?
                             then old(bus.inboxes) else Delivered(old(bus.inboxes), RequestEvent(a, trace, stamp))
    {
      var ev := RequestEvent(a, trace, stamp);
      var claim := store.SaveRecordAndEventIfAbsent(RequestItem(a), ev);
      InboxesSurvive(bus.inboxes, old(store.events), store.events);
      if !claim.Claimed? {
        return Raised(RequestConflict);
      }
      if claim.inserted {
        bus.NotifyPersisted(claim.event);
      }
      return WasRequested(Show(Get(a, ApprovalId)), a);
    }

    /** The part `get` and `decide` share: read the envelope, then check everything. */
    method Load(want: Want, id: Text, gen: Generated) returns (c: Call)
      ensures c == Poised(store.Now(), Reading(want, id, gen)) && (c.Done? || c.Committing?)
    {
      PoisedAfterReading(store.Now(), want, id, gen);
      var env := store.GetRecordEnvelope(id);
      var first := AfterRead(want, id, gen, env);
      ReadForms(want, id, gen, env);
      if !first.Checking? {
        return first;
      }
      ChecksRest(store.Now(), want, first.env, first.approval);
      var ok := TerminalTransitionIsValid(first.approval);
      return if ok then AfterChecks(want, first.env, first.approval) else Done(Raised(IntegrityInvalid));
    }

    method GetApproval(id: Text, gen: Generated) returns (outcome: Outcome)
      ensures Done(outcome) == Poised(store.Now(), Reading(ToRead, id, gen))
      ensures R.GetAnswers(store.Now(), id, gen, outcome)
    {
      PoisedAfterReading(store.Now(), ToRead, id, gen);
      var c := Load(ToRead, id, gen);
      GetMeans(store.Now(), id, gen, c.outcome);
      return c.outcome;
    }

    method Decide(args: DecideArgs) returns (outcome: Outcome)
      requires Valid()
      modifies store, bus
      ensures var c := Poised(old(store.Now()), Reading(ToDecide(args), args.id, args.gen));
        Valid() && store.Now() == Written(old(store.Now()), c) && Done(outcome) == StepCall(old(store.Now()), c)
        && bus.inboxes == if c.Committing? && !outcome.Raised? && c.ev.id !in old(store.events)
                          then Delivered(old(bus.inboxes), c.ev) else old(bus.inboxes)
      ensures A.DecideAnswers(args, old(store.Now()), store.Now(), outcome)
      ensures R.DecideVerdict(old(store.Now()), args, outcome)
    {
      outcome := LoadAndDecide(args);
      ghost var db, c := old(store.Now()), Poised(old(store.Now()), Reading(ToDecide(args), args.id, args.gen));
      DecideMeans(db, args, c);
      VerdictMeans(db, args, outcome);
    }

    method LoadAndDecide(args: DecideArgs) returns (outcome: Outcome)
      requires Valid()
      modifies store, bus
      ensures var c := Poised(old(store.Now()), Reading(ToDecide(args), args.id, args.gen));
        Valid() && store.Now() == Written(old(store.Now()), c) && Done(outcome) == StepCall(old(store.Now()), c)
        && bus.inboxes == if c.Committing? && !outcome.Raised? && c.ev.id !in old(store.events)
                          then Delivered(old(bus.inboxes), c.ev) else old(bus.inboxes)
    {
      var c := Load(ToDecide(args), args.id, args.gen);
      if c.Done? {
        return c.outcome;
      }
      outcome := Transition(c);
    }

    /** Writes the decision or the expiry with its event. */
    method Transition(c: Call) returns (outcome: Outcome)
      requires Valid() && c.Committing?
      modifies store, bus
      ensures Valid() && store.Now() == Written(old(store.Now()), c) && Done(outcome) == StepCall(old(store.Now()), c)
      ensures bus.inboxes == if !outcome.Raised? && c.ev.id !in old(store.events) then Delivered(old(bus.inboxes), c.ev)
                             else old(bus.inboxes)
    {
      var result := store.RepairRecordEvent(c.env.id, Lit(ApprovalRecord), c.env.integrity, c.next, c.ev);
      InboxesSurvive(bus.inboxes, old(store.events), store.events);
      if !result.Repaired? {
        return Raised(TransitionConflict);
      }
      if result.inserted {
        bus.NotifyPersisted(result.event);
      }
      return if Is(c.next, ExpiredStatus) then HasExpired(c.env.id) else WasDecided(c.env.id, c.next);
    }

    method ConsumeSingleAction(args: ConsumeArgs) returns (outcome: Outcome)
      requires Valid()
      modifies store, bus
      ensures var c := Poised(old(store.Now()), Consuming(args));
        Valid() && store.Now() == Written(old(store.Now()), c) && Done(outcome) == StepCall(old(store.Now()), c)
      ensures bus.inboxes == if outcome.WasConsumed? then Delivered(old(bus.inboxes), UseEvent(args, outcome.approval))
                             else old(bus.inboxes)
      ensures A.ConsumeAnswers(args, old(store.Now()), store.Now(), outcome)
      ensures R.ConsumeVerdict(old(store.Now()), args, outcome)
    {
      outcome := ProveAndConsume(args);
      ConsumeMeans(old(store.Now()), args);
      UseMeans(old(store.Now()), args, outcome);
    }

    method ProveAndConsume(args: ConsumeArgs) returns (outcome: Outcome)
      requires Valid()
      modifies store, bus
      ensures var c := Poised(old(store.Now()), Consuming(args));
        Valid() && store.Now() == Written(old(store.Now()), c) && Done(outcome) == StepCall(old(store.Now()), c)
      ensures bus.inboxes == if outcome.WasConsumed? then Delivered(old(bus.inboxes), UseEvent(args, outcome.approval))
                             else old(bus.inboxes)
    {
      PoisedAfterConsumeRead(store.Now(), args);
      var env := store.GetRecordEnvelope(args.id);
      var first := AfterConsumeRead(args, env);
      if first.Done? {
        return first.outcome;
      }
      var a := first.approval;
      var decided := DecisionTransitionIsValid(a);
      if !decided {
        return NotConsumed;
      }
      var used := ConsumptionTransitionExists(a);
      if used {
        return NotConsumed;
      }
      outcome := CommitUse(args, env.value, a);
    }

    method CommitUse(args: ConsumeArgs, env: Envelope, a: Payload) returns (outcome: Outcome)
      requires Valid()
      modifies store, bus
      ensures var c := CommittingUse(args, env, a);
        Valid() && store.Now() == Written(old(store.Now()), c) && Done(outcome) == StepCall(old(store.Now()), c)
      ensures bus.inboxes == if outcome.WasConsumed? then Delivered(old(bus.inboxes), UseEvent(args, a))
                             else old(bus.inboxes)
      ensures outcome.WasConsumed? ==> outcome.approval == a
    {
      var ev := UseEvent(args, a);
      var done := store.CompareAndSetRecordFieldsAndEvents([UseUpdate(args, env)], [ev]);
      WithEventsOne(old(store.events), ev);
      if !done {
        return NotConsumed;
      }
      InboxesSurvive(bus.inboxes, old(store.events), store.events);
      assert !Clashes(old(store.events), [ev][0]);
      bus.NotifyPersisted(ev);
      return WasConsumed(args.id, args.actor, args.use, a);
    }
  }
}
