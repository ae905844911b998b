/** The evidence store on the live tables: each call ends where its program of steps leads when no
    other caller interferes. */
module EvidenceEngine {
  import opened Ledger
  import opened StoreSpec
  import opened Sqlite
  import opened Bus
  import opened EvidenceRules
  import opened EvidenceSteps
  import A = EvidenceAnswers
  import R = EvidenceReplays

  datatype Position = Position(db: Tables, call: Call)

  ghost predicate StepsTo(p: Position, q: Position) {
    q == Position(Written(p.db, p.call), StepCall(p.db, p.call))
  }

  ghost predicate IsTrace(t: seq<Position>) {
    |t| > 0 && forall i, j {:trigger StepsTo(t[i], t[j])} :: 0 <= i < |t| - 1 && j == i + 1 ==> StepsTo(t[i], t[j])
  }

  /** Steps of the call alone lead from one position to the other. */
  ghost predicate Leads(from: Position, to: Position) {
    exists t :: IsTrace(t) && t[0] == from && t[|t| - 1] == to
  }

  lemma LeadsToItself(p: Position)
    ensures Leads(p, p)
  {
    var t := [p];
    assert IsTrace(t) && t[0] == p && t[|t| - 1] == p;
  }

  lemma OneMoreStep(from: Position, p: Position, q: Position)
    requires Leads(from, p) && q == Position(Written(p.db, p.call), StepCall(p.db, p.call))
    ensures Leads(from, q)
  {
    var t := [p, q];
    assert StepsTo(p, q);
    assert IsTrace(t) && t[0] == p && t[|t| - 1] == q;
    LeadsOn(from, p, q);
  }

  lemma LeadsOn(from: Position, mid: Position, to: Position)
    requires Leads(from, mid) && Leads(mid, to)
    ensures Leads(from, to)
  {
    var t :| IsTrace(t) && t[0] == from && t[|t| - 1] == mid;
    var u :| IsTrace(u) && u[0] == mid && u[|u| - 1] == to;
    JoinedTrace(t, u);
    var w := t + u[1..];
    assert w[0] == from && w[|w| - 1] == to;
  }

  lemma JoinedTrace(t: seq<Position>, u: seq<Position>)
    requires IsTrace(t) && IsTrace(u) && t[|t| - 1] == u[0]
    ensures IsTrace(t + u[1..])
  {
    var w := t + u[1..];
    forall i, j | 0 <= i < |w| - 1 && j == i + 1 ensures StepsTo(w[i], w[j]) {
      if i < |t| - 1 {
        assert StepsTo(t[i], t[j]);
      } else {
        var k := i - |t| + 1;
        assert w[i] == u[k] && w[j] == u[k + 1];
        assert StepsTo(u[k], u[k + 1]);
      }
    }
  }

  /** What `find_record_envelope` may have handed back. */
  ghost predicate MayFind(records: map<Text, Row>, key: Value, found: Option<Text>) {
    match found
    case Some(id) => Finds(records, Lit(EvidenceRecord), IdempotencyKey, key, id)
    case None => forall id :: !Finds(records, Lit(EvidenceRecord), IdempotencyKey, key, id)
  }

  class EvidenceStore {
    const store: SQLiteStore
    const bus: EventBus

    ghost predicate Valid()
      reads this, bus, store
    {
      bus.store == store && bus.Valid()
    }

    constructor (store: SQLiteStore, bus: EventBus)
      requires bus.store == store && bus.Valid()
      ensures Valid() && this.store == store && this.bus == bus
    {
      this.store := store;
      this.bus := bus;
    }

    /** `_origin_projection`: the statuses and sources are tried in no particular order. */
    method OriginProjection(env: Envelope, p: Payload) returns (o: Origin)
      ensures o == OriginOf(env, p)
    {
      SearchIsComplete(env, p);
      var statuses := {CurrentStatus(p), Lit(Unverified), Lit(Verified)};
      var sources := if Truthy(Get(p, RequestSha256)) then {Get(p, SourceEventId)} else {Get(p, SourceEventId), Null};
      var left := statuses;
      while left != {}
        invariant left <= statuses
        invariant forall s, source :: Projects(env, p, s, source) ==> s in left
        decreases |left|
      {
        var status :| status in left;
        o := ProjectionUnder(env, p, status, sources);
        if o.OriginForm? {
          return;
        }
        left := left - {status};
      }
      return NoOrigin;
    }

    method ProjectionUnder(env: Envelope, p: Payload, status: Text, sources: set<Value>) returns (o: Origin)
      requires status in {CurrentStatus(p), Lit(Unverified), Lit(Verified)}
      requires sources == if Truthy(Get(p, RequestSha256)) then {Get(p, SourceEventId)} else {Get(p, SourceEventId), Null}
      ensures o.OriginForm? ==> o.status == status && Projects(env, p, o.status, o.source)
      ensures o.NoOrigin? ==> forall source :: !Projects(env, p, status, source)
    {
      var left := sources;
      while left != {}
        invariant left <= sources
        invariant forall source :: Projects(env, p, status, source) ==> source in left
        decreases |left|
      {
        var source :| source in left;
        if RequestAgrees(p, status, source) && OriginMatches(env, Candidate(p, status, source)) {
          return OriginForm(status, source);
        }
        left := left - {source};
      }
      return NoOrigin;
    }

    /** Tells subscribers of an event exactly when this call inserted it. */
    method Tell(inserted: bool, ev: Event, ghost before: map<Text, EventRow>)
      requires bus.store == store && store.Valid() && InboxesOk(bus.inboxes, before)
      requires before.Keys <= store.events.Keys && ev.id in store.events && (inserted ==> ev.id !in before)
      modifies bus
      ensures Valid()
      ensures bus.inboxes == if inserted then Delivered(old(bus.inboxes), ev) else old(bus.inboxes)
    {
      InboxesSurvive(bus.inboxes, before, store.events);
      if inserted {
        bus.NotifyPersisted(ev);
      }
    }

    method Verify(id: Text, stamp: Text) returns (outcome: Outcome)
      requires Valid()
      modifies store, bus
      ensures Valid()
      ensures Leads(Position(old(store.Now()), Start(VerifyJob(id, stamp))),
                    Position(store.Now(), Call(VerifyJob(id, stamp), Done(outcome))))
      ensures store.Now() == VerifyAlone(old(store.Now()), id, stamp).0
      ensures outcome == VerifyAlone(old(store.Now()), id, stamp).1
      ensures A.VerifyAnswers(id, old(store.Now()), store.Now(), outcome)
    {
      outcome := VerifyAndRecord(id, stamp);
      A.VerifyMeans(id, stamp, old(store.Now()));
    }

    method VerifyAndRecord(id: Text, stamp: Text) returns (outcome: Outcome)
      requires Valid()
      modifies store, bus
      ensures Valid()
      ensures Leads(Position(old(store.Now()), Start(VerifyJob(id, stamp))),
                    Position(store.Now(), Call(VerifyJob(id, stamp), Done(outcome))))
      ensures store.Now() == VerifyAlone(old(store.Now()), id, stamp).0
      ensures outcome == VerifyAlone(old(store.Now()), id, stamp).1
    {
      ghost var job := VerifyJob(id, stamp);
      ghost var db, from := store.Now(), Position(store.Now(), Start(job));
      LeadsToItself(from);
      var env := store.GetRecordEnvelope(id);
      var st := AfterVerifyRead(id, stamp, env);
      OneMoreStep(from, from, Position(db, Call(job, st)));
      if st.Done? {
        return st.outcome;
      }
      outcome := CommitVerification(id, stamp, st);
      OneMoreStep(from, Position(db, Call(job, st)), Position(store.Now(), StepCall(db, Call(job, st))));
    }

    /** Writes the repair of a call under way, and tells subscribers if its event is new. */
    method RepairAndTell(st: Stage) returns (result: RepairResult)
      requires Valid() && (st.Verifying? || st.Repairing?)
      modifies store, bus
      ensures Valid() && store.Now() == RepairOf(old(store.Now()), st).0
      ensures result == RepairOf(old(store.Now()), st).1
    {
      ghost var db := store.Now();
      result := store.RepairRecordEvent(st.env.id, Lit(EvidenceRecord), st.env.integrity, st.next, st.ev);
      RepairGrows(db, st, store.events, result);
      if result.Repaired? {
        Tell(result.inserted, result.event, db.events);
      }
    }

    method CommitVerification(id: Text, stamp: Text, st: Stage) returns (outcome: Outcome)
      requires Valid() && st.Verifying?
      modifies store, bus
      ensures Valid() && store.Now() == RepairOf(old(store.Now()), st).0
      ensures Done(outcome) == NextVerify(old(store.Now()), id, stamp, st)
    {
      ghost var db := store.Now();
      var result := RepairAndTell(st);
      outcome := Verdict(id, st.verified, result);
      VerdictIsNext(db, id, stamp, st, result);
    }

    /** `_replay_artifact`, once, at the end of a keyed add. */
    method Settle(args: AddArgs, id: Text) returns (outcome: Outcome)
      ensures var p := Position(store.Now(), Call(AddJob(args), Settling(id)));
        Leads(p, Position(store.Now(), Call(AddJob(args), Done(outcome))))
      ensures outcome.Added? ==> A.SaysAsAsked(args, outcome.artifact) && outcome.id == id
    {
      ghost var db, job := store.Now(), AddJob(args);
      LeadsToItself(Position(db, Call(job, Settling(id))));
      var read := store.GetRecordEnvelope(id);
      var st := AfterSettling(ReplayCheck(read, id, args), id, PayloadRead(read));
      OneMoreStep(Position(db, Call(job, Settling(id))), Position(db, Call(job, Settling(id))), Position(db, Call(job, st)));
      if st.outcome.Added? { A.SettledSays(read, id, args); }
      return st.outcome;
    }

    /** The ids of the legacy creation events of the artifact. */
    method LegacyEvents(st: Stage) returns (matching: set<Text>)
      requires st.ScanningEvents?
      ensures forall id :: id in matching <==> IsLegacy(store.events, st, id)
    {
      var left := store.events.Keys;
      matching := {};
      while left != {}
        invariant left <= store.events.Keys
        invariant forall id :: id in matching ==> IsLegacy(store.events, st, id)
        invariant forall id :: id in store.events && id !in left && IsLegacy(store.events, st, id) ==> id in matching
        decreases |left|
      {
        var id :| id in left;
        if IsLegacy(store.events, st, id) {
          matching := matching + {id};
        }
        left := left - {id};
      }
    }

    /** Binds the repair to the one legacy event, if there is exactly one. */
    method ScanEvents(args: AddArgs, st: Stage) returns (next: Stage)
      requires st.ScanningEvents?
      ensures next == AfterEventScan(args, st, store.events)
    {
      var matching := LegacyEvents(st);
      if matching == {} {
        return ToRepair(args, st, None, store.events);
      }
      var a :| a in matching;
      if matching != {a} {
        ghost var b :| b in matching && b != a;
        return Done(Raised(EventAmbiguous));
      }
      return ToRepair(args, st, Some(a), store.events);
    }

    /** The repair the replay comes to: an event holding the key, a legacy event, or a new one. */
    method PlanRepair(args: AddArgs, st: Stage) returns (plan: Stage)
      requires Valid() && st.FindingEvent?
      ensures Leads(Position(store.Now(), Call(AddJob(args), st)), Position(store.Now(), Call(AddJob(args), plan)))
      ensures !plan.FindingEvent? && !plan.ScanningEvents? && (plan.Done? || plan.Repairing?)
      ensures plan.Repairing? ==> plan.id == st.id && plan.tries == st.tries
      ensures plan.Done? ==> plan.outcome.Raised?
      ensures R.PlanSays(st.env, st.artifact, store.events, plan)
    {
      ghost var db, job := store.Now(), AddJob(args);
      ghost var holder;
      plan, holder := FindPlan(args, st);
      FindingStep(db, args, st, holder);
      ghost var scanning := ScanningEvents(st.id, st.tries, st.artifact, st.env);
      PlanForms(args, st, store.events, holder, scanning, plan);
      PlanMeans(args, st, store.events, holder, scanning, plan);
      if holder.None? {
        ScanningStep(db, args, scanning);
        LeadsOn(Position(db, Call(job, st)), Position(db, Call(job, scanning)), Position(db, Call(job, plan)));
      }
    }

    method FindPlan(args: AddArgs, st: Stage) returns (plan: Stage, ghost holder: Option<Text>)
      requires Valid() && st.FindingEvent?
      ensures HeldBy(store.events, Show(Get(st.artifact, IdempotencyKey)), holder)
      ensures plan == if holder.Some? then ToRepair(args, st, holder, store.events)
                      else AfterEventScan(args, ScanningEvents(st.id, st.tries, st.artifact, st.env), store.events)
    {
      var found := store.GetEventByIdempotency(Show(Get(st.artifact, IdempotencyKey)));
      holder := if found.Some? then Some(found.value.id) else None;
      if found.Some? {
        plan := ToRepair(args, st, Some(found.value.id), store.events);
        return;
      }
      plan := ScanEvents(args, ScanningEvents(st.id, st.tries, st.artifact, st.env));
    }

    /** One round of `_replay_and_repair_event`. */
    method RepairOnce(args: AddArgs, id: Text, tries: nat) returns (next: Stage)
      requires Valid() && tries > 0
      modifies store, bus
      ensures Valid()
      ensures Leads(Position(old(store.Now()), Call(AddJob(args), Replaying(id, tries))),
                    Position(store.Now(), Call(AddJob(args), next)))
      ensures next.Done? || next == Settling(id) || (tries > 1 && next == Replaying(id, tries - 1))
      ensures next.Done? && next.outcome.Added? ==> A.SaysAsAsked(args, next.outcome.artifact)
    {
      ghost var db, job := store.Now(), AddJob(args);
      ghost var from := Position(db, Call(job, Replaying(id, tries)));
      LeadsToItself(from);
      var read := store.GetRecordEnvelope(id);
      next := AfterReplay(ReplayCheck(read, id, args), id, tries, PayloadRead(read));
      OneMoreStep(from, from, Position(db, Call(job, next)));
      if next.Done? {
        if next.outcome.Added? { A.RepliedSays(read, id, args, tries); }
        return;
      }
      var again := store.GetRecordEnvelope(id);
      var finding := AfterReread(next, again);
      OneMoreStep(from, Position(db, Call(job, next)), Position(db, Call(job, finding)));
      if finding.Done? {
        return finding;
      }
      var plan := PlanRepair(args, finding);
      LeadsOn(from, Position(db, Call(job, finding)), Position(db, Call(job, plan)));
      if plan.Done? {
        return plan;
      }
      next := CommitRepair(args, plan);
      LeadsOn(from, Position(db, Call(job, plan)), Position(store.Now(), Call(job, next)));
    }

    method CommitRepair(args: AddArgs, plan: Stage) returns (next: Stage)
      requires Valid() && plan.Repairing?
      modifies store, bus
      ensures Valid()
      ensures Leads(Position(old(store.Now()), Call(AddJob(args), plan)), Position(store.Now(), Call(AddJob(args), next)))
      ensures next.Done? || next == Settling(plan.id) || (plan.tries > 1 && next == Replaying(plan.id, plan.tries - 1))
      ensures next.Done? ==> next.outcome.Raised?
    {
      ghost var db, call := store.Now(), Call(AddJob(args), plan);
      LeadsToItself(Position(db, call));
      var result := RepairAndTell(plan);
      OneMoreStep(Position(db, call), Position(db, call), Position(store.Now(), StepCall(db, call)));
      match result {
        case Repaired(_, _) => return Settling(plan.id);
        case Refused =>
          return if plan.tries > 1 then Replaying(plan.id, plan.tries - 1) else Done(Raised(GaveUp));
        case RepairConflict => return Done(Raised(EventConflict));
      }
    }

    /** `_replay_and_repair_event`: at most two rounds. */
    method ReplayAndRepair(args: AddArgs, id: Text) returns (outcome: Outcome)
      requires Valid()
      modifies store, bus
      ensures Valid()
      ensures Leads(Position(old(store.Now()), Call(AddJob(args), Replaying(id, 2))),
                    Position(store.Now(), Call(AddJob(args), Done(outcome))))
      ensures outcome.Added? ==> A.SaysAsAsked(args, outcome.artifact)
    {
      ghost var job := AddJob(args);
      ghost var from := Position(store.Now(), Call(job, Replaying(id, 2)));
      LeadsToItself(from);
      var tries := 2;
      while true
        invariant 0 < tries <= 2 && Valid()
        invariant Leads(from, Position(store.Now(), Call(job, Replaying(id, tries))))
        decreases tries
      {
        ghost var mid := Position(store.Now(), Call(job, Replaying(id, tries)));
        var next := RepairOnce(args, id, tries);
        LeadsOn(from, mid, Position(store.Now(), Call(job, next)));
        if next.Done? {
          return next.outcome;
        }
        if next.Settling? {
          outcome := Settle(args, id);
          LeadsOn(from, Position(store.Now(), Call(job, next)), Position(store.Now(), Call(job, Done(outcome))));
          return;
        }
        tries := tries - 1;
      }
    }

    /** Claims a new record together with its event, and tells subscribers if the event is new. */
    method Claim(it: Item, ev: Event) returns (claim: StoreSpec.Claim)
      requires Valid()
      modifies store, bus
      ensures Valid() && store.Now() == SaveWithEvent(old(store.Now()), it, ev).0
      ensures claim == SaveWithEvent(old(store.Now()), it, ev).1
      ensures bus.inboxes == if claim.Claimed? && claim.inserted then Delivered(old(bus.inboxes), ev)
                             else old(bus.inboxes)
    {
      claim := store.SaveRecordAndEventIfAbsent(it, ev);
      InboxesSurvive(bus.inboxes, old(store.events), store.events);
      if claim.Claimed? && claim.inserted {
        bus.NotifyPersisted(claim.event);
      }
    }

    method ClaimFor(args: AddArgs) returns (next: Stage)
      requires Valid()
      modifies store, bus
      ensures Valid() && (next.Done? || next == Settling(IdOf(args)))
      ensures Leads(Position(old(store.Now()), Call(AddJob(args), Creating)),
                    Position(store.Now(), Call(AddJob(args), next)))
      ensures store.Now() == SaveWithEvent(old(store.Now()), AddItem(args), AddEvent(args)).0
      ensures next == AfterClaim(args, SaveWithEvent(old(store.Now()), AddItem(args), AddEvent(args)).1)
    {
      ghost var db := store.Now();
      var claim := Claim(AddItem(args), AddEvent(args));
      CreatingStep(db, args, claim, store.Now());
      A.ClaimCases(args, claim);
      return AfterClaim(args, claim);
    }

    method Create(args: AddArgs) returns (outcome: Outcome)
      requires Valid()
      modifies store, bus
      ensures Valid()
      ensures Leads(Position(old(store.Now()), Call(AddJob(args), Creating)),
                    Position(store.Now(), Call(AddJob(args), Done(outcome))))
      ensures outcome.Added? ==> A.SaysAsAsked(args, outcome.artifact)
      ensures outcome.Added? && outcome.id !in old(store.records) ==> A.AddStands(args, outcome.id, old(store.Now()), store.Now())
    {
      ghost var db, job := store.Now(), AddJob(args);
      ghost var claim := SaveWithEvent(db, AddItem(args), AddEvent(args)).1;
      var next := ClaimFor(args);
      A.AnswerSays(args, claim);
      if IdOf(args) !in db.records && !(next.Done? && next.outcome.Raised?) { A.AnswerStands(db, args, store.Now(), claim); }
      if next.Done? {
        return next.outcome;
      }
      outcome := Settle(args, IdOf(args));
      LeadsOn(Position(db, Call(job, Creating)), Position(store.Now(), Call(job, next)),
              Position(store.Now(), Call(job, Done(outcome))));
    }

    /** `add`: replay the record found under the key, or claim a new one. */
    method Add(args: AddArgs) returns (outcome: Outcome, ghost found: Option<Text>)
      requires Valid()
      modifies store, bus
      ensures Valid() && (Keyed(args) ==> MayFind(old(store.records), args.key, found))
      ensures Leads(Position(old(store.Now()), Call(AddJob(args), if Keyed(args) then AfterLookup(found) else Creating)),
                    Position(store.Now(), Call(AddJob(args), Done(outcome))))
      ensures outcome.Added? ==> A.SaysAsAsked(args, outcome.artifact)
      ensures outcome.Added? && found.None? && outcome.id !in old(store.records) ==>
        A.AddStands(args, outcome.id, old(store.Now()), store.Now())
    {
      found := None;
      if Keyed(args) {
        var env := store.FindRecordEnvelope(Lit(EvidenceRecord), IdempotencyKey, args.key);
        if env.Some? {
          found := Some(env.value.id);
          outcome := ReplayAndRepair(args, env.value.id);
          return;
        }
      }
      outcome := Create(args);
    }

    /** `is_preverified_and_integrity_bound`. */
    method IsPreverifiedAndIntegrityBound(id: Text) returns (ok: bool)
      ensures ok == (EnvelopeOf(store.records, id).Some?
                     && Preverified(EnvelopeOf(store.records, id).value, store.events, id))
    {
      var read := store.GetRecordEnvelope(id);
      if read.None? || read.value.rtype != Lit(EvidenceRecord) {
        return false;
      }
      var env, p := read.value, read.value.payload;
      if Get(p, EvidenceId) != Str(id) || env.mission != Get(p, MissionId)
         || Get(p, VerificationStatus) != Literal(Verified) || !ContentIntact(p) {
        return false;
      }
      var origin := OriginProjection(env, p);
      if origin.NoOrigin? || !VerificationRecorded(store.events, id, p, origin.status) {
        return false;
      }
      return Get(p, EnvelopeSha256) == Str(EnvelopeSha(p));
    }
  }

  function Verdict(id: Text, verified: bool, result: RepairResult): Outcome {
    match result
    case Repaired(_, _) => VerifyReturned(id, verified)
    case Refused => Raised(LostRace)
    case RepairConflict => Raised(EventConflict)
  }

  lemma VerdictIsNext(db: Tables, id: Text, stamp: Text, st: Stage, result: RepairResult)
    requires st.Verifying? && result == RepairOf(db, st).1
    ensures NextVerify(db, id, stamp, st) == Done(Verdict(id, st.verified, result))
  {
  }

  lemma RepairGrows(db: Tables, st: Stage, events: map<Text, EventRow>, result: RepairResult)
    requires (st.Verifying? || st.Repairing?) && events == RepairOf(db, st).0.events && result == RepairOf(db, st).1
    ensures db.events.Keys <= events.Keys
    ensures result.Repaired? ==> result.event.id in events && (result.inserted ==> result.event.id !in db.events)
  {
  }

  lemma CreatingStep(db: Tables, args: AddArgs, claim: StoreSpec.Claim, db': Tables)
    requires claim == SaveWithEvent(db, AddItem(args), AddEvent(args)).1
    requires db' == SaveWithEvent(db, AddItem(args), AddEvent(args)).0
    ensures Leads(Position(db, Call(AddJob(args), Creating)), Position(db', Call(AddJob(args), AfterClaim(args, claim))))
  {
    var from := Position(db, Call(AddJob(args), Creating));
    LeadsToItself(from);
    OneMoreStep(from, from, Position(db', Call(AddJob(args), AfterClaim(args, claim))));
  }

  ghost predicate HeldBy(events: map<Text, EventRow>, k: Text, holder: Option<Text>) {
    match holder
    case Some(id) => id in events && events[id].key == Some(k)
    case None => !KeyTaken(events, k)
  }

  lemma ToRepairForms(args: AddArgs, st: Stage, existing: Option<Text>, events: map<Text, EventRow>, plan: Stage)
    requires (st.FindingEvent? || st.ScanningEvents?) && (existing.Some? ==> existing.value in events)
    requires plan == ToRepair(args, st, existing, events)
    ensures (plan.Done? && plan.outcome.Raised?) || (plan.Repairing? && plan.id == st.id && plan.tries == st.tries)
  {
  }

  lemma ScanForms(args: AddArgs, st: Stage, events: map<Text, EventRow>, plan: Stage)
    requires st.ScanningEvents? && plan == AfterEventScan(args, st, events)
    ensures (plan.Done? && plan.outcome.Raised?) || (plan.Repairing? && plan.id == st.id && plan.tries == st.tries)
  {
    if a, b :| a != b && IsLegacy(events, st, a) && IsLegacy(events, st, b) {
    } else if exists a :: IsLegacy(events, st, a) {
      var a := R.LegacyPlan(args, st, events, plan);
      ToRepairForms(args, st, Some(a), events, plan);
    } else {
      ToRepairForms(args, st, None, events, plan);
    }
  }

  lemma PlanForms(args: AddArgs, st: Stage, events: map<Text, EventRow>, holder: Option<Text>, scanning: Stage, plan: Stage)
    requires st.FindingEvent? && HeldBy(events, Show(Get(st.artifact, IdempotencyKey)), holder)
    requires scanning == ScanningEvents(st.id, st.tries, st.artifact, st.env)
    requires plan == if holder.Some? then ToRepair(args, st, holder, events) else AfterEventScan(args, scanning, events)
    ensures (plan.Done? && plan.outcome.Raised?) || (plan.Repairing? && plan.id == st.id && plan.tries == st.tries)
  {
    if holder.Some? { ToRepairForms(args, st, holder, events, plan); } else { ScanForms(args, scanning, events, plan); }
  }

  lemma PlanMeans(args: AddArgs, st: Stage, events: map<Text, EventRow>, holder: Option<Text>, scanning: Stage, plan: Stage)
    requires st.FindingEvent? && HeldBy(events, Show(Get(st.artifact, IdempotencyKey)), holder)
    requires scanning == ScanningEvents(st.id, st.tries, st.artifact, st.env)
    requires plan == if holder.Some? then ToRepair(args, st, holder, events) else AfterEventScan(args, scanning, events)
    ensures R.PlanSays(st.env, st.artifact, events, plan)
  {
    if holder.Some? {
      R.HolderPlans(args, st, events, holder.value, plan);
    } else {
      assert forall e :: !R.HoldsKey(events, Show(Get(st.artifact, IdempotencyKey)), e);
      R.ScanPlans(args, scanning, events, plan);
    }
  }

  lemma FindingStep(db: Tables, args: AddArgs, st: Stage, holder: Option<Text>)
    requires UniqueKeys(db.events) && st.FindingEvent? && HeldBy(db.events, Show(Get(st.artifact, IdempotencyKey)), holder)
    ensures Leads(Position(db, Call(AddJob(args), st)),
                  Position(db, Call(AddJob(args), if holder.Some? then ToRepair(args, st, holder, db.events)
                                                  else ScanningEvents(st.id, st.tries, st.artifact, st.env))))
  {
    var from := Position(db, Call(AddJob(args), st));
    LeadsToItself(from);
    if holder.Some? { HolderIsUnique(db.events, Show(Get(st.artifact, IdempotencyKey)), holder.value); }
    OneMoreStep(from, from, Position(Written(db, from.call), StepCall(db, from.call)));
  }

  lemma ScanningStep(db: Tables, args: AddArgs, st: Stage)
    requires st.ScanningEvents?
    ensures Leads(Position(db, Call(AddJob(args), st)), Position(db, Call(AddJob(args), AfterEventScan(args, st, db.events))))
  {
    var from := Position(db, Call(AddJob(args), st));
    LeadsToItself(from);
    OneMoreStep(from, from, Position(Written(db, from.call), StepCall(db, from.call)));
  }

  lemma HolderIsUnique(events: map<Text, EventRow>, k: Text, id: Text)
    requires UniqueKeys(events) && id in events && events[id].key == Some(k)
    ensures KeyHolder(events, k) == Some(id)
  {
    assert KeyTaken(events, k);
  }
}
