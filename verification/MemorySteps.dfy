/** Writing, proposing and patching as programs of store calls. The kernel takes no lock: between any
    two store calls of one call, other calls may run. */
module MemorySteps {
  import opened Ledger
  import opened StoreSpec
  import opened Lists
  import opened MemoryRules
  import opened MemoryRuns
  import opened Knowledge

  datatype Kind = Writes | Proposes(auto: bool) | Patches

  /** A call; the idempotency key of a patch is not part of the entry it proposes. */
  datatype Job = Job(kind: Kind, r: Entry, idem: Value, gen: Fresh)

  /** How far a call has got. Once it has looked, what it is going to save is settled: the records it
      still has to retire, its own record, and what follows. */
  datatype Stage =
    | Searching
    | Looking
    | LookingAgain
    | Writing(left: seq<Payload>, it: Item, rest: seq<Op>, answer: Outcome)
    | Finishing(rest: seq<Op>, answer: Outcome)

  datatype Call = Call(job: Job, stage: Stage)

  function Auto(kind: Kind): bool {
    kind.Patches? || (kind.Proposes? && kind.auto)
  }

  function Stopped(answer: Outcome): Stage {
    Finishing([], answer)
  }

  /** A proposal checks its arguments before it looks. */
  function BeginProposal(job: Job): Call {
    Call(job, if Blank(job.r.key) || Blank(job.r.content) then Stopped(Raised(KeyAndContentRequired))
              else if !(0.0 <= job.r.confidence <= 1.0) then Stopped(Raised(ConfidenceOutOfRange))
              else Looking)
  }

  /** Once the key has given no answer. A write of an inference is passed on to `propose`, which
      searches for the key once more. */
  function Begin(job: Job): Call {
    if !job.kind.Writes? then BeginProposal(job)
    else if job.r.kind == Lit(UnverifiedInference) then
      var passed := job.(kind := Proposes(false));
      if Truthy(job.idem) then Call(passed, Searching) else BeginProposal(passed)
    else Call(job, if NeedsEvidence(job.r) then Stopped(Raised(EvidenceRequired)) else Looking)
  }

  function Start(job: Job): Call {
    if Truthy(job.idem) then Call(job, Searching) else Begin(job)
  }

  ghost function AfterSearch(records: map<Text, Row>, job: Job, found: Option<Text>): Call {
    if job.kind.Patches? then
      match PatchAnswer(records, job.r, job.idem, found)
      case Some(answer) => Call(job, Stopped(answer))
      case None => Begin(job)
    else
      var bound := Bound(records, found, job.r.mission);
      if bound.None? then Begin(job)
      else Call(job, Stopped(if job.kind.Writes? then Replayed(bound.value.payload, job.r)
                             else Reproposed(bound.value, job.r, job.kind.auto)))
  }

  // ---- looking --------------------------------------------------------------------------------

  function Outdates(r: Entry): Payload -> bool { p => Holds(p, r.key) && Differs(p, r.content) }
  function Repeated(r: Entry): Payload -> bool { p => Holds(p, r.key) && !Differs(p, r.content) }

  ghost predicate Legible(records: map<Text, Row>, ids: seq<Text>) {
    forall id :: id in ids ==> id in records && records[id].body.Obj?
  }

  /** The listed payloads that pass. */
  ghost function Seen(records: map<Text, Row>, ids: seq<Text>, f: Payload -> bool): seq<Payload> {
    if Legible(records, ids) then Filter(PayloadsOf(records, ids), f) else []
  }

  function LatestOf(left: seq<Payload>): Value {
    if left == [] then Null else Get(left[|left| - 1], MemoryId)
  }

  function MapOps(idem: Value, mission: Value, memory: Text, gen: Fresh, created: Text): seq<Op> {
    if Truthy(idem) then [DoSave(MappingItem(idem, mission, memory, gen, created))] else []
  }

  function WritePlan(job: Job, left: seq<Payload>): Stage {
    var r, gen := job.r, job.gen;
    var it := WrittenItem(r, gen, LatestOf(left));
    Writing(left, it, MapOps(r.idem, r.mission, gen.memory, gen, gen.created) + [DoSaveEvent(WrittenEvent(r, gen))],
            Returned(it.payload))
  }

  /** What a proposal does after its record is saved: mapping, event, conflict; a patch maps its key last. */
  function ProposalRest(records: map<Text, Row>, job: Job, conflicts: seq<Value>): seq<Op> {
    var r, gen := job.r, job.gen;
    MapOps(r.idem, r.mission, gen.memory, gen, gen.created)
    + [DoSaveEvent(ProposedEvent(records, r, gen, Auto(job.kind)))]
    + (if Outdated(records, r.mission, r.key, r.content) == {} then []
       else [DoSave(ConflictItem(r, gen, conflicts)), DoSaveEvent(ConflictEvent(r, gen, conflicts))])
    + (if job.kind.Patches? then MapOps(job.idem, r.mission, gen.memory, gen, gen.created) else [])
  }

  function ProposalPlan(records: map<Text, Row>, job: Job, conflicts: seq<Value>): Stage {
    var it := Candidate(records, job.r, job.gen, Auto(job.kind), conflicts);
    Writing([], it, ProposalRest(records, job, conflicts), Returned(it.payload))
  }

  /** A committed record that says the same answers a proposal; a patch still maps its key to it. */
  ghost function AfterDuplicates(job: Job, same: seq<Payload>): Stage {
    if same == [] then LookingAgain
    else if !Parses(same[0]) then Stopped(Raised(Unreadable))
    else
      var p := same[0];
      Finishing(if job.kind.Patches? then MapOps(job.idem, job.r.mission, Show(Get(p, MemoryId)), job.gen, Show(Get(p, CreatedAt)))
                else [], Returned(p))
  }

  // ---- one step -------------------------------------------------------------------------------

  function RetiredItem(p: Payload, successor: Text): Item {
    Item(Show(Get(p, MemoryId)), Lit(MemoryRow), Get(p, MissionId), Show(Get(p, CreatedAt)), Retired(p, successor))
  }

  ghost function Next(db: Tables, c: Call, ids: seq<Text>, found: Option<Text>): Call {
    match c.stage
    case Searching => AfterSearch(db.records, c.job, found)
    case Looking =>
      if c.job.kind.Writes? then c.(stage := WritePlan(c.job, Seen(db.records, ids, Outdates(c.job.r))))
      else c.(stage := AfterDuplicates(c.job, Seen(db.records, ids, Repeated(c.job.r))))
    case LookingAgain =>
      c.(stage := ProposalPlan(db.records, c.job, IdsOf(Seen(db.records, ids, Outdates(c.job.r)))))
    case Writing(left, it, rest, answer) =>
      c.(stage := if left == [] then Finishing(rest, answer) else Writing(left[1..], it, rest, answer))
    case Finishing(rest, answer) => c.(stage := Finishing(if rest == [] then [] else rest[1..], answer))
  }

  /** The tables after the call's next store call. */
  function Written(db: Tables, c: Call): Tables {
    match c.stage
    case Writing(left, it, _, _) =>
      SaveRecord(db, if left == [] then it else RetiredItem(left[0], c.job.gen.memory))
    case Finishing(rest, _) => if rest == [] then db else Apply(db, rest[0])
    case _ => db
  }

  /** About to save its own record among the committed ones. */
  predicate Commits(c: Call) {
    c.stage.Writing? && c.stage.left == [] && c.stage.it.rtype == Lit(MemoryRow)
  }

  // ---- a call left alone ------------------------------------------------------------------------

  function Work(st: Stage): nat {
    match st
    case Writing(left, _, rest, _) => |left| + 1 + |rest|
    case Finishing(rest, _) => |rest|
    case _ => 0
  }

  /** The tables when the call has made all the store calls it settled on, with nobody else about. */
  ghost function Finished(db: Tables, c: Call): Tables
    decreases Work(c.stage)
  {
    if Work(c.stage) == 0 then db else Finished(Written(db, c), Next(db, c, [], None))
  }

  /** The payload of that record, which names itself. */
  predicate ReadFrom(rs: map<Text, Row>, p: Payload) {
    Get(p, MemoryId).Str? && IsMemory(rs, Get(p, MemoryId).t)
    && (var row := rs[Get(p, MemoryId).t];
        row.body == Obj(p) && Get(p, MissionId) == row.mission && Get(p, CreatedAt) == Str(row.created))
  }

  ghost predicate ReadApart(rs: map<Text, Row>, left: seq<Payload>, done: set<Text>) {
    (forall p :: p in left ==> ReadFrom(rs, p) && Get(p, MemoryId).t !in done)
    && forall i, j :: 0 <= i < j < |left| ==> Get(left[i], MemoryId) != Get(left[j], MemoryId)
  }

  function NamesOf(left: seq<Payload>): set<Text> {
    set p | p in left && Get(p, MemoryId).Str? :: Get(p, MemoryId).t
  }

  lemma RetireOne(now: Tables, start: map<Text, Row>, done: set<Text>, p: Payload, successor: Text)
    requires ReadFrom(start, p) && Get(p, MemoryId).t !in done && now.records == RetireAll(start, done, successor)
    ensures SaveRecord(now, RetiredItem(p, successor))
      == now.(records := RetireAll(start, done + {Get(p, MemoryId).t}, successor))
  {
  }

  lemma NamesSplit(left: seq<Payload>)
    requires left != [] && Get(left[0], MemoryId).Str?
    ensures NamesOf(left) == {Get(left[0], MemoryId).t} + NamesOf(left[1..])
  {
    assert left == [left[0]] + left[1..];
  }

  lemma ReadApartRest(rs: map<Text, Row>, left: seq<Payload>, done: set<Text>)
    requires left != [] && ReadApart(rs, left, done)
    ensures ReadFrom(rs, left[0]) && Get(left[0], MemoryId).t !in done
    ensures ReadApart(rs, left[1..], done + {Get(left[0], MemoryId).t})
  {
    assert left[0] in left;
    forall p | p in left[1..] ensures ReadFrom(rs, p) && Get(p, MemoryId).t !in done + {Get(left[0], MemoryId).t} {
      var i :| 1 <= i < |left| && left[i] == p;
      assert left[i] in left && Get(left[0], MemoryId) != Get(left[i], MemoryId);
    }
  }

  /** Left alone, a write retires everything it saw, one record after the other. */
  lemma {:induction false} RetiringLeft(
    db: Tables, c: Call, start: map<Text, Row>, done: set<Text>, left: seq<Payload>, it: Item, rest: seq<Op>, answer: Outcome)
    requires c.stage == Writing(left, it, rest, answer) && ReadApart(start, left, done)
    requires db.records == RetireAll(start, done, c.job.gen.memory)
    ensures Finished(db, c) == Finished(
      db.(records := RetireAll(start, done + NamesOf(left), c.job.gen.memory)), c.(stage := Writing([], it, rest, answer)))
    decreases |left|
  {
    if left == [] {
      assert done + NamesOf(left) == done;
    } else {
      var name := Get(left[0], MemoryId).t;
      ReadApartRest(start, left, done);
      RetireOne(db, start, done, left[0], c.job.gen.memory);
      NamesSplit(left);
      RetiringLeft(Written(db, c), Next(db, c, [], None), start, done + {name}, left[1..], it, rest, answer);
      assert done + {name} + NamesOf(left[1..]) == done + NamesOf(left);
    }
  }

  // ---- what a call sees ---------------------------------------------------------------------------

  ghost predicate Surveys(rs: map<Text, Row>, mission: Value, ids: seq<Text>) {
    RowsSound(rs) && Listing(rs, Lit(MemoryRow), mission, ids)
  }

  lemma SurveyedRow(rs: map<Text, Row>, mission: Value, ids: seq<Text>, i: nat)
    requires Surveys(rs, mission, ids) && i < |ids|
    ensures ids[i] in rs && rs[ids[i]].body.Obj? && ReadFrom(rs, rs[ids[i]].body.p)
    ensures Get(rs[ids[i]].body.p, MemoryId) == Str(ids[i]) && rs[ids[i]].created.Stamp?
  {
    assert ids[i] in ids && Sound(ids[i], rs[ids[i]]);
  }

  lemma SurveyIsLegible(rs: map<Text, Row>, mission: Value, ids: seq<Text>)
    requires Surveys(rs, mission, ids)
    ensures Legible(rs, ids) && AllApart(PayloadsOf(rs, ids))
  {
    forall id | id in ids ensures id in rs && rs[id].body.Obj? {
      assert Sound(id, rs[id]);
    }
    var all := PayloadsOf(rs, ids);
    forall i, j | 0 <= i < j < |all| ensures all[i] != all[j] {
      SurveyedRow(rs, mission, ids, i);
      SurveyedRow(rs, mission, ids, j);
    }
  }

  /** What is seen was read from the rows, each record once. */
  lemma SeenApart(rs: map<Text, Row>, mission: Value, ids: seq<Text>, f: Payload -> bool)
    requires Surveys(rs, mission, ids)
    ensures ReadApart(rs, Seen(rs, ids, f), {})
  {
    SurveyIsLegible(rs, mission, ids);
    var all, left := PayloadsOf(rs, ids), Seen(rs, ids, f);
    FilterApart(all, f);
    forall p | p in left ensures ReadFrom(rs, p) {
      var i :| 0 <= i < |all| && all[i] == p;
      SurveyedRow(rs, mission, ids, i);
    }
    forall i, j | 0 <= i < j < |left| ensures Get(left[i], MemoryId) != Get(left[j], MemoryId) {
      assert left[i] in left && left[j] in left && left[i] != left[j];
    }
  }

  lemma SeenNames(rs: map<Text, Row>, mission: Value, ids: seq<Text>, f: Payload -> bool, id: Text)
    requires Surveys(rs, mission, ids)
    ensures id in NamesOf(Seen(rs, ids, f)) <==> id in ids && f(rs[id].body.p)
  {
    SurveyIsLegible(rs, mission, ids);
    var all, left := PayloadsOf(rs, ids), Seen(rs, ids, f);
    if id in ids {
      var i :| 0 <= i < |ids| && ids[i] == id;
      SurveyedRow(rs, mission, ids, i);
      assert all[i] == rs[id].body.p;
      if f(all[i]) { assert all[i] in left; }
    }
    if id in NamesOf(left) {
      var p :| p in left && Get(p, MemoryId) == Str(id);
      var i :| 0 <= i < |all| && all[i] == p;
      SurveyedRow(rs, mission, ids, i);
    }
  }

  lemma SeenAreOutdated(rs: map<Text, Row>, r: Entry, ids: seq<Text>)
    requires Surveys(rs, r.mission, ids)
    ensures NamesOf(Seen(rs, ids, Outdates(r))) == Outdated(rs, r.mission, r.key, r.content)
  {
    forall id ensures id in NamesOf(Seen(rs, ids, Outdates(r))) <==> id in Outdated(rs, r.mission, r.key, r.content) {
      SeenNames(rs, r.mission, ids, Outdates(r), id);
      if id in ids { assert ListedAt(rs, Lit(MemoryRow), r.mission, id); }
    }
  }

  /** The last that passes in a listing is one of the newest that pass. */
  lemma LastSeenIsNewest(rs: map<Text, Row>, mission: Value, ids: seq<Text>, f: Payload -> bool, k: nat, id: Text)
    requires Surveys(rs, mission, ids) && Legible(rs, ids) && k < |ids| && id in ids && f(rs[id].body.p)
    requires forall j :: k < j < |ids| ==> !f(PayloadsOf(rs, ids)[j])
    ensures ids[k] in rs && rs[ids[k]].created.Stamp? && rs[id].created.Stamp? && rs[id].created.at <= rs[ids[k]].created.at
  {
    var j :| 0 <= j < |ids| && ids[j] == id;
    SurveyedRow(rs, mission, ids, k);
    SurveyedRow(rs, mission, ids, j);
    assert PayloadsOf(rs, ids)[j] == rs[id].body.p;
  }

  lemma LatestIsNewest(rs: map<Text, Row>, r: Entry, ids: seq<Text>, left: seq<Payload>, outdated: set<Text>)
    requires Surveys(rs, r.mission, ids) && left == Seen(rs, ids, Outdates(r)) && outdated == NamesOf(left)
    ensures Newest(rs, outdated, LatestOf(left))
  {
    SurveyIsLegible(rs, r.mission, ids);
    SeenApart(rs, r.mission, ids, Outdates(r));
    if left != [] {
      var last := left[|left| - 1];
      assert last in left;
      var k := FilterLast(PayloadsOf(rs, ids), Outdates(r));
      SurveyedRow(rs, r.mission, ids, k);
      forall id | id in outdated ensures id in rs && rs[id].created.Stamp? && rs[id].created.at <= rs[ids[k]].created.at {
        SeenNames(rs, r.mission, ids, Outdates(r), id);
        LastSeenIsNewest(rs, r.mission, ids, Outdates(r), k, id);
      }
    } else {
      assert outdated == {};
    }
  }

  // ---- a call left alone is one move ------------------------------------------------------------------

  function ApplyAll(db: Tables, ops: seq<Op>): Tables
    decreases |ops|
  {
    if ops == [] then db else ApplyAll(Apply(db, ops[0]), ops[1..])
  }

  lemma {:induction false} ApplyBoth(db: Tables, a: seq<Op>, b: seq<Op>)
    ensures ApplyAll(db, a + b) == ApplyAll(ApplyAll(db, a), b)
    decreases |a|
  {
    if a == [] {
      assert a + b == b;
    } else {
      assert (a + b)[0] == a[0] && (a + b)[1..] == a[1..] + b;
      ApplyBoth(Apply(db, a[0]), a[1..], b);
    }
  }

  lemma {:induction false} FinishingApplies(db: Tables, c: Call)
    requires c.stage.Finishing?
    ensures Finished(db, c) == ApplyAll(db, c.stage.rest)
    decreases |c.stage.rest|
  {
    if c.stage.rest != [] { FinishingApplies(Written(db, c), Next(db, c, [], None)); }
  }

  lemma SavingApplies(db: Tables, c: Call)
    requires c.stage.Writing? && c.stage.left == []
    ensures Finished(db, c) == ApplyAll(SaveRecord(db, c.stage.it), c.stage.rest)
  {
    FinishingApplies(Written(db, c), Next(db, c, [], None));
  }

  lemma MapOpsApply(db: Tables, idem: Value, mission: Value, memory: Text, gen: Fresh, created: Text)
    ensures ApplyAll(db, MapOps(idem, mission, memory, gen, created)) == SaveMapping(db, idem, mission, memory, gen, created)
  {
  }

  lemma OneApplies(db: Tables, op: Op)
    ensures ApplyAll(db, [op]) == Apply(db, op)
  {
  }

  lemma WriteOpsApply(db: Tables, idem: Value, mission: Value, gen: Fresh, ev: Event)
    ensures ApplyAll(db, MapOps(idem, mission, gen.memory, gen, gen.created) + [DoSaveEvent(ev)])
      == SaveEvent(SaveMapping(db, idem, mission, gen.memory, gen, gen.created), ev)
  {
    var mapping := MapOps(idem, mission, gen.memory, gen, gen.created);
    ApplyBoth(db, mapping, [DoSaveEvent(ev)]);
    MapOpsApply(db, idem, mission, gen.memory, gen, gen.created);
    OneApplies(SaveMapping(db, idem, mission, gen.memory, gen, gen.created), DoSaveEvent(ev));
  }

  lemma RetiredThenSaved(db: Tables, c: Call, left: seq<Payload>, outdated: set<Text>)
    requires c.stage.Writing? && c.stage.left == left && ReadApart(db.records, left, {}) && outdated == NamesOf(left)
    ensures Finished(db, c)
      == ApplyAll(SaveRecord(db.(records := RetireAll(db.records, outdated, c.job.gen.memory)), c.stage.it), c.stage.rest)
  {
    assert RetireAll(db.records, {}, c.job.gen.memory) == db.records;
    RetiringLeft(db, c, db.records, {}, left, c.stage.it, c.stage.rest, c.stage.answer);
    assert {} + outdated == outdated;
    SavingApplies(db.(records := RetireAll(db.records, outdated, c.job.gen.memory)), c.(stage := c.stage.(left := [])));
  }

  /** A write that nobody disturbs once it has looked leaves what the single move of the runs leaves. */
  lemma AloneWriteIsOneMove(db: Tables, job: Job, ids: seq<Text>)
    requires job.kind.Writes? && Surveys(db.records, job.r.mission, ids)
    ensures var next, latest := Next(db, Call(job, Looking), ids, None), LatestOf(Seen(db.records, ids, Outdates(job.r)));
      Newest(db.records, Outdated(db.records, job.r.mission, job.r.key, job.r.content), latest)
      && Finished(db, next) == Committing(db, job.r, job.gen, latest)
      && next.stage.Writing? && next.stage.answer == Returned(WrittenItem(job.r, job.gen, latest).payload)
  {
    var r, gen, left := job.r, job.gen, Seen(db.records, ids, Outdates(job.r));
    var outdated := Outdated(db.records, r.mission, r.key, r.content);
    SeenAreOutdated(db.records, r, ids);
    LatestIsNewest(db.records, r, ids, left, outdated);
    SeenApart(db.records, r.mission, ids, Outdates(r));
    RetiredThenSaved(db, Next(db, Call(job, Looking), ids, None), left, outdated);
    WriteOpsApply(SaveRecord(db.(records := RetireAll(db.records, outdated, gen.memory)), WrittenItem(r, gen, LatestOf(left))),
                  r.idem, r.mission, gen, WrittenEvent(r, gen));
  }

  lemma ConflictOpsApply(db: Tables, r: Entry, gen: Fresh, conflicts: seq<Value>)
    ensures ApplyAll(db, [DoSave(ConflictItem(r, gen, conflicts)), DoSaveEvent(ConflictEvent(r, gen, conflicts))])
      == SaveEvent(SaveRecord(db, ConflictItem(r, gen, conflicts)), ConflictEvent(r, gen, conflicts))
  {
    var first := DoSave(ConflictItem(r, gen, conflicts));
    var ops := [first, DoSaveEvent(ConflictEvent(r, gen, conflicts))];
    assert ops[1..] == [DoSaveEvent(ConflictEvent(r, gen, conflicts))];
    OneApplies(Apply(db, first), DoSaveEvent(ConflictEvent(r, gen, conflicts)));
  }

  lemma {:induction false} NamesCount(left: seq<Payload>)
    requires forall p :: p in left ==> Get(p, MemoryId).Str?
    requires forall i, j :: 0 <= i < j < |left| ==> Get(left[i], MemoryId) != Get(left[j], MemoryId)
    ensures |NamesOf(left)| == |left|
  {
    if left != [] {
      assert left[0] in left && forall p :: p in left[1..] ==> p in left;
      NamesCount(left[1..]);
      NamesSplit(left);
      assert Get(left[0], MemoryId).t !in NamesOf(left[1..]);
    }
  }

  lemma SeenAreListed(rs: map<Text, Row>, r: Entry, ids: seq<Text>)
    requires Surveys(rs, r.mission, ids)
    ensures ListsAll(IdsOf(Seen(rs, ids, Outdates(r))), Outdated(rs, r.mission, r.key, r.content))
  {
    var left := Seen(rs, ids, Outdates(r));
    var conflicts := IdsOf(left);
    SeenAreOutdated(rs, r, ids);
    SeenApart(rs, r.mission, ids, Outdates(r));
    NamesCount(left);
    forall id ensures id in NamesOf(left) <==> Str(id) in conflicts {
      if Str(id) in conflicts {
        var i :| 0 <= i < |conflicts| && conflicts[i] == Str(id);
        assert left[i] in left;
      }
      if id in NamesOf(left) {
        var p :| p in left && Get(p, MemoryId) == Str(id);
        var i :| 0 <= i < |left| && left[i] == p;
        assert conflicts[i] == Str(id);
      }
    }
  }

  /** So does a proposal once it has looked for conflicts; a patch maps its own key after that. */
  lemma AloneProposalIsOneMove(db: Tables, job: Job, ids: seq<Text>)
    requires !job.kind.Writes? && Surveys(db.records, job.r.mission, ids)
    ensures var conflicts := IdsOf(Seen(db.records, ids, Outdates(job.r)));
      ListsAll(conflicts, Outdated(db.records, job.r.mission, job.r.key, job.r.content))
    ensures var conflicts := IdsOf(Seen(db.records, ids, Outdates(job.r)));
      var filed := Filing(db, job.r, job.gen, Auto(job.kind), conflicts);
      Finished(db, Next(db, Call(job, LookingAgain), ids, None))
        == if job.kind.Patches? then SaveMapping(filed, job.idem, job.r.mission, job.gen.memory, job.gen, job.gen.created) else filed
  {
    var r, gen, conflicts := job.r, job.gen, IdsOf(Seen(db.records, ids, Outdates(job.r)));
    SeenAreListed(db.records, r, ids);
    SavingApplies(db, Next(db, Call(job, LookingAgain), ids, None));
    ProposalOpsApply(db, job, conflicts, SaveRecord(db, Candidate(db.records, r, gen, Auto(job.kind), conflicts)));
  }

  lemma ProposalOpsApply(db: Tables, job: Job, conflicts: seq<Value>, saved: Tables)
    requires saved == SaveRecord(db, Candidate(db.records, job.r, job.gen, Auto(job.kind), conflicts))
    ensures var filed := Filing(db, job.r, job.gen, Auto(job.kind), conflicts);
      ApplyAll(saved, ProposalRest(db.records, job, conflicts))
        == if job.kind.Patches? then SaveMapping(filed, job.idem, job.r.mission, job.gen.memory, job.gen, job.gen.created) else filed
  {
    var r, gen, ev := job.r, job.gen, ProposedEvent(db.records, job.r, job.gen, Auto(job.kind));
    var first := MapOps(r.idem, r.mission, gen.memory, gen, gen.created) + [DoSaveEvent(ev)];
    var second := if Outdated(db.records, r.mission, r.key, r.content) == {} then []
                  else [DoSave(ConflictItem(r, gen, conflicts)), DoSaveEvent(ConflictEvent(r, gen, conflicts))];
    var third := if job.kind.Patches? then MapOps(job.idem, r.mission, gen.memory, gen, gen.created) else [];
    assert ProposalRest(db.records, job, conflicts) == first + second + third;
    ApplyBoth(saved, first + second, third);
    ApplyBoth(saved, first, second);
    WriteOpsApply(saved, r.idem, r.mission, gen, ev);
    ConflictOpsApply(ApplyAll(saved, first), r, gen, conflicts);
    MapOpsApply(ApplyAll(saved, first + second), job.idem, r.mission, gen.memory, gen, gen.created);
  }
}
