/** Runs of any number of memory calls, interleaved store call by store call. */
module MemoryInterleaving {
  import opened Ledger
  import opened StoreSpec
  import opened MemoryRules
  import opened MemoryRuns
  import opened MemoryGuarantees
  import opened MemoryReplay
  import opened Knowledge
  import S = MemorySteps

  /** The tables, the committed records in the order they were saved, and every call so far. */
  datatype State = State(db: Tables, order: seq<Text>, calls: seq<S.Call>)

  /** A step of a call comes with the listing and the mapping that its searches hand back. */
  datatype Turn = Arrive(job: S.Job) | Step(i: nat, ids: seq<Text>, found: Option<Text>) | Other(op: Op)

  ghost function Saved(order: seq<Text>, c: S.Call): seq<Text> {
    if S.Commits(c) then order + [c.stage.it.id] else order
  }

  ghost function Take(s: State, t: Turn): State {
    match t
    case Arrive(job) => s.(calls := s.calls + [S.Start(job)])
    case Other(op) => s.(db := Apply(s.db, op))
    case Step(i, ids, found) =>
      if i >= |s.calls| then s
      else State(S.Written(s.db, s.calls[i]), Saved(s.order, s.calls[i]), s.calls[i := S.Next(s.db, s.calls[i], ids, found)])
  }

  ghost function Play(turns: seq<Turn>): State {
    if turns == [] then State(Tables(map[], map[]), [], [])
    else Take(Play(turns[..|turns| - 1]), turns[|turns| - 1])
  }

  /** Generated record ids are new, and the clock yields timestamps. */
  ghost predicate Arrives(s: State, job: S.Job) {
    Typed(job.r) && job.gen.memory !in s.db.records && job.gen.memory != EMPTY && job.gen.created.Stamp?
    && forall k :: 0 <= k < |s.calls| ==> s.calls[k].job.gen.memory != job.gen.memory
  }

  /** The id of a record saved for the first time is not taken. */
  predicate SavesNew(db: Tables, c: S.Call) {
    match c.stage
    case Writing(left, it, _, _) => left == [] ==> it.id !in db.records
    case Finishing(rest, _) => rest != [] && rest[0].DoSave? ==> rest[0].it.id !in db.records
    case _ => true
  }

  ghost predicate Permitted(s: State, t: Turn) {
    match t
    case Arrive(job) => Arrives(s, job)
    case Other(op) => Leaves(s.db.records, Apply(s.db, op).records)
    case Step(i, ids, found) =>
      i < |s.calls| && SavesNew(s.db, s.calls[i])
      && (s.calls[i].stage.Searching? ==> MayFind(s.db.records, s.calls[i].job.idem, found))
      && (s.calls[i].stage.Looking? || s.calls[i].stage.LookingAgain? ==>
          Listing(s.db.records, Lit(MemoryRow), s.calls[i].job.r.mission, ids))
  }

  ghost predicate Interleaved(turns: seq<Turn>) {
    turns == [] || (Interleaved(turns[..|turns| - 1]) && Permitted(Play(turns[..|turns| - 1]), turns[|turns| - 1]))
  }

  // ---- the invariant --------------------------------------------------------------------------

  /** A record still to be retired is stored, and as it was seen in everything but its standing. */
  ghost predicate LeftOk(rs: map<Text, Row>, r: Entry, p: Payload) {
    Get(p, MemoryId).Str? && IsMemory(rs, Get(p, MemoryId).t) && Parses(p)
    && (var row := rs[Get(p, MemoryId).t];
        row.body.Obj? && SameButStanding(row.body.p, p) && Get(p, MissionId) == row.mission
        && Get(p, CreatedAt) == Str(row.created) && Get(p, MemoryKey) == Str(r.key)
        && (r.mission == row.mission || !Truthy(r.mission)))
  }

  /** The record to be saved, and whether it will be among the committed ones. */
  ghost predicate ItemOk(job: S.Job, it: Item) {
    it.id == job.gen.memory && it.mission == job.r.mission && Sound(it.id, FirstWrite(it))
    && (it.rtype == Lit(CandidateRow)
        || (it.rtype == Lit(MemoryRow) && Get(it.payload, Status) == Literal(CommittedStatus)
            && Get(it.payload, MemoryKey) == Str(job.r.key) && Get(it.payload, Content) == Str(job.r.content)))
  }

  /** What follows touches no memory record. */
  predicate RestOk(rest: seq<Op>) {
    forall k :: 0 <= k < |rest| ==>
      rest[k].DoSaveEvent? || (rest[k].DoSave? && rest[k].it.rtype in {Lit(MemoryMapping), Lit(MemoryConflictRow)})
  }

  ghost predicate CallOk(rs: map<Text, Row>, c: S.Call) {
    Typed(c.job.r) && c.job.gen.memory != EMPTY && c.job.gen.created.Stamp?
    && match c.stage
       case Writing(left, it, rest, _) =>
         ItemOk(c.job, it) && RestOk(rest) && !IsMemory(rs, it.id) && (left != [] ==> it.rtype == Lit(MemoryRow))
         && forall p :: p in left ==> LeftOk(rs, c.job.r, p)
       case Finishing(rest, _) => RestOk(rest)
       case _ => !IsMemory(rs, c.job.gen.memory)
  }

  /** The call that retired the record has not saved its successor yet. */
  predicate Awaits(rs: map<Text, Row>, id: Text, c: S.Call) {
    IsMemory(rs, id) && rs[id].body.Obj? && c.stage.Writing? && c.stage.it.rtype == Lit(MemoryRow)
    && Get(rs[id].body.p, SupersededBy) == Str(c.stage.it.id) && Get(rs[id].body.p, MemoryKey) == Str(c.job.r.key)
    && (c.job.r.mission == rs[id].mission || !Truthy(c.job.r.mission))
  }

  ghost predicate Awaited(rs: map<Text, Row>, calls: seq<S.Call>, id: Text) {
    exists k :: 0 <= k < |calls| && Awaits(rs, id, calls[k])
  }

  predicate SucceededLater(rs: map<Text, Row>, order: seq<Text>, i: nat)
    requires i < |order|
  {
    exists j :: i < j < |order| && Succeeds(rs, order[i], order[j])
  }

  ghost predicate Placed(rs: map<Text, Row>, order: seq<Text>, calls: seq<S.Call>, i: nat)
    requires i < |order|
  {
    IsMemory(rs, order[i]) && rs[order[i]].body.Obj?
    && (Get(rs[order[i]].body.p, Status) == Literal(CommittedStatus)
        || (Get(rs[order[i]].body.p, Status) == Literal(SupersededStatus)
            && (SucceededLater(rs, order, i) || Awaited(rs, calls, order[i]))))
  }

  ghost predicate Chained(rs: map<Text, Row>, order: seq<Text>, calls: seq<S.Call>) {
    (forall i :: 0 <= i < |order| ==> Placed(rs, order, calls, i))
    && (forall i, j :: 0 <= i < j < |order| ==> order[i] != order[j])
    && (forall id :: IsMemory(rs, id) ==> id in order)
  }

  ghost predicate CallsOk(rs: map<Text, Row>, calls: seq<S.Call>) {
    (forall k :: 0 <= k < |calls| ==> CallOk(rs, calls[k]))
    && (forall k, l :: 0 <= k < l < |calls| ==> calls[k].job.gen.memory != calls[l].job.gen.memory)
  }

  ghost predicate StateOk(s: State) {
    RowsSound(s.db.records) && Chained(s.db.records, s.order, s.calls) && CallsOk(s.db.records, s.calls)
  }

  // ---- turns that touch no memory record ----------------------------------------------------------

  /** The memory and candidate rows are the same before and after. */
  ghost predicate SameRecords(rs: map<Text, Row>, rs': map<Text, Row>) {
    forall id :: (id in rs && rs[id].rtype in {Lit(MemoryRow), Lit(CandidateRow)})
                 || (id in rs' && rs'[id].rtype in {Lit(MemoryRow), Lit(CandidateRow)}) ==>
      id in rs && id in rs' && rs'[id] == rs[id]
  }

  /** A call goes on, and still awaits what it awaited. */
  ghost predicate GoesOn(c: S.Call, c': S.Call) {
    c'.job.gen == c.job.gen && c'.job.r == c.job.r
    && (c.stage.Writing? ==> c'.stage.Writing? && c'.stage.it == c.stage.it)
  }

  lemma AwaitsStill(rs: map<Text, Row>, rs': map<Text, Row>, c: S.Call, c': S.Call, id: Text)
    requires Awaits(rs, id, c) && GoesOn(c, c') && id in rs' && rs'[id] == rs[id]
    ensures Awaits(rs', id, c')
  {
  }

  lemma PlacedStill(
    rs: map<Text, Row>, rs': map<Text, Row>, order: seq<Text>, calls: seq<S.Call>, calls': seq<S.Call>, i: nat)
    requires i < |order| && Placed(rs, order, calls, i) && SameRecords(rs, rs') && |calls| <= |calls'|
    requires forall k :: 0 <= k < |calls| ==> GoesOn(calls[k], calls'[k])
    ensures Placed(rs', order, calls', i)
  {
    var id := order[i];
    if Get(rs[id].body.p, Status) == Literal(SupersededStatus) {
      if SucceededLater(rs, order, i) {
        var j :| i < j < |order| && Succeeds(rs, order[i], order[j]);
        assert Succeeds(rs', order[i], order[j]);
      } else {
        var k :| 0 <= k < |calls| && Awaits(rs, id, calls[k]);
        AwaitsStill(rs, rs', calls[k], calls'[k], id);
      }
    }
  }

  lemma SameRecordsSound(rs: map<Text, Row>, rs': map<Text, Row>)
    requires RowsSound(rs) && SameRecords(rs, rs')
    ensures RowsSound(rs')
  {
  }

  lemma SameRecordsChained(rs: map<Text, Row>, rs': map<Text, Row>, order: seq<Text>, calls: seq<S.Call>, calls': seq<S.Call>)
    requires Chained(rs, order, calls) && SameRecords(rs, rs') && |calls| <= |calls'|
    requires forall k :: 0 <= k < |calls| ==> GoesOn(calls[k], calls'[k])
    ensures Chained(rs', order, calls')
  {
    forall i | 0 <= i < |order| ensures Placed(rs', order, calls', i) {
      PlacedStill(rs, rs', order, calls, calls', i);
    }
    forall id | IsMemory(rs', id) ensures id in order {
      assert IsMemory(rs, id);
    }
  }

  // ---- retiring one record ------------------------------------------------------------------------

  /** However stale what the call saw, saving it retired is retiring the record as it is now. */
  lemma RetiredAlike(p: Payload, q: Payload, successor: Text)
    requires Parses(p) && Parses(q) && SameButStanding(p, q)
    ensures Retired(p, successor) == Retired(q, successor)
  {
    var a, b := Retired(p, successor), Retired(q, successor);
    StandingIsStored();
    forall f ensures (f in a <==> f in b) && (f in a ==> a[f] == b[f]) {
      assert (f in p <==> IsField(f)) && (f in q <==> IsField(f));
      assert f != Status && f != SupersededBy ==> Get(q, f) == Get(p, f);
    }
  }

  function RetiredRow(rs: map<Text, Row>, id: Text, successor: Text): Row
    requires id in rs && rs[id].body.Obj?
  {
    Reseal(id, rs[id], Retired(rs[id].body.p, successor))
  }

  lemma RetireStep(db: Tables, r: Entry, p: Payload, successor: Text)
    requires RowsSound(db.records) && LeftOk(db.records, r, p)
    ensures var id := Get(p, MemoryId).t;
      SaveRecord(db, S.RetiredItem(p, successor)) == db.(records := db.records[id := RetiredRow(db.records, id, successor)])
  {
    var id := Get(p, MemoryId).t;
    assert Sound(id, db.records[id]);
    RetiredAlike(db.records[id].body.p, p, successor);
  }

  lemma RetireSound(rs: map<Text, Row>, id: Text, successor: Text)
    requires RowsSound(rs) && IsMemory(rs, id)
    ensures Sound(id, rs[id]) && RowsSound(rs[id := RetiredRow(rs, id, successor)])
  {
    assert Sound(id, rs[id]);
    RetiredRowFacts(rs, id, successor);
  }

  lemma RetirePlaced(
    rs: map<Text, Row>, order: seq<Text>, calls: seq<S.Call>, calls': seq<S.Call>, k: nat, x: Text, i: nat)
    requires RowsSound(rs) && i < |order| && Placed(rs, order, calls, i) && IsMemory(rs, x) && Sound(x, rs[x])
    requires k < |calls| == |calls'| && forall l :: 0 <= l < |calls| ==> GoesOn(calls[l], calls'[l])
    requires var c := calls[k];
      c.stage.Writing? && c.stage.it.rtype == Lit(MemoryRow) && Get(rs[x].body.p, MemoryKey) == Str(c.job.r.key)
      && (c.job.r.mission == rs[x].mission || !Truthy(c.job.r.mission))
    ensures Placed(rs[x := RetiredRow(rs, x, calls[k].stage.it.id)], order, calls', i)
  {
    var rs', id := rs[x := RetiredRow(rs, x, calls[k].stage.it.id)], order[i];
    RetiredRowFacts(rs, x, calls[k].stage.it.id);
    if id == x {
      assert Awaits(rs', x, calls'[k]);
    } else if Get(rs[id].body.p, Status) == Literal(SupersededStatus) {
      if SucceededLater(rs, order, i) {
        var j :| i < j < |order| && Succeeds(rs, order[i], order[j]);
        assert Succeeds(rs', order[i], order[j]);
      } else {
        var l :| 0 <= l < |calls| && Awaits(rs, id, calls[l]);
        AwaitsStill(rs, rs', calls[l], calls'[l], id);
      }
    }
  }

  /** Memory records stay, the same but for their standing. */
  ghost predicate Persist(rs: map<Text, Row>, rs': map<Text, Row>) {
    forall id :: IsMemory(rs, id) && rs[id].body.Obj? ==>
      IsMemory(rs', id) && rs'[id].body.Obj? && rs'[id].mission == rs[id].mission && rs'[id].created == rs[id].created
      && SameButStanding(rs'[id].body.p, rs[id].body.p)
  }

  lemma LeftStays(rs: map<Text, Row>, rs': map<Text, Row>, r: Entry, p: Payload)
    requires LeftOk(rs, r, p) && Persist(rs, rs')
    ensures LeftOk(rs', r, p)
  {
    var id := Get(p, MemoryId).t;
    assert IsMemory(rs, id) && SameButStanding(rs'[id].body.p, rs[id].body.p) && SameButStanding(rs[id].body.p, p);
  }

  lemma CallKept(rs: map<Text, Row>, rs': map<Text, Row>, c: S.Call)
    requires CallOk(rs, c) && Persist(rs, rs')
    requires IsMemory(rs', c.job.gen.memory) ==> IsMemory(rs, c.job.gen.memory)
    ensures CallOk(rs', c)
  {
    if c.stage.Writing? {
      forall p | p in c.stage.left ensures LeftOk(rs', c.job.r, p) {
        LeftStays(rs, rs', c.job.r, p);
      }
    }
  }

  lemma RetiredStands(p: Payload, successor: Text)
    ensures SameButStanding(Retired(p, successor), p)
  {
  }

  lemma RetirePersists(rs: map<Text, Row>, x: Text, successor: Text)
    requires IsMemory(rs, x) && Sound(x, rs[x])
    ensures Persist(rs, rs[x := RetiredRow(rs, x, successor)])
  {
    RetiredStands(rs[x].body.p, successor);
    OneRowPersists(rs, x, RetiredRow(rs, x, successor));
  }

  lemma OneRowPersists(rs: map<Text, Row>, x: Text, row: Row)
    requires IsMemory(rs, x) && rs[x].body.Obj? && row.rtype == Lit(MemoryRow) && row.body.Obj?
    requires row.mission == rs[x].mission && row.created == rs[x].created && SameButStanding(row.body.p, rs[x].body.p)
    ensures Persist(rs, rs[x := row])
  {
  }

  // ---- saving its own record ------------------------------------------------------------------------

  lemma NewRowSound(rs: map<Text, Row>, id: Text, row: Row)
    requires RowsSound(rs) && id !in rs && Sound(id, row)
    ensures RowsSound(rs[id := row])
  {
  }

  lemma CommitPlaced(
    rs: map<Text, Row>, order: seq<Text>, calls: seq<S.Call>, calls': seq<S.Call>, k: nat, row: Row, i: nat)
    requires i < |order| && Placed(rs, order, calls, i) && k < |calls| == |calls'|
    requires forall l :: 0 <= l < |calls| && l != k ==> calls'[l] == calls[l]
    requires var c := calls[k];
      c.stage.Writing? && c.stage.it.id !in rs && row.rtype == Lit(MemoryRow) && row.body.Obj?
      && row.mission == c.job.r.mission && Get(row.body.p, MemoryKey) == Str(c.job.r.key)
    ensures var id := calls[k].stage.it.id; Placed(rs[id := row], order + [id], calls', i)
  {
    var own := calls[k].stage.it.id;
    var rs', order', id := rs[own := row], order + [own], order[i];
    assert order'[i] == id;
    if Get(rs[id].body.p, Status) == Literal(SupersededStatus) {
      if SucceededLater(rs, order, i) {
        var j :| i < j < |order| && Succeeds(rs, order[i], order[j]);
        assert order'[j] == order[j] && Succeeds(rs', order'[i], order'[j]);
      } else {
        var l :| 0 <= l < |calls| && Awaits(rs, id, calls[l]);
        if l == k {
          assert order'[|order|] == own && Succeeds(rs', order'[i], order'[|order|]);
        } else {
          assert Awaits(rs', id, calls'[l]);
        }
      }
    }
  }

  lemma CommitChained(rs: map<Text, Row>, order: seq<Text>, calls: seq<S.Call>, calls': seq<S.Call>, k: nat, row: Row)
    requires Chained(rs, order, calls) && k < |calls| == |calls'|
    requires forall l :: 0 <= l < |calls| && l != k ==> calls'[l] == calls[l]
    requires var c := calls[k];
      c.stage.Writing? && c.stage.it.id !in rs && row.rtype == Lit(MemoryRow) && row.body.Obj?
      && Get(row.body.p, Status) == Literal(CommittedStatus)
      && row.mission == c.job.r.mission && Get(row.body.p, MemoryKey) == Str(c.job.r.key)
    ensures var id := calls[k].stage.it.id; Chained(rs[id := row], order + [id], calls')
  {
    var id := calls[k].stage.it.id;
    var rs', order' := rs[id := row], order + [id];
    forall i | 0 <= i < |order'| ensures Placed(rs', order', calls', i) {
      if i < |order| { CommitPlaced(rs, order, calls, calls', k, row, i); }
    }
    forall i, j | 0 <= i < j < |order'| ensures order'[i] != order'[j] {
      assert Placed(rs, order, calls, i);
    }
    forall x | IsMemory(rs', x) ensures x in order' {
      if x == id { assert order'[|order|] == id; } else { assert IsMemory(rs, x); }
    }
  }

  lemma SavePersists(rs: map<Text, Row>, id: Text, row: Row)
    requires id !in rs
    ensures Persist(rs, rs[id := row])
  {
  }

  // ---- looking ----------------------------------------------------------------------------------

  lemma SeenIsLeft(rs: map<Text, Row>, r: Entry, ids: seq<Text>, p: Payload)
    requires S.Surveys(rs, r.mission, ids) && p in S.Seen(rs, ids, S.Outdates(r))
    ensures LeftOk(rs, r, p)
  {
    S.SeenApart(rs, r.mission, ids, S.Outdates(r));
    S.SeenNames(rs, r.mission, ids, S.Outdates(r), Get(p, MemoryId).t);
    var id := Get(p, MemoryId).t;
    assert S.ReadFrom(rs, p) && ListedAt(rs, Lit(MemoryRow), r.mission, id) && Sound(id, rs[id]);
  }

  lemma WrittenItemOk(job: S.Job, latest: Value)
    requires Typed(job.r) && job.gen.memory != EMPTY && job.gen.created.Stamp? && OptionalText(latest)
    ensures ItemOk(job, WrittenItem(job.r, job.gen, latest)) && WrittenItem(job.r, job.gen, latest).rtype == Lit(MemoryRow)
  {
    NewMemoryFacts(job.r, job.gen, CommittedStatus, Truthy(job.r.evidence), latest, [], MemoryRow);
  }

  lemma LatestIsText(rs: map<Text, Row>, r: Entry, left: seq<Payload>)
    requires forall p :: p in left ==> LeftOk(rs, r, p)
    ensures OptionalText(S.LatestOf(left))
  {
    if left != [] { assert left[|left| - 1] in left; }
  }

  lemma WritePlanOk(rs: map<Text, Row>, job: S.Job, ids: seq<Text>)
    requires S.Surveys(rs, job.r.mission, ids) && CallOk(rs, S.Call(job, S.Looking))
    ensures CallOk(rs, S.Call(job, S.WritePlan(job, S.Seen(rs, ids, S.Outdates(job.r)))))
  {
    var left := S.Seen(rs, ids, S.Outdates(job.r));
    forall p | p in left ensures LeftOk(rs, job.r, p) {
      SeenIsLeft(rs, job.r, ids, p);
    }
    LatestIsText(rs, job.r, left);
    WrittenItemOk(job, S.LatestOf(left));
    var plan := S.WritePlan(job, left);
    assert plan.left == left && RestOk(plan.rest);
  }

  lemma CandidateOk(rs: map<Text, Row>, job: S.Job, auto: bool, conflicts: seq<Value>)
    requires Typed(job.r) && job.gen.memory != EMPTY && job.gen.created.Stamp?
    ensures ItemOk(job, Candidate(rs, job.r, job.gen, auto, conflicts))
  {
    var r, gen, ids := job.r, job.gen, Outdated(rs, job.r.mission, job.r.key, job.r.content);
    NewMemoryFacts(r, gen, StatusFor(r, auto, ids), MemoryRules.Commits(r, auto, ids), Null, conflicts,
                   if MemoryRules.Commits(r, auto, ids) then MemoryRow else CandidateRow);
  }

  lemma ProposalPlanOk(rs: map<Text, Row>, job: S.Job, conflicts: seq<Value>)
    requires CallOk(rs, S.Call(job, S.LookingAgain))
    ensures CallOk(rs, S.Call(job, S.ProposalPlan(rs, job, conflicts)))
  {
    CandidateOk(rs, job, S.Auto(job.kind), conflicts);
  }

  lemma ReadingStepOk(db: Tables, c: S.Call, ids: seq<Text>, found: Option<Text>)
    requires RowsSound(db.records) && CallOk(db.records, c) && (c.stage.Searching? || c.stage.Looking? || c.stage.LookingAgain?)
    requires c.stage.Looking? || c.stage.LookingAgain? ==> Listing(db.records, Lit(MemoryRow), c.job.r.mission, ids)
    ensures CallOk(db.records, S.Next(db, c, ids, found)) && GoesOn(c, S.Next(db, c, ids, found))
  {
    if c.stage.Looking? && c.job.kind.Writes? {
      WritePlanOk(db.records, c.job, ids);
    } else if c.stage.LookingAgain? {
      ProposalPlanOk(db.records, c.job, IdsOf(S.Seen(db.records, ids, S.Outdates(c.job.r))));
    }
  }

  // ---- every turn ---------------------------------------------------------------------------------

  lemma CallsFollow(rs: map<Text, Row>, rs': map<Text, Row>, calls: seq<S.Call>, k: nat, c': S.Call)
    requires CallsOk(rs, calls) && k < |calls| && CallOk(rs', c') && c'.job.gen == calls[k].job.gen && Persist(rs, rs')
    requires forall id :: IsMemory(rs', id) ==> IsMemory(rs, id) || id == c'.job.gen.memory
    ensures CallsOk(rs', calls[k := c'])
  {
    var calls' := calls[k := c'];
    forall l | 0 <= l < |calls'| ensures CallOk(rs', calls'[l]) {
      if l != k {
        assert calls[l].job.gen.memory != calls[k].job.gen.memory;
        CallKept(rs, rs', calls[l]);
      }
    }
  }

  lemma SamePersist(rs: map<Text, Row>, rs': map<Text, Row>)
    requires SameRecords(rs, rs')
    ensures Persist(rs, rs') && forall id :: IsMemory(rs', id) ==> IsMemory(rs, id)
  {
  }

  /** A step that touches no memory record. */
  lemma QuietStepOk(s: State, k: nat, c': S.Call, db': Tables)
    requires StateOk(s) && k < |s.calls| && SameRecords(s.db.records, db'.records)
    requires CallOk(s.db.records, c') && GoesOn(s.calls[k], c')
    ensures StateOk(State(db', s.order, s.calls[k := c']))
  {
    SameRecordsSound(s.db.records, db'.records);
    SameRecordsChained(s.db.records, db'.records, s.order, s.calls, s.calls[k := c']);
    SamePersist(s.db.records, db'.records);
    CallKept(s.db.records, db'.records, c');
    CallsFollow(s.db.records, db'.records, s.calls, k, c');
  }

  lemma FinishingStepOk(s: State, k: nat, ids: seq<Text>, found: Option<Text>)
    requires StateOk(s) && k < |s.calls| && s.calls[k].stage.Finishing? && SavesNew(s.db, s.calls[k])
    ensures SameRecords(s.db.records, S.Written(s.db, s.calls[k]).records)
    ensures CallOk(s.db.records, S.Next(s.db, s.calls[k], ids, found))
  {
    assert CallOk(s.db.records, s.calls[k]);
  }

  lemma NextLeft(rs: map<Text, Row>, c: S.Call)
    requires RowsSound(rs) && CallOk(rs, c) && c.stage.Writing? && c.stage.left != []
    ensures var p := c.stage.left[0];
      LeftOk(rs, c.job.r, p) && Sound(Get(p, MemoryId).t, rs[Get(p, MemoryId).t])
      && Get(rs[Get(p, MemoryId).t].body.p, MemoryKey) == Str(c.job.r.key)
    ensures c.stage.it.id == c.job.gen.memory && c.stage.it.rtype == Lit(MemoryRow)
    ensures CallOk(rs, c.(stage := c.stage.(left := c.stage.left[1..])))
  {
    var p := c.stage.left[0];
    assert p in c.stage.left && LeftOk(rs, c.job.r, p);
    assert forall q :: q in c.stage.left[1..] ==> q in c.stage.left;
  }

  lemma RetireStepOk(s: State, k: nat, c': S.Call, db': Tables)
    requires StateOk(s) && k < |s.calls| && s.calls[k].stage.Writing? && s.calls[k].stage.left != []
    requires db' == S.Written(s.db, s.calls[k]) && c' == s.calls[k].(stage := s.calls[k].stage.(left := s.calls[k].stage.left[1..]))
    ensures StateOk(State(db', s.order, s.calls[k := c']))
  {
    var rs, c := s.db.records, s.calls[k];
    assert CallOk(rs, c);
    NextLeft(rs, c);
    var p := c.stage.left[0];
    RetireStep(s.db, c.job.r, p, c.job.gen.memory);
    RetireInState(s, k, c', Get(p, MemoryId).t, db'.records);
  }

  lemma RetireInState(s: State, k: nat, c': S.Call, x: Text, rs': map<Text, Row>)
    requires StateOk(s) && k < |s.calls| && IsMemory(s.db.records, x) && Sound(x, s.db.records[x])
    requires var c := s.calls[k];
      c.stage.Writing? && c.stage.it.rtype == Lit(MemoryRow) && Get(s.db.records[x].body.p, MemoryKey) == Str(c.job.r.key)
      && (c.job.r.mission == s.db.records[x].mission || !Truthy(c.job.r.mission))
    requires rs' == s.db.records[x := RetiredRow(s.db.records, x, s.calls[k].stage.it.id)]
    requires CallOk(s.db.records, c') && GoesOn(s.calls[k], c')
    ensures RowsSound(rs') && Chained(rs', s.order, s.calls[k := c']) && CallsOk(rs', s.calls[k := c'])
  {
    RetireSound(s.db.records, x, s.calls[k].stage.it.id);
    RetireChained(s.db.records, s.order, s.calls, s.calls[k := c'], k, x);
    RetirePersists(s.db.records, x, s.calls[k].stage.it.id);
    RetireCalls(s.db.records, s.calls, k, c', x, rs');
  }

  lemma RetireCalls(rs: map<Text, Row>, calls: seq<S.Call>, k: nat, c': S.Call, x: Text, rs': map<Text, Row>)
    requires CallsOk(rs, calls) && k < |calls| && IsMemory(rs, x) && Persist(rs, rs') && x in rs' && rs' == rs[x := rs'[x]]
    requires CallOk(rs, c') && c'.job.gen == calls[k].job.gen
    ensures CallsOk(rs', calls[k := c'])
  {
    CallKept(rs, rs', c');
    CallsFollow(rs, rs', calls, k, c');
  }

  lemma RetireChained(rs: map<Text, Row>, order: seq<Text>, calls: seq<S.Call>, calls': seq<S.Call>, k: nat, x: Text)
    requires RowsSound(rs) && Chained(rs, order, calls) && IsMemory(rs, x) && Sound(x, rs[x])
    requires k < |calls| == |calls'| && forall l :: 0 <= l < |calls| ==> GoesOn(calls[l], calls'[l])
    requires var c := calls[k];
      c.stage.Writing? && c.stage.it.rtype == Lit(MemoryRow) && Get(rs[x].body.p, MemoryKey) == Str(c.job.r.key)
      && (c.job.r.mission == rs[x].mission || !Truthy(c.job.r.mission))
    ensures Chained(rs[x := RetiredRow(rs, x, calls[k].stage.it.id)], order, calls')
  {
    var rs' := rs[x := RetiredRow(rs, x, calls[k].stage.it.id)];
    forall i | 0 <= i < |order| ensures Placed(rs', order, calls', i) {
      RetirePlaced(rs, order, calls, calls', k, x, i);
    }
    forall id | IsMemory(rs', id) ensures id in order {
      assert IsMemory(rs, id);
    }
  }

  lemma SaveStepOk(s: State, k: nat, c': S.Call, db': Tables)
    requires StateOk(s) && k < |s.calls| && s.calls[k].stage.Writing? && s.calls[k].stage.left == [] && SavesNew(s.db, s.calls[k])
    requires db' == S.Written(s.db, s.calls[k])
    requires c' == s.calls[k].(stage := S.Finishing(s.calls[k].stage.rest, s.calls[k].stage.answer))
    ensures StateOk(State(db', Saved(s.order, s.calls[k]), s.calls[k := c']))
  {
    var rs, c := s.db.records, s.calls[k];
    assert CallOk(rs, c);
    var row := FirstWrite(c.stage.it);
    assert db'.records == rs[c.stage.it.id := row];
    NewRowSound(rs, c.stage.it.id, row);
    SavePersists(rs, c.stage.it.id, row);
    CallsFollow(rs, db'.records, s.calls, k, c');
    if S.Commits(c) {
      CommitChained(rs, s.order, s.calls, s.calls[k := c'], k, row);
    } else {
      CandidateChained(rs, s.order, s.calls, s.calls[k := c'], k, row);
    }
  }

  lemma CandidateChained(rs: map<Text, Row>, order: seq<Text>, calls: seq<S.Call>, calls': seq<S.Call>, k: nat, row: Row)
    requires Chained(rs, order, calls) && k < |calls| == |calls'| && row.rtype == Lit(CandidateRow)
    requires forall l :: 0 <= l < |calls| && l != k ==> calls'[l] == calls[l]
    requires calls[k].stage.Writing? && calls[k].stage.it.id !in rs && calls[k].stage.it.rtype == Lit(CandidateRow)
    ensures Chained(rs[calls[k].stage.it.id := row], order, calls')
  {
    var rs' := rs[calls[k].stage.it.id := row];
    forall i | 0 <= i < |order| ensures Placed(rs', order, calls', i) {
      CandidatePlaced(rs, order, calls, calls', k, row, i);
    }
    forall id | IsMemory(rs', id) ensures id in order {
      assert IsMemory(rs, id);
    }
  }

  lemma CandidatePlaced(
    rs: map<Text, Row>, order: seq<Text>, calls: seq<S.Call>, calls': seq<S.Call>, k: nat, row: Row, i: nat)
    requires i < |order| && Placed(rs, order, calls, i) && k < |calls| == |calls'| && row.rtype == Lit(CandidateRow)
    requires forall l :: 0 <= l < |calls| && l != k ==> calls'[l] == calls[l]
    requires calls[k].stage.Writing? && calls[k].stage.it.id !in rs && calls[k].stage.it.rtype == Lit(CandidateRow)
    ensures Placed(rs[calls[k].stage.it.id := row], order, calls', i)
  {
    var rs', id := rs[calls[k].stage.it.id := row], order[i];
    if Get(rs[id].body.p, Status) == Literal(SupersededStatus) {
      if SucceededLater(rs, order, i) {
        var j :| i < j < |order| && Succeeds(rs, order[i], order[j]);
        assert Succeeds(rs', order[i], order[j]);
      } else {
        var l :| 0 <= l < |calls| && Awaits(rs, id, calls[l]);
        assert Awaits(rs', id, calls'[l]);
      }
    }
  }

  lemma StepOk(s: State, k: nat, ids: seq<Text>, found: Option<Text>)
    requires StateOk(s) && Permitted(s, Step(k, ids, found))
    ensures StateOk(Take(s, Step(k, ids, found)))
  {
    var c := s.calls[k];
    var c', db' := S.Next(s.db, c, ids, found), S.Written(s.db, c);
    assert CallOk(s.db.records, c);
    match c.stage
    case Writing(left, _, _, _) => if left == [] { SaveStepOk(s, k, c', db'); } else { RetireStepOk(s, k, c', db'); }
    case Finishing(_, _) =>
      FinishingStepOk(s, k, ids, found);
      QuietStepOk(s, k, c', db');
    case _ =>
      ReadingStepOk(s.db, c, ids, found);
      QuietStepOk(s, k, c', db');
  }

  lemma ArriveOk(s: State, job: S.Job)
    requires StateOk(s) && Arrives(s, job)
    ensures StateOk(Take(s, Arrive(job)))
  {
    var calls' := s.calls + [S.Start(job)];
    SameRecordsChained(s.db.records, s.db.records, s.order, s.calls, calls');
    assert CallOk(s.db.records, S.Start(job));
  }

  lemma OtherOk(s: State, op: Op, db': Tables)
    requires StateOk(s) && db' == Apply(s.db, op) && Leaves(s.db.records, db'.records)
    ensures StateOk(State(db', s.order, s.calls))
  {
    assert SameRecords(s.db.records, db'.records);
    SameRecordsSound(s.db.records, db'.records);
    SameRecordsChained(s.db.records, db'.records, s.order, s.calls, s.calls);
    SamePersist(s.db.records, db'.records);
    forall l | 0 <= l < |s.calls| ensures CallOk(db'.records, s.calls[l]) {
      CallKept(s.db.records, db'.records, s.calls[l]);
    }
  }

  lemma TurnOk(s: State, t: Turn)
    requires StateOk(s) && Permitted(s, t)
    ensures StateOk(Take(s, t))
  {
    match t
    case Arrive(job) => ArriveOk(s, job);
    case Step(i, ids, found) => StepOk(s, i, ids, found);
    case Other(op) => OtherOk(s, op, Apply(s.db, op));
  }

  lemma {:induction false} PlayIsOk(turns: seq<Turn>)
    requires Interleaved(turns)
    ensures StateOk(Play(turns))
  {
    if turns != [] {
      PlayIsOk(turns[..|turns| - 1]);
      TurnOk(Play(turns[..|turns| - 1]), turns[|turns| - 1]);
    }
  }
}
