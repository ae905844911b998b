/** What every run of the memory kernel guarantees. */
module MemoryGuarantees {
  import opened Ledger
  import opened StoreSpec
  import opened MemoryRules
  import opened MemoryRuns

  // ---- one call -----------------------------------------------------------------------------

  lemma NewMemoryParses(
    r: Entry, gen: Fresh, status: Word, blessed: bool, supersedes: Value, conflicts: seq<Value>, p: Payload)
    requires Typed(r) && OptionalText(supersedes) && p == NewMemory(r, gen, status, blessed, supersedes, conflicts)
    ensures Parses(p)
  {
    forall f ensures (f in p <==> IsField(f)) && (f in p ==> WellTyped(f, p[f])) {
    }
  }

  lemma NewMemoryAt(
    f: Field, r: Entry, gen: Fresh, status: Word, blessed: bool, supersedes: Value, conflicts: seq<Value>)
    requires IsField(f)
    ensures Get(NewMemory(r, gen, status, blessed, supersedes, conflicts), f)
      == MemoryField(f, r, gen, status, blessed, supersedes, conflicts)
  {
  }

  lemma NewMemoryStands(
    r: Entry, gen: Fresh, status: Word, blessed: bool, supersedes: Value, conflicts: seq<Value>, p: Payload)
    requires p == NewMemory(r, gen, status, blessed, supersedes, conflicts)
    ensures Get(p, Status) == Literal(status) && Get(p, MissionId) == r.mission
      && Get(p, MemoryId) == Str(gen.memory) && Get(p, CreatedAt) == Str(gen.created)
  {
    NewMemoryAt(Status, r, gen, status, blessed, supersedes, conflicts);
    NewMemoryAt(MissionId, r, gen, status, blessed, supersedes, conflicts);
    NewMemoryAt(MemoryId, r, gen, status, blessed, supersedes, conflicts);
    NewMemoryAt(CreatedAt, r, gen, status, blessed, supersedes, conflicts);
  }

  lemma NewMemoryNames(
    r: Entry, gen: Fresh, status: Word, blessed: bool, supersedes: Value, conflicts: seq<Value>, p: Payload)
    requires p == NewMemory(r, gen, status, blessed, supersedes, conflicts)
    ensures Get(p, Kind) == Str(r.kind) && Get(p, MemoryKey) == Str(r.key) && Get(p, Content) == Str(r.content)
  {
    NewMemoryAt(Kind, r, gen, status, blessed, supersedes, conflicts);
    NewMemoryAt(MemoryKey, r, gen, status, blessed, supersedes, conflicts);
    NewMemoryAt(Content, r, gen, status, blessed, supersedes, conflicts);
  }

  lemma NewMemoryRests(
    r: Entry, gen: Fresh, status: Word, blessed: bool, supersedes: Value, conflicts: seq<Value>, p: Payload)
    requires p == NewMemory(r, gen, status, blessed, supersedes, conflicts)
    ensures Get(p, SourceEvidenceId) == r.evidence && Get(p, Confidence) == Num(r.confidence) && Get(p, ReceiptId) == r.receipt
  {
    NewMemoryAt(SourceEvidenceId, r, gen, status, blessed, supersedes, conflicts);
    NewMemoryAt(Confidence, r, gen, status, blessed, supersedes, conflicts);
    NewMemoryAt(ReceiptId, r, gen, status, blessed, supersedes, conflicts);
  }

  lemma NewMemorySays(
    r: Entry, gen: Fresh, status: Word, blessed: bool, supersedes: Value, conflicts: seq<Value>, p: Payload)
    requires Typed(r) && OptionalText(supersedes) && p == NewMemory(r, gen, status, blessed, supersedes, conflicts)
    ensures Parses(p) && Get(p, Status) == Literal(status) && Get(p, MissionId) == r.mission
      && Get(p, MemoryId) == Str(gen.memory) && Get(p, CreatedAt) == Str(gen.created) && SameRequest(p, r)
  {
    NewMemoryParses(r, gen, status, blessed, supersedes, conflicts, p);
    NewMemoryStands(r, gen, status, blessed, supersedes, conflicts, p);
    NewMemoryNames(r, gen, status, blessed, supersedes, conflicts, p);
    NewMemoryRests(r, gen, status, blessed, supersedes, conflicts, p);
  }

  lemma NewMemoryFacts(
    r: Entry, gen: Fresh, status: Word, blessed: bool, supersedes: Value, conflicts: seq<Value>, rtype: Word)
    requires Typed(r) && OptionalText(supersedes) && gen.created.Stamp? && gen.memory != EMPTY
    ensures var p := NewMemory(r, gen, status, blessed, supersedes, conflicts);
      Sound(gen.memory, FirstWrite(MemoryItem(rtype, r, gen, p))) && Get(p, Status) == Literal(status) && SameRequest(p, r)
  {
    NewMemorySays(r, gen, status, blessed, supersedes, conflicts, NewMemory(r, gen, status, blessed, supersedes, conflicts));
    FiledIsSound(NewMemory(r, gen, status, blessed, supersedes, conflicts), r, gen, rtype);
  }

  lemma FiledIsSound(p: Payload, r: Entry, gen: Fresh, rtype: Word)
    requires Typed(r) && gen.created.Stamp? && gen.memory != EMPTY && Parses(p)
    requires Get(p, MissionId) == r.mission && Get(p, MemoryId) == Str(gen.memory) && Get(p, CreatedAt) == Str(gen.created)
    ensures Sound(gen.memory, FirstWrite(MemoryItem(rtype, r, gen, p)))
  {
  }

  /** Filing a mapping for a record that is there, of the same mission. */
  lemma MappingIsGood(
    db: Tables, order: seq<Text>, idem: Value, mission: Value, memory: Text, gen: Fresh, created: Text, db': Tables)
    requires RecordsOk(db.records, order) && gen.mapping !in db.records && OptionalText(mission) && memory != EMPTY
    requires memory in db.records && (IsMemory(db.records, memory) || db.records[memory].rtype == Lit(CandidateRow))
    requires mission != Str(EMPTY) ==> db.records[memory].mission == mission
    requires created.Stamp? && db' == SaveMapping(db, idem, mission, memory, gen, created)
    ensures RecordsOk(db'.records, order) && db'.events == db.events && db'.records.Keys <= db.records.Keys + {gen.mapping}
    ensures forall id :: id in db.records ==> id in db'.records && db'.records[id] == db.records[id]
  {
    if Truthy(idem) {
      var it := MappingItem(idem, mission, memory, gen, created);
      assert Get(it.payload, MemoryId) == Str(memory);
      OtherRowIsGood(db.records, order, gen.mapping, FirstWrite(it));
    }
  }

  lemma EventIsGood(db: Tables, ev: Event)
    requires UniqueKeys(db.events)
    ensures UniqueKeys(SaveEvent(db, ev).events) && SaveEvent(db, ev).records == db.records
  {
    ApplyGrows(db, DoSaveEvent(ev));
  }

  lemma CommittingIsGood(s: Sys, r: Entry, gen: Fresh, latest: Value)
    requires Inv(s) && IsFresh(s.db, gen) && Typed(r) && OptionalText(latest)
    ensures Inv(Sys(Committing(s.db, r, gen, latest), s.order + [gen.memory]))
    ensures IsMemory(Committing(s.db, r, gen, latest).records, gen.memory)
  {
    var it := WrittenItem(r, gen, latest);
    NewMemoryFacts(r, gen, CommittedStatus, Truthy(r.evidence), latest, [], MemoryRow);
    var rs, order := s.db.records, s.order + [gen.memory];
    var after := Superseded(rs, gen.memory, FirstWrite(it), r.key, r.content);
    SupersededIsGood(rs, gen.memory, FirstWrite(it), r.key, r.content, after, s.order);
    var saved := s.db.(records := after);
    var mapped := SaveMapping(saved, r.idem, r.mission, gen.memory, gen, gen.created);
    MappingIsGood(saved, order, r.idem, r.mission, gen.memory, gen, gen.created, mapped);
    EventIsGood(mapped, WrittenEvent(r, gen));
    SavedAsSuperseded(s.db, r, gen, latest);
  }

  lemma SavedAsSuperseded(db: Tables, r: Entry, gen: Fresh, latest: Value)
    requires gen.memory !in db.records
    ensures var retired := db.(records := RetireAll(db.records, Outdated(db.records, r.mission, r.key, r.content), gen.memory));
      SaveRecord(retired, WrittenItem(r, gen, latest))
        == db.(records := Superseded(db.records, gen.memory, FirstWrite(WrittenItem(r, gen, latest)), r.key, r.content))
  {
  }

  lemma NothingToRetire(rs: map<Text, Row>, successor: Text)
    ensures RetireAll(rs, {}, successor) == rs
  {
  }

  lemma CandidateIsGood(s: Sys, r: Entry, gen: Fresh, auto: bool, conflicts: seq<Value>, db': Tables)
    requires Inv(s) && IsFresh(s.db, gen) && Typed(r)
    requires db' == SaveRecord(s.db, Candidate(s.db.records, r, gen, auto, conflicts))
    ensures RecordsOk(db'.records, if IsMemory(db'.records, gen.memory) then s.order + [gen.memory] else s.order)
    ensures gen.memory in db'.records && db'.records[gen.memory].mission == r.mission
    ensures IsMemory(db'.records, gen.memory) || db'.records[gen.memory].rtype == Lit(CandidateRow)
    ensures db'.records.Keys == s.db.records.Keys + {gen.memory}
  {
    var ids := Outdated(s.db.records, r.mission, r.key, r.content);
    var it := Candidate(s.db.records, r, gen, auto, conflicts);
    NewMemoryFacts(r, gen, StatusFor(r, auto, ids), Commits(r, auto, ids), Null, conflicts,
                   if Commits(r, auto, ids) then MemoryRow else CandidateRow);
    if Commits(r, auto, ids) {
      NothingToRetire(s.db.records, gen.memory);
      SupersededIsGood(s.db.records, gen.memory, FirstWrite(it), r.key, r.content, db'.records, s.order);
    } else {
      OtherRowIsGood(s.db.records, s.order, gen.memory, FirstWrite(it));
    }
  }

  lemma FilingIsGood(s: Sys, r: Entry, gen: Fresh, auto: bool, conflicts: seq<Value>, db': Tables)
    requires Inv(s) && IsFresh(s.db, gen) && Typed(r) && db' == Filing(s.db, r, gen, auto, conflicts)
    ensures Inv(Sys(db', if IsMemory(db'.records, gen.memory) then s.order + [gen.memory] else s.order))
    ensures gen.memory in db'.records && db'.records[gen.memory].mission == r.mission
    ensures IsMemory(db'.records, gen.memory) || db'.records[gen.memory].rtype == Lit(CandidateRow)
    ensures !Truthy(r.idem) ==> gen.mapping !in db'.records
  {
    var filed := SaveRecord(s.db, Candidate(s.db.records, r, gen, auto, conflicts));
    CandidateIsGood(s, r, gen, auto, conflicts, filed);
    var order := if IsMemory(filed.records, gen.memory) then s.order + [gen.memory] else s.order;
    var mapped := SaveMapping(filed, r.idem, r.mission, gen.memory, gen, gen.created);
    MappedIsGood(filed, order, r, gen, ProposedEvent(s.db.records, r, gen, auto));
    if Outdated(s.db.records, r.mission, r.key, r.content) != {} {
      ConflictIsGood(SaveEvent(mapped, ProposedEvent(s.db.records, r, gen, auto)), order, r, gen, conflicts);
    }
  }

  lemma MappedIsGood(db: Tables, order: seq<Text>, r: Entry, gen: Fresh, ev: Event)
    requires Inv(Sys(db, order)) && gen.mapping !in db.records && OptionalText(r.mission) && gen.memory != EMPTY
    requires gen.created.Stamp?
    requires gen.memory in db.records && db.records[gen.memory].mission == r.mission
    requires IsMemory(db.records, gen.memory) || db.records[gen.memory].rtype == Lit(CandidateRow)
    ensures var db' := SaveEvent(SaveMapping(db, r.idem, r.mission, gen.memory, gen, gen.created), ev);
      Inv(Sys(db', order)) && db'.records.Keys <= db.records.Keys + {gen.mapping}
      && (forall id :: id in db.records ==> id in db'.records && db'.records[id] == db.records[id])
      && (!Truthy(r.idem) ==> db'.records == db.records)
  {
    var mapped := SaveMapping(db, r.idem, r.mission, gen.memory, gen, gen.created);
    MappingIsGood(db, order, r.idem, r.mission, gen.memory, gen, gen.created, mapped);
    EventIsGood(mapped, ev);
  }

  lemma ConflictIsGood(db: Tables, order: seq<Text>, r: Entry, gen: Fresh, conflicts: seq<Value>)
    requires Inv(Sys(db, order)) && gen.conflict !in db.records
    ensures var db' := SaveEvent(SaveRecord(db, ConflictItem(r, gen, conflicts)), ConflictEvent(r, gen, conflicts));
      Inv(Sys(db', order)) && db'.records == db.records[gen.conflict := FirstWrite(ConflictItem(r, gen, conflicts))]
  {
    OtherRowIsGood(db.records, order, gen.conflict, FirstWrite(ConflictItem(r, gen, conflicts)));
    EventIsGood(SaveRecord(db, ConflictItem(r, gen, conflicts)), ConflictEvent(r, gen, conflicts));
  }

  lemma ProposingIsGood(s: Sys, r: Entry, gen: Fresh, auto: bool, choice: Choice)
    requires Inv(s) && IsFresh(s.db, gen) && Typed(r) && MayPick(s.db.records, r, choice.duplicate)
    ensures var made := ProposeNew(s.db, r, gen, auto, choice);
      Inv(Sys(made.db, if IsMemory(made.db.records, gen.memory) then s.order + [gen.memory] else s.order))
      && (made.outcome.Returned? ==> Answered(made.db.records, r, gen, made.outcome.p))
      && (made.outcome.Raised? ==> made.db == s.db) && (!Truthy(r.idem) ==> gen.mapping !in made.db.records)
  {
    if choice.duplicate.Some? {
      assert Duplicate(s.db.records, r, choice.duplicate.value);
      assert Sound(choice.duplicate.value, s.db.records[choice.duplicate.value]);
    } else if !Blank(r.key) && !Blank(r.content) && 0.0 <= r.confidence <= 1.0 {
      FilingIsGood(s, r, gen, auto, choice.conflicts, Filing(s.db, r, gen, auto, choice.conflicts));
      CandidateNames(s.db.records, r, gen, auto, choice.conflicts);
    }
  }

  lemma CandidateNames(rs: map<Text, Row>, r: Entry, gen: Fresh, auto: bool, conflicts: seq<Value>)
    ensures Get(Candidate(rs, r, gen, auto, conflicts).payload, MemoryId) == Str(gen.memory)
    ensures Get(Candidate(rs, r, gen, auto, conflicts).payload, CreatedAt) == Str(gen.created)
  {
  }

  /** What a returned record says: it is stored, and of the caller's mission unless that is none. */
  ghost predicate Answered(rs: map<Text, Row>, r: Entry, gen: Fresh, p: Payload) {
    Get(p, MemoryId).Str? && Get(p, MemoryId) != Str(EMPTY) && Show(Get(p, CreatedAt)).Stamp?
    && (var id := Get(p, MemoryId).t;
        id in rs && (IsMemory(rs, id) || rs[id].rtype == Lit(CandidateRow)) && (Truthy(r.mission) ==> rs[id].mission == r.mission))
  }

  lemma PatchingIsGood(s: Sys, r: Entry, idem: Value, gen: Fresh, choice: Choice)
    requires Inv(s) && IsFresh(s.db, gen) && Typed(r) && r.mission.Str? && MayPick(s.db.records, r, choice.duplicate)
    requires !Truthy(r.idem)
    ensures var made := PatchNew(s.db, r, idem, gen, choice);
      Inv(Sys(made.db, if IsMemory(made.db.records, gen.memory) then s.order + [gen.memory] else s.order))
  {
    ProposingIsGood(s, r, gen, true, choice);
    var made := ProposeNew(s.db, r, gen, true, choice);
    var order := if IsMemory(made.db.records, gen.memory) then s.order + [gen.memory] else s.order;
    if made.outcome.Returned? {
      var p := made.outcome.p;
      var id := Show(Get(p, MemoryId));
      MappingIsGood(made.db, order, idem, r.mission, id, gen, Show(Get(p, CreatedAt)),
                    SaveMapping(made.db, idem, r.mission, id, gen, Show(Get(p, CreatedAt))));
    }
  }

  lemma WritingIsGood(s: Sys, r: Entry, gen: Fresh, choice: Choice)
    requires Inv(s) && IsFresh(s.db, gen) && Typed(r) && OptionalText(choice.latest) && MayPick(s.db.records, r, choice.duplicate)
    ensures var db' := Write(s.db, r, gen, choice).db;
      Inv(Sys(db', if IsMemory(db'.records, gen.memory) then s.order + [gen.memory] else s.order))
  {
    if r.kind == Lit(UnverifiedInference) {
      ProposingIsGood(s, r, gen, false, choice);
    } else {
      CommittingIsGood(s, r, gen, choice.latest);
    }
  }

  // ---- every run ------------------------------------------------------------------------------

  lemma OthersAreGood(s: Sys, op: Op, db': Tables)
    requires Inv(s) && db' == Apply(s.db, op) && Leaves(s.db.records, db'.records)
    ensures Inv(Sys(db', s.order))
  {
    ApplyGrows(s.db, op);
    LeftIsGood(s.db.records, s.order, db'.records);
  }

  lemma WriteMove(s: Sys, m: Move, db': Tables)
    requires Inv(s) && Allowed(s.db, m) && m.Wrote? && db' == Write(s.db, m.r, m.gen, m.choice).db
    ensures Inv(Sys(db', if IsMemory(db'.records, m.gen.memory) then s.order + [m.gen.memory] else s.order))
  {
    WritingIsGood(s, m.r, m.gen, m.choice);
  }

  lemma ProposeMove(s: Sys, m: Move, db': Tables)
    requires Inv(s) && Allowed(s.db, m) && m.Proposed? && db' == Propose(s.db, m.r, m.gen, m.auto, m.choice).db
    ensures Inv(Sys(db', if IsMemory(db'.records, m.gen.memory) then s.order + [m.gen.memory] else s.order))
  {
    ProposingIsGood(s, m.r, m.gen, m.auto, m.choice);
  }

  lemma PatchMove(s: Sys, m: Move, db': Tables)
    requires Inv(s) && Allowed(s.db, m) && m.Patched? && db' == Patch(s.db, m.r, m.idem, m.gen, m.choice).db
    ensures Inv(Sys(db', if IsMemory(db'.records, m.gen.memory) then s.order + [m.gen.memory] else s.order))
  {
    PatchingIsGood(s, m.r, m.idem, m.gen, m.choice);
  }

  lemma MoveKeepsInv(s: Sys, m: Move)
    requires Inv(s) && Allowed(s.db, m)
    ensures Inv(Do(s, m))
  {
    match m
    case Wrote(_, _, _) => WriteMove(s, m, Do(s, m).db);
    case Proposed(_, _, _, _) => ProposeMove(s, m, Do(s, m).db);
    case Patched(_, _, _, _) => PatchMove(s, m, Do(s, m).db);
    case Foreign(op) => OthersAreGood(s, op, Do(s, m).db);
  }

  lemma {:induction false} RunKeepsInv(moves: seq<Move>)
    requires EngineRun(moves)
    ensures Inv(Run(moves))
  {
    if moves != [] {
      RunKeepsInv(moves[..|moves| - 1]);
      MoveKeepsInv(Run(moves[..|moves| - 1]), moves[|moves| - 1]);
    }
  }

  // ---- theorems: supersession -------------------------------------------------------------------

  /** Two committed records of one mission (or of none) under one key have the same content. */
  lemma {:induction false} OneContentPerKey(moves: seq<Move>, a: Text, b: Text, key: Text)
    requires EngineRun(moves)
    requires HoldsAt(Run(moves).db.records, Null, key, a) && HoldsAt(Run(moves).db.records, Null, key, b)
    requires Run(moves).db.records[a].mission == Run(moves).db.records[b].mission
    ensures Get(Run(moves).db.records[a].body.p, Content) == Get(Run(moves).db.records[b].body.p, Content)
  {
    RunKeepsInv(moves);
  }

  /** Follows `superseded_by`, at most `steps` times, to a record that is not superseded. */
  function Follow(rs: map<Text, Row>, id: Text, steps: nat): Option<Text>
    decreases steps
  {
    if !IsMemory(rs, id) || !rs[id].body.Obj? then None
    else if Get(rs[id].body.p, Status) != Literal(SupersededStatus) then Some(id)
    else if steps == 0 then None
    else Follow(rs, Show(Get(rs[id].body.p, SupersededBy)), steps - 1)
  }

  /** A committed record of the same key, of the same mission or of none. */
  predicate Heir(rs: map<Text, Row>, id: Text, last: Text) {
    IsMemory(rs, id) && IsMemory(rs, last) && rs[id].body.Obj? && rs[last].body.Obj?
    && Get(rs[last].body.p, Status) == Literal(CommittedStatus)
    && Get(rs[last].body.p, MemoryKey) == Get(rs[id].body.p, MemoryKey)
    && (rs[last].mission == rs[id].mission || !Truthy(rs[last].mission))
  }

  lemma {:induction false} FollowEnds(rs: map<Text, Row>, order: seq<Text>, i: nat, steps: nat)
    requires Ordered(rs, order) && i < |order| && steps >= |order| - 1 - i
    ensures Follow(rs, order[i], steps).Some? && Heir(rs, order[i], Follow(rs, order[i], steps).value)
    decreases |order| - i
  {
    assert Standing(rs, order, i);
    if Get(rs[order[i]].body.p, Status) == Literal(SupersededStatus) {
      var j :| i < j < |order| && Succeeds(rs, order[i], order[j]);
      FollowEnds(rs, order, j, steps - 1);
    }
  }

  lemma {:induction false} DistinctFit(order: seq<Text>, ids: set<Text>)
    requires forall i, j :: 0 <= i < j < |order| ==> order[i] != order[j]
    requires forall i :: 0 <= i < |order| ==> order[i] in ids
    ensures |order| <= |ids|
  {
    if order != [] {
      var last := order[|order| - 1];
      DistinctFit(order[..|order| - 1], ids - {last});
    }
  }

  /** From any memory record, following `superseded_by` no more often than there are rows ends at
      a committed record with the same key. */
  lemma {:induction false} SupersessionEndsCommitted(moves: seq<Move>, id: Text)
    requires EngineRun(moves) && IsMemory(Run(moves).db.records, id)
    ensures var rs := Run(moves).db.records;
      Follow(rs, id, |rs|).Some? && Heir(rs, id, Follow(rs, id, |rs|).value)
  {
    RunKeepsInv(moves);
    var rs, order := Run(moves).db.records, Run(moves).order;
    var i :| 0 <= i < |order| && order[i] == id;
    forall k | 0 <= k < |order| ensures order[k] in rs.Keys { assert Standing(rs, order, k); }
    DistinctFit(order, rs.Keys);
    assert |rs.Keys| == |rs|;
    FollowEnds(rs, order, i, |rs|);
  }
}
