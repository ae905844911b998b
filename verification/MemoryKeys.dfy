/** The mappings of idempotency keys to memory records: which of them serve a mission, and which one
    the search hands back. */
module MemoryKeys {
  import opened Ledger
  import opened StoreSpec
  import opened MemoryRules
  import opened MemoryRuns
  import opened MemoryGuarantees

  // ---- serving ------------------------------------------------------------------------------

  predicate IsMapping(rs: map<Text, Row>, id: Text) {
    id in rs && rs[id].rtype == Lit(MemoryMapping) && rs[id].body.Obj?
  }

  function NameAt(rs: map<Text, Row>, id: Text): Value
    requires IsMapping(rs, id)
  {
    Get(rs[id].body.p, MemoryId)
  }

  predicate SameKey(rs: map<Text, Row>, a: Text, b: Text) {
    IsMapping(rs, a) && IsMapping(rs, b) && Get(rs[a].body.p, IdempotencyKey) == Get(rs[b].body.p, IdempotencyKey)
  }

  /** The mapping and the record it names are both the mission's. */
  predicate Serves(rs: map<Text, Row>, id: Text, mission: Value) {
    IsMapping(rs, id) && rs[id].mission == mission
    && Show(NameAt(rs, id)) in rs && rs[Show(NameAt(rs, id))].mission == mission
  }

  /** A call finds its record through the mapping handed back exactly when that mapping serves its mission. */
  lemma BoundExactlyWhen(rs: map<Text, Row>, order: seq<Text>, idem: Value, found: Option<Text>, mission: Value)
    requires RecordsOk(rs, order) && MayFind(rs, idem, found)
    ensures Bound(rs, found, mission).Some? <==> found.Some? && Serves(rs, found.value, mission)
    ensures Bound(rs, found, mission).Some? ==>
      Bound(rs, found, mission).value.id == Show(NameAt(rs, found.value))
      && Sound(Bound(rs, found, mission).value.id, rs[Bound(rs, found, mission).value.id])
      && Bound(rs, found, mission).value.payload == rs[Bound(rs, found, mission).value.id].body.p
  {
    if found.Some? {
      assert MappingOk(rs, found.value);
      var memory := Get(rs[found.value].body.p, MemoryId).t;
      assert Sound(memory, rs[memory]);
    }
  }

  lemma MappingsAreFound(rs: map<Text, Row>, idem: Value, id: Text)
    requires MappingsOk(rs)
    ensures RawMapping(rs, idem, id) <==> Finds(rs, Lit(MemoryMapping), IdempotencyKey, idem, id)
  {
    if RawMapping(rs, idem, id) { assert MappingOk(rs, id); }
  }

  // ---- what holds of the mappings in every run -------------------------------------------------

  /** Mappings of one key name different records. */
  ghost predicate Apart(rs: map<Text, Row>) {
    forall a, b :: SameKey(rs, a, b) && a != b ==> NameAt(rs, a) != NameAt(rs, b)
  }

  /** A mapping of the key that does not serve the mission is at least as old as one of the two. */
  ghost predicate Screens(rs: map<Text, Row>, a: Text, b: Text, mission: Value, x: Text) {
    SameKey(rs, x, a) && !Serves(rs, x, mission) && (NotAfter(rs, x, a) || NotAfter(rs, x, b))
  }

  ghost predicate Screened(rs: map<Text, Row>, a: Text, b: Text, mission: Value) {
    exists x :: Screens(rs, a, b, mission, x)
  }

  /** Only where another mission used the key before can a mission have two mappings of it. */
  ghost predicate AllScreened(rs: map<Text, Row>) {
    forall a, b, mission :: SameKey(rs, a, b) && a != b && Serves(rs, a, mission) && Serves(rs, b, mission)
      ==> Screened(rs, a, b, mission)
  }

  ghost predicate KeysOk(rs: map<Text, Row>) {
    Apart(rs) && AllScreened(rs)
  }

  /** The mappings, and the missions of the records they name, are as they were. */
  ghost predicate SameMappings(rs: map<Text, Row>, rs': map<Text, Row>) {
    (forall id :: IsMapping(rs', id) ==> IsMapping(rs, id))
    && (forall id :: id in rs && rs[id].rtype == Lit(MemoryMapping) ==> id in rs' && rs'[id] == rs[id])
    && (forall id :: id in rs && Ours(rs[id]) ==> id in rs' && rs'[id].rtype == rs[id].rtype && rs'[id].mission == rs[id].mission)
  }

  lemma ServesStill(rs: map<Text, Row>, rs': map<Text, Row>, id: Text, mission: Value)
    requires MappingsOk(rs) && IsMapping(rs, id) && id in rs' && rs'[id] == rs[id]
    requires forall x :: x in rs && Ours(rs[x]) ==> x in rs' && rs'[x].mission == rs[x].mission
    ensures Serves(rs', id, mission) <==> Serves(rs, id, mission)
  {
    assert MappingOk(rs, id);
  }

  lemma ScreenedStill(rs: map<Text, Row>, rs': map<Text, Row>, a: Text, b: Text, mission: Value)
    requires MappingsOk(rs) && SameKey(rs, a, b) && Screened(rs, a, b, mission)
    requires forall id :: id in rs && rs[id].rtype == Lit(MemoryMapping) ==> id in rs' && rs'[id] == rs[id]
    requires forall x :: x in rs && Ours(rs[x]) ==> x in rs' && rs'[x].mission == rs[x].mission
    ensures Screened(rs', a, b, mission)
  {
    var x :| Screens(rs, a, b, mission, x);
    ServesStill(rs, rs', x, mission);
    assert Screens(rs', a, b, mission, x);
  }

  lemma SameMappingsAreGood(rs: map<Text, Row>, rs': map<Text, Row>)
    requires MappingsOk(rs) && KeysOk(rs) && SameMappings(rs, rs')
    ensures KeysOk(rs')
  {
    forall a, b, mission | SameKey(rs', a, b) && a != b && Serves(rs', a, mission) && Serves(rs', b, mission)
      ensures Screened(rs', a, b, mission)
    {
      ServesStill(rs, rs', a, mission);
      ServesStill(rs, rs', b, mission);
      assert SameKey(rs, a, b);
      ScreenedStill(rs, rs', a, b, mission);
    }
    forall a, b | SameKey(rs', a, b) && a != b ensures NameAt(rs', a) != NameAt(rs', b) {
      assert SameKey(rs, a, b);
    }
  }

  /** The search for the key came first: it found nothing, or an oldest mapping, which serves another mission. */
  ghost predicate Searched(rs: map<Text, Row>, idem: Value, mission: Value, found: Option<Text>) {
    match found
    case None => forall x :: !RawMapping(rs, idem, x)
    case Some(f) =>
      RawMapping(rs, idem, f) && !Serves(rs, f, mission) && forall x :: RawMapping(rs, idem, x) ==> NotAfter(rs, f, x)
  }

  /** A mapping filed after such a search, for a record no mapping of the key names. */
  lemma NewMappingIsGood(rs: map<Text, Row>, n: Text, row: Row, idem: Value, found: Option<Text>, rs': map<Text, Row>)
    requires MappingsOk(rs) && KeysOk(rs) && n !in rs && rs' == rs[n := row]
    requires row.rtype == Lit(MemoryMapping) && row.body.Obj? && Get(row.body.p, IdempotencyKey) == idem
    requires forall x :: RawMapping(rs, idem, x) ==> NameAt(rs, x) != Get(row.body.p, MemoryId)
    requires Searched(rs, idem, row.mission, found)
    ensures KeysOk(rs')
  {
    forall a, b | SameKey(rs', a, b) && a != b ensures NameAt(rs', a) != NameAt(rs', b) {
      if a != n && b != n { assert SameKey(rs, a, b); }
      if a == n { assert RawMapping(rs, idem, b); }
      if b == n { assert RawMapping(rs, idem, a); }
    }
    forall a, b, mission | SameKey(rs', a, b) && a != b && Serves(rs', a, mission) && Serves(rs', b, mission)
      ensures Screened(rs', a, b, mission)
    {
      if a != n && b != n {
        ServesStill(rs, rs', a, mission);
        ServesStill(rs, rs', b, mission);
        assert SameKey(rs, a, b);
        ScreenedStill(rs, rs', a, b, mission);
      } else {
        NewIsScreened(rs, n, row, idem, found, rs', if a == n then b else a);
        var x := found.value;
        assert Screens(rs', a, b, mission, x);
      }
    }
  }

  lemma NewIsScreened(rs: map<Text, Row>, n: Text, row: Row, idem: Value, found: Option<Text>, rs': map<Text, Row>, a: Text)
    requires MappingsOk(rs) && n !in rs && rs' == rs[n := row] && RawMapping(rs, idem, a)
    requires row.rtype == Lit(MemoryMapping) && row.body.Obj? && Get(row.body.p, IdempotencyKey) == idem
    requires Searched(rs, idem, row.mission, found)
    ensures found.Some? && SameKey(rs', found.value, a) && SameKey(rs', found.value, n)
    ensures !Serves(rs', found.value, row.mission) && NotAfter(rs', found.value, a)
  {
    ServesStill(rs, rs', found.value, row.mission);
  }

  // ---- every move --------------------------------------------------------------------------------

  lemma SupersededSameMappings(rs: map<Text, Row>, id: Text, row: Row, key: Text, content: Text, rs': map<Text, Row>)
    requires id !in rs && row.rtype == Lit(MemoryRow) && rs' == Superseded(rs, id, row, key, content)
    ensures SameMappings(rs, rs')
  {
    forall x | x in rs && Ours(rs[x])
      ensures x in rs' && rs'[x].mission == rs[x].mission && rs'[x].rtype == rs[x].rtype
              && (rs[x].rtype == Lit(MemoryMapping) ==> rs'[x] == rs[x])
    {
      SupersededCarries(rs, id, row, key, content, x);
    }
    forall x | IsMapping(rs', x) ensures IsMapping(rs, x) {
      SupersededCarries(rs, id, row, key, content, x);
    }
  }

  lemma OtherRowSameMappings(rs: map<Text, Row>, id: Text, row: Row)
    requires id !in rs && row.rtype != Lit(MemoryMapping)
    ensures SameMappings(rs, rs[id := row])
  {
  }

  lemma SearchedBefore(rs: map<Text, Row>, order: seq<Text>, idem: Value, mission: Value, found: Option<Text>)
    requires RecordsOk(rs, order) && MayFind(rs, idem, found) && Bound(rs, found, mission).None?
    ensures Searched(rs, idem, mission, found)
  {
    BoundExactlyWhen(rs, order, idem, found, mission);
    forall x ensures RawMapping(rs, idem, x) <==> Finds(rs, Lit(MemoryMapping), IdempotencyKey, idem, x) {
      MappingsAreFound(rs, idem, x);
    }
  }

  /** The search is as good as it was once a record has been saved that no mapping names. */
  lemma SearchedStill(rs: map<Text, Row>, rs': map<Text, Row>, idem: Value, mission: Value, found: Option<Text>)
    requires MappingsOk(rs) && SameMappings(rs, rs') && Searched(rs, idem, mission, found)
    ensures Searched(rs', idem, mission, found)
  {
    forall x | RawMapping(rs', idem, x) ensures RawMapping(rs, idem, x) {
      assert IsMapping(rs', x);
    }
    if found.Some? { ServesStill(rs, rs', found.value, mission); }
  }

  lemma NobodyNames(rs: map<Text, Row>, idem: Value, memory: Text)
    requires MappingsOk(rs) && memory !in rs
    ensures forall x :: RawMapping(rs, idem, x) ==> NameAt(rs, x) != Str(memory)
  {
    forall x | RawMapping(rs, idem, x) ensures NameAt(rs, x) != Str(memory) {
      assert MappingOk(rs, x);
    }
  }

  /** A record saved, then its mapping. */
  lemma FiledIsGood(rs: map<Text, Row>, rs': map<Text, Row>, r: Entry, gen: Fresh, found: Option<Text>, rs'': map<Text, Row>)
    requires MappingsOk(rs) && KeysOk(rs) && SameMappings(rs, rs') && gen.memory !in rs && gen.mapping !in rs'
    requires MappingsOk(rs') && (Truthy(r.idem) ==> Searched(rs, r.idem, r.mission, found))
    requires rs'' == SaveMapping(Tables(rs', map[]), r.idem, r.mission, gen.memory, gen, gen.created).records
    ensures KeysOk(rs'')
  {
    SameMappingsAreGood(rs, rs');
    if Truthy(r.idem) {
      SearchedStill(rs, rs', r.idem, r.mission, found);
      NobodyNames(rs, r.idem, gen.memory);
      forall x | RawMapping(rs', r.idem, x) ensures NameAt(rs', x) != Str(gen.memory) {
        assert IsMapping(rs', x) && RawMapping(rs, r.idem, x);
      }
      var it := MappingItem(r.idem, r.mission, gen.memory, gen, gen.created);
      MappingSays(r.idem, r.mission, gen.memory, gen, gen.created);
      NewMappingIsGood(rs', gen.mapping, FirstWrite(it), r.idem, found, rs'');
    }
  }

  lemma MappingSays(idem: Value, mission: Value, memory: Text, gen: Fresh, created: Text)
    ensures var it := MappingItem(idem, mission, memory, gen, created);
      Get(it.payload, MemoryId) == Str(memory) && Get(it.payload, IdempotencyKey) == idem
  {
  }

  lemma CommittingKeys(db: Tables, order: seq<Text>, r: Entry, gen: Fresh, latest: Value, found: Option<Text>)
    requires RecordsOk(db.records, order) && KeysOk(db.records) && IsFresh(db, gen) && Typed(r) && OptionalText(latest)
    requires Truthy(r.idem) ==> Searched(db.records, r.idem, r.mission, found)
    ensures KeysOk(Committing(db, r, gen, latest).records)
  {
    var saved := Superseded(db.records, gen.memory, FirstWrite(WrittenItem(r, gen, latest)), r.key, r.content);
    SavingKeys(db, r, gen, latest, saved);
    CommittingFiles(db, r, gen, latest, saved);
    FiledIsGood(db.records, saved, r, gen, found, Committing(db, r, gen, latest).records);
  }

  lemma SavingKeys(db: Tables, r: Entry, gen: Fresh, latest: Value, saved: map<Text, Row>)
    requires MappingsOk(db.records) && RowsSound(db.records) && IsFresh(db, gen) && Typed(r) && OptionalText(latest)
    requires saved == Superseded(db.records, gen.memory, FirstWrite(WrittenItem(r, gen, latest)), r.key, r.content)
    ensures SameMappings(db.records, saved) && MappingsOk(saved) && gen.mapping !in saved
  {
    var row := FirstWrite(WrittenItem(r, gen, latest));
    NewMemoryFacts(r, gen, CommittedStatus, Truthy(r.evidence), latest, [], MemoryRow);
    SupersededSameMappings(db.records, gen.memory, row, r.key, r.content, saved);
    SupersededMaps(db.records, gen.memory, row, r.key, r.content, saved);
  }

  lemma CommittingFiles(db: Tables, r: Entry, gen: Fresh, latest: Value, saved: map<Text, Row>)
    requires gen.memory !in db.records
    requires saved == Superseded(db.records, gen.memory, FirstWrite(WrittenItem(r, gen, latest)), r.key, r.content)
    ensures Committing(db, r, gen, latest).records
      == SaveMapping(Tables(saved, map[]), r.idem, r.mission, gen.memory, gen, gen.created).records
  {
    SavedAsSuperseded(db, r, gen, latest);
  }

  /** The tables once a candidate and its mapping are filed. */
  function Filed(db: Tables, r: Entry, gen: Fresh, auto: bool, conflicts: seq<Value>): Tables {
    SaveMapping(SaveRecord(db, Candidate(db.records, r, gen, auto, conflicts)), r.idem, r.mission, gen.memory, gen, gen.created)
  }

  lemma FilingIs(db: Tables, r: Entry, gen: Fresh, auto: bool, conflicts: seq<Value>)
    requires IsFresh(db, gen)
    ensures var filed, rs := Filed(db, r, gen, auto, conflicts).records, Filing(db, r, gen, auto, conflicts).records;
      gen.conflict !in filed && (rs == filed || rs == filed[gen.conflict := FirstWrite(ConflictItem(r, gen, conflicts))])
  {
  }

  lemma FiledKeys(s: Sys, r: Entry, gen: Fresh, auto: bool, conflicts: seq<Value>, found: Option<Text>)
    requires Inv(s) && KeysOk(s.db.records) && IsFresh(s.db, gen) && Typed(r)
    requires Truthy(r.idem) ==> Searched(s.db.records, r.idem, r.mission, found)
    ensures var rs := Filed(s.db, r, gen, auto, conflicts).records; KeysOk(rs) && MappingsOk(rs)
  {
    var it := Candidate(s.db.records, r, gen, auto, conflicts);
    var filed := SaveRecord(s.db, it);
    CandidateIsGood(s, r, gen, auto, conflicts, filed);
    OtherRowSameMappings(s.db.records, gen.memory, FirstWrite(it));
    assert filed.records == s.db.records[gen.memory := FirstWrite(it)];
    FiledIsGood(s.db.records, filed.records, r, gen, found, Filed(s.db, r, gen, auto, conflicts).records);
    MappingIsGood(filed, if IsMemory(filed.records, gen.memory) then s.order + [gen.memory] else s.order, r.idem, r.mission,
                  gen.memory, gen, gen.created, Filed(s.db, r, gen, auto, conflicts));
  }

  lemma FilingKeys(s: Sys, r: Entry, gen: Fresh, auto: bool, conflicts: seq<Value>, found: Option<Text>)
    requires Inv(s) && KeysOk(s.db.records) && IsFresh(s.db, gen) && Typed(r)
    requires Truthy(r.idem) ==> Searched(s.db.records, r.idem, r.mission, found)
    ensures KeysOk(Filing(s.db, r, gen, auto, conflicts).records)
  {
    FiledKeys(s, r, gen, auto, conflicts, found);
    FilingIs(s.db, r, gen, auto, conflicts);
    ConflictKeysOk(Filed(s.db, r, gen, auto, conflicts).records, r, gen, conflicts);
  }

  lemma ConflictKeysOk(rs: map<Text, Row>, r: Entry, gen: Fresh, conflicts: seq<Value>)
    requires MappingsOk(rs) && KeysOk(rs) && gen.conflict !in rs
    ensures KeysOk(rs[gen.conflict := FirstWrite(ConflictItem(r, gen, conflicts))])
  {
    OtherRowSameMappings(rs, gen.conflict, FirstWrite(ConflictItem(r, gen, conflicts)));
    SameMappingsAreGood(rs, rs[gen.conflict := FirstWrite(ConflictItem(r, gen, conflicts))]);
  }

  lemma ProposingKeys(s: Sys, r: Entry, gen: Fresh, auto: bool, choice: Choice, found: Option<Text>)
    requires Inv(s) && KeysOk(s.db.records) && IsFresh(s.db, gen) && Typed(r)
    requires Truthy(r.idem) ==> Searched(s.db.records, r.idem, r.mission, found)
    ensures KeysOk(ProposeNew(s.db, r, gen, auto, choice).db.records)
  {
    var made := ProposeNew(s.db, r, gen, auto, choice);
    if made.db != s.db { FilingKeys(s, r, gen, auto, choice.conflicts, found); }
  }

  lemma WriteKeys(s: Sys, r: Entry, gen: Fresh, choice: Choice)
    requires Inv(s) && KeysOk(s.db.records) && Allowed(s.db, Wrote(r, gen, choice))
    ensures KeysOk(Write(s.db, r, gen, choice).db.records)
  {
    if Truthy(r.idem) && Bound(s.db.records, choice.found, r.mission).None? {
      SearchedBefore(s.db.records, s.order, r.idem, r.mission, choice.found);
    }
    if !(Truthy(r.idem) && Bound(s.db.records, choice.found, r.mission).Some?) {
      if r.kind == Lit(UnverifiedInference) {
        ProposingKeys(s, r, gen, false, choice, choice.found);
      } else {
        CommittingKeys(s.db, s.order, r, gen, choice.latest, choice.found);
      }
    }
  }

  lemma ProposeKeys(s: Sys, r: Entry, gen: Fresh, auto: bool, choice: Choice)
    requires Inv(s) && KeysOk(s.db.records) && Allowed(s.db, Proposed(r, gen, auto, choice))
    ensures KeysOk(Propose(s.db, r, gen, auto, choice).db.records)
  {
    if Truthy(r.idem) && Bound(s.db.records, choice.found, r.mission).None? {
      SearchedBefore(s.db.records, s.order, r.idem, r.mission, choice.found);
    }
    if !(Truthy(r.idem) && Bound(s.db.records, choice.found, r.mission).Some?) {
      ProposingKeys(s, r, gen, auto, choice, choice.found);
    }
  }

  /** A patch files its mapping only when the key has none. */
  lemma PatchKeys(s: Sys, r: Entry, idem: Value, gen: Fresh, choice: Choice)
    requires Inv(s) && KeysOk(s.db.records) && Allowed(s.db, Patched(r, idem, gen, choice))
    ensures KeysOk(Patch(s.db, r, idem, gen, choice).db.records)
  {
    if PatchAnswer(s.db.records, r, idem, choice.found).None? {
      ProposingKeys(s, r, gen, true, choice, None);
      ProposingIsGood(s, r, gen, true, choice);
      ProposalMapsNothing(s.db, r, gen, choice);
      PatchMapping(s.db.records, ProposeNew(s.db, r, gen, true, choice), r, idem, gen);
    }
  }

  lemma ProposalMapsNothing(db: Tables, r: Entry, gen: Fresh, choice: Choice)
    requires IsFresh(db, gen) && !Truthy(r.idem)
    ensures var rs' := ProposeNew(db, r, gen, true, choice).db.records;
      gen.mapping !in rs' && forall x :: IsMapping(rs', x) ==> IsMapping(db.records, x) && rs'[x] == db.records[x]
  {
    FilesOrNot(db, r, gen, choice);
    FilingMapsNothing(db, r, gen, choice.conflicts);
    FreshMapsNothing(db, gen);
  }

  lemma FilesOrNot(db: Tables, r: Entry, gen: Fresh, choice: Choice)
    ensures ProposeNew(db, r, gen, true, choice).db == db
            || ProposeNew(db, r, gen, true, choice).db == Filing(db, r, gen, true, choice.conflicts)
  {
  }

  lemma FreshMapsNothing(db: Tables, gen: Fresh)
    requires IsFresh(db, gen)
    ensures gen.mapping !in db.records
  {
  }

  lemma FilingMapsNothing(db: Tables, r: Entry, gen: Fresh, conflicts: seq<Value>)
    requires IsFresh(db, gen) && !Truthy(r.idem)
    ensures var rs' := Filing(db, r, gen, true, conflicts).records;
      gen.mapping !in rs' && forall x :: IsMapping(rs', x) ==> IsMapping(db.records, x) && rs'[x] == db.records[x]
  {
  }

  lemma PatchMapping(rs: map<Text, Row>, made: Result, r: Entry, idem: Value, gen: Fresh)
    requires MappingsOk(made.db.records) && KeysOk(made.db.records) && gen.mapping !in made.db.records
    requires forall x :: IsMapping(made.db.records, x) ==> IsMapping(rs, x) && made.db.records[x] == rs[x]
    requires Truthy(idem) ==> !exists id :: RawMapping(rs, idem, id)
    ensures made.outcome.Returned? ==>
      KeysOk(SaveMapping(made.db, idem, r.mission, Show(Get(made.outcome.p, MemoryId)), gen, Show(Get(made.outcome.p, CreatedAt))).records)
  {
    if Truthy(idem) && made.outcome.Returned? {
      var memory, created := Show(Get(made.outcome.p, MemoryId)), Show(Get(made.outcome.p, CreatedAt));
      var it := MappingItem(idem, r.mission, memory, gen, created);
      MappingSays(idem, r.mission, memory, gen, created);
      forall x ensures !RawMapping(made.db.records, idem, x) {
        if RawMapping(made.db.records, idem, x) { assert IsMapping(made.db.records, x) && RawMapping(rs, idem, x); }
      }
      NewMappingIsGood(made.db.records, gen.mapping, FirstWrite(it), idem, None,
                       made.db.records[gen.mapping := FirstWrite(it)]);
    }
  }

  lemma ForeignKeys(rs: map<Text, Row>, rs': map<Text, Row>)
    requires MappingsOk(rs) && KeysOk(rs) && Leaves(rs, rs')
    ensures KeysOk(rs')
  {
    assert SameMappings(rs, rs') by {
      forall id | IsMapping(rs', id) ensures IsMapping(rs, id) { assert Ours(rs'[id]); }
    }
    SameMappingsAreGood(rs, rs');
  }

  lemma MoveKeepsKeys(s: Sys, m: Move)
    requires Inv(s) && KeysOk(s.db.records) && Allowed(s.db, m)
    ensures KeysOk(Do(s, m).db.records)
  {
    match m
    case Wrote(r, gen, choice) => WriteKeys(s, r, gen, choice);
    case Proposed(r, gen, auto, choice) => ProposeKeys(s, r, gen, auto, choice);
    case Patched(r, idem, gen, choice) => PatchKeys(s, r, idem, gen, choice);
    case Foreign(op) => ForeignKeys(s.db.records, Do(s, m).db.records);
  }

  lemma {:induction false} RunKeepsKeys(moves: seq<Move>)
    requires EngineRun(moves)
    ensures Inv(Run(moves)) && KeysOk(Run(moves).db.records)
  {
    if moves != [] {
      RunKeepsKeys(moves[..|moves| - 1]);
      MoveKeepsKeys(Run(moves[..|moves| - 1]), moves[|moves| - 1]);
    }
    RunKeepsInv(moves);
  }

  // ---- which mapping the search hands back ---------------------------------------------------------

  /** Every mapping of the key that does not serve the mission is later than this one. */
  ghost predicate NoneBefore(rs: map<Text, Row>, idem: Value, mission: Value, own: Text) {
    forall x :: RawMapping(rs, idem, x) && !Serves(rs, x, mission) ==> !NotAfter(rs, x, own)
  }

  ghost predicate AlwaysFound(rs: map<Text, Row>, idem: Value, own: Text) {
    forall x :: FindsFirst(rs, Lit(MemoryMapping), IdempotencyKey, idem, x) ==> x == own
  }

  lemma NoneBeforeIsFound(rs: map<Text, Row>, idem: Value, mission: Value, own: Text, x: Text)
    requires MappingsOk(rs) && KeysOk(rs) && RawMapping(rs, idem, own) && Serves(rs, own, mission)
    requires NoneBefore(rs, idem, mission, own) && FindsFirst(rs, Lit(MemoryMapping), IdempotencyKey, idem, x)
    ensures x == own
  {
    MappingsAreFound(rs, idem, own);
    assert NotAfter(rs, x, own) && RawMapping(rs, idem, x);
    if x != own {
      assert Serves(rs, x, mission) && SameKey(rs, x, own);
      var y :| Screens(rs, x, own, mission, y);
      assert RawMapping(rs, idem, y) && MappingOk(rs, x) && MappingOk(rs, y) && MappingOk(rs, own);
    }
  }

  /** If one that serves others is as old, the search may hand back another mapping. */
  lemma SomethingElseIsFound(rs: map<Text, Row>, idem: Value, mission: Value, own: Text, x: Text) returns (other: Text)
    requires MappingsOk(rs) && RawMapping(rs, idem, own) && Serves(rs, own, mission)
    requires RawMapping(rs, idem, x) && !Serves(rs, x, mission) && NotAfter(rs, x, own)
    ensures other != own && FindsFirst(rs, Lit(MemoryMapping), IdempotencyKey, idem, other)
  {
    var all := set y | y in rs && RawMapping(rs, idem, y);
    assert x in all;
    OneIsOldest(rs, all);
    var oldest :| oldest in all && Oldest(rs, all, oldest);
    other := if oldest == own then x else oldest;
    assert MappingOk(rs, x) && MappingOk(rs, own);
    forall y ensures RawMapping(rs, idem, y) <==> Finds(rs, Lit(MemoryMapping), IdempotencyKey, idem, y) {
      MappingsAreFound(rs, idem, y);
    }
    forall y | Finds(rs, Lit(MemoryMapping), IdempotencyKey, idem, y) ensures NotAfter(rs, other, y) {
      assert y in all && MappingOk(rs, y);
    }
  }

  /** The search is sure to hand back the mission's own mapping exactly when every mapping of the key
      that serves others is later. */
  lemma FoundExactlyWhen(rs: map<Text, Row>, idem: Value, mission: Value, own: Text)
    requires MappingsOk(rs) && KeysOk(rs) && RawMapping(rs, idem, own) && Serves(rs, own, mission)
    ensures AlwaysFound(rs, idem, own) <==> NoneBefore(rs, idem, mission, own)
  {
    if NoneBefore(rs, idem, mission, own) {
      forall x | FindsFirst(rs, Lit(MemoryMapping), IdempotencyKey, idem, x) ensures x == own {
        NoneBeforeIsFound(rs, idem, mission, own, x);
      }
    } else {
      var x :| RawMapping(rs, idem, x) && !Serves(rs, x, mission) && NotAfter(rs, x, own);
      var other := SomethingElseIsFound(rs, idem, mission, own, x);
    }
  }
}
