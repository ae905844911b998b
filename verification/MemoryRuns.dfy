/** Runs of the memory kernel's calls, with any store calls of others that leave memory alone. */
module MemoryRuns {
  import opened Ledger
  import opened StoreSpec
  import opened MemoryRules

  datatype Move =
    | Wrote(r: Entry, gen: Fresh, choice: Choice)
    | Proposed(r: Entry, gen: Fresh, auto: bool, choice: Choice)
    | Patched(r: Entry, idem: Value, gen: Fresh, choice: Choice)
    | Foreign(op: Op)

  /** The tables, and the memory records in the order they were committed. */
  datatype Sys = Sys(db: Tables, order: seq<Text>)

  predicate Ours(row: Row) {
    row.rtype in {Lit(MemoryRow), Lit(CandidateRow), Lit(MemoryMapping)}
  }

  ghost predicate Leaves(rs: map<Text, Row>, rs': map<Text, Row>) {
    forall id :: (id in rs && Ours(rs[id])) || (id in rs' && Ours(rs'[id])) ==>
      id in rs && id in rs' && rs'[id] == rs[id]
  }

  /** Generated ids are new and different, and the clock yields timestamps. */
  predicate IsFresh(db: Tables, gen: Fresh) {
    gen.memory !in db.records && gen.mapping !in db.records && gen.conflict !in db.records
    && gen.memory != gen.mapping && gen.memory != gen.conflict && gen.mapping != gen.conflict
    && gen.memory != EMPTY && gen.event !in db.events && gen.conflictEvent !in db.events
    && gen.event != gen.conflictEvent && gen.created.Stamp?
  }

  predicate Typed(r: Entry) {
    OptionalText(r.mission) && OptionalText(r.evidence) && OptionalText(r.receipt) && OptionalText(r.idem)
  }

  ghost predicate Allowed(db: Tables, m: Move) {
    match m
    case Wrote(r, gen, choice) => IsFresh(db, gen) && Typed(r) && Possible(db.records, r, r.idem, choice)
    case Proposed(r, gen, _, choice) => IsFresh(db, gen) && Typed(r) && Possible(db.records, r, r.idem, choice)
    case Patched(r, idem, gen, choice) =>
      IsFresh(db, gen) && Typed(r) && r.mission.Str? && OptionalText(idem) && Possible(db.records, r, idem, choice)
      && r == PatchRequest(r.mission, r.key, r.content, r.trace, r.evidence)
    case Foreign(op) => Leaves(db.records, Apply(db, op).records)
  }

  ghost function After(db: Tables, m: Move): Result {
    match m
    case Wrote(r, gen, choice) => Write(db, r, gen, choice)
    case Proposed(r, gen, auto, choice) => Propose(db, r, gen, auto, choice)
    case Patched(r, idem, gen, choice) => Patch(db, r, idem, gen, choice)
    case Foreign(op) => Result(Apply(db, op), Raised(RecordMissing))
  }

  predicate IsMemory(rs: map<Text, Row>, id: Text) {
    id in rs && rs[id].rtype == Lit(MemoryRow)
  }

  function NewId(m: Move): Text {
    if m.Foreign? then EMPTY else m.gen.memory
  }

  ghost function Do(s: Sys, m: Move): Sys {
    var db' := After(s.db, m).db;
    Sys(db', if !m.Foreign? && IsMemory(db'.records, NewId(m)) then s.order + [NewId(m)] else s.order)
  }

  ghost function Run(moves: seq<Move>): Sys {
    if moves == [] then Sys(Tables(map[], map[]), [])
    else Do(Run(moves[..|moves| - 1]), moves[|moves| - 1])
  }

  ghost predicate EngineRun(moves: seq<Move>) {
    moves == [] || (EngineRun(moves[..|moves| - 1]) && Allowed(Run(moves[..|moves| - 1]).db, moves[|moves| - 1]))
  }

  // ---- the invariant --------------------------------------------------------------------------

  /** One row of ours is sealed, anchored and complete. */
  ghost predicate Sound(id: Text, row: Row) {
    id != EMPTY && Intact(id, row) && Present(row.origin) && OptionalText(row.mission) && row.created.Stamp?
    && Get(row.body.p, MissionId) == row.mission && Get(row.body.p, MemoryId) == Str(id)
    && Get(row.body.p, CreatedAt) == Str(row.created) && Parses(row.body.p)
  }

  ghost predicate RowsSound(rs: map<Text, Row>) {
    forall id :: id in rs && (rs[id].rtype == Lit(MemoryRow) || rs[id].rtype == Lit(CandidateRow)) ==> Sound(id, rs[id])
  }

  /** Within a mission, and within the records of no mission, a key has one committed content. */
  ghost predicate Agree(rs: map<Text, Row>) {
    forall a, b, key :: HoldsAt(rs, Null, key, a) && HoldsAt(rs, Null, key, b) && rs[a].mission == rs[b].mission
      ==> Get(rs[a].body.p, Content) == Get(rs[b].body.p, Content)
  }

  /** A successor is of the same mission, or of none. */
  predicate Succeeds(rs: map<Text, Row>, was: Text, next: Text) {
    IsMemory(rs, was) && IsMemory(rs, next) && rs[was].body.Obj? && rs[next].body.Obj?
    && Get(rs[was].body.p, SupersededBy) == Str(next)
    && Get(rs[was].body.p, MemoryKey) == Get(rs[next].body.p, MemoryKey)
    && (rs[next].mission == rs[was].mission || !Truthy(rs[next].mission))
  }

  predicate Standing(rs: map<Text, Row>, order: seq<Text>, i: nat)
    requires i < |order|
  {
    IsMemory(rs, order[i]) && rs[order[i]].body.Obj?
    && (Get(rs[order[i]].body.p, Status) == Literal(CommittedStatus)
        || (Get(rs[order[i]].body.p, Status) == Literal(SupersededStatus)
            && exists j :: i < j < |order| && Succeeds(rs, order[i], order[j])))
  }

  /** Every record stands committed, or points at one committed later. */
  ghost predicate Ordered(rs: map<Text, Row>, order: seq<Text>) {
    (forall i :: 0 <= i < |order| ==> Standing(rs, order, i))
    && (forall i, j :: 0 <= i < j < |order| ==> order[i] != order[j])
    && (forall id :: IsMemory(rs, id) ==> id in order)
  }

  /** A mapping names a record of its own mission. */
  predicate MappingOk(rs: map<Text, Row>, id: Text) {
    id in rs && Intact(id, rs[id]) && Present(rs[id].origin) && OptionalText(rs[id].mission) && rs[id].created.Stamp?
    && Get(rs[id].body.p, MemoryId).Str? && Get(rs[id].body.p, MemoryId) != Str(EMPTY)
    && (var memory := Get(rs[id].body.p, MemoryId).t;
        memory in rs && (rs[memory].rtype == Lit(MemoryRow) || rs[memory].rtype == Lit(CandidateRow))
        && (rs[id].mission != Str(EMPTY) ==> rs[memory].mission == rs[id].mission))
  }

  ghost predicate MappingsOk(rs: map<Text, Row>) {
    forall id :: id in rs && rs[id].rtype == Lit(MemoryMapping) ==> MappingOk(rs, id)
  }

  ghost predicate RecordsOk(rs: map<Text, Row>, order: seq<Text>) {
    RowsSound(rs) && Agree(rs) && Ordered(rs, order) && MappingsOk(rs)
  }

  ghost predicate Inv(s: Sys) {
    UniqueKeys(s.db.events) && RecordsOk(s.db.records, s.order)
  }

  // ---- superseding ----------------------------------------------------------------------------

  /** The step every commit amounts to: retire what differs, then add the new record. */
  ghost function Superseded(rs: map<Text, Row>, id: Text, row: Row, key: Text, content: Text): map<Text, Row> {
    RetireAll(rs, Outdated(rs, row.mission, key, content), id)[id := row]
  }

  ghost predicate NewRow(rs: map<Text, Row>, id: Text, row: Row, key: Text, content: Text) {
    id !in rs && row.rtype == Lit(MemoryRow) && Sound(id, row)
    && Get(row.body.p, Status) == Literal(CommittedStatus) && Get(row.body.p, MemoryKey) == Str(key)
    && Get(row.body.p, Content) == Str(content)
  }

  lemma FieldSet(p: Payload, f: Field, v: Value)
    requires Parses(p) && IsField(f) && WellTyped(f, v)
    ensures Parses(p[f := v])
  {
    forall g ensures (g in p[f := v] <==> IsField(g)) && (g in p[f := v] ==> WellTyped(g, p[f := v][g])) {
      assert IsField(g) || !IsField(g);
    }
  }

  lemma StandingIsStored()
    ensures IsField(Status) && IsField(SupersededBy)
  {
  }

  lemma RetiredFacts(p: Payload, successor: Text)
    requires Parses(p)
    ensures var q := Retired(p, successor);
      Parses(q) && Get(q, Status) == Literal(SupersededStatus) && Get(q, SupersededBy) == Str(successor)
      && (forall f :: f != Status && f != SupersededBy ==> Get(q, f) == Get(p, f))
  {
    StandingIsStored();
    FieldSet(p, Status, Literal(SupersededStatus));
    FieldSet(p[Status := Literal(SupersededStatus)], SupersededBy, Str(successor));
  }

  lemma RetiredGets(p: Payload, successor: Text)
    ensures var q := Retired(p, successor);
      Get(q, MissionId) == Get(p, MissionId) && Get(q, MemoryId) == Get(p, MemoryId)
      && Get(q, CreatedAt) == Get(p, CreatedAt) && Get(q, MemoryKey) == Get(p, MemoryKey)
  {
  }

  lemma RetiredRowFacts(rs: map<Text, Row>, id: Text, successor: Text)
    requires id in rs && rs[id].rtype == Lit(MemoryRow) && Sound(id, rs[id])
    ensures var row := Reseal(id, rs[id], Retired(rs[id].body.p, successor));
      Sound(id, row) && row.rtype == rs[id].rtype && row.mission == rs[id].mission
      && Get(row.body.p, Status) == Literal(SupersededStatus) && Get(row.body.p, SupersededBy) == Str(successor)
      && Get(row.body.p, MemoryKey) == Get(rs[id].body.p, MemoryKey)
  {
    RetiredFacts(rs[id].body.p, successor);
    RetiredGets(rs[id].body.p, successor);
    ResealedIsSound(id, rs[id], Retired(rs[id].body.p, successor));
  }

  lemma ResealedIsSound(id: Text, row: Row, q: Payload)
    requires Sound(id, row) && Parses(q) && Get(q, MissionId) == Get(row.body.p, MissionId)
    requires Get(q, MemoryId) == Get(row.body.p, MemoryId) && Get(q, CreatedAt) == Get(row.body.p, CreatedAt)
    ensures Sound(id, Reseal(id, row, q)) && Reseal(id, row, q).body.p == q
  {
  }

  /** What is true of a row that was there, afterwards. */
  ghost predicate Carried(rs: map<Text, Row>, rs': map<Text, Row>, id: Text, retired: bool, successor: Text) {
    id in rs && id in rs' && rs'[id].rtype == rs[id].rtype && rs'[id].mission == rs[id].mission
    && if retired then rs[id].body.Obj? && rs'[id] == Reseal(id, rs[id], Retired(rs[id].body.p, successor)) else rs'[id] == rs[id]
  }

  lemma SupersededCarries(rs: map<Text, Row>, id: Text, row: Row, key: Text, content: Text, was: Text)
    requires was in rs && id !in rs
    ensures Carried(rs, Superseded(rs, id, row, key, content), was, was in Outdated(rs, row.mission, key, content), id)
  {
  }

  lemma SupersededSound(rs: map<Text, Row>, id: Text, row: Row, key: Text, content: Text, rs': map<Text, Row>)
    requires RowsSound(rs) && NewRow(rs, id, row, key, content) && rs' == Superseded(rs, id, row, key, content)
    ensures RowsSound(rs')
  {
    forall x | x in rs' && (rs'[x].rtype == Lit(MemoryRow) || rs'[x].rtype == Lit(CandidateRow)) ensures Sound(x, rs'[x]) {
      if x != id {
        SupersededCarries(rs, id, row, key, content, x);
        if x in Outdated(rs, row.mission, key, content) { RetiredRowFacts(rs, x, id); }
      }
    }
  }

  lemma StillHolds(rs: map<Text, Row>, id: Text, row: Row, key: Text, content: Text, k: Text, x: Text)
    requires RowsSound(rs) && NewRow(rs, id, row, key, content) && x in rs
    requires HoldsAt(Superseded(rs, id, row, key, content), Null, k, x)
    ensures var rs' := Superseded(rs, id, row, key, content);
      HoldsAt(rs, Null, k, x) && rs'[x] == rs[x] && x !in Outdated(rs, row.mission, key, content)
  {
    SupersededCarries(rs, id, row, key, content, x);
    if x in Outdated(rs, row.mission, key, content) { RetiredRowFacts(rs, x, id); }
  }

  lemma SupersededAgrees(rs: map<Text, Row>, id: Text, row: Row, key: Text, content: Text, rs': map<Text, Row>)
    requires RowsSound(rs) && Agree(rs) && NewRow(rs, id, row, key, content) && rs' == Superseded(rs, id, row, key, content)
    ensures Agree(rs')
  {
    forall a, b, k | HoldsAt(rs', Null, k, a) && HoldsAt(rs', Null, k, b) && rs'[a].mission == rs'[b].mission
      ensures Get(rs'[a].body.p, Content) == Get(rs'[b].body.p, Content)
    {
      if a != id { StillHolds(rs, id, row, key, content, k, a); }
      if b != id { StillHolds(rs, id, row, key, content, k, b); }
    }
  }

  lemma SupersededStands(
    rs: map<Text, Row>, id: Text, row: Row, key: Text, content: Text, rs': map<Text, Row>, order: seq<Text>, i: nat)
    requires RowsSound(rs) && NewRow(rs, id, row, key, content) && rs' == Superseded(rs, id, row, key, content)
    requires i < |order| && Standing(rs, order, i)
    ensures Standing(rs', order + [id], i)
  {
    var was, order' := order[i], order + [id];
    SupersededCarries(rs, id, row, key, content, was);
    if was in Outdated(rs, row.mission, key, content) {
      RetiredRowFacts(rs, was, id);
      assert order'[|order|] == id && Succeeds(rs', order'[i], order'[|order|]);
    } else if Get(rs[was].body.p, Status) == Literal(SupersededStatus) {
      var j :| i < j < |order| && Succeeds(rs, order[i], order[j]);
      SupersededCarries(rs, id, row, key, content, order[j]);
      if order[j] in Outdated(rs, row.mission, key, content) { RetiredRowFacts(rs, order[j], id); }
      assert order'[j] == order[j] && Succeeds(rs', order'[i], order'[j]);
    }
  }

  lemma SupersededOrdered(
    rs: map<Text, Row>, id: Text, row: Row, key: Text, content: Text, rs': map<Text, Row>, order: seq<Text>)
    requires RowsSound(rs) && Ordered(rs, order) && NewRow(rs, id, row, key, content)
    requires rs' == Superseded(rs, id, row, key, content)
    ensures Ordered(rs', order + [id])
  {
    var order' := order + [id];
    forall i | 0 <= i < |order'| ensures Standing(rs', order', i) {
      if i < |order| {
        assert Standing(rs, order, i);
        SupersededStands(rs, id, row, key, content, rs', order, i);
      }
    }
    forall i, j | 0 <= i < j < |order'| ensures order'[i] != order'[j] {
      assert Standing(rs, order, i);
    }
    forall x | IsMemory(rs', x) ensures x in order' {
      if x != id {
        SupersededCarries(rs, id, row, key, content, x);
        assert IsMemory(rs, x);
      } else {
        assert order'[|order|] == id;
      }
    }
  }

  lemma SupersededMaps(rs: map<Text, Row>, id: Text, row: Row, key: Text, content: Text, rs': map<Text, Row>)
    requires MappingsOk(rs) && NewRow(rs, id, row, key, content) && rs' == Superseded(rs, id, row, key, content)
    ensures MappingsOk(rs')
  {
    forall x | x in rs' && rs'[x].rtype == Lit(MemoryMapping) ensures MappingOk(rs', x) {
      SupersededCarries(rs, id, row, key, content, x);
      assert MappingOk(rs, x);
      SupersededCarries(rs, id, row, key, content, Get(rs[x].body.p, MemoryId).t);
    }
  }

  lemma SupersededIsGood(
    rs: map<Text, Row>, id: Text, row: Row, key: Text, content: Text, rs': map<Text, Row>, order: seq<Text>)
    requires RecordsOk(rs, order) && NewRow(rs, id, row, key, content) && rs' == Superseded(rs, id, row, key, content)
    ensures RecordsOk(rs', order + [id])
  {
    SupersededSound(rs, id, row, key, content, rs');
    SupersededAgrees(rs, id, row, key, content, rs');
    SupersededOrdered(rs, id, row, key, content, rs', order);
    SupersededMaps(rs, id, row, key, content, rs');
  }

  // ---- other new rows ---------------------------------------------------------------------------

  /** A new row that is not a memory record changes nothing for the records there are. */
  lemma OtherRowIsGood(rs: map<Text, Row>, order: seq<Text>, id: Text, row: Row)
    requires RecordsOk(rs, order) && id !in rs && row.rtype != Lit(MemoryRow)
    requires row.rtype == Lit(CandidateRow) ==> Sound(id, row)
    requires row.rtype == Lit(MemoryMapping) ==> MappingOk(rs[id := row], id)
    ensures RecordsOk(rs[id := row], order)
  {
    var rs' := rs[id := row];
    assert forall a, key :: HoldsAt(rs', Null, key, a) ==> HoldsAt(rs, Null, key, a);
    forall i | 0 <= i < |order| ensures Standing(rs', order, i) {
      assert Standing(rs, order, i);
      if Get(rs[order[i]].body.p, Status) != Literal(CommittedStatus) {
        var j :| i < j < |order| && Succeeds(rs, order[i], order[j]);
        assert Succeeds(rs', order[i], order[j]);
      }
    }
    forall x | x in rs' && rs'[x].rtype == Lit(MemoryMapping) ensures MappingOk(rs', x) {
      if x != id { assert MappingOk(rs, x); }
    }
  }

  lemma LeftIsGood(rs: map<Text, Row>, order: seq<Text>, rs': map<Text, Row>)
    requires RecordsOk(rs, order) && Leaves(rs, rs')
    ensures RecordsOk(rs', order)
  {
    assert forall a, key :: HoldsAt(rs', Null, key, a) ==> HoldsAt(rs, Null, key, a) && rs'[a] == rs[a];
    forall i | 0 <= i < |order| ensures Standing(rs', order, i) {
      assert Standing(rs, order, i);
      if Get(rs[order[i]].body.p, Status) != Literal(CommittedStatus) {
        var j :| i < j < |order| && Succeeds(rs, order[i], order[j]);
        assert Succeeds(rs', order[i], order[j]);
      }
    }
    forall x | x in rs' && rs'[x].rtype == Lit(MemoryMapping) ensures MappingOk(rs', x) {
      assert MappingOk(rs, x);
    }
  }
}
