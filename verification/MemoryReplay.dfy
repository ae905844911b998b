/** What a memory call settles: after a write, on a replay, and when a candidate is committed by hand. */
module MemoryReplay {
  import opened Ledger
  import opened StoreSpec
  import opened Lists
  import opened MemoryRules
  import opened MemoryRuns
  import opened MemoryGuarantees
  import opened MemoryKeys
  import opened Knowledge

  // ---- after a write ------------------------------------------------------------------------

  /** The write went through: it was no replay and did not fail. */
  ghost predicate WentThrough(db: Tables, m: Move) {
    m.Wrote? && m.r.kind != Lit(UnverifiedInference) && m.gen.memory !in db.records
    && m.gen.memory in After(db, m).db.records
  }

  lemma CommittedRecords(db: Tables, r: Entry, gen: Fresh, latest: Value, id: Text)
    requires RowsSound(db.records) && IsFresh(db, gen) && Typed(r) && OptionalText(latest)
    requires id in Committing(db, r, gen, latest).records && id != gen.mapping
    ensures var row, rs := FirstWrite(WrittenItem(r, gen, latest)), Committing(db, r, gen, latest).records;
      NewRow(db.records, gen.memory, row, r.key, r.content) && row.mission == r.mission
      && rs[id] == Superseded(db.records, gen.memory, row, r.key, r.content)[id]
  {
    NewMemoryFacts(r, gen, CommittedStatus, Truthy(r.evidence), latest, [], MemoryRow);
    SavedAsSuperseded(db, r, gen, latest);
  }

  lemma NothingElseHolds(db: Tables, r: Entry, gen: Fresh, latest: Value, id: Text)
    requires RowsSound(db.records) && IsFresh(db, gen) && Typed(r) && OptionalText(latest)
    requires HoldsAt(Committing(db, r, gen, latest).records, r.mission, r.key, id)
    ensures Get(Committing(db, r, gen, latest).records[id].body.p, Content) == Str(r.content)
  {
    CommittedRecords(db, r, gen, latest, id);
    if id != gen.memory {
      var row := FirstWrite(WrittenItem(r, gen, latest));
      SupersededCarries(db.records, gen.memory, row, r.key, r.content, id);
      StillHolds(db.records, gen.memory, row, r.key, r.content, r.key, id);
    }
  }

  /** After a write, in its whole scope the key says what was written and nothing else. */
  lemma {:induction false} WriteLeavesOneContent(moves: seq<Move>, m: Move, id: Text)
    requires EngineRun(moves + [m]) && WentThrough(Run(moves).db, m)
    ensures var rs := Run(moves + [m]).db.records;
      HoldsAt(rs, m.r.mission, m.r.key, m.gen.memory)
      && (HoldsAt(rs, m.r.mission, m.r.key, id) ==> Get(rs[id].body.p, Content) == Str(m.r.content))
  {
    assert (moves + [m])[..|moves + [m]| - 1] == moves;
    RunKeepsInv(moves);
    WroteOneContent(Run(moves).db, m, Run(moves + [m]).db.records, id);
  }

  lemma WroteOneContent(db: Tables, m: Move, rs: map<Text, Row>, id: Text)
    requires RowsSound(db.records) && Allowed(db, m) && WentThrough(db, m) && rs == After(db, m).db.records
    ensures HoldsAt(rs, m.r.mission, m.r.key, m.gen.memory)
    ensures HoldsAt(rs, m.r.mission, m.r.key, id) ==> Get(rs[id].body.p, Content) == Str(m.r.content)
  {
    WentThroughCommits(db, m);
    CommittedRecords(db, m.r, m.gen, m.choice.latest, m.gen.memory);
    if HoldsAt(rs, m.r.mission, m.r.key, id) {
      NothingElseHolds(db, m.r, m.gen, m.choice.latest, id);
    }
  }

  lemma WentThroughCommits(db: Tables, m: Move)
    requires Allowed(db, m) && WentThrough(db, m)
    ensures IsFresh(db, m.gen) && Typed(m.r) && OptionalText(m.choice.latest)
    ensures After(db, m).db == Committing(db, m.r, m.gen, m.choice.latest)
  {
  }

  /** Right after a write, recall in its scope returns exactly one record for the key, and it holds
      the written content. */
  lemma {:induction false} RecallAfterWrite(moves: seq<Move>, m: Move, ids: seq<Text>)
    requires EngineRun(moves + [m]) && WentThrough(Run(moves).db, m)
    requires Listing(Run(moves + [m]).db.records, Lit(MemoryRow), m.r.mission, ids)
    ensures var rs := Run(moves + [m]).db.records;
      AllFiled(rs)
      && (var hits := Filter(NonSuperseded(PayloadsOf(rs, ids)), Keyed(Str(m.r.key)));
          |hits| == 1 && Get(hits[0], Content) == Str(m.r.content))
  {
    WriteLeavesOneContent(moves, m, m.gen.memory);
    RecallIsOnePerKey(moves + [m], m.r.mission, ids, m.r.key, m.gen.memory);
    var rs := Run(moves + [m]).db.records;
    var hits := Filter(NonSuperseded(PayloadsOf(rs, ids)), Keyed(Str(m.r.key)));
    WriteLeavesOneContent(moves, m, Get(hits[0], MemoryId).t);
  }

  // ---- replaying a key ------------------------------------------------------------------------

  /** A keyed write is a replay exactly when the mapping the search finds serves its mission; a replay
      changes nothing, and answers with the stored record if, and only if, the request is the one
      stored. Otherwise, that is also when another mission used the key first, the write is carried
      out, again. */
  lemma {:induction false} WriteReplaysExactlyWhen(moves: seq<Move>, r: Entry, gen: Fresh, choice: Choice)
    requires EngineRun(moves) && Truthy(r.idem) && MayFind(Run(moves).db.records, r.idem, choice.found)
    ensures var db := Run(moves).db;
      var bound := Bound(db.records, choice.found, r.mission);
      if choice.found.Some? && Serves(db.records, choice.found.value, r.mission) then
        bound.Some? && Write(db, r, gen, choice) ==
          Result(db, if SameRequest(bound.value.payload, r) then Returned(bound.value.payload) else Raised(IdempotencyConflict))
      else bound.None? && Write(db, r, gen, choice) == WriteNew(db, r, gen, choice)
  {
    RunKeepsInv(moves);
    BoundExactlyWhen(Run(moves).db.records, Run(moves).order, r.idem, choice.found, r.mission);
  }

  /** Everything but its standing is as it was. */
  ghost predicate SameButStanding(p: Payload, q: Payload) {
    forall f {:trigger Get(q, f)} :: f != Status && f != SupersededBy ==> Get(q, f) == Get(p, f)
  }

  /** What later moves leave of a record. */
  ghost predicate KeepsRecord(row: Row, row': Row) {
    row'.rtype == row.rtype && row'.mission == row.mission && row.body.Obj? && row'.body.Obj?
    && (row.rtype == Lit(MemoryMapping) ==> row' == row) && SameButStanding(row.body.p, row'.body.p)
  }

  ghost predicate Keeps(rs: map<Text, Row>, rs': map<Text, Row>) {
    forall id :: id in rs && Ours(rs[id]) && rs[id].body.Obj? ==> id in rs' && KeepsRecord(rs[id], rs'[id])
  }

  lemma RetiringKeeps(row: Row, id: Text, successor: Text)
    requires row.body.Obj? && row.rtype == Lit(MemoryRow)
    ensures KeepsRecord(row, Reseal(id, row, Retired(row.body.p, successor)))
  {
  }

  lemma SupersededKeeps(rs: map<Text, Row>, id: Text, row: Row, key: Text, content: Text, rs': map<Text, Row>)
    requires id !in rs && rs' == Superseded(rs, id, row, key, content)
    ensures Keeps(rs, rs') && rs'.Keys == rs.Keys + {id}
  {
    forall x | x in rs && Ours(rs[x]) && rs[x].body.Obj? ensures x in rs' && KeepsRecord(rs[x], rs'[x]) {
      SupersededCarries(rs, id, row, key, content, x);
      if x in Outdated(rs, row.mission, key, content) { RetiringKeeps(rs[x], x, id); }
    }
  }

  lemma CommittingKeeps(db: Tables, r: Entry, gen: Fresh, latest: Value)
    requires RowsSound(db.records) && IsFresh(db, gen)
    ensures Keeps(db.records, Committing(db, r, gen, latest).records)
  {
    SavedAsSuperseded(db, r, gen, latest);
    var row := FirstWrite(WrittenItem(r, gen, latest));
    var saved := Superseded(db.records, gen.memory, row, r.key, r.content);
    SupersededKeeps(db.records, gen.memory, row, r.key, r.content, saved);
  }

  lemma WriteKeeps(db: Tables, r: Entry, gen: Fresh, choice: Choice, db': Tables)
    requires RowsSound(db.records) && IsFresh(db, gen) && db' == Write(db, r, gen, choice).db
    ensures Keeps(db.records, db'.records)
  {
    CommittingKeeps(db, r, gen, choice.latest);
    ProposingAdds(db, r, gen, false, choice);
  }

  /** Proposals and patches only add rows. */
  ghost predicate OnlyAdds(rs: map<Text, Row>, rs': map<Text, Row>) {
    forall id :: id in rs ==> id in rs' && rs'[id] == rs[id]
  }

  lemma ProposingAdds(db: Tables, r: Entry, gen: Fresh, auto: bool, choice: Choice)
    requires IsFresh(db, gen)
    ensures OnlyAdds(db.records, ProposeNew(db, r, gen, auto, choice).db.records)
    ensures ProposeNew(db, r, gen, auto, choice).db.records.Keys <= db.records.Keys + {gen.memory, gen.mapping, gen.conflict}
  {
  }

  lemma MoveKeepsRecords(s: Sys, m: Move)
    requires Inv(s) && Allowed(s.db, m)
    ensures Keeps(s.db.records, Do(s, m).db.records)
  {
    match m
    case Wrote(r, gen, choice) => WriteKeeps(s.db, r, gen, choice, Do(s, m).db);
    case Proposed(r, gen, auto, choice) => ProposingAdds(s.db, r, gen, auto, choice);
    case Patched(r, idem, gen, choice) => PatchAdds(s.db, r, idem, gen, choice, Do(s, m).db);
    case Foreign(op) =>
  }

  lemma PatchAdds(db: Tables, r: Entry, idem: Value, gen: Fresh, choice: Choice, db': Tables)
    requires IsFresh(db, gen) && db' == Patch(db, r, idem, gen, choice).db && !Truthy(r.idem)
    ensures OnlyAdds(db.records, db'.records)
  {
    ProposingAdds(db, r, gen, true, choice);
    UnkeyedProposalMapsNothing(db, r, gen, true, choice);
  }

  lemma UnkeyedProposalMapsNothing(db: Tables, r: Entry, gen: Fresh, auto: bool, choice: Choice)
    requires IsFresh(db, gen) && !Truthy(r.idem)
    ensures gen.mapping !in ProposeNew(db, r, gen, auto, choice).db.records
  {
  }

  lemma {:induction false} RunKeepsRecords(moves: seq<Move>, more: seq<Move>)
    requires EngineRun(moves + more)
    ensures EngineRun(moves) && Keeps(Run(moves).db.records, Run(moves + more).db.records)
    decreases |more|
  {
    if more == [] {
      assert moves + more == moves;
    } else {
      var most, last := more[..|more| - 1], more[|more| - 1];
      assert (moves + more)[..|moves + more| - 1] == moves + most && (moves + more)[|moves + more| - 1] == last;
      RunKeepsRecords(moves, most);
      RunKeepsInv(moves + most);
      MoveKeepsRecords(Run(moves + most), last);
      KeepsOn(Run(moves).db.records, Run(moves + most).db.records, Run(moves + more).db.records);
    }
  }

  lemma KeepsOn(a: map<Text, Row>, b: map<Text, Row>, c: map<Text, Row>)
    requires Keeps(a, b) && Keeps(b, c)
    ensures Keeps(a, c)
  {
    forall id | id in a && Ours(a[id]) && a[id].body.Obj? ensures id in c && KeepsRecord(a[id], c[id]) {
      assert KeepsRecord(a[id], b[id]);
      assert KeepsRecord(b[id], c[id]);
    }
  }

  lemma FiledUnderKey(db: Tables, r: Entry, gen: Fresh, latest: Value)
    requires IsFresh(db, gen) && Truthy(r.idem)
    ensures var rs := Committing(db, r, gen, latest).records;
      gen.memory in rs && rs[gen.memory] == FirstWrite(WrittenItem(r, gen, latest))
      && gen.mapping in rs && rs[gen.mapping] == FirstWrite(MappingItem(r.idem, r.mission, gen.memory, gen, gen.created))
  {
  }

  /** The record of a write and its mapping, as they were filed. */
  ghost predicate FiledAs(rs: map<Text, Row>, r: Entry, gen: Fresh, p: Payload) {
    gen.memory in rs && rs[gen.memory] == FirstWrite(MemoryItem(MemoryRow, r, gen, p))
    && gen.mapping in rs && rs[gen.mapping] == FirstWrite(MappingItem(r.idem, r.mission, gen.memory, gen, gen.created))
  }

  /** Later on the mapping still serves its mission and names its record. */
  lemma OwnServes(first: map<Text, Row>, rs: map<Text, Row>, r: Entry, gen: Fresh, p: Payload)
    requires Keeps(first, rs) && FiledAs(first, r, gen, p)
    ensures RawMapping(rs, r.idem, gen.mapping) && Serves(rs, gen.mapping, r.mission)
    ensures NameAt(rs, gen.mapping) == Str(gen.memory)
    ensures gen.memory in rs && rs[gen.memory].body.Obj? && SameButStanding(p, rs[gen.memory].body.p)
  {
    assert KeepsRecord(first[gen.memory], rs[gen.memory]) && KeepsRecord(first[gen.mapping], rs[gen.mapping]);
    MappingSays(r.idem, r.mission, gen.memory, gen, gen.created);
  }

  lemma SameRequestStill(p: Payload, q: Payload, r: Entry)
    requires SameRequest(p, r) && SameButStanding(p, q)
    ensures SameRequest(q, r)
  {
    AtStanding(p, q, Kind);
    AtStanding(p, q, MemoryKey);
    AtStanding(p, q, Content);
    AtStanding(p, q, SourceEvidenceId);
    AtStanding(p, q, Confidence);
    AtStanding(p, q, ReceiptId);
  }

  lemma AtStanding(p: Payload, q: Payload, f: Field)
    requires SameButStanding(p, q) && f != Status && f != SupersededBy
    ensures Get(q, f) == Get(p, f)
  {
  }

  /** The write answers with that record, the same but for its standing, and writes nothing. */
  ghost predicate Repeats(db: Tables, r: Entry, again: Fresh, choice: Choice, p: Payload) {
    var answer := Write(db, r, again, choice);
    answer.db == db && answer.outcome.Returned? && SameButStanding(p, answer.outcome.p)
  }

  ghost predicate AlwaysRepeats(db: Tables, r: Entry, again: Fresh, p: Payload) {
    forall choice: Choice {:trigger Repeats(db, r, again, choice, p)} ::
      MayFind(db.records, r.idem, choice.found) ==> Repeats(db, r, again, choice, p)
  }

  lemma OwnRepeats(
    first: map<Text, Row>, db: Tables, order: seq<Text>, r: Entry, gen: Fresh, p: Payload, again: Fresh, choice: Choice)
    requires RecordsOk(db.records, order) && Keeps(first, db.records) && FiledAs(first, r, gen, p)
    requires Truthy(r.idem) && SameRequest(p, r)
    requires MayFind(db.records, r.idem, choice.found) && choice.found == Some(gen.mapping)
    ensures Repeats(db, r, again, choice, p)
  {
    OwnServes(first, db.records, r, gen, p);
    BoundExactlyWhen(db.records, order, r.idem, choice.found, r.mission);
    SameRequestStill(p, db.records[gen.memory].body.p, r);
  }

  /** Another record of the mission has another id. */
  lemma AnotherAnswers(
    db: Tables, order: seq<Text>, r: Entry, gen: Fresh, p: Payload, again: Fresh, choice: Choice)
    requires RecordsOk(db.records, order) && KeysOk(db.records) && Truthy(r.idem) && Get(p, MemoryId) == Str(gen.memory)
    requires RawMapping(db.records, r.idem, gen.mapping) && NameAt(db.records, gen.mapping) == Str(gen.memory)
    requires MayFind(db.records, r.idem, choice.found) && choice.found.Some? && choice.found.value != gen.mapping
    requires Serves(db.records, choice.found.value, r.mission)
    ensures !Repeats(db, r, again, choice, p)
  {
    BoundExactlyWhen(db.records, order, r.idem, choice.found, r.mission);
    var other, bound := choice.found.value, Bound(db.records, choice.found, r.mission).value;
    assert SameKey(db.records, other, gen.mapping) && MappingOk(db.records, other);
    assert Get(bound.payload, MemoryId) == Str(bound.id) != Get(p, MemoryId);
    BoundAnswers(db, r, again, choice, bound);
  }

  lemma BoundAnswers(db: Tables, r: Entry, again: Fresh, choice: Choice, bound: Envelope)
    requires Truthy(r.idem) && Bound(db.records, choice.found, r.mission) == Some(bound)
    ensures Write(db, r, again, choice).outcome.Returned? ==> Write(db, r, again, choice).outcome.p == bound.payload
  {
  }

  /** Without a record found the write is carried out again. */
  lemma UnboundWrites(db: Tables, r: Entry, again: Fresh, choice: Choice)
    requires Truthy(r.idem) && Bound(db.records, choice.found, r.mission).None? && IsFresh(db, again)
    requires r.kind != Lit(UnverifiedInference) && !NeedsEvidence(r)
    ensures Write(db, r, again, choice).db != db
  {
    FiledUnderKey(db, r, again, choice.latest);
  }

  lemma OtherDoesNotRepeat(
    db: Tables, order: seq<Text>, r: Entry, gen: Fresh, p: Payload, again: Fresh, choice: Choice)
    requires RecordsOk(db.records, order) && KeysOk(db.records) && Truthy(r.idem) && Get(p, MemoryId) == Str(gen.memory)
    requires RawMapping(db.records, r.idem, gen.mapping) && NameAt(db.records, gen.mapping) == Str(gen.memory)
    requires r.kind != Lit(UnverifiedInference) && !NeedsEvidence(r) && IsFresh(db, again)
    requires MayFind(db.records, r.idem, choice.found) && choice.found.Some? && choice.found.value != gen.mapping
    ensures !Repeats(db, r, again, choice, p)
  {
    if Serves(db.records, choice.found.value, r.mission) {
      AnotherAnswers(db, order, r, gen, p, again, choice);
    } else {
      BoundExactlyWhen(db.records, order, r.idem, choice.found, r.mission);
      UnboundWrites(db, r, again, choice);
    }
  }

  lemma FoundMeansRepeats(
    first: map<Text, Row>, db: Tables, order: seq<Text>, r: Entry, gen: Fresh, p: Payload, again: Fresh)
    requires RecordsOk(db.records, order) && Keeps(first, db.records) && FiledAs(first, r, gen, p)
    requires Truthy(r.idem) && SameRequest(p, r) && AlwaysFound(db.records, r.idem, gen.mapping)
    requires Finds(db.records, Lit(MemoryMapping), IdempotencyKey, r.idem, gen.mapping)
    ensures AlwaysRepeats(db, r, again, p)
  {
    forall choice: Choice | MayFind(db.records, r.idem, choice.found) ensures Repeats(db, r, again, choice, p) {
      OwnRepeats(first, db, order, r, gen, p, again, choice);
    }
  }

  lemma MissedMeansOther(db: Tables, order: seq<Text>, r: Entry, gen: Fresh, p: Payload, again: Fresh)
    requires RecordsOk(db.records, order) && KeysOk(db.records) && Truthy(r.idem) && Get(p, MemoryId) == Str(gen.memory)
    requires RawMapping(db.records, r.idem, gen.mapping) && NameAt(db.records, gen.mapping) == Str(gen.memory)
    requires r.kind != Lit(UnverifiedInference) && !NeedsEvidence(r) && IsFresh(db, again)
    requires !AlwaysFound(db.records, r.idem, gen.mapping)
    ensures !AlwaysRepeats(db, r, again, p)
  {
    var choice := OtherChoice(db.records, r.idem, gen.mapping);
    OtherDoesNotRepeat(db, order, r, gen, p, again, choice);
    OneMissIsEnough(db, r, again, choice, p);
  }

  lemma OtherChoice(rs: map<Text, Row>, idem: Value, own: Text) returns (choice: Choice)
    requires !AlwaysFound(rs, idem, own)
    ensures MayFind(rs, idem, choice.found) && choice.found.Some? && choice.found.value != own
    ensures FindsFirst(rs, Lit(MemoryMapping), IdempotencyKey, idem, choice.found.value)
  {
    var other :| FindsFirst(rs, Lit(MemoryMapping), IdempotencyKey, idem, other) && other != own;
    choice := Choice(Some(other), None, [], Null);
  }

  lemma OneMissIsEnough(db: Tables, r: Entry, again: Fresh, choice: Choice, p: Payload)
    requires MayFind(db.records, r.idem, choice.found) && !Repeats(db, r, again, choice, p)
    ensures !AlwaysRepeats(db, r, again, p)
  {
  }

  lemma WrittenRepeatsExactlyWhen(
    first: map<Text, Row>, db: Tables, order: seq<Text>, r: Entry, gen: Fresh, p: Payload, again: Fresh)
    requires RecordsOk(db.records, order) && KeysOk(db.records) && Keeps(first, db.records) && FiledAs(first, r, gen, p)
    requires Truthy(r.idem) && SameRequest(p, r) && Get(p, MemoryId) == Str(gen.memory) && IsFresh(db, again)
    requires r.kind != Lit(UnverifiedInference) && !NeedsEvidence(r)
    ensures AlwaysRepeats(db, r, again, p) <==> NoneBefore(db.records, r.idem, r.mission, gen.mapping)
  {
    OwnServes(first, db.records, r, gen, p);
    FoundExactlyWhen(db.records, r.idem, r.mission, gen.mapping);
    MappingsAreFound(db.records, r.idem, gen.mapping);
    if AlwaysFound(db.records, r.idem, gen.mapping) {
      FoundMeansRepeats(first, db, order, r, gen, p, again);
    } else {
      MissedMeansOther(db, order, r, gen, p, again);
    }
  }

  /** However much happens after a keyed write, the same request is sure to find its record again, with
      nothing written, exactly when every mapping of the key that serves others is later than its own. */
  lemma {:induction false} ReplayAnswersExactlyWhen(moves: seq<Move>, m: Move, more: seq<Move>, again: Fresh)
    requires EngineRun(moves + [m] + more) && WentThrough(Run(moves).db, m) && Truthy(m.r.idem)
    requires IsFresh(Run(moves + [m] + more).db, again)
    ensures var db, first := Run(moves + [m] + more).db, After(Run(moves).db, m).outcome;
      first.Returned?
      && (AlwaysRepeats(db, m.r, again, first.p) <==> NoneBefore(db.records, m.r.idem, m.r.mission, m.gen.mapping))
  {
    RunKeepsRecords(moves + [m], more);
    assert (moves + [m])[..|moves + [m]| - 1] == moves;
    RunKeepsKeys(moves + [m] + more);
    WrittenThenRepeated(Run(moves).db, m, Run(moves + [m]).db, Run(moves + [m] + more).db, Run(moves + [m] + more).order, again);
  }

  lemma WrittenThenRepeated(db: Tables, m: Move, after: Tables, later: Tables, order: seq<Text>, again: Fresh)
    requires m.Wrote? && Allowed(db, m) && WentThrough(db, m) && after == After(db, m).db && Truthy(m.r.idem)
    requires RecordsOk(later.records, order) && KeysOk(later.records) && Keeps(after.records, later.records)
    requires IsFresh(later, again)
    ensures var first := After(db, m).outcome;
      first.Returned?
      && (AlwaysRepeats(later, m.r, again, first.p) <==> NoneBefore(later.records, m.r.idem, m.r.mission, m.gen.mapping))
  {
    FiledUnderKey(db, m.r, m.gen, m.choice.latest);
    NewMemoryFacts(m.r, m.gen, CommittedStatus, Truthy(m.r.evidence), m.choice.latest, [], MemoryRow);
    var p := WrittenItem(m.r, m.gen, m.choice.latest).payload;
    WrittenRepeatsExactlyWhen(after.records, later, order, m.r, m.gen, p, again);
  }

  // ---- replaying a patch ------------------------------------------------------------------------

  /** What a first patch must meet for its replay to be answered alike: it returned a committed
      record of its mission bound to the evidence it names. */
  ghost predicate PatchSettles(rs: map<Text, Row>, r: Entry, choice: Choice) {
    if choice.duplicate.Some? then
      choice.duplicate.value in rs && rs[choice.duplicate.value].body.Obj? && rs[choice.duplicate.value].mission == r.mission
      && Get(rs[choice.duplicate.value].body.p, SourceEvidenceId) == r.evidence
    else Truthy(r.evidence) && Outdated(rs, r.mission, r.key, r.content) == {}
  }

  /** The rows a first patch adds, besides an event or two. */
  ghost predicate PatchRows(rs: map<Text, Row>, r: Entry, idem: Value, gen: Fresh, choice: Choice, rs': map<Text, Row>, p: Payload) {
    OnlyAdds(rs, rs') && rs'.Keys <= rs.Keys + {gen.memory, gen.mapping, gen.conflict}
    && gen.mapping in rs'
    && rs'[gen.mapping] == FirstWrite(MappingItem(idem, r.mission, Show(Get(p, MemoryId)), gen, Show(Get(p, CreatedAt))))
    && (gen.conflict in rs' ==> rs'[gen.conflict].rtype == Lit(MemoryConflictRow))
    && if choice.duplicate.Some? then
         gen.memory !in rs' && choice.duplicate.value in rs && rs[choice.duplicate.value].body == Obj(p)
       else
         gen.memory in rs' && rs'[gen.memory] == FirstWrite(Candidate(rs, r, gen, true, choice.conflicts))
         && p == Candidate(rs, r, gen, true, choice.conflicts).payload
  }

  lemma ProposalRows(db: Tables, r: Entry, gen: Fresh, choice: Choice, made: Result)
    requires IsFresh(db, gen) && !Truthy(r.idem) && made == ProposeNew(db, r, gen, true, choice) && made.outcome.Returned?
    requires MayPick(db.records, r, choice.duplicate)
    ensures OnlyAdds(db.records, made.db.records) && made.db.records.Keys <= db.records.Keys + {gen.memory, gen.conflict}
    ensures gen.conflict in made.db.records ==> made.db.records[gen.conflict].rtype == Lit(MemoryConflictRow)
    ensures if choice.duplicate.Some? then
        gen.memory !in made.db.records && db.records[choice.duplicate.value].body == Obj(made.outcome.p)
      else
        gen.memory in made.db.records && made.db.records[gen.memory] == FirstWrite(Candidate(db.records, r, gen, true, choice.conflicts))
        && made.outcome.p == Candidate(db.records, r, gen, true, choice.conflicts).payload
  {
  }

  lemma FirstPatch(db: Tables, r: Entry, idem: Value, gen: Fresh, choice: Choice, first: Result)
    requires IsFresh(db, gen) && Truthy(idem) && !Truthy(r.idem) && first == Patch(db, r, idem, gen, choice)
    requires !(exists id :: RawMapping(db.records, idem, id)) && MayFind(db.records, idem, choice.found)
    requires first.outcome.Returned? && MayPick(db.records, r, choice.duplicate)
    ensures PatchRows(db.records, r, idem, gen, choice, first.db.records, first.outcome.p)
  {
    NewKeyPatches(db, r, idem, gen, choice);
    PatchNewRows(db, r, idem, gen, choice, first);
  }

  lemma NewKeyPatches(db: Tables, r: Entry, idem: Value, gen: Fresh, choice: Choice)
    requires Truthy(idem) && !(exists id :: RawMapping(db.records, idem, id)) && MayFind(db.records, idem, choice.found)
    ensures Patch(db, r, idem, gen, choice) == PatchNew(db, r, idem, gen, choice)
  {
    if choice.found.Some? { assert RawMapping(db.records, idem, choice.found.value); }
  }

  lemma PatchNewRows(db: Tables, r: Entry, idem: Value, gen: Fresh, choice: Choice, first: Result)
    requires IsFresh(db, gen) && Truthy(idem) && !Truthy(r.idem) && first == PatchNew(db, r, idem, gen, choice)
    requires first.outcome.Returned? && MayPick(db.records, r, choice.duplicate)
    ensures PatchRows(db.records, r, idem, gen, choice, first.db.records, first.outcome.p)
  {
    ProposalRows(db, r, gen, choice, ProposeNew(db, r, gen, true, choice));
  }

  lemma OnlyThatMapping(
    rs: map<Text, Row>, r: Entry, idem: Value, gen: Fresh, choice: Choice, rs': map<Text, Row>, p: Payload, found: Option<Text>)
    requires !(exists id :: RawMapping(rs, idem, id)) && PatchRows(rs, r, idem, gen, choice, rs', p)
    requires MayFind(rs', idem, found)
    ensures found == Some(gen.mapping)
  {
    MappingSays(idem, r.mission, Show(Get(p, MemoryId)), gen, Show(Get(p, CreatedAt)));
    assert Finds(rs', Lit(MemoryMapping), IdempotencyKey, idem, gen.mapping);
    assert found.value in rs ==> RawMapping(rs, idem, found.value);
  }

  /** Replaying a patch under its key answers as the first call did, changing nothing, exactly when
      the first call settled; a patch that was only filed as a candidate, say for want of
      evidence, makes its own replay fail. */
  lemma PatchReplaysExactlyWhen(
    s: Sys, r: Entry, idem: Value, gen: Fresh, choice: Choice, again: Fresh, later: Choice)
    requires Inv(s) && Allowed(s.db, Patched(r, idem, gen, choice)) && Truthy(idem)
    requires !exists id :: RawMapping(s.db.records, idem, id)
    requires Patch(s.db, r, idem, gen, choice).outcome.Returned?
    requires MayFind(Patch(s.db, r, idem, gen, choice).db.records, idem, later.found)
    ensures var first := Patch(s.db, r, idem, gen, choice);
      Patch(first.db, r, idem, again, later) == Result(first.db, first.outcome) <==> PatchSettles(s.db.records, r, choice)
  {
    var first := Patch(s.db, r, idem, gen, choice);
    FirstPatch(s.db, r, idem, gen, choice, first);
    OnlyThatMapping(s.db.records, r, idem, gen, choice, first.db.records, first.outcome.p, later.found);
    if choice.duplicate.Some? {
      DuplicateReplays(s, r, idem, gen, choice, first.db.records, first.outcome.p);
    } else {
      CandidateReplays(s.db, r, idem, gen, choice, first.db.records, first.outcome.p);
    }
    RepatchedIs(first.db, r, idem, gen, again, later, Repatched(first.db.records, EnvelopeOf(first.db.records, gen.mapping).value, r));
  }

  lemma RepatchedIs(db: Tables, r: Entry, idem: Value, gen: Fresh, again: Fresh, later: Choice, answer: Outcome)
    requires Truthy(idem) && later.found == Some(gen.mapping) && EnvelopeOf(db.records, gen.mapping).Some?
    requires answer == Repatched(db.records, EnvelopeOf(db.records, gen.mapping).value, r)
    ensures Patch(db, r, idem, again, later) == Result(db, answer)
  {
  }

  lemma DuplicateReplays(
    s: Sys, r: Entry, idem: Value, gen: Fresh, choice: Choice, rs': map<Text, Row>, p: Payload)
    requires Inv(s) && PatchRows(s.db.records, r, idem, gen, choice, rs', p) && choice.duplicate.Some?
    requires Duplicate(s.db.records, r, choice.duplicate.value)
    ensures EnvelopeOf(rs', gen.mapping).Some?
    ensures Repatched(rs', EnvelopeOf(rs', gen.mapping).value, r) == Returned(p) <==> PatchSettles(s.db.records, r, choice)
  {
    var id := choice.duplicate.value;
    assert Sound(id, s.db.records[id]) && rs'[id] == s.db.records[id];
    MappingSays(idem, r.mission, Show(Get(p, MemoryId)), gen, Show(Get(p, CreatedAt)));
  }

  lemma CandidateReplays(
    db: Tables, r: Entry, idem: Value, gen: Fresh, choice: Choice, rs': map<Text, Row>, p: Payload)
    requires PatchRows(db.records, r, idem, gen, choice, rs', p) && choice.duplicate.None? && Typed(r) && IsFresh(db, gen)
    requires r.kind == Lit(PatchKind) && r.confidence == 1.0
    ensures EnvelopeOf(rs', gen.mapping).Some?
    ensures Repatched(rs', EnvelopeOf(rs', gen.mapping).value, r) == Returned(p) <==> PatchSettles(db.records, r, choice)
  {
    CandidateSays(db.records, r, gen, choice.conflicts);
    MappingReads(rs', idem, r.mission, Show(Get(p, MemoryId)), gen, Show(Get(p, CreatedAt)));
    RepatchedReads(rs', EnvelopeOf(rs', gen.mapping).value, gen.memory, r, p);
  }

  /** What the mapping of a patch hands back. */
  lemma MappingReads(rs: map<Text, Row>, idem: Value, mission: Value, memory: Text, gen: Fresh, created: Text)
    requires gen.mapping in rs && rs[gen.mapping] == FirstWrite(MappingItem(idem, mission, memory, gen, created))
    ensures EnvelopeOf(rs, gen.mapping).Some?
    ensures var env := EnvelopeOf(rs, gen.mapping).value; env.mission == mission && Get(env.payload, MemoryId) == Str(memory)
  {
    MappingSays(idem, mission, memory, gen, created);
  }

  /** The record of a patch answers its replay exactly when it is committed. */
  lemma RepatchedReads(rs: map<Text, Row>, mapping: Envelope, id: Text, r: Entry, p: Payload)
    requires mapping.mission == r.mission && Get(mapping.payload, MemoryId) == Str(id)
    requires id in rs && Sound(id, rs[id]) && rs[id].body == Obj(p) && rs[id].mission == r.mission && SameRequest(p, r)
    ensures Repatched(rs, mapping, r) == if rs[id].rtype == Lit(MemoryRow) then Returned(p) else Raised(NotCommittedYet)
  {
  }

  lemma CandidateSays(rs: map<Text, Row>, r: Entry, gen: Fresh, conflicts: seq<Value>)
    requires Typed(r) && gen.created.Stamp? && gen.memory != EMPTY
    ensures var it := Candidate(rs, r, gen, true, conflicts);
      SameRequest(it.payload, r) && Get(it.payload, MemoryId) == Str(gen.memory) && Sound(gen.memory, FirstWrite(it))
  {
    var ids := Outdated(rs, r.mission, r.key, r.content);
    NewMemoryFacts(r, gen, StatusFor(r, true, ids), Commits(r, true, ids), Null, conflicts,
                   if Commits(r, true, ids) then MemoryRow else CandidateRow);
  }

  // ---- committing by hand -------------------------------------------------------------------------

  /** Another committed record of the same mission says something else under the key. */
  predicate Rivals(rs: map<Text, Row>, id: Text, other: Text)
    requires id in rs && rs[id].body.Obj?
  {
    other != id && IsMemory(rs, other) && rs[other].body.Obj? && rs[other].mission == rs[id].mission
    && Get(rs[other].body.p, Status) == Literal(CommittedStatus)
    && Get(rs[other].body.p, MemoryKey) == Get(rs[id].body.p, MemoryKey)
    && Get(rs[other].body.p, Content) != Get(rs[id].body.p, Content)
  }

  lemma BlessedRow(rs: map<Text, Row>, id: Text, rs': map<Text, Row>)
    requires id in rs && Sound(id, rs[id])
    requires rs' == SaveRecord(Tables(rs, map[]), BlessedItem(rs[id].body.p)).records
    ensures id in rs' && rs' == rs[id := rs'[id]] && IsMemory(rs', id) && rs'[id].body.Obj? && rs'[id].mission == rs[id].mission
    ensures Get(rs'[id].body.p, Status) == Literal(CommittedStatus)
    ensures Get(rs'[id].body.p, MemoryKey) == Get(rs[id].body.p, MemoryKey)
    ensures Get(rs'[id].body.p, Content) == Get(rs[id].body.p, Content)
  {
  }

  /** Committing a record by hand keeps one content per key exactly when no committed record of its
      mission says something else under its key, which `commit_candidate` does not check. */
  lemma CommitKeepsAgreementExactlyWhen(
    rs: map<Text, Row>, order: seq<Text>, id: Text, rs': map<Text, Row>)
    requires RecordsOk(rs, order) && id in rs && Sound(id, rs[id]) && Get(rs[id].body.p, MemoryKey).Str?
    requires rs' == SaveRecord(Tables(rs, map[]), BlessedItem(rs[id].body.p)).records
    ensures Agree(rs') <==> !exists other :: Rivals(rs, id, other)
  {
    BlessedRow(rs, id, rs');
    if other :| Rivals(rs, id, other) {
      var key := Get(rs[id].body.p, MemoryKey).t;
      assert HoldsAt(rs', Null, key, id) && HoldsAt(rs', Null, key, other);
    } else {
      UnrivalledAgrees(rs, id, rs');
    }
  }

  lemma UnrivalledAgrees(rs: map<Text, Row>, id: Text, rs': map<Text, Row>)
    requires Agree(rs) && id in rs && rs[id].body.Obj? && id in rs' && rs' == rs[id := rs'[id]] && IsMemory(rs', id)
    requires rs'[id].body.Obj? && rs'[id].mission == rs[id].mission
    requires Get(rs'[id].body.p, MemoryKey) == Get(rs[id].body.p, MemoryKey)
    requires Get(rs'[id].body.p, Content) == Get(rs[id].body.p, Content)
    requires forall other :: !Rivals(rs, id, other)
    ensures Agree(rs')
  {
    forall a, b, key | HoldsAt(rs', Null, key, a) && HoldsAt(rs', Null, key, b) && rs'[a].mission == rs'[b].mission
      ensures Get(rs'[a].body.p, Content) == Get(rs'[b].body.p, Content)
    {
      if a != id && b != id {
        assert HoldsAt(rs, Null, key, a) && HoldsAt(rs, Null, key, b);
      } else {
        assert !Rivals(rs, id, a) && !Rivals(rs, id, b);
      }
    }
  }

  lemma CommitIsOneSave(db: Tables, id: Text, actor: Text, trace: Text, eventId: Text, stamp: Text)
    requires CommitCandidate(db, id, actor, trace, eventId, stamp).outcome.Returned?
    ensures CommitCandidate(db, id, actor, trace, eventId, stamp).db.records
      == SaveRecord(Tables(db.records, map[]), BlessedItem(db.records[id].body.p)).records
  {
  }

  lemma RivalBreaksAgreement(db: Tables, order: seq<Text>, r: Entry, id: Text, other: Text, event: Text, stamp: Text)
    requires RecordsOk(db.records, order) && id in db.records && Sound(id, db.records[id])
    requires SameRequest(db.records[id].body.p, r) && r.kind != Lit(UnverifiedInference)
    requires Get(db.records[id].body.p, ConflictKeys) == List([]) && Rivals(db.records, id, other)
    ensures var after := CommitCandidate(db, id, Lit(Governance), r.trace, event, stamp);
      after.outcome.Returned? && !Agree(after.db.records)
  {
    var after := CommitCandidate(db, id, Lit(Governance), r.trace, event, stamp);
    CommitIsOneSave(db, id, Lit(Governance), r.trace, event, stamp);
    CommitKeepsAgreementExactlyWhen(db.records, order, id, after.db.records);
  }

  /** It happens: a candidate proposed first, another content written for good, then the candidate
      committed by hand leave the key with two contents. */
  lemma CommitCanBreakAgreement(r: Entry, content: Text, g1: Fresh, c1: Choice, g2: Fresh, c2: Choice, event: Text)
    requires r.kind != Lit(UnverifiedInference) && !NeedsEvidence(r.(content := content)) && r.idem == Null && Typed(r)
    requires !Blank(r.key) && !Blank(r.content) && 0.0 <= r.confidence <= 1.0 && content != r.content
    requires EngineRun([Proposed(r, g1, false, c1), Wrote(r.(content := content), g2, c2)])
    ensures var db := Run([Proposed(r, g1, false, c1), Wrote(r.(content := content), g2, c2)]).db;
      var after := CommitCandidate(db, g1.memory, Lit(Governance), r.trace, event, g2.stamp);
      after.outcome.Returned? && !Agree(after.db.records)
  {
    var first, second := Proposed(r, g1, false, c1), Wrote(r.(content := content), g2, c2);
    var moves := [first, second];
    assert moves[..1] == [first] && moves[1] == second && [first][..0] == [] && [first][0] == first;
    RunKeepsInv(moves);
    TwoContents(r, content, g1, c1, g2, c2, Run([first]).db, Run(moves).db);
    RivalBreaksAgreement(Run(moves).db, Run(moves).order, r, g1.memory, g2.memory, event, g2.stamp);
  }

  lemma TwoContents(r: Entry, content: Text, g1: Fresh, c1: Choice, g2: Fresh, c2: Choice, db1: Tables, db2: Tables)
    requires r.kind != Lit(UnverifiedInference) && !NeedsEvidence(r.(content := content)) && r.idem == Null && Typed(r)
    requires !Blank(r.key) && !Blank(r.content) && 0.0 <= r.confidence <= 1.0 && content != r.content
    requires Allowed(Tables(map[], map[]), Proposed(r, g1, false, c1))
    requires db1 == Propose(Tables(map[], map[]), r, g1, false, c1).db
    requires Allowed(db1, Wrote(r.(content := content), g2, c2)) && db2 == Write(db1, r.(content := content), g2, c2).db
    ensures g1.memory in db2.records && Sound(g1.memory, db2.records[g1.memory])
    ensures var p := db2.records[g1.memory].body.p;
      SameRequest(p, r) && Get(p, ConflictKeys) == List([])
    ensures Rivals(db2.records, g1.memory, g2.memory)
  {
    ProposedOnEmpty(r, g1, c1, db1);
    var w := r.(content := content);
    NewMemoryFacts(w, g2, CommittedStatus, Truthy(w.evidence), c2.latest, [], MemoryRow);
    FiledBeside(db1, w, g2, c2.latest, g1.memory);
  }

  lemma ProposedOnEmpty(r: Entry, gen: Fresh, choice: Choice, db: Tables)
    requires !Blank(r.key) && !Blank(r.content) && 0.0 <= r.confidence <= 1.0 && r.idem == Null
    requires Allowed(Tables(map[], map[]), Proposed(r, gen, false, choice))
    requires db == Propose(Tables(map[], map[]), r, gen, false, choice).db
    ensures gen.memory in db.records && db.records[gen.memory].rtype == Lit(CandidateRow)
    ensures Sound(gen.memory, db.records[gen.memory]) && db.records[gen.memory].mission == r.mission
    ensures SameRequest(db.records[gen.memory].body.p, r) && Get(db.records[gen.memory].body.p, ConflictKeys) == List([])
  {
    FiledOnEmpty(r, gen, choice, db);
    PlainCandidate(r, gen, db.records[gen.memory]);
  }

  lemma PlainCandidate(r: Entry, gen: Fresh, row: Row)
    requires Typed(r) && gen.created.Stamp? && gen.memory != EMPTY
    requires row == FirstWrite(MemoryItem(CandidateRow, r, gen, NewMemory(r, gen, CandidateStatus, false, Null, [])))
    ensures row.rtype == Lit(CandidateRow) && row.mission == r.mission && Sound(gen.memory, row)
    ensures SameRequest(row.body.p, r) && Get(row.body.p, ConflictKeys) == List([])
  {
    var p := NewMemory(r, gen, CandidateStatus, false, Null, []);
    NewMemoryFacts(r, gen, CandidateStatus, false, Null, [], CandidateRow);
    NewMemoryAt(ConflictKeys, r, gen, CandidateStatus, false, Null, []);
    ItemColumns(CandidateRow, r, gen, p);
  }

  lemma ItemColumns(rtype: Word, r: Entry, gen: Fresh, p: Payload)
    ensures var row := FirstWrite(MemoryItem(rtype, r, gen, p));
      row.rtype == Lit(rtype) && row.mission == r.mission && row.body == Obj(p)
  {
  }

  lemma FiledOnEmpty(r: Entry, gen: Fresh, choice: Choice, db: Tables)
    requires !Blank(r.key) && !Blank(r.content) && 0.0 <= r.confidence <= 1.0 && r.idem == Null
    requires MayPick(map[], r, choice.duplicate) && ListsAll(choice.conflicts, Outdated(map[], r.mission, r.key, r.content))
    requires db == Propose(Tables(map[], map[]), r, gen, false, choice).db
    ensures gen.memory in db.records
    ensures db.records[gen.memory]
      == FirstWrite(MemoryItem(CandidateRow, r, gen, NewMemory(r, gen, CandidateStatus, false, Null, [])))
  {
    var ids := Outdated(map[], r.mission, r.key, r.content);
    assert ids == {} && choice.conflicts == [];
  }

  lemma FiledBeside(db: Tables, r: Entry, gen: Fresh, latest: Value, id: Text)
    requires IsFresh(db, gen) && r.idem == Null && id in db.records && db.records[id].rtype != Lit(MemoryRow)
    ensures var rs := Committing(db, r, gen, latest).records;
      id in rs && rs[id] == db.records[id] && gen.memory in rs && rs[gen.memory] == FirstWrite(WrittenItem(r, gen, latest))
  {
  }
}
