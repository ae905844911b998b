/** Runs that calls can really make, from an empty store, in which a memory promise fails. */
module MemoryCases {
  import opened Ledger
  import opened StoreSpec
  import opened MemoryRules
  import opened MemoryRuns
  import opened MemoryGuarantees
  import opened MemoryKeys
  import opened MemoryReplay
  import opened Knowledge

  // ---- building runs ------------------------------------------------------------------------

  /** What the n-th call generates. */
  function FreshAt(n: int): Fresh {
    Fresh(Key(MemoryRow, Stamp(n)), Key(MemoryMapping, Stamp(n)), Key(MemoryConflictRow, Stamp(n)),
          Key(MemoryWritten, Stamp(n)), Key(ConflictDetected, Stamp(n)), Stamp(n), Stamp(n))
  }

  predicate Earlier(id: Text, n: int) {
    id.Key? && id.of.Stamp? && id.of.at < n
  }

  ghost predicate UsedUpTo(db: Tables, n: int) {
    (forall id :: id in db.records ==> Earlier(id, n)) && (forall id :: id in db.events ==> Earlier(id, n))
  }

  lemma NextIsFresh(db: Tables, n: int)
    requires UsedUpTo(db, n)
    ensures IsFresh(db, FreshAt(n))
  {
  }

  lemma WritingUses(db: Tables, r: Entry, n: int, latest: Value)
    requires UsedUpTo(db, n)
    ensures UsedUpTo(Committing(db, r, FreshAt(n), latest), n + 1)
  {
  }

  /** Whatever a call may be handed by its searches. */
  lemma AnyChoice(s: Sys, r: Entry, idem: Value) returns (choice: Choice)
    requires Inv(s)
    ensures Possible(s.db.records, r, idem, choice)
  {
    var rs := s.db.records;
    var ids := Outdated(rs, r.mission, r.key, r.content);
    forall id | id in ids ensures id in rs && rs[id].created.Stamp? {
      assert Sound(id, rs[id]);
    }
    var conflicts := SomeListing(ids);
    var latest := SomeNewest(rs, ids);
    var found := AnyFound(rs, idem);
    if id :| Duplicate(rs, r, id) {
      choice := Choice(found, Some(id), conflicts, latest);
    } else {
      choice := Choice(found, None, conflicts, latest);
    }
  }

  lemma AnyFound(rs: map<Text, Row>, idem: Value) returns (found: Option<Text>)
    ensures MayFind(rs, idem, found)
  {
    var all := set id | id in rs && Finds(rs, Lit(MemoryMapping), IdempotencyKey, idem, id);
    if all == {} {
      found := None;
      forall id ensures !Finds(rs, Lit(MemoryMapping), IdempotencyKey, idem, id) {
        assert id !in all;
      }
    } else {
      OneIsOldest(rs, all);
      var id :| id in all && Oldest(rs, all, id);
      found := Some(id);
    }
  }

  function Start(): Sys {
    Sys(Tables(map[], map[]), [])
  }

  lemma {:induction false} StepRun(moves: seq<Move>, m: Move)
    requires EngineRun(moves) && Allowed(Run(moves).db, m)
    ensures EngineRun(moves + [m]) && Run(moves + [m]) == Do(Run(moves), m)
  {
    assert (moves + [m])[..|moves + [m]| - 1] == moves;
  }

  /** A write that is no replay, as the n-th call. */
  ghost predicate Plain(r: Entry) {
    Typed(r) && r.kind != Lit(UnverifiedInference) && !NeedsEvidence(r)
  }

  lemma WriteInState(s: Sys, n: int, r: Entry) returns (m: Move)
    requires Inv(s) && UsedUpTo(s.db, n) && Plain(r)
    ensures m.Wrote? && m.r == r && m.gen == FreshAt(n) && Allowed(s.db, m) && UsedUpTo(Do(s, m).db, n + 1)
  {
    var choice := AnyChoice(s, r, r.idem);
    NextIsFresh(s.db, n);
    m := Wrote(r, FreshAt(n), choice);
    PlainWriteCommits(s.db, r, m.gen, choice);
    WritingUses(s.db, r, n, choice.latest);
  }

  lemma PlainWriteCommits(db: Tables, r: Entry, gen: Fresh, choice: Choice)
    requires Plain(r)
    ensures Write(db, r, gen, choice).db == db || Write(db, r, gen, choice).db == Committing(db, r, gen, choice.latest)
  {
  }

  lemma {:induction false} WriteNext(moves: seq<Move>, n: int, r: Entry) returns (m: Move)
    requires EngineRun(moves) && UsedUpTo(Run(moves).db, n) && Plain(r)
    ensures m.Wrote? && m.r == r && m.gen == FreshAt(n) && Allowed(Run(moves).db, m)
    ensures EngineRun(moves + [m]) && Run(moves + [m]) == Do(Run(moves), m) && UsedUpTo(Run(moves + [m]).db, n + 1)
  {
    RunKeepsInv(moves);
    m := WriteInState(Run(moves), n, r);
    StepRun(moves, m);
  }

  lemma {:induction false} WriteFirst(r: Entry) returns (m: Move)
    requires Plain(r)
    ensures m.Wrote? && m.r == r && m.gen == FreshAt(0) && Allowed(Start().db, m)
    ensures EngineRun([m]) && Run([m]) == Do(Start(), m) && UsedUpTo(Run([m]).db, 1)
  {
    m := WriteNext([], 0, r);
    assert [] + [m] == [m];
  }

  // ---- a key used by two missions -----------------------------------------------------------------

  /** The oldest mapping of the key belongs to another mission, and no other is as old. */
  ghost predicate Blocked(rs: map<Text, Row>, idem: Value, mission: Value, x: Text) {
    RawMapping(rs, idem, x) && !Serves(rs, x, mission)
    && forall y :: RawMapping(rs, idem, y) && y != x ==> !NotAfter(rs, y, x)
  }

  lemma BlockedFinds(s: Sys, idem: Value, mission: Value, x: Text, found: Option<Text>)
    requires Inv(s) && Blocked(s.db.records, idem, mission, x) && MayFind(s.db.records, idem, found)
    ensures found == Some(x) && Bound(s.db.records, found, mission).None?
  {
    MappingsAreFound(s.db.records, idem, x);
    if found.Some? { assert RawMapping(s.db.records, idem, found.value); }
    BoundExactlyWhen(s.db.records, s.order, idem, found, mission);
  }

  lemma BlockedWrites(s: Sys, m: Move, x: Text)
    requires Inv(s) && m.Wrote? && Allowed(s.db, m) && Plain(m.r) && Truthy(m.r.idem)
    requires Blocked(s.db.records, m.r.idem, m.r.mission, x)
    ensures Do(s, m).db == Committing(s.db, m.r, m.gen, m.choice.latest)
  {
    BlockedFinds(s, m.r.idem, m.r.mission, x, m.choice.found);
  }

  /** The new mapping is younger, so the next repeat is blocked as well. */
  lemma YoungerStillBlocked(rs: map<Text, Row>, rs': map<Text, Row>, idem: Value, mission: Value, x: Text, n: Text)
    requires MappingsOk(rs) && Blocked(rs, idem, mission, x) && rs[x].created.Stamp? && n !in rs
    requires forall y :: IsMapping(rs', y) && y != n ==> IsMapping(rs, y) && rs'[y] == rs[y]
    requires forall y :: y in rs && Ours(rs[y]) ==> y in rs' && rs'[y].mission == rs[y].mission
    requires x in rs' && rs'[x] == rs[x]
    requires n in rs' && rs'[n].created.Stamp? && rs[x].created.at < rs'[n].created.at
    ensures Blocked(rs', idem, mission, x)
  {
    ServesStill(rs, rs', x, mission);
    forall y | RawMapping(rs', idem, y) && y != x ensures !NotAfter(rs', y, x) {
      if y != n { assert RawMapping(rs, idem, y); }
    }
  }

  lemma StillBlocked(s: Sys, r: Entry, gen: Fresh, latest: Value, x: Text)
    requires Inv(s) && IsFresh(s.db, gen) && Plain(r) && Truthy(r.idem) && Blocked(s.db.records, r.idem, r.mission, x)
    requires s.db.records[x].created.Stamp? && s.db.records[x].created.at < gen.created.at
    ensures Blocked(Committing(s.db, r, gen, latest).records, r.idem, r.mission, x)
  {
    var rs, rs' := s.db.records, Committing(s.db, r, gen, latest).records;
    CommittingKeeps(s.db, r, gen, latest);
    FiledUnderKey(s.db, r, gen, latest);
    CommittingMaps(s.db, r, gen, latest);
    assert KeepsRecord(rs[x], rs'[x]);
    YoungerStillBlocked(rs, rs', r.idem, r.mission, x, gen.mapping);
  }

  lemma CommittingMaps(db: Tables, r: Entry, gen: Fresh, latest: Value)
    requires RowsSound(db.records) && IsFresh(db, gen)
    ensures var rs, rs' := db.records, Committing(db, r, gen, latest).records;
      (forall y :: IsMapping(rs', y) && y != gen.mapping ==> IsMapping(rs, y) && rs'[y] == rs[y])
      && (forall y :: y in rs && Ours(rs[y]) ==> y in rs' && rs'[y].mission == rs[y].mission)
  {
    SavedAsSuperseded(db, r, gen, latest);
    var row := FirstWrite(WrittenItem(r, gen, latest));
    SupersededSameMappings(db.records, gen.memory, row, r.key, r.content,
                           Superseded(db.records, gen.memory, row, r.key, r.content));
  }

  lemma KeptAsItWas(db: Tables, r: Entry, gen: Fresh, latest: Value, id: Text)
    requires RowsSound(db.records) && IsFresh(db, gen) && id in db.records
    requires id !in Outdated(db.records, r.mission, r.key, r.content)
    ensures var rs := Committing(db, r, gen, latest).records; id in rs && rs[id] == db.records[id]
  {
    SavedAsSuperseded(db, r, gen, latest);
    SupersededCarries(db.records, gen.memory, FirstWrite(WrittenItem(r, gen, latest)), r.key, r.content, id);
  }

  /** What a write leaves of its own record, and of one that already said the same. */
  lemma WrittenHolds(db: Tables, r: Entry, gen: Fresh, latest: Value)
    requires RowsSound(db.records) && IsFresh(db, gen) && Plain(r) && OptionalText(latest)
    ensures SaysSo(Committing(db, r, gen, latest).records, r, gen.memory)
    ensures forall id :: SaysSo(db.records, r, id) ==> SaysSo(Committing(db, r, gen, latest).records, r, id)
  {
    CommittedRecords(db, r, gen, latest, gen.memory);
    forall id | SaysSo(db.records, r, id) ensures SaysSo(Committing(db, r, gen, latest).records, r, id) {
      KeptAsItWas(db, r, gen, latest, id);
    }
  }

  /** Committed in the mission under the key, and it says the content. */
  predicate SaysSo(rs: map<Text, Row>, r: Entry, id: Text) {
    HoldsAt(rs, r.mission, r.key, id) && !Differs(rs[id].body.p, r.content)
  }

  lemma FirstWriteBlocks(r: Entry, gen: Fresh, latest: Value, mission: Value)
    requires IsFresh(Start().db, gen) && Truthy(r.idem) && mission != r.mission
    ensures var rs := Committing(Start().db, r, gen, latest).records;
      Blocked(rs, r.idem, mission, gen.mapping) && gen.mapping in rs && rs[gen.mapping].created == gen.created
  {
    FiledUnderKey(Start().db, r, gen, latest);
    MappingSays(r.idem, r.mission, gen.memory, gen, gen.created);
    CommittingMaps(Start().db, r, gen, latest);
  }

  lemma FirstWriteCommits(m: Move)
    requires m.Wrote? && Plain(m.r) && Allowed(Start().db, m)
    ensures Do(Start(), m).db == Committing(Start().db, m.r, m.gen, m.choice.latest)
  {
  }

  /** Each repeat of a blocked call is written once more, and the next is blocked as well. */
  lemma {:induction false} BlockedNext(moves: seq<Move>, n: int, r: Entry, x: Text) returns (m: Move)
    requires EngineRun(moves) && UsedUpTo(Run(moves).db, n) && Plain(r) && Truthy(r.idem)
    requires Blocked(Run(moves).db.records, r.idem, r.mission, x)
    requires x in Run(moves).db.records && Run(moves).db.records[x].created.Stamp? && Run(moves).db.records[x].created.at < n
    ensures m.Wrote? && m.r == r && m.gen == FreshAt(n) && EngineRun(moves + [m])
    ensures var rs := Run(moves + [m]).db.records;
      UsedUpTo(Run(moves + [m]).db, n + 1) && Blocked(rs, r.idem, r.mission, x)
      && x in rs && rs[x] == Run(moves).db.records[x]
      && SaysSo(rs, r, m.gen.memory) && forall id :: SaysSo(Run(moves).db.records, r, id) ==> SaysSo(rs, r, id)
  {
    m := WriteNext(moves, n, r);
    RunKeepsInv(moves);
    BlockedStep(Run(moves), m, x);
  }

  lemma BlockedStep(s: Sys, m: Move, x: Text)
    requires Inv(s) && m.Wrote? && Allowed(s.db, m) && Plain(m.r) && Truthy(m.r.idem)
    requires Blocked(s.db.records, m.r.idem, m.r.mission, x)
    requires x in s.db.records && s.db.records[x].created.Stamp? && s.db.records[x].created.at < m.gen.created.at
    ensures var rs := Do(s, m).db.records;
      Blocked(rs, m.r.idem, m.r.mission, x) && x in rs && rs[x] == s.db.records[x]
      && SaysSo(rs, m.r, m.gen.memory) && forall id :: SaysSo(s.db.records, m.r, id) ==> SaysSo(rs, m.r, id)
  {
    BlockedWrites(s, m, x);
    StillBlocked(s, m.r, m.gen, m.choice.latest, x);
    WrittenHolds(s.db, m.r, m.gen, m.choice.latest);
    CommittingKeeps(s.db, m.r, m.gen, m.choice.latest);
    assert KeepsRecord(s.db.records[x], Do(s, m).db.records[x]);
  }

  lemma {:induction false} FirstNext(r: Entry, other: Value) returns (m: Move)
    requires Plain(r) && Truthy(r.idem) && other != r.mission
    ensures m.Wrote? && m.r == r && m.gen == FreshAt(0) && EngineRun([m]) && UsedUpTo(Run([m]).db, 1)
    ensures var rs, x := Run([m]).db.records, FreshAt(0).mapping;
      Blocked(rs, r.idem, other, x) && x in rs && rs[x].created == Stamp(0)
  {
    m := WriteFirst(r);
    FirstWriteCommits(m);
    FirstWriteBlocks(r, FreshAt(0), m.choice.latest, other);
  }

  /** A mission writes under a key, another mission writes under it and repeats its call word for
      word: the repeat is written again, and the mission has two records for one request. */
  lemma {:induction false} RepeatIsWrittenAgain(r: Entry, other: Value)
    returns (one: seq<Move>, first: Move, repeated: Move)
    requires Plain(r) && Plain(r.(mission := other)) && Truthy(r.idem) && other != r.mission
    ensures |one| == 1 && one[0].Wrote? && one[0].r == r && EngineRun(one + [first] + [repeated])
    ensures first.Wrote? && repeated.Wrote? && first.r == repeated.r == r.(mission := other)
    ensures var rs := Run(one + [first] + [repeated]).db.records;
      first.gen.memory != repeated.gen.memory && SaysSo(rs, first.r, first.gen.memory) && SaysSo(rs, first.r, repeated.gen.memory)
  {
    var m := FirstNext(r, other);
    one := [m];
    first := BlockedNext(one, 1, r.(mission := other), FreshAt(0).mapping);
    repeated := BlockedNext(one + [first], 2, r.(mission := other), FreshAt(0).mapping);
  }

  // ---- a patch that only became a candidate ---------------------------------------------------------

  ghost predicate CanPatch(mission: Value, key: Text, content: Text, idem: Value) {
    mission.Str? && !Blank(key) && !Blank(content) && idem.Str? && Truthy(idem)
  }

  lemma PatchIsFiled(r: Entry, idem: Value, choice: Choice)
    requires r.mission.Str? && !Blank(r.key) && !Blank(r.content) && Truthy(idem) && r.evidence == Null
    requires r == PatchRequest(r.mission, r.key, r.content, r.trace, Null) && Possible(map[], r, idem, choice)
    ensures choice.duplicate.None? && choice.found.None?
    ensures var first := Patch(Start().db, r, idem, FreshAt(0), choice);
      first == PatchNew(Start().db, r, idem, FreshAt(0), choice) && first.outcome.Returned?
  {
  }

  lemma CandidateIsRefused(rs: map<Text, Row>, r: Entry, idem: Value, gen: Fresh, choice: Choice, rs': map<Text, Row>, p: Payload)
    requires PatchRows(rs, r, idem, gen, choice, rs', p) && choice.duplicate.None? && Typed(r) && !Truthy(r.evidence)
    requires gen.created.Stamp? && gen.memory != EMPTY && gen.mapping != EMPTY
    ensures EnvelopeOf(rs', gen.mapping).Some?
    ensures Repatched(rs', EnvelopeOf(rs', gen.mapping).value, r) == Raised(NotCommittedYet)
  {
    CandidateSays(rs, r, gen, choice.conflicts);
    MappingSays(idem, r.mission, Show(Get(p, MemoryId)), gen, Show(Get(p, CreatedAt)));
  }

  /** On an empty store a patch without evidence returns a candidate; repeated under its key it is
      refused, whatever the repeat generates. */
  lemma {:induction false} PatchCannotBeRepeated(mission: Value, key: Text, content: Text, trace: Text, idem: Value)
    returns (m: Move)
    requires CanPatch(mission, key, content, idem)
    ensures m.Patched? && m.r == PatchRequest(mission, key, content, trace, Null) && m.idem == idem
    ensures EngineRun([m]) && After(Start().db, m).outcome.Returned?
    ensures forall again: Fresh, later: Choice {:trigger Patch(Run([m]).db, m.r, idem, again, later)} ::
      MayFind(Run([m]).db.records, idem, later.found) ==>
        Patch(Run([m]).db, m.r, idem, again, later) == Result(Run([m]).db, Raised(NotCommittedYet))
  {
    var r := PatchRequest(mission, key, content, trace, Null);
    assert Inv(Start());
    var choice := AnyChoice(Start(), r, idem);
    NextIsFresh(Start().db, 0);
    m := Patched(r, idem, FreshAt(0), choice);
    StepRun([], m);
    assert [] + [m] == [m];
    PatchIsFiled(r, idem, choice);
    var first := Patch(Start().db, r, idem, FreshAt(0), choice);
    assert Run([m]).db == first.db;
    forall again: Fresh, later: Choice | MayFind(first.db.records, idem, later.found)
      ensures Patch(first.db, r, idem, again, later) == Result(first.db, Raised(NotCommittedYet))
    {
      RepeatIsRefused(r, idem, choice, first, again, later);
    }
  }

  lemma RepeatIsRefused(r: Entry, idem: Value, choice: Choice, first: Result, again: Fresh, later: Choice)
    requires r.mission.Str? && Typed(r) && !Truthy(r.evidence) && !Truthy(r.idem) && Truthy(idem)
    requires first == Patch(Start().db, r, idem, FreshAt(0), choice) && first.outcome.Returned?
    requires Possible(map[], r, idem, choice) && choice.duplicate.None? && MayFind(first.db.records, idem, later.found)
    ensures Patch(first.db, r, idem, again, later) == Result(first.db, Raised(NotCommittedYet))
  {
    NextIsFresh(Start().db, 0);
    FirstPatch(Start().db, r, idem, FreshAt(0), choice, first);
    OnlyThatMapping(map[], r, idem, FreshAt(0), choice, first.db.records, first.outcome.p, later.found);
    CandidateIsRefused(map[], r, idem, FreshAt(0), choice, first.db.records, first.outcome.p);
    RepatchedIs(first.db, r, idem, FreshAt(0), again, later, Raised(NotCommittedYet));
  }

  // ---- two missions, one key, two contents ------------------------------------------------------------

  lemma UnkeyedWriteCommits(s: Sys, m: Move)
    requires m.Wrote? && Plain(m.r) && m.r.idem == Null
    ensures Do(s, m).db == Committing(s.db, m.r, m.gen, m.choice.latest)
  {
  }

  /** In the scope of all missions the report now misses the other mission's record. */
  ghost predicate Misses(rs: map<Text, Row>, key: Text, content: Text, missed: Text) {
    AllFiled(rs) && missed in Outdated(rs, Null, key, content)
    && forall ids :: Listing(rs, Lit(MemoryRow), Null, ids) ==> Predicted(Detect(PayloadsOf(rs, ids), key, content)) == []
  }

  lemma TwoContentsMiss(rs: map<Text, Row>, order: seq<Text>, r: Entry, r': Entry, a: Text, b: Text)
    requires RecordsOk(rs, order) && SaysSo(rs, r, a) && SaysSo(rs, r', b) && r.key == r'.key && r.content != r'.content
    ensures Misses(rs, r.key, r.content, b)
  {
    InvFiles(rs, order);
    assert HoldsAt(rs, Null, r.key, a) && HoldsAt(rs, Null, r.key, b);
    forall ids | Listing(rs, Lit(MemoryRow), Null, ids) ensures Predicted(Detect(PayloadsOf(rs, ids), r.key, r.content)) == [] {
      GlobalPredictionCanMiss(rs, ids, r.key, a, b);
    }
  }

  lemma {:induction false} OneWrite(r: Entry) returns (m: Move)
    requires Plain(r) && r.idem == Null
    ensures m.Wrote? && m.r == r && EngineRun([m]) && UsedUpTo(Run([m]).db, 1)
    ensures SaysSo(Run([m]).db.records, r, m.gen.memory) && Run([m]).db.records[m.gen.memory].mission == r.mission
  {
    m := WriteFirst(r);
    WrittenOnEmpty(m);
  }

  lemma WrittenOnEmpty(m: Move)
    requires m.Wrote? && Plain(m.r) && m.r.idem == Null && Allowed(Start().db, m)
    ensures var rs := Do(Start(), m).db.records;
      SaysSo(rs, m.r, m.gen.memory) && rs[m.gen.memory].mission == m.r.mission
  {
    UnkeyedWriteCommits(Start(), m);
    WrittenHolds(Start().db, m.r, m.gen, m.choice.latest);
    CommittedRecords(Start().db, m.r, m.gen, m.choice.latest, m.gen.memory);
  }

  /** Two missions write different contents under one key: asked about the first content without a
      mission, the report predicts nothing, though the next such write retires the second record. */
  lemma {:induction false} TwoMissionsAreMissed(r: Entry, other: Value, content: Text)
    returns (one: seq<Move>, m: Move)
    requires var r' := r.(mission := other, content := content); Plain(r) && Plain(r') && r.idem == Null
    requires other != r.mission && Truthy(other) && content != r.content
    ensures |one| == 1 && one[0].Wrote? && one[0].r == r && m.Wrote? && m.r == r.(mission := other, content := content)
    ensures EngineRun(one + [m]) && Misses(Run(one + [m]).db.records, r.key, r.content, m.gen.memory)
  {
    var m0 := OneWrite(r);
    one := [m0];
    m := WriteNext(one, 1, r.(mission := other, content := content));
    RunKeepsInv(one);
    RunKeepsInv(one + [m]);
    SecondContent(Run(one), r, m, m0.gen.memory);
    TwoContentsMiss(Run(one + [m]).db.records, Run(one + [m]).order, r, m.r, m0.gen.memory, m.gen.memory);
  }

  lemma SecondContent(s: Sys, r: Entry, m: Move, a: Text)
    requires Inv(s) && m.Wrote? && Plain(m.r) && m.r.idem == Null && Allowed(s.db, m) && SaysSo(s.db.records, r, a)
    requires m.r.mission != r.mission && Truthy(m.r.mission) && s.db.records[a].mission == r.mission
    ensures SaysSo(Do(s, m).db.records, r, a) && SaysSo(Do(s, m).db.records, m.r, m.gen.memory)
  {
    UnkeyedWriteCommits(s, m);
    WrittenHolds(s.db, m.r, m.gen, m.choice.latest);
    KeptAsItWas(s.db, m.r, m.gen, m.choice.latest, a);
  }
}
