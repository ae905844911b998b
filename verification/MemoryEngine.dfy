/** The memory kernel and the knowledge service on the live store. */
module MemoryEngine {
  import opened Ledger
  import opened StoreSpec
  import opened Sqlite
  import opened Bus
  import opened MemoryRules
  import opened MemoryRuns
  import MemoryGuarantees
  import MemoryReplay
  import A = MemoryAnswers
  import opened Knowledge

  /** A memory row as the kernel files it; its seal may be damaged. */
  predicate Filed(id: Text, row: Row) {
    row.body.Obj? && Get(row.body.p, MemoryId) == Str(id) && Get(row.body.p, MissionId) == row.mission
    && Get(row.body.p, CreatedAt) == Str(row.created) && row.created.Stamp?
  }

  ghost predicate Shelf(records: map<Text, Row>) {
    forall id :: IsMemory(records, id) ==> Filed(id, records[id])
  }

  // ---- lemmas about the loops -------------------------------------------------------------------

  lemma ShelfIsReadable(records: map<Text, Row>)
    requires Shelf(records)
    ensures Readable(records, Lit(MemoryRow)) && AllFiled(records)
  {
    forall id | id in records && records[id].rtype == Lit(MemoryRow) ensures Filed(id, records[id]) {
      assert IsMemory(records, id);
    }
  }

  lemma RetireOneMore(records: map<Text, Row>, done: set<Text>, id: Text, successor: Text)
    requires IsMemory(records, id) && Filed(id, records[id]) && id !in done
    ensures var p := records[id].body.p;
      var it := Item(id, Lit(MemoryRow), Get(p, MissionId), records[id].created, Retired(p, successor));
      SaveRecord(Tables(RetireAll(records, done, successor), map[]), it).records == RetireAll(records, done + {id}, successor)
  {
  }

  lemma RetiringKeepsShelf(records: map<Text, Row>, ids: set<Text>, successor: Text)
    requires Shelf(records)
    ensures Shelf(RetireAll(records, ids, successor))
  {
    forall id | IsMemory(RetireAll(records, ids, successor), id) ensures Filed(id, RetireAll(records, ids, successor)[id]) {
      assert IsMemory(records, id) && Filed(id, records[id]);
    }
  }

  lemma NewRowKeepsShelf(records: map<Text, Row>, it: Item)
    requires Shelf(records) && it.id !in records && (it.rtype == Lit(MemoryRow) ==> Filed(it.id, FirstWrite(it)))
    ensures Shelf(SaveRecord(Tables(records, map[]), it).records)
  {
    forall id | IsMemory(SaveRecord(Tables(records, map[]), it).records, id)
      ensures Filed(id, SaveRecord(Tables(records, map[]), it).records[id])
    {
      if id != it.id { assert IsMemory(records, id); }
    }
  }

  /** Whatever a call does not look for still has a possible value. */
  lemma SomeChoice(records: map<Text, Row>, r: Entry, found: Option<Text>) returns (choice: Choice)
    requires Shelf(records)
    ensures choice.found == found && MayPick(records, r, choice.duplicate)
    ensures ListsAll(choice.conflicts, Outdated(records, r.mission, r.key, r.content))
    ensures Newest(records, Outdated(records, r.mission, r.key, r.content), choice.latest)
  {
    var ids := Outdated(records, r.mission, r.key, r.content);
    forall id | id in ids ensures id in records && records[id].created.Stamp? {
      assert IsMemory(records, id) && Filed(id, records[id]);
    }
    var conflicts := SomeListing(ids);
    var latest := SomeNewest(records, ids);
    if id :| Duplicate(records, r, id) {
      choice := Choice(found, Some(id), conflicts, latest);
    } else {
      choice := Choice(found, None, conflicts, latest);
    }
  }

  /** Once no bound record answers, it does not matter which mapping the search found. */
  lemma FoundIsNotRead(db: Tables, r: Entry, gen: Fresh, choice: Choice, found: Option<Text>)
    ensures WriteNew(db, r, gen, choice.(found := found)) == WriteNew(db, r, gen, choice)
  {
  }

  lemma NewPatch(db: Tables, r: Entry, idem: Value, gen: Fresh, choice: Choice, found: Option<Text>)
    requires PatchAnswer(db.records, r, idem, found).None?
    ensures MemoryRules.Patch(db, r, idem, gen, choice.(found := found)) == PatchNew(db, r, idem, gen, choice)
  {
    assert PatchNew(db, r, idem, gen, choice.(found := found)) == PatchNew(db, r, idem, gen, choice);
  }

  class MemoryKernel {
    const store: SQLiteStore
    const bus: EventBus

    ghost predicate Valid()
      reads this, bus, store
    {
      bus.store == store && bus.Valid() && Shelf(store.records)
    }

    constructor (store: SQLiteStore, bus: EventBus)
      requires bus.store == store && bus.Valid() && Shelf(store.records)
      ensures Valid() && this.store == store && this.bus == bus
    {
      this.store := store;
      this.bus := bus;
    }

    method Inspect(mission: Value) returns (all: seq<Payload>, ghost ids: seq<Text>)
      requires Shelf(store.records)
      ensures Inspects(store.records, mission, ids) && all == PayloadsOf(store.records, ids)
      ensures forall i :: 0 <= i < |all| ==> ids[i] in ids && ListedAt(store.records, Lit(MemoryRow), mission, ids[i])
    {
      ShelfIsReadable(store.records);
      all, ids := store.ListRecords(Lit(MemoryRow), mission);
    }

    method Validates(p: Payload) returns (ok: bool)
      ensures ok == Parses(p)
    {
      if p.Keys != MEMORY_FIELDS {
        if Parses(p) { assert forall f :: f in p <==> IsField(f); }
        return false;
      }
      ok := forall f :: f in p ==> WellTyped(f, p[f]);
      if Parses(p) {
        forall f | f in p ensures WellTyped(f, p[f]) { assert IsField(f); }
      }
    }

    /** The search for the key's mapping and the record it binds. */
    method FindBound(idem: Value, mission: Value) returns (bound: Option<Envelope>, ghost found: Option<Text>)
      ensures MayFind(store.records, idem, found) && bound == Bound(store.records, found, mission)
    {
      var mapping := store.FindRecordEnvelope(Lit(MemoryMapping), IdempotencyKey, idem);
      found := if mapping.Some? then Some(mapping.value.id) else None;
      if mapping.None? || mapping.value.mission != mission || !Truthy(Get(mapping.value.payload, MemoryId)) {
        return None, found;
      }
      var memory := store.GetRecordEnvelope(Show(Get(mapping.value.payload, MemoryId)));
      return if memory.Some? && memory.value.mission == mission then memory else None, found;
    }

    method Replay(p: Payload, r: Entry) returns (outcome: Outcome)
      ensures outcome == Replayed(p, r)
    {
      var ok := Validates(p);
      return if !ok then Raised(Unreadable)
             else if SameRequest(p, r) then Returned(p) else Raised(IdempotencyConflict);
    }

    /** The loop of `write`: every committed record of the scope that says something else under the
        key is saved again as superseded; the last of them is remembered. */
    method Supersede(r: Entry, successor: Text) returns (latest: Value)
      requires Valid()
      modifies store
      ensures store.Valid() && store.events == old(store.events) && Shelf(store.records)
      ensures store.records == RetireAll(old(store.records), Outdated(old(store.records), r.mission, r.key, r.content), successor)
      ensures Newest(old(store.records), Outdated(old(store.records), r.mission, r.key, r.content), latest)
    {
      ghost var start := store.records;
      var all, ids := Inspect(r.mission);
      latest := Null;
      ghost var done: set<Text> := {};
      var i := 0;
      assert RetireAll(start, {}, successor) == start;
      while i < |all|
        invariant 0 <= i <= |all| && store.Valid() && store.events == old(store.events)
        invariant Retiring(start, store.records, r, ids[..i], successor, done, latest)
      {
        var p := all[i];
        RetireNext(start, store.records, r, ids, i, successor, done, latest);
        if Holds(p, r.key) && Differs(p, r.content) {
          store.SaveRecord(Item(Show(Get(p, MemoryId)), Lit(MemoryRow), Get(p, MissionId), Show(Get(p, CreatedAt)), Retired(p, successor)));
          latest := Get(p, MemoryId);
          done := done + {ids[i]};
        }
        i := i + 1;
      }
      assert ids[..i] == ids;
      assert done == Outdated(start, r.mission, r.key, r.content);
      RetiringKeepsShelf(start, done, successor);
    }

    method SaveMappingRow(idem: Value, mission: Value, memory: Text, gen: Fresh, created: Text)
      requires store.Valid() && Shelf(store.records) && (Truthy(idem) ==> gen.mapping !in store.records)
      modifies store
      ensures store.Valid() && Shelf(store.records)
      ensures store.Now() == SaveMapping(old(store.Now()), idem, mission, memory, gen, created)
    {
      if Truthy(idem) {
        NewRowKeepsShelf(store.records, MappingItem(idem, mission, memory, gen, created));
        store.SaveRecord(MappingItem(idem, mission, memory, gen, created));
      }
    }

    method PublishNew(ev: Event, ghost before: map<Text, EventRow>)
      requires bus.store == store && store.Valid() && Shelf(store.records) && InboxesOk(bus.inboxes, before)
      requires before.Keys <= store.events.Keys && ev.id !in store.events && ev.row.key == None
      modifies store, bus
      ensures Valid() && store.Now() == SaveEvent(old(store.Now()), ev)
      ensures store.events == old(store.events)[ev.id := ev.row]
      ensures bus.inboxes == Delivered(old(bus.inboxes), ev)
    {
      InboxesSurvive(bus.inboxes, before, store.events);
      var publication := bus.Publish(ev);
    }

    method Commit(r: Entry, gen: Fresh) returns (outcome: Outcome, ghost latest: Value)
      requires Valid() && IsFresh(store.Now(), gen)
      modifies store, bus
      ensures Valid() && Newest(old(store.records), Outdated(old(store.records), r.mission, r.key, r.content), latest)
      ensures store.Now() == Committing(old(store.Now()), r, gen, latest)
      ensures outcome == Returned(WrittenItem(r, gen, latest).payload)
      ensures bus.inboxes == Delivered(old(bus.inboxes), WrittenEvent(r, gen))
    {
      var last := Supersede(r, gen.memory);
      latest := last;
      var it := WrittenItem(r, gen, last);
      WrittenIsFiled(r, gen, last);
      NewRowKeepsShelf(store.records, it);
      store.SaveRecord(it);
      SaveMappingRow(r.idem, r.mission, gen.memory, gen, gen.created);
      PublishNew(WrittenEvent(r, gen), old(store.events));
      return Returned(it.payload), last;
    }

    // ---- proposing ----

    /** The first committed record of the scope that says the same under the key. */
    method FindDuplicate(r: Entry) returns (duplicate: Option<Payload>, ghost id: Option<Text>)
      requires Shelf(store.records)
      ensures MayPick(store.records, r, id) && (duplicate.Some? <==> id.Some?)
      ensures duplicate.Some? ==> store.records[id.value].body == Obj(duplicate.value)
    {
      var all, ids := Inspect(r.mission);
      var i := 0;
      while i < |all|
        invariant 0 <= i <= |all|
        invariant forall x :: x in ids[..i] ==> !Duplicate(store.records, r, x)
      {
        ListedIsFiled(store.records, r.mission, ids, i);
        if Holds(all[i], r.key) && !Differs(all[i], r.content) {
          return Some(all[i]), Some(ids[i]);
        }
        assert ids[..i + 1] == ids[..i] + [ids[i]];
        i := i + 1;
      }
      assert ids[..i] == ids;
      return None, None;
    }

    method CollectConflicts(r: Entry) returns (conflicts: seq<Value>)
      requires Shelf(store.records)
      ensures ListsAll(conflicts, Outdated(store.records, r.mission, r.key, r.content))
      ensures conflicts == [] <==> Outdated(store.records, r.mission, r.key, r.content) == {}
    {
      var all, ids := Inspect(r.mission);
      conflicts := [];
      ghost var done: set<Text> := {};
      var i := 0;
      while i < |all|
        invariant 0 <= i <= |all| && Collected(store.records, r, ids[..i], conflicts, done)
      {
        ListedIsFiled(store.records, r.mission, ids, i);
        CollectOneMore(store.records, r, ids, i, conflicts, done);
        if Holds(all[i], r.key) && Differs(all[i], r.content) {
          conflicts := conflicts + [Get(all[i], MemoryId)];
          done := done + {ids[i]};
        }
        i := i + 1;
      }
      assert ids[..i] == ids;
      assert done == Outdated(store.records, r.mission, r.key, r.content);
    }

    method FileCandidate(r: Entry, gen: Fresh, auto: bool, conflicts: seq<Value>) returns (p: Payload)
      requires Valid() && IsFresh(store.Now(), gen)
      requires conflicts == [] <==> Outdated(store.records, r.mission, r.key, r.content) == {}
      modifies store, bus
      ensures Valid() && store.Now() == Filing(old(store.Now()), r, gen, auto, conflicts)
      ensures p == Candidate(old(store.records), r, gen, auto, conflicts).payload
    {
      var commits := auto && r.kind != Lit(UnverifiedInference) && r.confidence >= 0.8 && Truthy(r.evidence) && conflicts == [];
      var status := if commits then CommittedStatus else if conflicts != [] then ConflictStatus else CandidateStatus;
      p := NewMemory(r, gen, status, commits, Null, conflicts);
      var it := MemoryItem(if commits then MemoryRow else CandidateRow, r, gen, p);
      var ev := KernelEvent(if commits then MemoryCommitted else CandidateCreated, gen.event, r, gen,
                            map[MemoryId := Str(gen.memory), Kind := Str(r.kind), Status := Literal(status)]);
      assert it == Candidate(store.records, r, gen, auto, conflicts) && ev == ProposedEvent(store.records, r, gen, auto);
      CandidateIsFiled(r, gen, status, commits, conflicts, it.rtype);
      FileMapped(it, ev, r, gen);
      if conflicts != [] {
        FileConflict(r, gen, conflicts);
      }
    }

    /** The record, its mapping and its event. */
    method FileMapped(it: Item, ev: Event, r: Entry, gen: Fresh)
      requires Valid() && IsFresh(store.Now(), gen) && it.id == gen.memory && ev.id == gen.event && ev.row.key == None
      requires it.rtype == Lit(MemoryRow) ==> Filed(it.id, FirstWrite(it))
      modifies store, bus
      ensures Valid() && gen.conflict !in store.records && gen.conflictEvent !in store.events
      ensures store.Now()
              == SaveEvent(SaveMapping(SaveRecord(old(store.Now()), it), r.idem, r.mission, gen.memory, gen, gen.created), ev)
    {
      NewRowKeepsShelf(store.records, it);
      store.SaveRecord(it);
      SaveMappingRow(r.idem, r.mission, gen.memory, gen, gen.created);
      PublishNew(ev, old(store.events));
    }

    method FileConflict(r: Entry, gen: Fresh, conflicts: seq<Value>)
      requires Valid() && gen.conflict !in store.records && gen.conflictEvent !in store.events
      modifies store, bus
      ensures Valid()
      ensures store.Now() == SaveEvent(SaveRecord(old(store.Now()), ConflictItem(r, gen, conflicts)), ConflictEvent(r, gen, conflicts))
    {
      NewRowKeepsShelf(store.records, ConflictItem(r, gen, conflicts));
      store.SaveRecord(ConflictItem(r, gen, conflicts));
      PublishNew(ConflictEvent(r, gen, conflicts), old(store.events));
    }

    /** `propose` once the key is known to be new. */
    method ProposeFresh(r: Entry, gen: Fresh, auto: bool) returns (outcome: Outcome, ghost choice: Choice)
      requires Valid() && IsFresh(store.Now(), gen)
      modifies store, bus
      ensures Valid() && Possible(old(store.records), r, Null, choice)
      ensures store.Now() == ProposeNew(old(store.Now()), r, gen, auto, choice).db
      ensures outcome == ProposeNew(old(store.Now()), r, gen, auto, choice).outcome
    {
      choice := SomeChoice(store.records, r, None);
      if Blank(r.key) || Blank(r.content) {
        return Raised(KeyAndContentRequired), choice;
      }
      if !(0.0 <= r.confidence <= 1.0) {
        return Raised(ConfidenceOutOfRange), choice;
      }
      var duplicate, id := FindDuplicate(r);
      choice := choice.(duplicate := id);
      if duplicate.Some? {
        var ok := Validates(duplicate.value);
        return if ok then Returned(duplicate.value) else Raised(Unreadable), choice;
      }
      var conflicts := CollectConflicts(r);
      choice := choice.(conflicts := conflicts);
      var p := FileCandidate(r, gen, auto, conflicts);
      outcome := Returned(p);
    }

    method Propose(r: Entry, gen: Fresh, auto: bool) returns (outcome: Outcome, ghost choice: Choice)
      requires Valid() && IsFresh(store.Now(), gen)
      modifies store, bus
      ensures Valid() && Possible(old(store.records), r, r.idem, choice)
      ensures store.Now() == MemoryRules.Propose(old(store.Now()), r, gen, auto, choice).db
      ensures outcome == MemoryRules.Propose(old(store.Now()), r, gen, auto, choice).outcome
      ensures A.ProposeAnswers(r, gen, auto, choice.found, old(store.Now()), store.Now(), outcome)
    {
      outcome, choice := ProposeKeyed(r, gen, auto);
      A.ProposeMeans(old(store.Now()), r, gen, auto, choice, MemoryRules.Propose(old(store.Now()), r, gen, auto, choice));
    }

    method ProposeKeyed(r: Entry, gen: Fresh, auto: bool) returns (outcome: Outcome, ghost choice: Choice)
      requires Valid() && IsFresh(store.Now(), gen)
      modifies store, bus
      ensures Valid() && Possible(old(store.records), r, r.idem, choice)
      ensures store.Now() == MemoryRules.Propose(old(store.Now()), r, gen, auto, choice).db
      ensures outcome == MemoryRules.Propose(old(store.Now()), r, gen, auto, choice).outcome
    {
      ghost var first: Option<Text> := None;
      if Truthy(r.idem) {
        var bound, found := FindBound(r.idem, r.mission);
        first := found;
        if bound.Some? {
          choice := SomeChoice(store.records, r, found);
          outcome := Replay(bound.value.payload, r);
          if outcome.Returned? && (bound.value.rtype == Lit(MemoryRow)) != auto {
            outcome := Raised(IdempotencyConflict);
          }
          return;
        }
      }
      outcome, choice := ProposeFresh(r, gen, auto);
      choice := choice.(found := first);
    }

    /** `write` once the key is known to be new; an unverified inference goes on as a proposal, whose
        search for the key would only repeat the one just made. */
    method WriteFresh(r: Entry, gen: Fresh) returns (outcome: Outcome, ghost choice: Choice)
      requires Valid() && IsFresh(store.Now(), gen)
      modifies store, bus
      ensures Valid() && Possible(old(store.records), r, Null, choice)
      ensures store.Now() == WriteNew(old(store.Now()), r, gen, choice).db
      ensures outcome == WriteNew(old(store.Now()), r, gen, choice).outcome
    {
      choice := SomeChoice(store.records, r, None);
      if r.kind == Lit(UnverifiedInference) {
        outcome, choice := ProposeFresh(r, gen, false);
      } else if NeedsEvidence(r) {
        outcome := Raised(EvidenceRequired);
      } else {
        ghost var latest;
        outcome, latest := Commit(r, gen);
        choice := choice.(latest := latest);
      }
    }

    method Write(r: Entry, gen: Fresh) returns (outcome: Outcome, ghost choice: Choice)
      requires Valid() && IsFresh(store.Now(), gen)
      modifies store, bus
      ensures Valid() && Possible(old(store.records), r, r.idem, choice)
      ensures store.Now() == MemoryRules.Write(old(store.Now()), r, gen, choice).db
      ensures outcome == MemoryRules.Write(old(store.Now()), r, gen, choice).outcome
      ensures A.WriteAnswers(r, gen, choice.found, old(store.Now()), store.Now(), outcome)
    {
      outcome, choice := WriteKeyed(r, gen);
      A.WriteMeans(old(store.Now()), r, gen, choice, MemoryRules.Write(old(store.Now()), r, gen, choice));
    }

    method WriteKeyed(r: Entry, gen: Fresh) returns (outcome: Outcome, ghost choice: Choice)
      requires Valid() && IsFresh(store.Now(), gen)
      modifies store, bus
      ensures Valid() && Possible(old(store.records), r, r.idem, choice)
      ensures store.Now() == MemoryRules.Write(old(store.Now()), r, gen, choice).db
      ensures outcome == MemoryRules.Write(old(store.Now()), r, gen, choice).outcome
    {
      ghost var first: Option<Text> := None;
      if Truthy(r.idem) {
        var bound, found := FindBound(r.idem, r.mission);
        first := found;
        if bound.Some? {
          choice := SomeChoice(store.records, r, found);
          outcome := Replay(bound.value.payload, r);
          return;
        }
      }
      outcome, choice := WriteFresh(r, gen);
      FoundIsNotRead(old(store.Now()), r, gen, choice, first);
      choice := choice.(found := first);
    }

    // ---- patching and committing by hand ----

    method Bless(p: Payload, actor: Text, trace: Text, event: Text, stamp: Text)
      requires Valid() && event !in store.events
      modifies store, bus
      ensures bus.Valid()
      ensures store.Now() == SaveEvent(SaveRecord(old(store.Now()), BlessedItem(p)), BlessedEvent(p, actor, trace, event, stamp))
    {
      store.SaveRecord(BlessedItem(p));
      var publication := bus.Publish(BlessedEvent(p, actor, trace, event, stamp));
    }

    /** `commit_candidate`: the record is saved again as committed, whatever else its scope holds. */
    method CommitCandidate(id: Text, actor: Text, trace: Text, event: Text, stamp: Text) returns (outcome: Outcome)
      requires Valid() && event !in store.events
      modifies store, bus
      ensures bus.Valid()
      ensures store.Now() == MemoryRules.CommitCandidate(old(store.Now()), id, actor, trace, event, stamp).db
      ensures outcome == MemoryRules.CommitCandidate(old(store.Now()), id, actor, trace, event, stamp).outcome
      ensures A.CommitAnswers(id, actor, event, old(store.Now()), store.Now(), outcome)
    {
      outcome := CommitStored(id, actor, trace, event, stamp);
      A.CommitMeans(old(store.Now()), id, actor, trace, event, stamp,
                    MemoryRules.CommitCandidate(old(store.Now()), id, actor, trace, event, stamp));
    }

    method CommitStored(id: Text, actor: Text, trace: Text, event: Text, stamp: Text) returns (outcome: Outcome)
      requires Valid() && event !in store.events
      modifies store, bus
      ensures bus.Valid()
      ensures store.Now() == MemoryRules.CommitCandidate(old(store.Now()), id, actor, trace, event, stamp).db
      ensures outcome == MemoryRules.CommitCandidate(old(store.Now()), id, actor, trace, event, stamp).outcome
    {
      if id !in store.records || !store.records[id].body.Obj? {
        return Raised(RecordMissing);
      }
      var p := store.records[id].body.p;
      var ok := Validates(p);
      if !ok {
        return Raised(Unreadable);
      }
      if Get(p, Kind) == Literal(UnverifiedInference) {
        return Raised(NeverCanonical);
      }
      if Truthy(Get(p, ConflictKeys)) {
        return Raised(CandidateInConflict);
      }
      Bless(p, actor, trace, event, stamp);
      return Returned(Blessed(p));
    }

    /** `find_record`: whether any mapping row names the key, intact or not. */
    method FindRawMapping(idem: Value) returns (found: bool)
      ensures found <==> exists id :: RawMapping(store.records, idem, id)
    {
      if id :| id in store.records && RawMapping(store.records, idem, id) {
        return true;
      }
      return false;
    }

    method ReplayPatch(mapping: Envelope, r: Entry) returns (outcome: Outcome)
      ensures outcome == Repatched(store.records, mapping, r)
    {
      if mapping.mission != r.mission || !Truthy(Get(mapping.payload, MemoryId)) {
        return Raised(IdempotencyConflict);
      }
      var id := Show(Get(mapping.payload, MemoryId));
      var memory := store.GetRecordEnvelope(id);
      if memory.None? {
        return Raised(if id in store.records then RecordDamaged else RecordMissing);
      }
      if memory.value.rtype != Lit(MemoryRow) {
        return Raised(NotCommittedYet);
      }
      if memory.value.mission != r.mission {
        return Raised(MissionMismatch);
      }
      var p := memory.value.payload;
      var ok := Validates(p);
      return if !ok then Raised(Unreadable)
             else if Get(p, MemoryKey) != Str(r.key) || Get(p, Content) != Str(r.content)
                     || Get(p, SourceEvidenceId) != r.evidence then Raised(IdempotencyConflict)
             else Returned(p);
    }

    method PatchFresh(r: Entry, idem: Value, gen: Fresh) returns (outcome: Outcome, ghost choice: Choice)
      requires Valid() && IsFresh(store.Now(), gen) && !Truthy(r.idem)
      modifies store, bus
      ensures Valid() && Possible(old(store.records), r, Null, choice)
      ensures store.Now() == PatchNew(old(store.Now()), r, idem, gen, choice).db
      ensures outcome == PatchNew(old(store.Now()), r, idem, gen, choice).outcome
    {
      outcome, choice := ProposeFresh(r, gen, true);
      if outcome.Returned? {
        MemoryReplay.UnkeyedProposalMapsNothing(old(store.Now()), r, gen, true, choice);
        SaveMappingRow(idem, r.mission, Show(Get(outcome.p, MemoryId)), gen, Show(Get(outcome.p, CreatedAt)));
      }
    }

    method Patch(mission: Value, key: Text, content: Text, trace: Text, evidence: Value, idem: Value, gen: Fresh)
      returns (outcome: Outcome, ghost choice: Choice)
      requires Valid() && IsFresh(store.Now(), gen)
      modifies store, bus
      ensures Valid()
      ensures var r := PatchRequest(mission, key, content, trace, evidence);
        Possible(old(store.records), r, idem, choice)
        && store.Now() == MemoryRules.Patch(old(store.Now()), r, idem, gen, choice).db
        && outcome == MemoryRules.Patch(old(store.Now()), r, idem, gen, choice).outcome
        && A.PatchAnswers(Entry(Lit(PatchKind), key, content, trace, mission, evidence, 1.0, Null, Null), idem, gen, choice.found,
                          old(store.Now()), store.Now(), outcome)
    {
      var r := PatchRequest(mission, key, content, trace, evidence);
      outcome, choice := PatchKeyed(r, idem, gen);
      A.PatchMeans(old(store.Now()), r, idem, gen, choice, MemoryRules.Patch(old(store.Now()), r, idem, gen, choice));
    }

    method PatchKeyed(r: Entry, idem: Value, gen: Fresh) returns (outcome: Outcome, ghost choice: Choice)
      requires Valid() && IsFresh(store.Now(), gen) && !Truthy(r.idem)
      modifies store, bus
      ensures Valid() && Possible(old(store.records), r, idem, choice)
      ensures store.Now() == MemoryRules.Patch(old(store.Now()), r, idem, gen, choice).db
      ensures outcome == MemoryRules.Patch(old(store.Now()), r, idem, gen, choice).outcome
    {
      var answer, found := AnswerPatch(r, idem);
      if answer.Some? {
        choice := SomeChoice(store.records, r, found);
        outcome := answer.value;
      } else {
        outcome, choice := PatchFresh(r, idem, gen);
        NewPatch(old(store.Now()), r, idem, gen, choice, found);
        choice := choice.(found := found);
      }
    }

    method AnswerPatch(r: Entry, idem: Value) returns (answer: Option<Outcome>, ghost found: Option<Text>)
      ensures (Truthy(idem) ==> MayFind(store.records, idem, found)) && answer == PatchAnswer(store.records, r, idem, found)
    {
      if !Truthy(idem) {
        return None, None;
      }
      var raw := FindRawMapping(idem);
      var mapping := store.FindRecordEnvelope(Lit(MemoryMapping), IdempotencyKey, idem);
      found := if mapping.Some? then Some(mapping.value.id) else None;
      if raw && mapping.None? {
        return Some(Raised(MappingDamaged)), found;
      }
      if mapping.Some? {
        var outcome := ReplayPatch(mapping.value, r);
        return Some(outcome), found;
      }
      return None, found;
    }
  }

  lemma CandidateIsFiled(r: Entry, gen: Fresh, status: Word, blessed: bool, conflicts: seq<Value>, rtype: Text)
    requires gen.created.Stamp?
    ensures Filed(gen.memory, FirstWrite(
      Item(gen.memory, rtype, r.mission, gen.created, NewMemory(r, gen, status, blessed, Null, conflicts))))
  {
    MemoryGuarantees.NewMemoryStands(r, gen, status, blessed, Null, conflicts, NewMemory(r, gen, status, blessed, Null, conflicts));
  }

  lemma WrittenIsFiled(r: Entry, gen: Fresh, latest: Value)
    requires gen.created.Stamp?
    ensures Filed(gen.memory, FirstWrite(WrittenItem(r, gen, latest)))
  {
    MemoryGuarantees.NewMemoryStands(r, gen, CommittedStatus, Truthy(r.evidence), latest, [], WrittenItem(r, gen, latest).payload);
  }

  lemma ListedIsFiled(records: map<Text, Row>, mission: Value, ids: seq<Text>, i: nat)
    requires Shelf(records) && Inspects(records, mission, ids) && i < |ids|
    ensures IsMemory(records, ids[i]) && Filed(ids[i], records[ids[i]]) && ListedAt(records, Lit(MemoryRow), mission, ids[i])
  {
    assert ids[i] in ids;
  }

  /** Where `write` stands after the first listed records. */
  ghost predicate Retiring(
    start: map<Text, Row>, now: map<Text, Row>, r: Entry, listed: seq<Text>, successor: Text, done: set<Text>, latest: Value)
  {
    now == RetireAll(start, done, successor) && Newest(start, done, latest) && OutdatedIn(start, r, listed, done)
  }

  /** The outdated records among those listed. */
  ghost predicate OutdatedIn(records: map<Text, Row>, r: Entry, listed: seq<Text>, done: set<Text>) {
    forall id :: id in done <==> id in listed && id in Outdated(records, r.mission, r.key, r.content)
  }

  lemma OutdatedOneMore(records: map<Text, Row>, r: Entry, ids: seq<Text>, i: nat, done: set<Text>)
    requires i < |ids| && OutdatedIn(records, r, ids[..i], done)
    ensures OutdatedIn(records, r, ids[..i + 1],
                       if ids[i] in Outdated(records, r.mission, r.key, r.content) then done + {ids[i]} else done)
  {
    assert ids[..i + 1] == ids[..i] + [ids[i]];
  }

  lemma RetireNext(
    start: map<Text, Row>, now: map<Text, Row>, r: Entry, ids: seq<Text>, i: nat, successor: Text, done: set<Text>, latest: Value)
    requires Shelf(start) && Inspects(start, r.mission, ids) && i < |ids|
    requires Retiring(start, now, r, ids[..i], successor, done, latest)
    ensures IsMemory(start, ids[i]) && Filed(ids[i], start[ids[i]])
    ensures var id, p := ids[i], start[ids[i]].body.p;
      if Holds(p, r.key) && Differs(p, r.content) then
        var it := Item(id, Lit(MemoryRow), Get(p, MissionId), Show(Get(p, CreatedAt)), Retired(p, successor));
        Retiring(start, SaveRecord(Tables(now, map[]), it).records, r, ids[..i + 1], successor, done + {id}, Str(id))
      else Retiring(start, now, r, ids[..i + 1], successor, done, latest)
  {
    ListedIsFiled(start, r.mission, ids, i);
    OutdatedOneMore(start, r, ids, i, done);
    LaterIsNewest(start, r.mission, ids, i, done);
    RetireOneMore(start, done, ids[i], successor);
  }

  /** The outdated records among the first listed. */
  ghost predicate Collected(records: map<Text, Row>, r: Entry, ids: seq<Text>, conflicts: seq<Value>, done: set<Text>) {
    ListsAll(conflicts, done) && OutdatedIn(records, r, ids, done)
  }

  lemma ListsOneMore(conflicts: seq<Value>, done: set<Text>, id: Text)
    requires ListsAll(conflicts, done) && id !in done
    ensures ListsAll(conflicts + [Str(id)], done + {id})
  {
  }

  lemma CollectOneMore(
    records: map<Text, Row>, r: Entry, ids: seq<Text>, i: nat, conflicts: seq<Value>, done: set<Text>)
    requires Shelf(records) && Inspects(records, r.mission, ids) && i < |ids| && Collected(records, r, ids[..i], conflicts, done)
    ensures var id := ids[i];
      if id in Outdated(records, r.mission, r.key, r.content) then
        Collected(records, r, ids[..i + 1], conflicts + [Str(id)], done + {id})
      else Collected(records, r, ids[..i + 1], conflicts, done)
  {
    OutdatedOneMore(records, r, ids, i, done);
    forall id | id in ids[..i] ensures id != ids[i] {
      var j :| 0 <= j < i && ids[j] == id;
    }
    if ids[i] in Outdated(records, r.mission, r.key, r.content) { ListsOneMore(conflicts, done, ids[i]); }
  }

  lemma LaterIsNewest(records: map<Text, Row>, mission: Value, ids: seq<Text>, i: nat, done: set<Text>)
    requires Inspects(records, mission, ids) && i < |ids| && forall id :: id in done ==> id in ids[..i]
    ensures ids[i] !in done && Newest(records, done + {ids[i]}, Str(ids[i]))
  {
    assert ids[i] in ids && IsMemory(records, ids[i]);
    forall id | id in done ensures id in records && NotAfter(records, id, ids[i]) && id != ids[i] {
      var j :| 0 <= j < i && ids[j] == id;
      assert ids[j] in ids;
    }
  }
}
