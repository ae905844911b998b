/** What the calls of the memory kernel answer and leave behind, in the fields of the stored records. */
module MemoryAnswers {
  import opened Ledger
  import opened StoreSpec
  import opened StoreAnswers
  import opened MemoryRules
  import opened MemoryRuns
  import MemoryGuarantees

  // ---- what a new record says ------------------------------------------------------------------------

  /** What the caller asked for, as a record has it. */
  predicate MemoryAsAsked(r: Entry, p: Payload) {
    Get(p, MissionId) == r.mission && Get(p, Kind) == Str(r.kind) && Get(p, MemoryKey) == Str(r.key)
    && Get(p, Content) == Str(r.content) && Get(p, SourceEvidenceId) == r.evidence && Get(p, Confidence) == Num(r.confidence)
    && Get(p, ReceiptId) == r.receipt && Get(p, IdempotencyKey) == r.idem
  }

  /** The fields the kernel decides on: verified and canonical always agree. */
  predicate MemoryMarked(gen: Fresh, p: Payload, status: Word, blessed: bool) {
    Get(p, MemoryId) == Str(gen.memory) && Get(p, CreatedAt) == Str(gen.created) && Get(p, Status) == Str(Lit(status))
    && Get(p, IsVerified) == Flag(blessed) && Get(p, Canonical) == Flag(blessed) && Get(p, SupersededBy) == Null
  }

  // ---- what the scope holds --------------------------------------------------------------------------

  /** A committed memory of the scope under this key; a scope without a mission is all of them. */
  predicate CommittedUnder(row: Row, mission: Value, key: Text) {
    row.rtype == Lit(MemoryRow) && (Truthy(mission) ==> row.mission == mission) && row.body.Obj?
    && Get(row.body.p, MemoryKey) == Str(key) && Get(row.body.p, Status) == Str(Lit(CommittedStatus))
  }

  predicate SaysOther(row: Row, r: Entry) {
    CommittedUnder(row, r.mission, r.key) && Get(row.body.p, Content) != Str(r.content)
  }

  predicate SaysSame(row: Row, r: Entry) {
    CommittedUnder(row, r.mission, r.key) && Get(row.body.p, Content) == Str(r.content)
  }

  predicate Clashing(rs: map<Text, Row>, r: Entry) {
    exists id :: id in rs && SaysOther(rs[id], r)
  }

  // ---- what stands on the tables ---------------------------------------------------------------------

  predicate NewRow(rs: map<Text, Row>, id: Text, rtype: Word, mission: Value, created: Text, p: Payload) {
    var seal := Seal(id, Lit(rtype), mission, created, p);
    id in rs && rs[id] == Row(Lit(rtype), mission, Obj(p), created, Some(seal), Some(seal))
  }

  /** The key, if there is one, is mapped to the record. */
  predicate KeyMapped(rs: map<Text, Row>, idem: Value, mission: Value, gen: Fresh, memory: Text, created: Text) {
    Truthy(idem) ==>
      NewRow(rs, gen.mapping, MemoryMapping, mission, created, map[IdempotencyKey := idem, MemoryId := Str(memory)])
  }

  /** Superseded by this record, and sealed again; all else is as it was. */
  predicate RetiredFor(id: Text, row: Row, row': Row, successor: Text) {
    row.body.Obj? && row'.body.Obj? && row' == row.(body := row'.body, integrity := row'.integrity)
    && row'.integrity == Some(Seal(id, row.rtype, row.mission, row.created, row'.body.p))
    && row'.body.p == row.body.p[Status := Str(Lit(SupersededStatus))][SupersededBy := Str(successor)]
  }

  predicate RetiredOrKept(r: Entry, successor: Text, id: Text, row: Row, row': Row) {
    if SaysOther(row, r) then RetiredFor(id, row, row', successor) else row' == row
  }

  /** One event more, about the mission or, without one, about memory at large. */
  predicate KernelTells(
    es: map<Text, EventRow>, es': map<Text, EventRow>, eid: Text, etype: Word, mission: Value, actor: Text, body: Payload)
  {
    eid in es' && es' == es[eid := es'[eid]] && es'[eid].etype == Lit(etype) && es'[eid].actor == actor
    && es'[eid].key == None && es'[eid].body == Obj(body)
    && (Truthy(mission) ==> es'[eid].aggregate == Show(mission) && es'[eid].aggregateType == Lit(MissionAggregate))
    && (!Truthy(mission) ==> es'[eid].aggregate == Lit(GlobalScope) && es'[eid].aggregateType == Lit(MemoryAggregate))
  }

  // ---- replays -----------------------------------------------------------------------------------------

  /** The mapping found is this mission's, and so is the record it names. */
  predicate NamesOwn(rs: map<Text, Row>, found: Option<Text>, mission: Value, id: Text) {
    found.Some? && IntactRow(rs, found.value) && rs[found.value].mission == mission
    && Truthy(Get(rs[found.value].body.p, MemoryId)) && Show(Get(rs[found.value].body.p, MemoryId)) == id
    && IntactRow(rs, id) && rs[id].mission == mission
  }

  predicate RepeatsRequest(r: Entry, p: Payload) {
    Get(p, Kind) == Str(r.kind) && Get(p, MemoryKey) == Str(r.key) && Get(p, Content) == Str(r.content)
    && Get(p, SourceEvidenceId) == r.evidence && Get(p, Confidence) == Num(r.confidence) && Get(p, ReceiptId) == r.receipt
  }

  ghost predicate ReplayAnswers(r: Entry, p: Payload, sameWay: bool, outcome: Outcome) {
    if !Parses(p) then outcome == Raised(Unreadable)
    else if RepeatsRequest(r, p) && sameWay then outcome == Returned(p)
    else outcome == Raised(IdempotencyConflict)
  }

  /** The record answers; a proposal also asks whether it was committed at once as now asked for. */
  ghost predicate OwnAnswers(rs: map<Text, Row>, r: Entry, found: Option<Text>, auto: Option<bool>, outcome: Outcome) {
    exists id ::
      NamesOwn(rs, found, r.mission, id)
      && ReplayAnswers(r, rs[id].body.p, auto.Some? ==> (rs[id].rtype == Lit(MemoryRow) <==> auto.value), outcome)
  }

  // ---- writing -----------------------------------------------------------------------------------------

  /** These kinds, for a mission, are refused without evidence. */
  predicate RefusedBare(r: Entry) {
    Truthy(r.mission) && !Truthy(r.evidence)
    && (r.kind == Lit(DecisionKind) || r.kind == Lit(FailureKind) || r.kind == Lit(FailureExperienceKind) || r.kind == Lit(PatchKind))
  }

  /** The record is committed, and verified and canonical exactly when evidence is named; what said
      otherwise is retired in its favour. */
  ghost predicate WriteStands(r: Entry, gen: Fresh, db: Tables, db': Tables, p: Payload) {
    MemoryAsAsked(r, p) && MemoryMarked(gen, p, CommittedStatus, Truthy(r.evidence))
    && NewRow(db'.records, gen.memory, MemoryRow, r.mission, gen.created, p)
    && KeyMapped(db'.records, r.idem, r.mission, gen, gen.memory, gen.created)
    && (if Clashing(db.records, r) then Get(p, Supersedes).Str? && Get(p, Supersedes).t in db.records
                                        && SaysOther(db.records[Get(p, Supersedes).t], r)
        else Get(p, Supersedes) == Null)
    && db'.records.Keys == db.records.Keys + {gen.memory} + (if Truthy(r.idem) then {gen.mapping} else {})
    && (forall id :: id in db.records ==> RetiredOrKept(r, gen.memory, id, db.records[id], db'.records[id]))
    && KernelTells(db.events, db'.events, gen.event, MemoryWritten, r.mission, Lit(MemoryKernelActor),
         map[MemoryId := Str(gen.memory), Kind := Str(r.kind), EvidenceBound := Flag(Truthy(r.evidence))])
  }

  // ---- proposing ---------------------------------------------------------------------------------------

  /** What is committed at once: asked for, no inference, sure enough, with evidence, and nothing
      committed says otherwise. */
  predicate Settles(rs: map<Text, Row>, r: Entry, auto: bool) {
    auto && r.kind != Lit(UnverifiedInference) && r.confidence >= 0.8 && Truthy(r.evidence) && !Clashing(rs, r)
  }

  function FiledStatus(rs: map<Text, Row>, r: Entry, auto: bool): Word {
    if Settles(rs, r, auto) then CommittedStatus else if Clashing(rs, r) then ConflictStatus else CandidateStatus
  }

  /** A record of its status, naming every committed record that says otherwise; nothing that was
      there changes. */
  ghost predicate CandidateStands(r: Entry, gen: Fresh, auto: bool, db: Tables, db': Tables, p: Payload) {
    var yes, clash := Settles(db.records, r, auto), Clashing(db.records, r);
    MemoryAsAsked(r, p) && MemoryMarked(gen, p, FiledStatus(db.records, r, auto), yes) && Get(p, Supersedes) == Null
    && Get(p, ConflictKeys).List?
    && (forall id :: Str(id) in Get(p, ConflictKeys).items <==> id in db.records && SaysOther(db.records[id], r))
    && NewRow(db'.records, gen.memory, if yes then MemoryRow else CandidateRow, r.mission, gen.created, p)
    && KeyMapped(db'.records, r.idem, r.mission, gen, gen.memory, gen.created)
    && (clash ==> NewRow(db'.records, gen.conflict, MemoryConflictRow, r.mission, gen.created,
          map[MemoryId := Str(gen.memory), MemoryKey := Str(r.key), Conflicts := Get(p, ConflictKeys)]))
    && db'.records.Keys == db.records.Keys + {gen.memory} + (if Truthy(r.idem) then {gen.mapping} else {})
                           + (if clash then {gen.conflict} else {})
    && (forall id :: id in db.records ==> db'.records[id] == db.records[id])
    && CandidateTold(r, gen, auto, db, db', p)
  }

  ghost predicate CandidateTold(r: Entry, gen: Fresh, auto: bool, db: Tables, db': Tables, p: Payload) {
    exists es :: ToldBy(r, gen, auto, db, es, db'.events, Get(p, ConflictKeys))
  }

  /** First of the record, then of the conflict, if there is one. */
  predicate ToldBy(
    r: Entry, gen: Fresh, auto: bool, db: Tables, es: map<Text, EventRow>, es': map<Text, EventRow>, conflicts: Value)
  {
    KernelTells(db.events, es, gen.event, if Settles(db.records, r, auto) then MemoryCommitted else CandidateCreated,
      r.mission, Lit(MemoryKernelActor),
      map[MemoryId := Str(gen.memory), Kind := Str(r.kind), Status := Str(Lit(FiledStatus(db.records, r, auto)))])
    && if Clashing(db.records, r) then
         KernelTells(es, es', gen.conflictEvent, ConflictDetected, r.mission, Lit(MemoryKernelActor),
           map[MemoryId := Str(gen.memory), Conflicts := conflicts])
       else es' == es
  }

  /** A committed record that says the same answers for it. */
  ghost predicate SameAnswers(rs: map<Text, Row>, r: Entry, outcome: Outcome) {
    exists id ::
      id in rs && SaysSame(rs[id], r)
      && outcome == if Parses(rs[id].body.p) then Returned(rs[id].body.p) else Raised(Unreadable)
  }

  /** A proposal under no key, or under a new one. */
  ghost predicate ProposalAnswers(r: Entry, gen: Fresh, auto: bool, db: Tables, db': Tables, outcome: Outcome) {
    if Blank(r.key) || Blank(r.content) then outcome == Raised(KeyAndContentRequired) && db' == db
    else if r.confidence < 0.0 || r.confidence > 1.0 then outcome == Raised(ConfidenceOutOfRange) && db' == db
    else if exists id :: id in db.records && SaysSame(db.records[id], r) then
      db' == db && SameAnswers(db.records, r, outcome)
    else outcome.Returned? && CandidateStands(r, gen, auto, db, db', outcome.p)
  }

  ghost predicate ProposeAnswers(r: Entry, gen: Fresh, auto: bool, found: Option<Text>, db: Tables, db': Tables, outcome: Outcome) {
    if Truthy(r.idem) && exists id :: NamesOwn(db.records, found, r.mission, id) then
      db' == db && OwnAnswers(db.records, r, found, Some(auto), outcome)
    else ProposalAnswers(r, gen, auto, db, db', outcome)
  }

  ghost predicate WriteAnswers(r: Entry, gen: Fresh, found: Option<Text>, db: Tables, db': Tables, outcome: Outcome) {
    if Truthy(r.idem) && exists id :: NamesOwn(db.records, found, r.mission, id) then
      db' == db && OwnAnswers(db.records, r, found, None, outcome)
    else if r.kind == Lit(UnverifiedInference) then ProposalAnswers(r, gen, false, db, db', outcome)
    else if RefusedBare(r) then outcome == Raised(EvidenceRequired) && db' == db
    else outcome.Returned? && WriteStands(r, gen, db, db', outcome.p)
  }

  // ---- patching and committing by hand -----------------------------------------------------------------

  /** A mapping of the key, intact or not. */
  predicate MapsRaw(row: Row, idem: Value) {
    row.rtype == Lit(MemoryMapping) && row.body.Obj? && Get(row.body.p, IdempotencyKey) == idem
  }

  /** The intact mapping found answers: with the committed record of this mission that it names, if that
      says the same, and else by refusing. */
  ghost predicate MappedAnswers(rs: map<Text, Row>, r: Entry, mapping: Row, outcome: Outcome) {
    mapping.body.Obj?
    && (var of := Get(mapping.body.p, MemoryId);
        var id := Show(of);
        if mapping.mission != r.mission || !Truthy(of) then outcome == Raised(IdempotencyConflict)
        else if id !in rs then outcome == Raised(RecordMissing)
        else if !IntactRow(rs, id) then outcome == Raised(RecordDamaged)
        else if rs[id].rtype != Lit(MemoryRow) then outcome == Raised(NotCommittedYet)
        else if rs[id].mission != r.mission then outcome == Raised(MissionMismatch)
        else if !Parses(rs[id].body.p) then outcome == Raised(Unreadable)
        else if Get(rs[id].body.p, MemoryKey) == Str(r.key) && Get(rs[id].body.p, Content) == Str(r.content)
                && Get(rs[id].body.p, SourceEvidenceId) == r.evidence then outcome == Returned(rs[id].body.p)
        else outcome == Raised(IdempotencyConflict))
  }

  /** Otherwise a patch is a sure proposal to be committed at once, whose record then gets the key. */
  ghost predicate PatchAnswers(r: Entry, idem: Value, gen: Fresh, found: Option<Text>, db: Tables, db': Tables, outcome: Outcome) {
    if Truthy(idem) && found.Some? && IntactRow(db.records, found.value) then
      db' == db && MappedAnswers(db.records, r, db.records[found.value], outcome)
    else if Truthy(idem) && exists id :: id in db.records && MapsRaw(db.records[id], idem) then
      db' == db && outcome == Raised(MappingDamaged)
    else exists mid :: ProposalAnswers(r, gen, true, db, mid, outcome) && PatchMapped(r, idem, gen, mid, db', outcome)
  }

  ghost predicate PatchMapped(r: Entry, idem: Value, gen: Fresh, mid: Tables, db': Tables, outcome: Outcome) {
    if outcome.Raised? || !Truthy(idem) then db' == mid
    else
      db'.events == mid.events && gen.mapping in db'.records && db'.records == mid.records[gen.mapping := db'.records[gen.mapping]]
      && KeyMapped(db'.records, idem, r.mission, gen, Show(Get(outcome.p, MemoryId)), Show(Get(outcome.p, CreatedAt)))
  }

  /** The record stands as committed, verified and canonical, under its own columns. */
  ghost predicate BlessingStands(actor: Text, event: Text, db: Tables, db': Tables, p: Payload, q: Payload) {
    var id := Show(Get(p, MemoryId));
    q == p[Status := Str(Lit(CommittedStatus))][IsVerified := Flag(true)][Canonical := Flag(true)]
    && id in db'.records && db'.records == db.records[id := db'.records[id]] && db'.records[id].rtype == Lit(MemoryRow)
    && db'.records[id].mission == Get(p, MissionId) && db'.records[id].created == Show(Get(p, CreatedAt))
    && db'.records[id].body == Obj(q)
    && db'.records[id].integrity == Some(Seal(id, Lit(MemoryRow), Get(p, MissionId), Show(Get(p, CreatedAt)), q))
    && KernelTells(db.events, db'.events, event, MemoryCommitted, Get(p, MissionId), actor,
         map[MemoryId := Get(p, MemoryId), Manual := Flag(true)])
  }

  ghost predicate CommitAnswers(id: Text, actor: Text, event: Text, db: Tables, db': Tables, outcome: Outcome) {
    if id !in db.records || !db.records[id].body.Obj? then outcome == Raised(RecordMissing) && db' == db
    else
      var p := db.records[id].body.p;
      if !Parses(p) then outcome == Raised(Unreadable) && db' == db
      else if Get(p, Kind) == Str(Lit(UnverifiedInference)) then outcome == Raised(NeverCanonical) && db' == db
      else if Truthy(Get(p, ConflictKeys)) then outcome == Raised(CandidateInConflict) && db' == db
      else outcome.Returned? && BlessingStands(actor, event, db, db', p, outcome.p)
  }

  // ---- the proof: new records ------------------------------------------------------------------------

  lemma NewMemoryAsAsked(r: Entry, gen: Fresh, status: Word, blessed: bool, supersedes: Value, conflicts: seq<Value>)
    ensures MemoryAsAsked(r, NewMemory(r, gen, status, blessed, supersedes, conflicts))
  {
    var p := NewMemory(r, gen, status, blessed, supersedes, conflicts);
    MemoryGuarantees.NewMemoryStands(r, gen, status, blessed, supersedes, conflicts, p);
    MemoryGuarantees.NewMemoryNames(r, gen, status, blessed, supersedes, conflicts, p);
    MemoryGuarantees.NewMemoryRests(r, gen, status, blessed, supersedes, conflicts, p);
    MemoryGuarantees.NewMemoryAt(IdempotencyKey, r, gen, status, blessed, supersedes, conflicts);
  }

  lemma NewMemoryBlessed(
    r: Entry, gen: Fresh, status: Word, blessed: bool, supersedes: Value, conflicts: seq<Value>, p: Payload)
    requires p == NewMemory(r, gen, status, blessed, supersedes, conflicts)
    ensures Get(p, IsVerified) == Flag(blessed) && Get(p, Canonical) == Flag(blessed) && Get(p, SupersededBy) == Null
  {
    MemoryGuarantees.NewMemoryAt(IsVerified, r, gen, status, blessed, supersedes, conflicts);
    MemoryGuarantees.NewMemoryAt(Canonical, r, gen, status, blessed, supersedes, conflicts);
    MemoryGuarantees.NewMemoryAt(SupersededBy, r, gen, status, blessed, supersedes, conflicts);
  }

  lemma NewMemoryMarked(r: Entry, gen: Fresh, status: Word, blessed: bool, supersedes: Value, conflicts: seq<Value>)
    ensures MemoryMarked(gen, NewMemory(r, gen, status, blessed, supersedes, conflicts), status, blessed)
  {
    var p := NewMemory(r, gen, status, blessed, supersedes, conflicts);
    MemoryGuarantees.NewMemoryStands(r, gen, status, blessed, supersedes, conflicts, p);
    NewMemoryBlessed(r, gen, status, blessed, supersedes, conflicts, p);
  }

  lemma NewMemoryLinks(r: Entry, gen: Fresh, status: Word, blessed: bool, supersedes: Value, conflicts: seq<Value>)
    ensures var p := NewMemory(r, gen, status, blessed, supersedes, conflicts);
      Get(p, Supersedes) == supersedes && Get(p, ConflictKeys) == List(conflicts)
  {
    MemoryGuarantees.NewMemoryAt(Supersedes, r, gen, status, blessed, supersedes, conflicts);
    MemoryGuarantees.NewMemoryAt(ConflictKeys, r, gen, status, blessed, supersedes, conflicts);
  }

  lemma OutdatedSayOther(rs: map<Text, Row>, r: Entry)
    ensures forall id :: id in Outdated(rs, r.mission, r.key, r.content) <==> id in rs && SaysOther(rs[id], r)
    ensures Outdated(rs, r.mission, r.key, r.content) != {} <==> Clashing(rs, r)
  {
    assert forall id :: id in Outdated(rs, r.mission, r.key, r.content) <==> id in rs && SaysOther(rs[id], r);
    if Clashing(rs, r) {
      var id :| id in rs && SaysOther(rs[id], r);
      assert id in Outdated(rs, r.mission, r.key, r.content);
    }
  }

  lemma BoundIsOwn(rs: map<Text, Row>, found: Option<Text>, mission: Value)
    requires Bound(rs, found, mission).Some?
    ensures var bound := Bound(rs, found, mission).value;
      NamesOwn(rs, found, mission, bound.id) && bound.payload == rs[bound.id].body.p && bound.rtype == rs[bound.id].rtype
  {
  }

  lemma OwnIsBound(rs: map<Text, Row>, found: Option<Text>, mission: Value, id: Text)
    requires NamesOwn(rs, found, mission, id)
    ensures Bound(rs, found, mission).Some?
  {
    assert EnvelopeOf(rs, found.value).Some? && EnvelopeOf(rs, id).Some?;
  }

  // ---- the proof: writes -------------------------------------------------------------------------------

  lemma CommittingRows(db: Tables, r: Entry, gen: Fresh, latest: Value)
    requires IsFresh(db, gen)
    ensures var retired := RetireAll(db.records, Outdated(db.records, r.mission, r.key, r.content), gen.memory);
      var rs := retired[gen.memory := FirstWrite(WrittenItem(r, gen, latest))];
      Committing(db, r, gen, latest).records
        == if Truthy(r.idem) then rs[gen.mapping := FirstWrite(MappingItem(r.idem, r.mission, gen.memory, gen, gen.created))] else rs
    ensures Committing(db, r, gen, latest).events == db.events[gen.event := WrittenEvent(r, gen).row]
  {
  }

  lemma RetiredAsSaid(rs: map<Text, Row>, r: Entry, successor: Text, id: Text)
    requires id in rs
    ensures RetiredOrKept(r, successor, id, rs[id], RetireAll(rs, Outdated(rs, r.mission, r.key, r.content), successor)[id])
  {
    OutdatedSayOther(rs, r);
  }

  lemma LatestSaysOther(rs: map<Text, Row>, r: Entry, latest: Value)
    requires Newest(rs, Outdated(rs, r.mission, r.key, r.content), latest)
    ensures if Clashing(rs, r) then latest.Str? && latest.t in rs && SaysOther(rs[latest.t], r) else latest == Null
  {
    OutdatedSayOther(rs, r);
  }

  lemma WrittenTells(es: map<Text, EventRow>, r: Entry, gen: Fresh)
    ensures KernelTells(es, es[gen.event := WrittenEvent(r, gen).row], gen.event, MemoryWritten, r.mission, Lit(MemoryKernelActor),
      map[MemoryId := Str(gen.memory), Kind := Str(r.kind), EvidenceBound := Flag(Truthy(r.evidence))])
  {
  }

  lemma WrittenRowStands(db: Tables, r: Entry, gen: Fresh, latest: Value, db': Tables)
    requires IsFresh(db, gen) && db' == Committing(db, r, gen, latest)
    ensures NewRow(db'.records, gen.memory, MemoryRow, r.mission, gen.created, WrittenItem(r, gen, latest).payload)
    ensures KeyMapped(db'.records, r.idem, r.mission, gen, gen.memory, gen.created)
    ensures db'.records.Keys == db.records.Keys + {gen.memory} + (if Truthy(r.idem) then {gen.mapping} else {})
  {
    CommittingRows(db, r, gen, latest);
  }

  lemma OthersRetired(db: Tables, r: Entry, gen: Fresh, latest: Value, db': Tables)
    requires IsFresh(db, gen) && db' == Committing(db, r, gen, latest)
    ensures forall id :: id in db.records ==>
      id in db'.records && RetiredOrKept(r, gen.memory, id, db.records[id], db'.records[id])
  {
    CommittingRows(db, r, gen, latest);
    forall id | id in db.records
      ensures id in db'.records && RetiredOrKept(r, gen.memory, id, db.records[id], db'.records[id])
    {
      RetiredAsSaid(db.records, r, gen.memory, id);
    }
  }

  lemma WrittenSays(r: Entry, gen: Fresh, latest: Value)
    ensures var p := WrittenItem(r, gen, latest).payload;
      MemoryAsAsked(r, p) && MemoryMarked(gen, p, CommittedStatus, Truthy(r.evidence)) && Get(p, Supersedes) == latest
  {
    NewMemoryAsAsked(r, gen, CommittedStatus, Truthy(r.evidence), latest, []);
    NewMemoryMarked(r, gen, CommittedStatus, Truthy(r.evidence), latest, []);
    NewMemoryLinks(r, gen, CommittedStatus, Truthy(r.evidence), latest, []);
  }

  lemma CommittingStands(db: Tables, r: Entry, gen: Fresh, latest: Value, db': Tables)
    requires IsFresh(db, gen) && Newest(db.records, Outdated(db.records, r.mission, r.key, r.content), latest)
    requires db' == Committing(db, r, gen, latest)
    ensures WriteStands(r, gen, db, db', WrittenItem(r, gen, latest).payload)
  {
    WrittenSays(r, gen, latest);
    WrittenRowStands(db, r, gen, latest, db');
    OthersRetired(db, r, gen, latest, db');
    LatestSaysOther(db.records, r, latest);
    CommittingRows(db, r, gen, latest);
    WrittenTells(db.events, r, gen);
  }

  // ---- the proof: proposals ----------------------------------------------------------------------------

  lemma StatusIsFiled(rs: map<Text, Row>, r: Entry, auto: bool)
    ensures var ids := Outdated(rs, r.mission, r.key, r.content);
      (Commits(r, auto, ids) <==> Settles(rs, r, auto)) && StatusFor(r, auto, ids) == FiledStatus(rs, r, auto)
  {
    OutdatedSayOther(rs, r);
  }

  lemma CandidateSays(rs: map<Text, Row>, r: Entry, gen: Fresh, auto: bool, conflicts: seq<Value>, p: Payload)
    requires p == Candidate(rs, r, gen, auto, conflicts).payload
    ensures MemoryAsAsked(r, p) && MemoryMarked(gen, p, FiledStatus(rs, r, auto), Settles(rs, r, auto))
    ensures Get(p, Supersedes) == Null && Get(p, ConflictKeys) == List(conflicts)
  {
    StatusIsFiled(rs, r, auto);
    NewMemoryAsAsked(r, gen, FiledStatus(rs, r, auto), Settles(rs, r, auto), Null, conflicts);
    NewMemoryMarked(r, gen, FiledStatus(rs, r, auto), Settles(rs, r, auto), Null, conflicts);
    NewMemoryLinks(r, gen, FiledStatus(rs, r, auto), Settles(rs, r, auto), Null, conflicts);
  }

  /** The rows a proposal adds. */
  function WithCandidate(rs: map<Text, Row>, r: Entry, gen: Fresh, it: Item): map<Text, Row> {
    var filed := rs[gen.memory := FirstWrite(it)];
    if Truthy(r.idem) then filed[gen.mapping := FirstWrite(MappingItem(r.idem, r.mission, gen.memory, gen, gen.created))]
    else filed
  }

  lemma FilingRows(db: Tables, r: Entry, gen: Fresh, auto: bool, conflicts: seq<Value>)
    requires IsFresh(db, gen)
    ensures var filed := WithCandidate(db.records, r, gen, Candidate(db.records, r, gen, auto, conflicts));
      Filing(db, r, gen, auto, conflicts).records
        == if Clashing(db.records, r) then filed[gen.conflict := FirstWrite(ConflictItem(r, gen, conflicts))] else filed
  {
    OutdatedSayOther(db.records, r);
  }

  lemma FilingEvents(db: Tables, r: Entry, gen: Fresh, auto: bool, conflicts: seq<Value>)
    requires IsFresh(db, gen)
    ensures var es := db.events[gen.event := ProposedEvent(db.records, r, gen, auto).row];
      Filing(db, r, gen, auto, conflicts).events
        == if Clashing(db.records, r) then es[gen.conflictEvent := ConflictEvent(r, gen, conflicts).row] else es
  {
    OutdatedSayOther(db.records, r);
  }

  lemma ProposedTells(db: Tables, r: Entry, gen: Fresh, auto: bool)
    ensures KernelTells(
      db.events, db.events[gen.event := ProposedEvent(db.records, r, gen, auto).row], gen.event,
      if Settles(db.records, r, auto) then MemoryCommitted else CandidateCreated, r.mission, Lit(MemoryKernelActor),
      map[MemoryId := Str(gen.memory), Kind := Str(r.kind), Status := Str(Lit(FiledStatus(db.records, r, auto)))])
  {
    StatusIsFiled(db.records, r, auto);
  }

  lemma ConflictTells(es: map<Text, EventRow>, r: Entry, gen: Fresh, conflicts: seq<Value>)
    ensures KernelTells(
      es, es[gen.conflictEvent := ConflictEvent(r, gen, conflicts).row], gen.conflictEvent, ConflictDetected, r.mission,
      Lit(MemoryKernelActor), map[MemoryId := Str(gen.memory), Conflicts := List(conflicts)])
  {
  }

  lemma FilingTold(db: Tables, r: Entry, gen: Fresh, auto: bool, conflicts: seq<Value>, db': Tables, p: Payload)
    requires IsFresh(db, gen) && db' == Filing(db, r, gen, auto, conflicts) && Get(p, ConflictKeys) == List(conflicts)
    ensures CandidateTold(r, gen, auto, db, db', p)
  {
    var es := db.events[gen.event := ProposedEvent(db.records, r, gen, auto).row];
    FilingEvents(db, r, gen, auto, conflicts);
    ProposedTells(db, r, gen, auto);
    ConflictTells(es, r, gen, conflicts);
    assert ToldBy(r, gen, auto, db, es, db'.events, Get(p, ConflictKeys));
  }

  lemma FilingRowsStand(db: Tables, r: Entry, gen: Fresh, auto: bool, conflicts: seq<Value>, db': Tables, p: Payload)
    requires IsFresh(db, gen) && db' == Filing(db, r, gen, auto, conflicts)
    requires p == Candidate(db.records, r, gen, auto, conflicts).payload
    ensures NewRow(db'.records, gen.memory, if Settles(db.records, r, auto) then MemoryRow else CandidateRow, r.mission, gen.created, p)
    ensures KeyMapped(db'.records, r.idem, r.mission, gen, gen.memory, gen.created)
    ensures Clashing(db.records, r) ==> NewRow(db'.records, gen.conflict, MemoryConflictRow, r.mission, gen.created,
      map[MemoryId := Str(gen.memory), MemoryKey := Str(r.key), Conflicts := List(conflicts)])
  {
    StatusIsFiled(db.records, r, auto);
    FilingRows(db, r, gen, auto, conflicts);
  }

  lemma FilingKeepsRows(db: Tables, r: Entry, gen: Fresh, auto: bool, conflicts: seq<Value>, db': Tables)
    requires IsFresh(db, gen) && db' == Filing(db, r, gen, auto, conflicts)
    ensures db'.records.Keys == db.records.Keys + {gen.memory} + (if Truthy(r.idem) then {gen.mapping} else {})
                                + (if Clashing(db.records, r) then {gen.conflict} else {})
    ensures forall id :: id in db.records ==> db'.records[id] == db.records[id]
  {
    FilingRows(db, r, gen, auto, conflicts);
  }

  lemma FilingStands(db: Tables, r: Entry, gen: Fresh, auto: bool, conflicts: seq<Value>, db': Tables, p: Payload)
    requires IsFresh(db, gen) && ListsAll(conflicts, Outdated(db.records, r.mission, r.key, r.content))
    requires db' == Filing(db, r, gen, auto, conflicts) && p == Candidate(db.records, r, gen, auto, conflicts).payload
    ensures CandidateStands(r, gen, auto, db, db', p)
  {
    CandidateSays(db.records, r, gen, auto, conflicts, p);
    FilingRowsStand(db, r, gen, auto, conflicts, db', p);
    FilingKeepsRows(db, r, gen, auto, conflicts, db');
    FilingTold(db, r, gen, auto, conflicts, db', p);
    OutdatedSayOther(db.records, r);
  }

  lemma DuplicateMeans(rs: map<Text, Row>, r: Entry, duplicate: Option<Text>)
    requires MayPick(rs, r, duplicate)
    ensures duplicate.Some? <==> exists id :: id in rs && SaysSame(rs[id], r)
    ensures duplicate.Some? ==> duplicate.value in rs && SaysSame(rs[duplicate.value], r)
  {
    if id :| id in rs && SaysSame(rs[id], r) {
      assert Duplicate(rs, r, id);
    }
  }

  /** What a proposal that is no replay answers, on any tables. */
  lemma ProposalMeans(db: Tables, r: Entry, gen: Fresh, auto: bool, choice: Choice, result: Result)
    requires IsFresh(db, gen) && Possible(db.records, r, Null, choice) && result == ProposeNew(db, r, gen, auto, choice)
    ensures ProposalAnswers(r, gen, auto, db, result.db, result.outcome)
  {
    DuplicateMeans(db.records, r, choice.duplicate);
    if choice.duplicate.None? && !Blank(r.key) && !Blank(r.content) && 0.0 <= r.confidence <= 1.0 {
      NewProposal(db, r, gen, auto, choice, result);
      FilingStands(db, r, gen, auto, choice.conflicts, result.db, result.outcome.p);
    }
  }

  lemma NewProposal(db: Tables, r: Entry, gen: Fresh, auto: bool, choice: Choice, result: Result)
    requires result == ProposeNew(db, r, gen, auto, choice)
    requires choice.duplicate.None? && !Blank(r.key) && !Blank(r.content) && 0.0 <= r.confidence <= 1.0
    ensures result.db == Filing(db, r, gen, auto, choice.conflicts)
    ensures result.outcome == Returned(Candidate(db.records, r, gen, auto, choice.conflicts).payload)
  {
  }

  lemma OwnMeans(rs: map<Text, Row>, r: Entry, found: Option<Text>, auto: Option<bool>)
    requires Bound(rs, found, r.mission).Some?
    ensures var bound := Bound(rs, found, r.mission).value;
      OwnAnswers(rs, r, found, auto, if auto.Some? then Reproposed(bound, r, auto.value) else Replayed(bound.payload, r))
  {
    BoundIsOwn(rs, found, r.mission);
  }

  lemma ProposeMeans(db: Tables, r: Entry, gen: Fresh, auto: bool, choice: Choice, result: Result)
    requires IsFresh(db, gen) && Possible(db.records, r, r.idem, choice) && result == Propose(db, r, gen, auto, choice)
    ensures ProposeAnswers(r, gen, auto, choice.found, db, result.db, result.outcome)
  {
    if Truthy(r.idem) && Bound(db.records, choice.found, r.mission).Some? {
      OwnMeans(db.records, r, choice.found, Some(auto));
      BoundIsOwn(db.records, choice.found, r.mission);
    } else {
      NotOwned(db.records, r, choice.found);
      ProposalMeans(db, r, gen, auto, choice, result);
    }
  }

  lemma NotOwned(rs: map<Text, Row>, r: Entry, found: Option<Text>)
    requires !(Truthy(r.idem) && Bound(rs, found, r.mission).Some?)
    ensures !(Truthy(r.idem) && exists id :: NamesOwn(rs, found, r.mission, id))
  {
    forall id ensures Truthy(r.idem) ==> !NamesOwn(rs, found, r.mission, id) {
      if Truthy(r.idem) && NamesOwn(rs, found, r.mission, id) { OwnIsBound(rs, found, r.mission, id); }
    }
  }

  /** What a write answers and leaves, on any tables. */
  lemma WriteMeans(db: Tables, r: Entry, gen: Fresh, choice: Choice, result: Result)
    requires IsFresh(db, gen) && Possible(db.records, r, r.idem, choice) && result == Write(db, r, gen, choice)
    ensures WriteAnswers(r, gen, choice.found, db, result.db, result.outcome)
  {
    if Truthy(r.idem) && Bound(db.records, choice.found, r.mission).Some? {
      OwnMeans(db.records, r, choice.found, None);
      BoundIsOwn(db.records, choice.found, r.mission);
    } else {
      NotOwned(db.records, r, choice.found);
      WriteNewMeans(db, r, gen, choice, result);
    }
  }

  lemma WriteNewMeans(db: Tables, r: Entry, gen: Fresh, choice: Choice, result: Result)
    requires IsFresh(db, gen) && Possible(db.records, r, Null, choice) && result == WriteNew(db, r, gen, choice)
    ensures if r.kind == Lit(UnverifiedInference) then ProposalAnswers(r, gen, false, db, result.db, result.outcome)
            else if RefusedBare(r) then result == Result(db, Raised(EvidenceRequired))
            else result.outcome.Returned? && WriteStands(r, gen, db, result.db, result.outcome.p)
  {
    if r.kind == Lit(UnverifiedInference) {
      ProposalMeans(db, r, gen, false, choice, result);
    } else if !RefusedBare(r) {
      CommittingStands(db, r, gen, choice.latest, result.db);
    }
  }

  // ---- the proof: patches -----------------------------------------------------------------------------

  lemma RepatchMeans(rs: map<Text, Row>, r: Entry, found: Text)
    requires IntactRow(rs, found)
    ensures EnvelopeOf(rs, found).Some? && MappedAnswers(rs, r, rs[found], Repatched(rs, EnvelopeOf(rs, found).value, r))
  {
    var id := Show(Get(rs[found].body.p, MemoryId));
    assert IntactRow(rs, id) <==> EnvelopeOf(rs, id).Some?;
  }

  lemma RawMeans(rs: map<Text, Row>, idem: Value)
    ensures (exists id :: RawMapping(rs, idem, id)) <==> exists id :: id in rs && MapsRaw(rs[id], idem)
  {
    if id :| RawMapping(rs, idem, id) { assert MapsRaw(rs[id], idem); }
    if id :| id in rs && MapsRaw(rs[id], idem) { assert RawMapping(rs, idem, id); }
  }

  lemma PatchNewMeans(db: Tables, r: Entry, idem: Value, gen: Fresh, choice: Choice, made: Result, result: Result)
    requires IsFresh(db, gen) && Possible(db.records, r, Null, choice) && !Truthy(r.idem)
    requires made == ProposeNew(db, r, gen, true, choice) && result == PatchNew(db, r, idem, gen, choice)
    ensures ProposalAnswers(r, gen, true, db, made.db, result.outcome) && PatchMapped(r, idem, gen, made.db, result.db, result.outcome)
  {
    ProposalMeans(db, r, gen, true, choice, made);
    MadeKeepsMapping(db, r, gen, made);
  }

  lemma MadeKeepsMapping(db: Tables, r: Entry, gen: Fresh, made: Result)
    requires IsFresh(db, gen) && !Truthy(r.idem) && ProposalAnswers(r, gen, true, db, made.db, made.outcome)
    ensures gen.mapping !in made.db.records
  {
  }

  /** What a patch answers and leaves, on any tables. */
  lemma PatchMeans(db: Tables, r: Entry, idem: Value, gen: Fresh, choice: Choice, result: Result)
    requires IsFresh(db, gen) && Possible(db.records, r, idem, choice) && !Truthy(r.idem)
    requires result == Patch(db, r, idem, gen, choice)
    ensures PatchAnswers(r, idem, gen, choice.found, db, result.db, result.outcome)
  {
    RawMeans(db.records, idem);
    if Truthy(idem) && choice.found.Some? && IntactRow(db.records, choice.found.value) {
      RepatchMeans(db.records, r, choice.found.value);
    } else if PatchAnswer(db.records, r, idem, choice.found).None? {
      PatchNewMeans(db, r, idem, gen, choice, ProposeNew(db, r, gen, true, choice), result);
    }
  }

  /** What committing by hand answers and leaves, on any tables. */
  lemma CommitMeans(db: Tables, id: Text, actor: Text, trace: Text, event: Text, stamp: Text, result: Result)
    requires event !in db.events && result == CommitCandidate(db, id, actor, trace, event, stamp)
    ensures CommitAnswers(id, actor, event, db, result.db, result.outcome)
  {
  }
}
