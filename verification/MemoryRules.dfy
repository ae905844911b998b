/** Memory records: what a scope recalls, what a write supersedes, and what each call of the kernel
    answers and leaves behind when it runs alone. */
module MemoryRules {
  import opened Ledger
  import opened StoreSpec

  datatype Entry = Entry(
    kind: Text, key: Text, content: Text, trace: Text, mission: Value, evidence: Value,
    confidence: real, receipt: Value, idem: Value)

  /** Everything a call generates: fresh ids and one reading of the clock. */
  datatype Fresh = Fresh(
    memory: Text, mapping: Text, conflict: Text, event: Text, conflictEvent: Text, created: Text, stamp: Text)

  datatype Why =
    | IdempotencyConflict | MappingDamaged | RecordDamaged | RecordMissing | NotCommittedYet | MissionMismatch
    | EvidenceRequired | KeyAndContentRequired | ConfidenceOutOfRange | Unreadable
    | NeverCanonical | CandidateInConflict

  datatype Outcome = Returned(p: Payload) | Raised(why: Why)

  datatype Result = Result(db: Tables, outcome: Outcome)

  // ---- what a scope recalls -------------------------------------------------------------

  predicate Holds(p: Payload, key: Text) {
    Get(p, MemoryKey) == Str(key) && Get(p, Status) == Literal(CommittedStatus)
  }

  predicate HoldsAt(records: map<Text, Row>, mission: Value, key: Text, id: Text) {
    ListedAt(records, Lit(MemoryRow), mission, id) && records[id].body.Obj? && Holds(records[id].body.p, key)
  }

  predicate Differs(p: Payload, content: Text) {
    Get(p, Content) != Str(content)
  }

  /** The committed records of the scope that say something else under the key. */
  function Outdated(records: map<Text, Row>, mission: Value, key: Text, content: Text): (ids: set<Text>)
    ensures forall id {:trigger id in ids} :: id in ids <==>
      HoldsAt(records, mission, key, id) && Differs(records[id].body.p, content)
  {
    set id | id in records && HoldsAt(records, mission, key, id) && Differs(records[id].body.p, content)
  }

  function Retired(p: Payload, successor: Text): Payload {
    p[Status := Literal(SupersededStatus)][SupersededBy := Str(successor)]
  }

  /** The rows after `write` has gone through its loop. */
  function RetireAll(records: map<Text, Row>, ids: set<Text>, successor: Text): map<Text, Row> {
    map id | id in records ::
      if id in ids && records[id].body.Obj? then Reseal(id, records[id], Retired(records[id].body.p, successor)) else records[id]
  }

  // ---- records ------------------------------------------------------------------------------

  const MEMORY_FIELDS: set<Field> := {
    MemoryId, MissionId, Kind, MemoryKey, Content, SourceEvidenceId, ReceiptId, IdempotencyKey, Supersedes,
    SupersededBy, Confidence, Status, IsVerified, Canonical, ConflictKeys, CreatedAt, SchemaVersion, MissionRunId,
    CorrelationId, Provenance, EvidenceRefs}

  function NewMemory(
    r: Entry, gen: Fresh, status: Word, blessed: bool, supersedes: Value, conflicts: seq<Value>): Payload
  {
    map f | f in MEMORY_FIELDS :: MemoryField(f, r, gen, status, blessed, supersedes, conflicts)
  }

  function MemoryField(
    f: Field, r: Entry, gen: Fresh, status: Word, blessed: bool, supersedes: Value, conflicts: seq<Value>): Value
  {
    match f
    case MemoryId => Str(gen.memory)
    case MissionId => r.mission
    case Kind => Str(r.kind)
    case MemoryKey => Str(r.key)
    case Content => Str(r.content)
    case SourceEvidenceId => r.evidence
    case ReceiptId => r.receipt
    case IdempotencyKey => r.idem
    case Supersedes => supersedes
    case Confidence => Num(r.confidence)
    case Status => Literal(status)
    case IsVerified => Flag(blessed)
    case Canonical => Flag(blessed)
    case ConflictKeys => List(conflicts)
    case CreatedAt => Str(gen.created)
    case SchemaVersion => Num(1.0)
    case EvidenceRefs => List([])
    case _ => Null
  }

  predicate IsField(f: Field) {
    f in MEMORY_FIELDS
  }

  /** `MemoryRecord.model_validate`, for a complete dump. */
  ghost predicate Parses(p: Payload) {
    forall f {:trigger IsField(f)} :: (f in p <==> IsField(f)) && (f in p ==> WellTyped(f, p[f]))
  }

  predicate WellTyped(f: Field, v: Value) {
    match f
    case MemoryId => v.Str?
    case Kind => v.Str?
    case MemoryKey => v.Str?
    case Content => v.Str?
    case Status => v.Str?
    case CreatedAt => v.Str?
    case Confidence => v.Num?
    case SchemaVersion => v.Num?
    case IsVerified => v.Flag?
    case Canonical => v.Flag?
    case ConflictKeys => v.List?
    case EvidenceRefs => v.List?
    case _ => OptionalText(v)
  }

  predicate OptionalText(v: Value) { v == Null || v.Str? }

  function MemoryItem(rtype: Word, r: Entry, gen: Fresh, p: Payload): Item {
    Item(gen.memory, Lit(rtype), r.mission, gen.created, p)
  }

  function MappingItem(idem: Value, mission: Value, memory: Text, gen: Fresh, created: Text): Item {
    Item(gen.mapping, Lit(MemoryMapping), mission, created, map[IdempotencyKey := idem, MemoryId := Str(memory)])
  }

  function KernelEvent(etype: Word, id: Text, r: Entry, gen: Fresh, body: Payload): Event {
    Event(id, EventRow(
      Lit(etype), if Truthy(r.mission) then Show(r.mission) else Lit(GlobalScope),
      Lit(if Truthy(r.mission) then MissionAggregate else MemoryAggregate), Lit(MemoryKernelActor), r.trace, gen.stamp,
      None, Obj(body)))
  }

  // ---- replay -------------------------------------------------------------------------------

  /** The intact memory record that the mapping found binds to the key, for this mission. */
  function Bound(records: map<Text, Row>, found: Option<Text>, mission: Value): Option<Envelope> {
    if found.None? || EnvelopeOf(records, found.value).None? then None
    else
      var mapping := EnvelopeOf(records, found.value).value;
      if mapping.mission != mission || !Truthy(Get(mapping.payload, MemoryId)) then None
      else
        var memory := EnvelopeOf(records, Show(Get(mapping.payload, MemoryId)));
        if memory.Some? && memory.value.mission == mission then memory else None
  }

  predicate SameRequest(p: Payload, r: Entry) {
    Get(p, Kind) == Str(r.kind) && Get(p, MemoryKey) == Str(r.key) && Get(p, Content) == Str(r.content)
    && Get(p, SourceEvidenceId) == r.evidence && Get(p, Confidence) == Num(r.confidence) && Get(p, ReceiptId) == r.receipt
  }

  ghost function Replayed(p: Payload, r: Entry): Outcome {
    if !Parses(p) then Raised(Unreadable)
    else if SameRequest(p, r) then Returned(p)
    else Raised(IdempotencyConflict)
  }

  /** `propose` also tells whether the record was committed at once. */
  ghost function Reproposed(env: Envelope, r: Entry, auto: bool): Outcome {
    var again := Replayed(env.payload, r);
    if again.Returned? && (env.rtype == Lit(MemoryRow)) != auto then Raised(IdempotencyConflict) else again
  }

  // ---- propose ------------------------------------------------------------------------------

  predicate Duplicate(records: map<Text, Row>, r: Entry, id: Text) {
    HoldsAt(records, r.mission, r.key, id) && !Differs(records[id].body.p, r.content)
  }

  predicate Commits(r: Entry, auto: bool, conflicts: set<Text>) {
    auto && r.kind != Lit(UnverifiedInference) && r.confidence >= 0.8 && Truthy(r.evidence) && conflicts == {}
  }

  function StatusFor(r: Entry, auto: bool, conflicts: set<Text>): Word {
    if Commits(r, auto, conflicts) then CommittedStatus else if conflicts != {} then ConflictStatus else CandidateStatus
  }

  /** The conflicting ids, in the order the scope lists them. */
  ghost predicate ListsAll(conflicts: seq<Value>, ids: set<Text>) {
    |conflicts| == |ids| && forall id :: id in ids <==> Str(id) in conflicts
  }

  function Candidate(records: map<Text, Row>, r: Entry, gen: Fresh, auto: bool, conflicts: seq<Value>): Item {
    var ids := Outdated(records, r.mission, r.key, r.content);
    var yes := Commits(r, auto, ids);
    MemoryItem(if yes then MemoryRow else CandidateRow, r, gen,
               NewMemory(r, gen, StatusFor(r, auto, ids), yes, Null, conflicts))
  }

  function ConflictItem(r: Entry, gen: Fresh, conflicts: seq<Value>): Item {
    Item(gen.conflict, Lit(MemoryConflictRow), r.mission, gen.created,
         map[MemoryId := Str(gen.memory), MemoryKey := Str(r.key), Conflicts := List(conflicts)])
  }

  function SaveMapping(db: Tables, idem: Value, mission: Value, memory: Text, gen: Fresh, created: Text): Tables {
    if Truthy(idem) then SaveRecord(db, MappingItem(idem, mission, memory, gen, created)) else db
  }

  function ProposedEvent(records: map<Text, Row>, r: Entry, gen: Fresh, auto: bool): Event {
    var ids := Outdated(records, r.mission, r.key, r.content);
    KernelEvent(if Commits(r, auto, ids) then MemoryCommitted else CandidateCreated, gen.event, r, gen,
      map[MemoryId := Str(gen.memory), Kind := Str(r.kind), Status := Literal(StatusFor(r, auto, ids))])
  }

  function ConflictEvent(r: Entry, gen: Fresh, conflicts: seq<Value>): Event {
    KernelEvent(ConflictDetected, gen.conflictEvent, r, gen,
      map[MemoryId := Str(gen.memory), Conflicts := List(conflicts)])
  }

  /** The tables after a candidate has been filed. */
  function Filing(db: Tables, r: Entry, gen: Fresh, auto: bool, conflicts: seq<Value>): Tables {
    var filed := SaveEvent(
      SaveMapping(SaveRecord(db, Candidate(db.records, r, gen, auto, conflicts)), r.idem, r.mission, gen.memory, gen, gen.created),
      ProposedEvent(db.records, r, gen, auto));
    if Outdated(db.records, r.mission, r.key, r.content) == {} then filed
    else SaveEvent(SaveRecord(filed, ConflictItem(r, gen, conflicts)), ConflictEvent(r, gen, conflicts))
  }

  /** What a call cannot compute from the tables alone: which fitting mapping the search hands
      back, which equal committed record comes first, and the order of the outdated ones. */
  datatype Choice = Choice(found: Option<Text>, duplicate: Option<Text>, conflicts: seq<Value>, latest: Value)

  /** `propose`, once the key is known to be new. */
  ghost function ProposeNew(db: Tables, r: Entry, gen: Fresh, auto: bool, choice: Choice): Result {
    if Blank(r.key) || Blank(r.content) then Result(db, Raised(KeyAndContentRequired))
    else if !(0.0 <= r.confidence <= 1.0) then Result(db, Raised(ConfidenceOutOfRange))
    else if choice.duplicate.Some? && choice.duplicate.value in db.records && db.records[choice.duplicate.value].body.Obj? then
      var p := db.records[choice.duplicate.value].body.p;
      Result(db, if Parses(p) then Returned(p) else Raised(Unreadable))
    else
      Result(Filing(db, r, gen, auto, choice.conflicts), Returned(Candidate(db.records, r, gen, auto, choice.conflicts).payload))
  }

  ghost function Propose(db: Tables, r: Entry, gen: Fresh, auto: bool, choice: Choice): Result {
    var bound := if Truthy(r.idem) then Bound(db.records, choice.found, r.mission) else None;
    if bound.Some? then Result(db, Reproposed(bound.value, r, auto)) else ProposeNew(db, r, gen, auto, choice)
  }

  // ---- write --------------------------------------------------------------------------------

  predicate NeedsEvidence(r: Entry) {
    !Truthy(r.evidence) && Truthy(r.mission)
    && r.kind in {Lit(DecisionKind), Lit(FailureKind), Lit(FailureExperienceKind), Lit(PatchKind)}
  }

  function WrittenItem(r: Entry, gen: Fresh, latest: Value): Item {
    MemoryItem(MemoryRow, r, gen, NewMemory(r, gen, CommittedStatus, Truthy(r.evidence), latest, []))
  }

  function WrittenEvent(r: Entry, gen: Fresh): Event {
    KernelEvent(MemoryWritten, gen.event, r, gen,
      map[MemoryId := Str(gen.memory), Kind := Str(r.kind), EvidenceBound := Flag(Truthy(r.evidence))])
  }

  /** The tables after a write: outdated records retired, the new one committed. */
  function Committing(db: Tables, r: Entry, gen: Fresh, latest: Value): Tables {
    var retired := db.(records := RetireAll(db.records, Outdated(db.records, r.mission, r.key, r.content), gen.memory));
    SaveEvent(
      SaveMapping(SaveRecord(retired, WrittenItem(r, gen, latest)), r.idem, r.mission, gen.memory, gen, gen.created),
      WrittenEvent(r, gen))
  }

  ghost function WriteNew(db: Tables, r: Entry, gen: Fresh, choice: Choice): Result {
    if r.kind == Lit(UnverifiedInference) then ProposeNew(db, r, gen, false, choice)
    else if NeedsEvidence(r) then Result(db, Raised(EvidenceRequired))
    else Result(Committing(db, r, gen, choice.latest), Returned(WrittenItem(r, gen, choice.latest).payload))
  }

  ghost function Write(db: Tables, r: Entry, gen: Fresh, choice: Choice): Result {
    var bound := if Truthy(r.idem) then Bound(db.records, choice.found, r.mission) else None;
    if bound.Some? then Result(db, Replayed(bound.value.payload, r)) else WriteNew(db, r, gen, choice)
  }

  // ---- patch --------------------------------------------------------------------------------

  function PatchRequest(mission: Value, key: Text, content: Text, trace: Text, evidence: Value): Entry {
    Entry(Lit(PatchKind), key, content, trace, mission, evidence, 1.0, Null, Null)
  }

  /** A mapping row for the key, intact or not. */
  predicate RawMapping(records: map<Text, Row>, idem: Value, id: Text) {
    id in records && records[id].rtype == Lit(MemoryMapping) && records[id].body.Obj?
    && Get(records[id].body.p, IdempotencyKey) == idem
  }

  /** What `patch` makes of the mapping found under its key. */
  ghost function Repatched(records: map<Text, Row>, mapping: Envelope, r: Entry): Outcome {
    if mapping.mission != r.mission || !Truthy(Get(mapping.payload, MemoryId)) then Raised(IdempotencyConflict)
    else
      var id := Show(Get(mapping.payload, MemoryId));
      var memory := EnvelopeOf(records, id);
      if memory.None? then Raised(if id in records then RecordDamaged else RecordMissing)
      else if memory.value.rtype != Lit(MemoryRow) then Raised(NotCommittedYet)
      else if memory.value.mission != r.mission then Raised(MissionMismatch)
      else
        var p := memory.value.payload;
        if !Parses(p) then Raised(Unreadable)
        else if Get(p, MemoryKey) != Str(r.key) || Get(p, Content) != Str(r.content) || Get(p, SourceEvidenceId) != r.evidence
        then Raised(IdempotencyConflict)
        else Returned(p)
  }

  ghost function PatchNew(db: Tables, r: Entry, idem: Value, gen: Fresh, choice: Choice): Result {
    var made := ProposeNew(db, r, gen, true, choice);
    if made.outcome.Raised? then made
    else
      var p := made.outcome.p;
      Result(SaveMapping(made.db, idem, r.mission, Show(Get(p, MemoryId)), gen, Show(Get(p, CreatedAt))), made.outcome)
  }

  /** The answer that the key alone gives, if any. */
  ghost function PatchAnswer(records: map<Text, Row>, r: Entry, idem: Value, found: Option<Text>): Option<Outcome> {
    if !Truthy(idem) then None
    else if found.Some? && EnvelopeOf(records, found.value).Some? then
      Some(Repatched(records, EnvelopeOf(records, found.value).value, r))
    else if exists id :: RawMapping(records, idem, id) then Some(Raised(MappingDamaged))
    else None
  }

  ghost function Patch(db: Tables, r: Entry, idem: Value, gen: Fresh, choice: Choice): Result {
    match PatchAnswer(db.records, r, idem, choice.found)
    case Some(outcome) => Result(db, outcome)
    case None => PatchNew(db, r, idem, gen, choice)
  }

  // ---- committing by hand -------------------------------------------------------------------

  function Blessed(p: Payload): Payload {
    p[Status := Literal(CommittedStatus)][IsVerified := Flag(true)][Canonical := Flag(true)]
  }

  function BlessedItem(p: Payload): Item {
    Item(Show(Get(p, MemoryId)), Lit(MemoryRow), Get(p, MissionId), Show(Get(p, CreatedAt)), Blessed(p))
  }

  function BlessedEvent(p: Payload, actor: Text, trace: Text, id: Text, stamp: Text): Event {
    var mission := Get(p, MissionId);
    Event(id, EventRow(
      Lit(MemoryCommitted), if Truthy(mission) then Show(mission) else Lit(GlobalScope),
      Lit(if Truthy(mission) then MissionAggregate else MemoryAggregate), actor, trace, stamp, None,
      Obj(map[MemoryId := Get(p, MemoryId), Manual := Flag(true)])))
  }

  /** `commit_candidate`: it looks at the record alone, not at the rest of its scope. */
  ghost function CommitCandidate(db: Tables, id: Text, actor: Text, trace: Text, eventId: Text, stamp: Text): Result {
    if id !in db.records || !db.records[id].body.Obj? then Result(db, Raised(RecordMissing))
    else
      var p := db.records[id].body.p;
      if !Parses(p) then Result(db, Raised(Unreadable))
      else if Get(p, Kind) == Literal(UnverifiedInference) then Result(db, Raised(NeverCanonical))
      else if Truthy(Get(p, ConflictKeys)) then Result(db, Raised(CandidateInConflict))
      else Result(SaveEvent(SaveRecord(db, BlessedItem(p)), BlessedEvent(p, actor, trace, eventId, stamp)), Returned(Blessed(p)))
  }

  // ---- what choices are possible ------------------------------------------------------------

  ghost predicate MayFind(records: map<Text, Row>, idem: Value, found: Option<Text>) {
    match found
    case Some(id) => FindsFirst(records, Lit(MemoryMapping), IdempotencyKey, idem, id)
    case None => forall id :: !Finds(records, Lit(MemoryMapping), IdempotencyKey, idem, id)
  }

  ghost predicate MayPick(records: map<Text, Row>, r: Entry, duplicate: Option<Text>) {
    match duplicate
    case Some(id) => Duplicate(records, r, id)
    case None => forall id :: !Duplicate(records, r, id)
  }

  /** The last outdated record listed: one of the newest. */
  ghost predicate Newest(records: map<Text, Row>, ids: set<Text>, latest: Value) {
    (ids == {} && latest == Null)
    || (latest.Str? && latest.t in ids && latest.t in records && records[latest.t].created.Stamp?
        && forall id :: id in ids && id in records && records[id].created.Stamp? ==>
            records[id].created.at <= records[latest.t].created.at)
  }

  ghost predicate Possible(records: map<Text, Row>, r: Entry, idem: Value, choice: Choice) {
    var ids := Outdated(records, r.mission, r.key, r.content);
    (Truthy(idem) ==> MayFind(records, idem, choice.found)) && MayPick(records, r, choice.duplicate)
    && ListsAll(choice.conflicts, ids) && Newest(records, ids, choice.latest)
  }

  lemma {:induction false} SomeListing(ids: set<Text>) returns (all: seq<Value>)
    ensures ListsAll(all, ids)
  {
    if ids == {} {
      all := [];
    } else {
      var id :| id in ids;
      var rest := SomeListing(ids - {id});
      all := rest + [Str(id)];
    }
  }

  lemma SomeNewest(records: map<Text, Row>, ids: set<Text>) returns (latest: Value)
    requires forall id :: id in ids ==> id in records && records[id].created.Stamp?
    ensures Newest(records, ids, latest)
  {
    if ids == {} {
      latest := Null;
    } else {
      NewestExists(records, ids);
      var id :| id in ids && forall other :: other in ids ==> NotAfter(records, other, id);
      latest := Str(id);
    }
  }

  lemma {:induction false} NewestExists(records: map<Text, Row>, ids: set<Text>)
    requires ids != {} && forall id :: id in ids ==> id in records && records[id].created.Stamp?
    ensures exists id :: id in ids && forall other :: other in ids ==> NotAfter(records, other, id)
  {
    var a :| a in ids;
    var newest := a;
    if ids != {a} {
      NewestExists(records, ids - {a});
      var b :| b in ids - {a} && forall other :: other in ids - {a} ==> NotAfter(records, other, b);
      newest := if records[a].created.at >= records[b].created.at then a else b;
      forall other | other in ids ensures NotAfter(records, other, newest) {
        assert other != a ==> NotAfter(records, other, b);
      }
    }
    assert newest in ids && forall other :: other in ids ==> NotAfter(records, other, newest);
  }
}
