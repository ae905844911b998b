/** Adding, replaying and verifying evidence as programs of atomic store steps. Between any two
    steps of a call, other callers may run. */
module EvidenceSteps {
  import opened Ledger
  import opened StoreSpec
  import opened EvidenceRules

  /** The arguments of `add`, with the id and times it generates. */
  datatype AddArgs = AddArgs(
    mission: Text, kind: Text, title: Text, content: Text, trace: Text, sourceEvent: Value,
    task: Value, tool: Value, actor: Text, mime: Text, source: Text, status: Text,
    parents: seq<Value>, key: Value, newId: Text, at: Text, created: Text, stamp: Text)

  // ---- what `add` asks for and what it builds -----------------------------------

  /** `expected_request`. */
  function Asked(args: AddArgs): Ask {
    Ask(Str(args.mission), Str(args.kind), Str(args.title), Str(args.content), args.task, args.tool,
        Str(args.actor), Str(args.mime), Str(args.source), List(args.parents), args.key,
        args.sourceEvent, Str(args.status))
  }

  predicate Keyed(args: AddArgs) {
    Truthy(args.key)
  }

  function IdOf(args: AddArgs): Text {
    if Keyed(args) then EvidenceIdOf(Show(args.key)) else args.newId
  }

  function EventKey(args: AddArgs): Text {
    if Keyed(args) then Show(args.key) else Key(EvidenceCreate, IdOf(args))
  }

  /** The event's own id stands in for a missing (or empty) source event. */
  function BoundSource(args: AddArgs): Value {
    if Truthy(args.sourceEvent) then args.sourceEvent else Str(EvidenceEventId(EventKey(args)))
  }

  function Artifact(args: AddArgs): Payload {
    map[EvidenceId := Str(IdOf(args)), MissionId := Str(args.mission), Kind := Str(args.kind),
        Title := Str(args.title), Content := Str(args.content), Sha256 := Str(ContentDigest(args.content)),
        TaskId := args.task, ToolInvocationId := args.tool, Actor := Str(args.actor),
        Timestamp := Str(args.at), MimeType := Str(args.mime), Source := Str(args.source),
        VerificationStatus := Str(args.status), ParentEvidence := List(args.parents),
        IdempotencyKey := args.key, SourceEventId := BoundSource(args), CreatedAt := Str(args.created)]
  }

  /** The record stored: the artifact, the digest of the request, the digest of the envelope. */
  function Filing(args: AddArgs): Payload {
    Stamped(Artifact(args)[RequestSha256 := Str(RequestDigest(Asked(args).(sourceEvent := BoundSource(args))))])
  }

  function AddItem(args: AddArgs): Item {
    Item(IdOf(args), Lit(EvidenceRecord), Str(args.mission), args.created, Filing(args))
  }

  function CreationPayload(id: Value, kind: Value, record: Payload): Payload {
    map[EvidenceId := id, Kind := kind, Record := Object(record)]
  }

  function AddEvent(args: AddArgs): Event {
    Event(EvidenceEventId(EventKey(args)),
          EventRow(Lit(EvidenceCreated), args.mission, Lit(MissionAggregate), Lit(EvidenceStoreActor),
                   args.trace, args.stamp, Some(EventKey(args)),
                   Obj(CreationPayload(Str(IdOf(args)), Str(args.kind), Filing(args)))))
  }

  // ---- replay ---------------------------------------------------------------------

  const ARTIFACT_FIELDS: set<Field> := {
    EvidenceId, MissionId, Kind, Title, Content, Sha256, TaskId, ToolInvocationId, Actor, Timestamp,
    MimeType, Source, VerificationStatus, ParentEvidence, IdempotencyKey, SourceEventId, CreatedAt}

  /** `_artifact_payload`. */
  function ArtifactOf(p: Payload): Payload {
    map f | f in p && f in ARTIFACT_FIELDS :: p[f]
  }

  datatype Why =
    | RecordInvalid | RequestConflict | EventAmbiguous | EventConflict | BadEvent | RecordLost
    | GaveUp | NotFound | WrongType | IntegrityInvalid | LostRace

  datatype Replay = Refuse(why: Why) | Accept

  predicate ReplayIntact(env: Envelope, id: Text, asked: Ask) {
    env.rtype == Lit(EvidenceRecord) && env.id == id && env.mission == asked.mission
    && Get(env.payload, EvidenceId) == Str(id) && Get(env.payload, MissionId) == env.mission
    && ContentIntact(env.payload) && Get(env.payload, EnvelopeSha256) == Str(EnvelopeSha(env.payload))
  }

  /** The eleven fields every replay must repeat; a source event only if it names one. */
  predicate RepeatsFields(p: Payload, asked: Ask) {
    ParentEvidence in p
    && RequestIn(p, asked.status, asked.sourceEvent) == asked
    && (asked.sourceEvent == Null || Get(p, SourceEventId) == asked.sourceEvent)
  }

  /** The stored evidence answers this request. */
  predicate RequestMatches(p: Payload, asked: Ask) {
    var digest, source := Get(p, RequestSha256), Get(p, SourceEventId);
    RepeatsFields(p, asked)
    && (Truthy(digest) ==>
        Show(digest) == RequestDigest(asked)
        || (asked.sourceEvent == Null && source == Str(EvidenceEventId(Show(Get(p, IdempotencyKey))))
            && Show(digest) == RequestDigest(asked.(sourceEvent := source))))
  }

  /** `_replay_artifact`. */
  function ReplayCheck(read: Option<Envelope>, id: Text, args: AddArgs): Replay {
    if read.None? || !ReplayIntact(read.value, id, Asked(args)) then Refuse(RecordInvalid)
    else if OriginOf(read.value, read.value.payload).NoOrigin? then Refuse(RequestConflict)
    else if RequestMatches(read.value.payload, Asked(args)) then Accept
    else Refuse(RequestConflict)
  }

  /** A legacy creation event of the artifact, with or without the record and the key. */
  predicate LegacyCreation(e: EventRow, a: Payload, origin: Payload) {
    e.etype == Lit(EvidenceCreated) && Str(e.aggregate) == Get(a, MissionId)
    && e.aggregateType == Lit(MissionAggregate) && e.actor == Lit(EvidenceStoreActor)
    && (e.body == Obj(map[EvidenceId := Get(a, EvidenceId), Kind := Get(a, Kind)])
        || e.body == Obj(CreationPayload(Get(a, EvidenceId), Get(a, Kind), origin)))
    && (e.key.None? || Str(e.key.value) == Get(a, IdempotencyKey))
  }

  // ---- the calls ------------------------------------------------------------------

  datatype Outcome =
    | Raised(why: Why)
    | Added(id: Text, artifact: Payload)
    | VerifyReturned(id: Text, verified: bool)

  datatype Job = AddJob(args: AddArgs) | VerifyJob(id: Text, stamp: Text)

  /** How far a call has got; `tries` counts the repair attempts left. */
  datatype Stage =
    | LookingUpKey
    | Creating
    | Settling(id: Text)
    | Replaying(id: Text, tries: nat)
    | Rereading(id: Text, tries: nat, artifact: Payload)
    | FindingEvent(id: Text, tries: nat, artifact: Payload, env: Envelope)
    | ScanningEvents(id: Text, tries: nat, artifact: Payload, env: Envelope)
    | Repairing(id: Text, tries: nat, env: Envelope, next: Payload, ev: Event)
    | ReadingToVerify
    | Verifying(env: Envelope, next: Payload, ev: Event, verified: bool)
    | Done(outcome: Outcome)

  datatype Call = Call(job: Job, stage: Stage)

  function Start(job: Job): Call {
    Call(job, if job.VerifyJob? then ReadingToVerify else if Keyed(job.args) then LookingUpKey else Creating)
  }

  /** The record `find_record_envelope` hands back: any one that fits. */
  ghost function FoundByKey(records: map<Text, Row>, key: Value): (id: Option<Text>)
    ensures id.Some? ==> Finds(records, Lit(EvidenceRecord), IdempotencyKey, key, id.value)
    ensures id.None? ==> forall i :: !Finds(records, Lit(EvidenceRecord), IdempotencyKey, key, i)
  {
    if exists i :: Finds(records, Lit(EvidenceRecord), IdempotencyKey, key, i) then
      var i :| Finds(records, Lit(EvidenceRecord), IdempotencyKey, key, i);
      Some(i)
    else None
  }

  function AfterLookup(found: Option<Text>): Stage {
    if found.Some? then Replaying(found.value, 2) else Creating
  }

  ghost function KeyHolder(events: map<Text, EventRow>, k: Text): (id: Option<Text>)
    ensures id.Some? ==> id.value in events && events[id.value].key == Some(k)
    ensures id.None? ==> !KeyTaken(events, k)
  {
    if KeyTaken(events, k) then
      var i :| i in events && events[i].key == Some(k);
      Some(i)
    else None
  }

  /** The repaired payload: a missing source event is filled in, the rest is as read. */
  function Rebound(p: Payload, artifact: Payload, eid: Text): Payload {
    Stamped(p[SourceEventId :=
      if Truthy(Get(artifact, SourceEventId)) then Get(artifact, SourceEventId) else Str(eid)])
  }

  function RepairEvent(artifact: Payload, trace: Text, eid: Text, body: Body): Event {
    Event(eid,
          EventRow(Lit(EvidenceCreated), Show(Get(artifact, MissionId)), Lit(MissionAggregate),
                   Lit(EvidenceStoreActor), trace, Show(Get(artifact, CreatedAt)),
                   Some(Show(Get(artifact, IdempotencyKey))), body))
  }

  /** A repair that binds the record to an existing event, or to a new one. */
  function ToRepair(
    args: AddArgs, st: Stage, existing: Option<Text>, events: map<Text, EventRow>): Stage
    requires st.FindingEvent? || st.ScanningEvents?
    requires existing.Some? ==> existing.value in events
  {
    var origin := OriginOf(st.env, st.env.payload);
    var k := Show(Get(st.artifact, IdempotencyKey));
    if existing.Some? && !events[existing.value].body.Obj? then Done(Raised(BadEvent))
    else if origin.NoOrigin? then Done(Raised(RecordInvalid))
    else
      var eid := if existing.Some? then existing.value else EvidenceEventId(k);
      var body := if existing.Some? then events[eid].body
                  else Obj(CreationPayload(Get(st.artifact, EvidenceId), Get(st.artifact, Kind),
                                           OriginRecord(st.env.payload, origin)));
      Repairing(st.id, st.tries, st.env, Rebound(st.env.payload, st.artifact, eid),
                RepairEvent(st.artifact, args.trace, eid, body))
  }

  predicate IsLegacy(events: map<Text, EventRow>, st: Stage, eid: Text)
    requires st.FindingEvent? || st.ScanningEvents?
  {
    eid in events && OriginOf(st.env, st.env.payload).OriginForm?
    && LegacyCreation(events[eid], st.artifact, OriginRecord(st.env.payload, OriginOf(st.env, st.env.payload)))
  }

  ghost function AfterEventScan(args: AddArgs, st: Stage, events: map<Text, EventRow>): Stage
    requires st.ScanningEvents?
  {
    if exists a, b :: a != b && IsLegacy(events, st, a) && IsLegacy(events, st, b) then Done(Raised(EventAmbiguous))
    else if exists a :: IsLegacy(events, st, a) then
      var a :| IsLegacy(events, st, a);
      ToRepair(args, st, Some(a), events)
    else ToRepair(args, st, None, events)
  }

  function AfterReplay(check: Replay, id: Text, tries: nat, p: Payload): Stage {
    match check
    case Refuse(why) => Done(Raised(why))
    case Accept =>
      if !Truthy(Get(p, IdempotencyKey)) then Done(Added(id, ArtifactOf(p)))
      else Rereading(id, tries, ArtifactOf(p))
  }

  function AfterReread(st: Stage, read: Option<Envelope>): Stage
    requires st.Rereading?
  {
    if read.None? || OriginOf(read.value, read.value.payload).NoOrigin? then Done(Raised(RecordInvalid))
    else FindingEvent(st.id, st.tries, st.artifact, read.value)
  }

  function AfterSettling(check: Replay, id: Text, p: Payload): Stage {
    match check
    case Refuse(why) => Done(Raised(why))
    case Accept => Done(Added(id, ArtifactOf(p)))
  }

  /** The payload of what was read, if anything was. */
  function PayloadRead(read: Option<Envelope>): Payload {
    if read.Some? then read.value.payload else map[]
  }

  /** What a verification writes. */
  function VerifiedForm(p: Payload, ok: bool): Payload {
    Stamped(p[VerificationStatus := Literal(if ok then Verified else Corrupt)])
  }

  function AfterVerifyRead(id: Text, stamp: Text, read: Option<Envelope>): Stage {
    if read.None? then Done(Raised(NotFound))
    else
      var env := read.value;
      if env.rtype != Lit(EvidenceRecord) then Done(Raised(WrongType))
      else if Get(env.payload, EvidenceId) != Str(id) || Get(env.payload, MissionId) != env.mission
              || Get(env.payload, EnvelopeSha256) != Str(EnvelopeSha(env.payload)) then
        Done(Raised(IntegrityInvalid))
      else
        var ok := ContentIntact(env.payload);
        Verifying(env, VerifiedForm(env.payload, ok), VerifyEvent(id, ContentSha(env.payload), !ok, stamp), ok)
  }

  function AfterClaim(args: AddArgs, claim: Claim): Stage {
    if claim.ClaimConflict? then Done(Raised(EventConflict))
    else if Keyed(args) then Settling(IdOf(args))
    else if claim.Lost? then Done(Raised(RecordLost))
    else Done(Added(IdOf(args), Artifact(args)))
  }

  // ---- one step ---------------------------------------------------------------------

  ghost function RepairOf(db: Tables, st: Stage): (Tables, RepairResult)
    requires st.Repairing? || st.Verifying?
  {
    Repair(db, st.env.id, Lit(EvidenceRecord), st.env.integrity, st.next, st.ev)
  }

  ghost function NextAdd(db: Tables, args: AddArgs, st: Stage): Stage {
    match st
    case LookingUpKey => AfterLookup(FoundByKey(db.records, args.key))
    case Creating => AfterClaim(args, SaveWithEvent(db, AddItem(args), AddEvent(args)).1)
    case Settling(id) =>
      var read := EnvelopeOf(db.records, id);
      AfterSettling(ReplayCheck(read, id, args), id, PayloadRead(read))
    case Replaying(id, tries) =>
      var read := EnvelopeOf(db.records, id);
      AfterReplay(ReplayCheck(read, id, args), id, tries, PayloadRead(read))
    case Rereading(id, _, _) => AfterReread(st, EnvelopeOf(db.records, id))
    case FindingEvent(id, tries, artifact, env) =>
      (match KeyHolder(db.events, Show(Get(artifact, IdempotencyKey)))
       case Some(eid) => ToRepair(args, st, Some(eid), db.events)
       case None => ScanningEvents(id, tries, artifact, env))
    case ScanningEvents(_, _, _, _) => AfterEventScan(args, st, db.events)
    case Repairing(id, tries, _, _, _) =>
      (match RepairOf(db, st).1
       case Repaired(_, _) => Settling(id)
       case Refused => if tries > 1 then Replaying(id, tries - 1) else Done(Raised(GaveUp))
       case RepairConflict => Done(Raised(EventConflict)))
    case _ => st
  }

  ghost function NextVerify(db: Tables, id: Text, stamp: Text, st: Stage): Stage {
    match st
    case ReadingToVerify => AfterVerifyRead(id, stamp, EnvelopeOf(db.records, id))
    case Verifying(_, _, _, verified) =>
      (match RepairOf(db, st).1
       case Repaired(_, _) => Done(VerifyReturned(id, verified))
       case Refused => Done(Raised(LostRace))
       case RepairConflict => Done(Raised(EventConflict)))
    case _ => st
  }

  ghost function StepCall(db: Tables, c: Call): Call {
    c.(stage := match c.job
      case AddJob(args) => NextAdd(db, args, c.stage)
      case VerifyJob(id, stamp) => NextVerify(db, id, stamp, c.stage))
  }

  /** The tables after the call's next atomic step. */
  ghost function Written(db: Tables, c: Call): Tables {
    if c.stage.Creating? && c.job.AddJob? then SaveWithEvent(db, AddItem(c.job.args), AddEvent(c.job.args)).0
    else if c.stage.Repairing? || c.stage.Verifying? then RepairOf(db, c.stage).0
    else db
  }

  /** A whole verification with nobody else about. */
  ghost function VerifyAlone(db: Tables, id: Text, stamp: Text): (Tables, Outcome) {
    var st := AfterVerifyRead(id, stamp, EnvelopeOf(db.records, id));
    if st.Done? then (db, st.outcome)
    else (RepairOf(db, st).0, NextVerify(db, id, stamp, st).outcome)
  }
}
