/** The values that the durable ledger stores: texts, JSON payloads, rows and events. */
module Ledger {

  datatype Option<+T> = None | Some(value: T)

  /** Every literal text that the modelled code writes or compares. */
  datatype Word =
    // record types
    | ApprovalRecord | EvidenceRecord | ToolRecord | EvaluationRecord | EvaluationMapping
    | ConversationRecord | MessageRecord | LeaseRecord | HistoryRecord
    | MemoryRow | CandidateRow | MemoryMapping | MemoryConflictRow
    // event types and idempotency-key prefixes
    | Requested | Decided | Expired | Consumed
    | EvidenceCreated | EvidenceVerified | EvidenceVerificationFailed
    | EvidenceCreate | VerifyTrace | EvaluationEvent | MissionEvaluated
    | MemoryWritten | MemoryCommitted | CandidateCreated | ConflictDetected
    | ConversationCreated | ConversationClosed | ConversationReopened | MessagePosted
    | LeaseAcquired | LeaseReleased
    // aggregates and actors
    | MissionAggregate | EvidenceAggregate | Governance | EvidenceStoreActor | EvaluationEngineActor
    | MemoryAggregate | MemoryKernelActor | GlobalScope | ConversationAggregate | RuntimeActor | ResourceAggregate
    // mission states
    | EvaluationState | CompletedState
    // approval statuses
    | PendingStatus | ApprovedStatus | RejectedStatus | ChangesRequestedStatus | PausedStatus
    | ExpiredStatus | ConsumedStatus
    // memory and conversation statuses
    | CommittedStatus | CandidateStatus | ConflictStatus | SupersededStatus | OpenStatus | ClosedStatus
    // memory kinds that the kernel treats specially, and message roles
    | DecisionKind | FailureKind | FailureExperienceKind | PatchKind | UnverifiedInference
    | UserRole | AssistantRole | SystemRole
    // decisions and scopes
    | ApproveOnce | ApproveMission | DecisionApproved | DecisionRejected
    | RequestChanges | DecisionChangesRequested | PauseMission | SingleAction
    // risk levels
    | R0 | R1 | R2 | R3 | R4
    // evidence statuses
    | Unverified | Verified | Corrupt
    // tool invocations
    | FailedInvocation | CompletedInvocation | FileWriteReport | WriteWorkspaceFile

  /** Payload field names; `Other` is any name the modelled code never mentions. */
  datatype Field =
    | ApprovalId | MissionId | Action | RiskLevel | Rationale | Impact | Reason | AffectedResources
    | ExternalEffect | Reversible | RollbackPlan | EstimatedCost | ApprovalScope | ExecutorId
    | ProposalSha256 | ExpiresAt | Status | DecidedBy | DecisionNote | DecisionAction | CreatedAt
    | DecidedAt | SchemaVersion | MissionRunId | OperationRunId | CorrelationId | Provenance
    | ApprovalClass | EvidenceRefs
    | Scope | Decision | UseId | ActorId | Request
    | EvidenceId | Kind | Title | Content | Sha256 | TaskId | ToolInvocationId | Actor | Timestamp
    | MimeType | Source | VerificationStatus | ParentEvidence | IdempotencyKey | SourceEventId
    | RequestSha256 | EnvelopeSha256 | Record
    | EvaluationId | Correctness | Reliability | Safety | EvidenceCoverage | TokenEfficiency | CostScore
    | RecoveryRate | Passed | Notes
    | MemoryId | MemoryKey | SourceEvidenceId | Confidence | IsVerified | Canonical | ConflictKeys | ReceiptId
    | Supersedes | SupersededBy | EvidenceBound | Conflicts | Manual
    | ConversationId | MessageId | MessageIds | UpdateTime | Role | TraceId | Metadata
    | LeaseId | ResourceId | Writer | Active
    | RecordId | CapabilityId | Success | Latency | Cost
    | InvocationId | ToolName | ReceiptEvidenceId | FailureCode | ReasonCode
    | Other(name: string)

  /** Texts. Identifiers and digests derived from other texts are injective constructors. */
  datatype Text =
    | Lit(word: Word)
    | User(s: string)
    | Stamp(at: int)                                       // an ISO timestamp
    | Shown(value: Value)                                    // str() of a value that is not a text
    | Key(prefix: Word, of: Text)                          // f"{prefix}:{of}"
    | VerifyKey(evidence: Text, digest: Text, corrupt: bool)
    | TransitionId(key: Text)                              // evt_ + 24 digits of the key's digest
    | EvidenceEventId(key: Text)                           // evt_ + 12 digits of the key's digest
    | EvidenceIdOf(key: Text)
    | EvaluationIdOf(key: Text)
    | EvaluationMappingIdOf(key: Text)
    | ContentDigest(content: Text)
    | Seal(id: Text, rtype: Text, mission: Value, created: Text, payload: map<Field, Value>)
    | EnvelopeDigest(identity: Identity)
    | RequestDigest(request: Ask)

  /** The eleven values an evidence envelope digest covers. */
  datatype Identity = Identity(
    evidence: Value, mission: Value, kind: Value, sha256: Value, task: Value, tool: Value, actor: Value,
    source: Value, sourceEvent: Value, status: Value, request: Value)

  /** The thirteen values an evidence request digest covers. */
  datatype Ask = Ask(
    mission: Value, kind: Value, title: Value, content: Value, task: Value, tool: Value, actor: Value,
    mime: Value, source: Value, parents: Value, key: Value, sourceEvent: Value, status: Value)

  datatype Value =
    | Null
    | Flag(b: bool)
    | Num(n: real)
    | Str(t: Text)
    | List(items: seq<Value>)
    | Object(fields: map<Field, Value>)

  type Payload = map<Field, Value>

  const EMPTY := User("")

  /** `payload.get(field)`. */
  function Get(p: Payload, f: Field): Value {
    if f in p then p[f] else Null
  }

  /** Python truth of a JSON value. */
  predicate Truthy(v: Value) {
    match v
    case Null => false
    case Flag(b) => b
    case Num(n) => n != 0.0
    case Str(t) => t != EMPTY
    case List(xs) => xs != []
    case Object(m) => m != map[]
  }

  /** `str(value)`. */
  function Show(v: Value): Text {
    if v.Str? then v.t else Shown(v)
  }

  predicate Whitespace(s: string) {
    forall i :: 0 <= i < |s| ==> s[i] in {' ', '\t', '\n', '\r'}
  }

  /** `not text.strip()`. */
  predicate Blank(t: Text) {
    t.User? && Whitespace(t.s)
  }

  function Literal(w: Word): Value { Str(Lit(w)) }

  /** The payload column: text that is not JSON, JSON that is not an object, or an object. */
  datatype Body = Malformed(raw: string) | NonObject(v: Value) | Obj(p: Payload)

  /** One row of the `records` table; its key is the record id. */
  datatype Row = Row(
    rtype: Text, mission: Value, body: Body, created: Text,
    integrity: Option<Text>, origin: Option<Text>)

  /** One row of the `events` table; its key is the event id. */
  datatype EventRow = EventRow(
    etype: Text, aggregate: Text, aggregateType: Text, actor: Text, trace: Text, stamp: Text,
    key: Option<Text>, body: Body)

  datatype Event = Event(id: Text, row: EventRow)

  datatype Tables = Tables(records: map<Text, Row>, events: map<Text, EventRow>)

  /** One row of the index of conversation messages; its key is the message id. */
  datatype IndexRow = IndexRow(conversation: Text, created: Text)

  /** What `get_record_envelope` hands to callers. */
  datatype Envelope = Envelope(
    id: Text, rtype: Text, mission: Value, created: Text, integrity: Text, origin: Text,
    payload: Payload)
}
