/** What the schema upgrade leaves in each row, in the columns of the rows and events themselves. */
module MigrationAnswers {
  import opened Ledger
  import opened StoreAnswers
  import opened EvidenceAnswers

  // ---- seals --------------------------------------------------------------------------------------

  /** An object whose seal fits, or that has none and is from before there were seals. */
  predicate Trusted(id: Text, row: Row, preexisted: bool) {
    row.body.Obj? && if row.integrity == None || row.integrity == Some(EMPTY) then !preexisted else SealFits(id, row)
  }

  /** The payload stays, except that evidence without an envelope digest gets one. */
  ghost predicate PayloadKept(rtype: Text, p: Payload, q: Payload) {
    if rtype == Lit(EvidenceRecord) && !Truthy(Get(p, EnvelopeSha256)) then
      EnvelopeFits(q) && forall f :: f != EnvelopeSha256 ==> (f in q <==> f in p) && Get(q, f) == Get(p, f)
    else q == p
  }

  ghost predicate SealedAnew(id: Text, row: Row, row': Row) {
    row.body.Obj? && row'.rtype == row.rtype && row'.mission == row.mission && row'.created == row.created
    && SealFits(id, row') && PayloadKept(row.rtype, row.body.p, row'.body.p)
  }

  // ---- what the events say of a record's first form ---------------------------------------------------

  /** An event of governance that speaks of the request of this approval, soundly or not. */
  predicate OfRequest(e: EventRow, id: Text) {
    e.etype == Lit(Requested) && e.aggregateType == Lit(MissionAggregate) && e.actor == Lit(Governance) && e.body.Obj?
    && Truthy(Get(e.body.p, ApprovalId)) && Show(Get(e.body.p, ApprovalId)) == id
  }

  /** Of all events about the request of this approval there is one, under the id and the key of the
      request; it has the record in it. */
  predicate SoleRequest(es: map<Text, EventRow>, id: Text, q: Payload) {
    var eid := TransitionId(Key(Requested, id));
    eid in es && OfRequest(es[eid], id) && es[eid].key == Some(Key(Requested, id))
    && Get(es[eid].body.p, Request) == Object(q) && forall e :: e in es && e != eid ==> !OfRequest(es[e], id)
  }

  /** And it is about this mission. */
  predicate RequestedAs(es: map<Text, EventRow>, id: Text, mission: Value, q: Payload) {
    SoleRequest(es, id, q) && Str(es[TransitionId(Key(Requested, id))].aggregate) == mission
    && Get(q, ApprovalId) == Str(id) && Get(q, MissionId) == mission
  }

  /** An event of the evidence store that speaks of the creation of this evidence. */
  predicate OfCreation(e: EventRow, id: Text) {
    e.etype == Lit(EvidenceCreated) && e.aggregateType == Lit(MissionAggregate) && e.actor == Lit(EvidenceStoreActor)
    && e.body.Obj? && Truthy(Get(e.body.p, EvidenceId)) && Show(Get(e.body.p, EvidenceId)) == id
    && Get(e.body.p, Record).Object?
  }

  /** The key of a creation event: the record's own, or one made of the evidence id. */
  function CreationKey(q: Payload, id: Text): Value {
    if Truthy(Get(q, IdempotencyKey)) then Get(q, IdempotencyKey) else Str(Key(EvidenceCreate, id))
  }

  /** The same for the creation of evidence. */
  predicate SoleCreation(es: map<Text, EventRow>, id: Text, q: Payload) {
    var k := CreationKey(q, id);
    k.Str? && EvidenceEventId(k.t) in es
    && (var eid := EvidenceEventId(k.t);
        OfCreation(es[eid], id) && es[eid].key == Some(k.t) && Get(es[eid].body.p, Record) == Object(q)
        && forall e :: e in es && e != eid ==> !OfCreation(es[e], id))
  }

  predicate CreatedAs(es: map<Text, EventRow>, id: Text, mission: Value, q: Payload) {
    SoleCreation(es, id, q) && Str(es[EvidenceEventId(CreationKey(q, id).t)].aggregate) == mission
    && Get(q, EvidenceId) == Str(id) && Get(q, MissionId) == mission
  }

  // ---- origins -------------------------------------------------------------------------------------

  const DECISION_FIELDS: set<Field> := {Status, DecidedBy, DecisionNote, DecisionAction, DecidedAt}

  predicate Pending(p: Payload) {
    DECISION_FIELDS <= p.Keys && p[Status] == Str(Lit(PendingStatus)) && p[DecidedBy] == Null && p[DecisionNote] == Null
    && p[DecisionAction] == Null && p[DecidedAt] == Null
  }

  /** Outside these fields the two say the same. */
  ghost predicate SameBut(but: set<Field>, p: Payload, q: Payload) {
    forall f :: f !in but ==> (f in q <==> f in p) && Get(q, f) == Get(p, f)
  }

  /** `p` is what the events, or for other types the row, vouch for as the first form. */
  ghost predicate FirstForm(es: map<Text, EventRow>, id: Text, row: Row, p: Payload) {
    var mark := Other("_mission_id");
    if row.rtype == Lit(ApprovalRecord) then
      Pending(p) && mark !in p
      && exists q :: RequestedAs(es, id, row.mission, q) && SameBut(DECISION_FIELDS + {mark}, q, p)
    else if row.rtype == Lit(EvidenceRecord) then
      mark !in p && exists q :: CreatedAs(es, id, row.mission, q) && SameBut({mark}, q, p)
    else row.body == Obj(p)
  }

  /** An origin that is there stays; where there is none, the row is anchored to its first form
      exactly if one is vouched for. */
  ghost predicate AnchoredAs(es: map<Text, EventRow>, id: Text, row: Row, row': Row) {
    if row.origin.Some? then row'.origin == row.origin
    else if row'.origin.None? then forall p :: !FirstForm(es, id, row', p)
    else exists p :: FirstForm(es, id, row', p) && row'.origin == Some(Seal(id, row.rtype, row.mission, row.created, p))
  }

  /** What the upgrade makes of a row. */
  ghost predicate MigratedAs(es: map<Text, EventRow>, id: Text, row: Row, row': Row, preexisted: bool) {
    if Trusted(id, row, preexisted) then SealedAnew(id, row, row') && AnchoredAs(es, id, row, row') else row' == row
  }

  ghost predicate MigratesTo(db: Tables, db': Tables, preexisted: bool) {
    db'.events == db.events && db'.records.Keys == db.records.Keys
    && forall id :: id in db.records ==> MigratedAs(db.events, id, db.records[id], db'.records[id], preexisted)
  }

  // ---- the message index --------------------------------------------------------------------------------

  /** A message whose conversation is stored. */
  predicate TellsOf(rs: map<Text, Row>, m: Text, c: Text) {
    m in rs && rs[m].rtype == Lit(MessageRecord) && rs[m].body.Obj? && Get(rs[m].body.p, ConversationId) != Null
    && Show(Get(rs[m].body.p, ConversationId)) == c && c in rs && rs[c].rtype == Lit(ConversationRecord)
  }

  /** An index row that is there stays; a message of a stored conversation gets one under that
      conversation, with its own time; nothing else is indexed. */
  ghost predicate IndexFilled(rs: map<Text, Row>, index: map<Text, IndexRow>, index': map<Text, IndexRow>) {
    (forall m :: m in index ==> m in index' && index'[m] == index[m])
    && (forall m :: m in index' ==> m in index || TellsOf(rs, m, index'[m].conversation))
    && (forall m, c :: m !in index && TellsOf(rs, m, c) ==> m in index' && index'[m] == IndexRow(c, rs[m].created))
  }
}
