/** The schema upgrade: seals legacy rows and rebuilds missing origins from durable events. */
module Migration {
  import opened Ledger
  import opened StoreSpec
  import opened Sqlite
  import opened ApprovalRules
  import opened EvidenceRules
  import opened ConversationRules
  import A = MigrationAnswers
  import StoreAnswers
  import EvidenceAnswers

  // ---- seals --------------------------------------------------------------

  predicate LacksEnvelope(row: Row) {
    row.rtype == Lit(EvidenceRecord) && row.body.Obj? && !Truthy(Get(row.body.p, EnvelopeSha256))
  }

  /** Seals one row. `preexisted` says the seal column was there before this start: then a missing
      seal is corruption, not legacy. */
  function SealRow(id: Text, row: Row, preexisted: bool): Row {
    if !row.body.Obj? || (preexisted && !Present(row.integrity)) then row
    else if LacksEnvelope(row) then
      if Present(row.integrity) && !Intact(id, row) then row else Reseal(id, row, Stamped(row.body.p))
    else if Present(row.integrity) then row
    else Reseal(id, row, row.body.p)
  }

  // ---- votes --------------------------------------------------------------

  /** What a durable creation event says a record looked like. */
  datatype Snapshot = Snapshot(mission: Text, payload: Payload)

  datatype Vote = Abstains | VotesFor(id: Text, snapshot: Option<Snapshot>)

  const MARK := Other("_mission_id")

  function Unmarked(p: Payload): Payload {
    map f | f in p && f != MARK :: p[f]
  }

  /** A request event speaks for its approval; one with the wrong id, key or shape spoils it. */
  function RequestVote(eid: Text, e: EventRow): Vote {
    if e.etype != Lit(Requested) || !e.body.Obj? || e.aggregateType != Lit(MissionAggregate)
       || e.actor != Lit(Governance) || !Truthy(Get(e.body.p, ApprovalId)) then Abstains
    else
      var id := Show(Get(e.body.p, ApprovalId));
      if eid != TransitionEvent(Requested, id) || e.key != Some(Key(Requested, id))
         || !Get(e.body.p, Request).Object? then VotesFor(id, None)
      else VotesFor(id, Some(Snapshot(e.aggregate, Unmarked(Get(e.body.p, Request).fields))))
  }

  /** A creation event speaks for its evidence in the same way. */
  function CreationVote(eid: Text, e: EventRow): Vote {
    if e.etype != Lit(EvidenceCreated) || !e.body.Obj? || e.aggregateType != Lit(MissionAggregate)
       || e.actor != Lit(EvidenceStoreActor) || !Truthy(Get(e.body.p, EvidenceId))
       || !Get(e.body.p, Record).Object? then Abstains
    else
      var id := Show(Get(e.body.p, EvidenceId));
      var record := Get(e.body.p, Record).fields;
      var k := if Truthy(Get(record, IdempotencyKey)) then Get(record, IdempotencyKey) else Str(Key(EvidenceCreate, id));
      if eid != EvidenceEventId(Show(k)) || e.key.None? || Str(e.key.value) != k then VotesFor(id, None)
      else VotesFor(id, Some(Snapshot(e.aggregate, Unmarked(record))))
  }

  function VoteOf(rtype: Word, eid: Text, e: EventRow): Vote {
    if rtype == ApprovalRecord then RequestVote(eid, e) else CreationVote(eid, e)
  }

  /** How each event votes about records of that type. */
  function Ballots(rtype: Word, events: map<Text, EventRow>): map<Text, Vote> {
    map eid | eid in events :: VoteOf(rtype, eid, events[eid])
  }

  predicate SpeaksFor(v: Vote, id: Text) {
    v.VotesFor? && v.id == id
  }

  /** Every event that speaks for the record says the same, and at least one does. */
  ghost predicate Elects(ballots: map<Text, Vote>, id: Text, s: Snapshot) {
    (exists eid :: eid in ballots && SpeaksFor(ballots[eid], id))
    && (forall eid :: eid in ballots && SpeaksFor(ballots[eid], id) ==> ballots[eid].snapshot == Some(s))
  }

  ghost function Elected(ballots: map<Text, Vote>, id: Text): (s: Option<Snapshot>)
    ensures s.Some? ==> Elects(ballots, id, s.value)
    ensures s.None? ==> forall t :: !Elects(ballots, id, t)
  {
    if exists t :: Elects(ballots, id, t) then
      var t :| Elects(ballots, id, t);
      Some(t)
    else None
  }

  // ---- origins ------------------------------------------------------------

  /** The first content to anchor a row to, if its events can vouch for it. */
  function OriginPayload(id: Text, row: Row, requested: Option<Snapshot>, created: Option<Snapshot>): Option<Payload>
    requires row.body.Obj?
  {
    if row.rtype == Lit(ApprovalRecord) then
      if requested.None? || Str(requested.value.mission) != row.mission
         || Get(requested.value.payload, ApprovalId) != Str(id)
         || Get(requested.value.payload, MissionId) != row.mission then None
      else Some(Original(requested.value.payload))
    else if row.rtype == Lit(EvidenceRecord) then
      if created.None? || Str(created.value.mission) != row.mission
         || Get(created.value.payload, EvidenceId) != Str(id)
         || Get(created.value.payload, MissionId) != row.mission then None
      else Some(created.value.payload)
    else Some(row.body.p)
  }

  function AnchorRow(id: Text, row: Row, requested: Option<Snapshot>, created: Option<Snapshot>): Row {
    if row.origin.Some? || !Intact(id, row) || OriginPayload(id, row, requested, created).None? then row
    else row.(origin := Some(SealOf(id, row, OriginPayload(id, row, requested, created).value)))
  }

  ghost function OriginRow(events: map<Text, EventRow>, id: Text, row: Row): Row {
    AnchorRow(id, row, Elected(Ballots(ApprovalRecord, events), id), Elected(Ballots(EvidenceRecord, events), id))
  }

  ghost function MigratedRow(events: map<Text, EventRow>, id: Text, row: Row, preexisted: bool): Row {
    OriginRow(events, id, SealRow(id, row, preexisted))
  }

  /** The whole upgrade. It mentions no order of rows or events. */
  ghost function Migrated(db: Tables, preexisted: bool): Tables {
    db.(records := map id | id in db.records :: MigratedRow(db.events, id, db.records[id], preexisted))
  }

  // ---- the loops of the upgrade, over rows and events in any order -----------------

  /** One step of the fold: a spoiled or contradicted entry stays spoiled. */
  function Count(tally: map<Text, Option<Snapshot>>, v: Vote): map<Text, Option<Snapshot>> {
    match v
    case Abstains => tally
    case VotesFor(id, None) => tally[id := None]
    case VotesFor(id, Some(s)) =>
      if id in tally && tally[id] != Some(s) then tally[id := None] else tally[id := Some(s)]
  }

  ghost predicate TallyOf(ballots: map<Text, Vote>, id: Text, tally: map<Text, Option<Snapshot>>) {
    (id in tally <==> exists eid :: eid in ballots && SpeaksFor(ballots[eid], id))
    && (id in tally ==> forall s :: tally[id] == Some(s) <==> Elects(ballots, id, s))
  }

  ghost predicate Tallies(ballots: map<Text, Vote>, tally: map<Text, Option<Snapshot>>) {
    forall id :: TallyOf(ballots, id, tally)
  }

  lemma CountTallies(ballots: map<Text, Vote>, tally: map<Text, Option<Snapshot>>, eid: Text, v: Vote)
    requires Tallies(ballots, tally) && eid !in ballots
    ensures Tallies(ballots[eid := v], Count(tally, v))
  {
    var more, after := ballots[eid := v], Count(tally, v);
    forall id ensures TallyOf(more, id, after) {
      assert TallyOf(ballots, id, tally);
      if SpeaksFor(v, id) { CountSpoken(ballots, tally, eid, v, id); } else { CountSilent(ballots, tally, eid, v, id); }
    }
  }

  lemma CountSilent(ballots: map<Text, Vote>, tally: map<Text, Option<Snapshot>>, eid: Text, v: Vote, id: Text)
    requires TallyOf(ballots, id, tally) && eid !in ballots && !SpeaksFor(v, id)
    ensures TallyOf(ballots[eid := v], id, Count(tally, v))
  {
    var more := ballots[eid := v];
    assert more[eid] == v && forall x :: x in ballots ==> more[x] == ballots[x];
    assert id in Count(tally, v) <==> id in tally;
    assert id in tally ==> Count(tally, v)[id] == tally[id];
    forall s ensures Elects(more, id, s) <==> Elects(ballots, id, s) { SilentVote(ballots, more, eid, id, s); }
  }

  lemma SilentVote(ballots: map<Text, Vote>, more: map<Text, Vote>, eid: Text, id: Text, s: Snapshot)
    requires more.Keys == ballots.Keys + {eid} && forall x :: x in ballots ==> more[x] == ballots[x]
    requires eid !in ballots && !SpeaksFor(more[eid], id)
    ensures Elects(more, id, s) <==> Elects(ballots, id, s)
  {
  }

  lemma CountSpoken(ballots: map<Text, Vote>, tally: map<Text, Option<Snapshot>>, eid: Text, v: Vote, id: Text)
    requires TallyOf(ballots, id, tally) && eid !in ballots && SpeaksFor(v, id)
    ensures TallyOf(ballots[eid := v], id, Count(tally, v))
  {
    var more := ballots[eid := v];
    assert more[eid] == v && forall x :: x in ballots ==> x in more && more[x] == ballots[x];
    forall s ensures Elects(more, id, s) <==> v.snapshot == Some(s) && (id in tally ==> Elects(ballots, id, s)) {}
  }

  /** The ballots of the events no longer left. */
  ghost predicate Cast(rtype: Word, events: map<Text, EventRow>, left: set<Text>, ballots: map<Text, Vote>) {
    left <= events.Keys && ballots.Keys == events.Keys - left
    && forall x :: x in ballots ==> ballots[x] == VoteOf(rtype, x, events[x])
  }

  lemma CastNext(rtype: Word, events: map<Text, EventRow>, left: set<Text>, ballots: map<Text, Vote>, eid: Text)
    requires Cast(rtype, events, left, ballots) && eid in left
    ensures Cast(rtype, events, left - {eid}, ballots[eid := VoteOf(rtype, eid, events[eid])])
  {
  }

  lemma AllCast(rtype: Word, events: map<Text, EventRow>, ballots: map<Text, Vote>)
    requires Cast(rtype, events, {}, ballots)
    ensures ballots == Ballots(rtype, events)
  {
  }

  method TallyVotes(rtype: Word, events: map<Text, EventRow>) returns (tally: map<Text, Option<Snapshot>>)
    ensures Tallies(Ballots(rtype, events), tally)
  {
    tally := map[];
    var left := events.Keys;
    ghost var ballots: map<Text, Vote> := map[];
    while left != {}
      invariant Cast(rtype, events, left, ballots)
      invariant Tallies(ballots, tally)
      decreases |left|
    {
      var eid :| eid in left;
      var v := VoteOf(rtype, eid, events[eid]);
      CountTallies(ballots, tally, eid, v);
      CastNext(rtype, events, left, ballots, eid);
      tally := Count(tally, v);
      left := left - {eid};
      ballots := ballots[eid := v];
    }
    AllCast(rtype, events, ballots);
  }

  function Winner(tally: map<Text, Option<Snapshot>>, id: Text): Option<Snapshot> {
    if id in tally then tally[id] else None
  }

  /** The fold over the events, in any order, elects what all of them together elect. */
  lemma WinnerIsElected(ballots: map<Text, Vote>, tally: map<Text, Option<Snapshot>>, id: Text)
    requires Tallies(ballots, tally)
    ensures Winner(tally, id) == Elected(ballots, id)
  {
    assert TallyOf(ballots, id, tally);
    var won, elected := Winner(tally, id), Elected(ballots, id);
    if won.Some? { ElectedOnce(ballots, id, won.value); }
    if elected.Some? { assert Elects(ballots, id, elected.value); }
  }

  lemma ElectedOnce(ballots: map<Text, Vote>, id: Text, s: Snapshot)
    requires Elects(ballots, id, s)
    ensures Elected(ballots, id) == Some(s)
  {
    var eid :| eid in ballots && SpeaksFor(ballots[eid], id);
  }

  /** Seals the rows one by one. */
  method SealRows(rows: map<Text, Row>, preexisted: bool) returns (sealed: map<Text, Row>)
    ensures sealed == map id | id in rows :: SealRow(id, rows[id], preexisted)
  {
    sealed := rows;
    var left := rows.Keys;
    while left != {}
      invariant left <= rows.Keys && sealed.Keys == rows.Keys
      invariant forall id :: id in left ==> sealed[id] == rows[id]
      invariant forall id :: id in rows && id !in left ==> sealed[id] == SealRow(id, rows[id], preexisted)
      decreases |left|
    {
      var id :| id in left;
      sealed := sealed[id := SealRow(id, sealed[id], preexisted)];
      left := left - {id};
    }
  }

  /** Anchors the rows one by one. */
  method AnchorRows(
    rows: map<Text, Row>, requested: map<Text, Option<Snapshot>>, created: map<Text, Option<Snapshot>>)
    returns (anchored: map<Text, Row>)
    ensures anchored == map id | id in rows :: AnchorRow(id, rows[id], Winner(requested, id), Winner(created, id))
  {
    anchored := rows;
    var left := rows.Keys;
    while left != {}
      invariant left <= rows.Keys && anchored.Keys == rows.Keys
      invariant forall id :: id in left ==> anchored[id] == rows[id]
      invariant forall id :: id in rows && id !in left ==>
        anchored[id] == AnchorRow(id, rows[id], Winner(requested, id), Winner(created, id))
      decreases |left|
    {
      var id :| id in left;
      anchored := anchored[id := AnchorRow(id, anchored[id], Winner(requested, id), Winner(created, id))];
      left := left - {id};
    }
  }

  /** All messages but those left have their index row, and an index row that was there stayed. */
  ghost predicate Indexed(rows: map<Text, Row>, index: map<Text, IndexRow>, left: set<Text>, filled: map<Text, IndexRow>) {
    forall m :: IndexedAt(rows, index, left, filled, m)
  }

  predicate IndexedAt(rows: map<Text, Row>, index: map<Text, IndexRow>, left: set<Text>, filled: map<Text, IndexRow>, m: Text) {
    if m in index then m in filled && filled[m] == index[m]
    else if m !in left && Indexable(rows, m) then m in filled && filled[m] == IndexRowOf(rows, m)
    else m !in filled
  }

  function IndexRowOf(rows: map<Text, Row>, m: Text): IndexRow
    requires Indexable(rows, m)
  {
    IndexRow(Show(Get(rows[m].body.p, ConversationId)), rows[m].created)
  }

  lemma IndexOneMore(
    rows: map<Text, Row>, index: map<Text, IndexRow>, left: set<Text>, filled: map<Text, IndexRow>, m: Text,
    filled': map<Text, IndexRow>)
    requires Indexed(rows, index, left, filled) && m in left
    requires filled' == if m !in filled && Indexable(rows, m) then filled[m := IndexRowOf(rows, m)] else filled
    ensures Indexed(rows, index, left - {m}, filled')
  {
    forall n ensures IndexedAt(rows, index, left - {m}, filled', n) {
      assert IndexedAt(rows, index, left, filled, n);
    }
  }

  lemma AllIndexed(rows: map<Text, Row>, index: map<Text, IndexRow>, filled: map<Text, IndexRow>)
    requires Indexed(rows, index, {}, filled)
    ensures filled == Backfilled(rows, index)
  {
    forall m ensures m in filled <==> m in Backfilled(rows, index) {
      assert IndexedAt(rows, index, {}, filled, m);
    }
    forall m | m in filled ensures filled[m] == Backfilled(rows, index)[m] {
      assert IndexedAt(rows, index, {}, filled, m);
    }
  }

  /** Indexes the messages one by one; an index row that is there stays. */
  method BackfillIndex(rows: map<Text, Row>, index: map<Text, IndexRow>) returns (filled: map<Text, IndexRow>)
    ensures filled == Backfilled(rows, index)
  {
    filled := index;
    var left := rows.Keys;
    while left != {}
      invariant left <= rows.Keys && Indexed(rows, index, left, filled)
      decreases |left|
    {
      var m :| m in left;
      ghost var before := filled;
      if m !in filled && Indexable(rows, m) {
        filled := filled[m := IndexRowOf(rows, m)];
      }
      IndexOneMore(rows, index, left, before, m, filled);
      left := left - {m};
    }
    AllIndexed(rows, index, filled);
  }

  /** `_init_schema`: seal every row, fold the events, anchor every row, index every message; in
      whatever order. */
  method InitSchema(store: SQLiteStore, preexisted: bool)
    requires store.Valid()
    modifies store
    ensures store.Valid() && store.Now() == Migrated(old(store.Now()), preexisted)
    ensures A.MigratesTo(old(store.Now()), store.Now(), preexisted)
    ensures store.index == Backfilled(store.records, old(store.index))
    ensures A.IndexFilled(store.records, old(store.index), store.index)
  {
    var sealed := SealRows(store.records, preexisted);
    var requested := TallyVotes(ApprovalRecord, store.events);
    var created := TallyVotes(EvidenceRecord, store.events);
    var anchored := AnchorRows(sealed, requested, created);
    MigratedInSteps(store.Now(), preexisted, sealed, requested, created, anchored);
    MigrationMeans(store.Now(), preexisted);
    store.records := anchored;
    var index := BackfillIndex(store.records, store.index);
    BackfillMeans(store.records, store.index);
    store.index := index;
  }

  lemma BackfillMeans(rs: map<Text, Row>, index: map<Text, IndexRow>)
    ensures A.IndexFilled(rs, index, Backfilled(rs, index))
  {
    forall m, c | m !in index && A.TellsOf(rs, m, c) ensures Indexable(rs, m) {}
  }

  lemma MigratedInSteps(
    db: Tables, preexisted: bool, sealed: map<Text, Row>, requested: map<Text, Option<Snapshot>>,
    created: map<Text, Option<Snapshot>>, anchored: map<Text, Row>)
    requires sealed == map id | id in db.records :: SealRow(id, db.records[id], preexisted)
    requires Tallies(Ballots(ApprovalRecord, db.events), requested)
    requires Tallies(Ballots(EvidenceRecord, db.events), created)
    requires anchored == map id | id in sealed :: AnchorRow(id, sealed[id], Winner(requested, id), Winner(created, id))
    ensures anchored == Migrated(db, preexisted).records
  {
    forall id | id in db.records ensures anchored[id] == MigratedRow(db.events, id, db.records[id], preexisted) {
      WinnerIsElected(Ballots(ApprovalRecord, db.events), requested, id);
      WinnerIsElected(Ballots(EvidenceRecord, db.events), created, id);
    }
  }

  // ---- theorems -----------------------------------------------------------------------

  lemma SealOnce(id: Text, row: Row, preexisted: bool)
    ensures SealRow(id, SealRow(id, row, preexisted), true) == SealRow(id, row, preexisted)
    ensures SealRow(id, row, preexisted).origin == row.origin
  {
  }

  lemma AnchoredIsSealed(events: map<Text, EventRow>, id: Text, row: Row)
    requires SealRow(id, row, true) == row
    ensures SealRow(id, OriginRow(events, id, row), true) == OriginRow(events, id, row)
    ensures OriginRow(events, id, OriginRow(events, id, row)) == OriginRow(events, id, row)
  {
  }

  /** Upgrading twice is upgrading once. */
  lemma MigrationIsIdempotent(db: Tables, preexisted: bool)
    ensures Migrated(Migrated(db, preexisted), true) == Migrated(db, preexisted)
  {
    var once := Migrated(db, preexisted);
    forall id | id in db.records ensures Migrated(once, true).records[id] == once.records[id] {
      SealOnce(id, db.records[id], preexisted);
      AnchoredIsSealed(db.events, id, SealRow(id, db.records[id], preexisted));
    }
    assert Migrated(once, true).records == once.records;
  }

  /** A process that died with the seals written and some of the origins written. */
  ghost predicate PartlyAnchored(db: Tables, partial: Tables, preexisted: bool) {
    partial.events == db.events && partial.records.Keys == db.records.Keys
    && forall id :: id in db.records ==>
      partial.records[id] == SealRow(id, db.records[id], preexisted)
      || partial.records[id] == MigratedRow(db.events, id, db.records[id], preexisted)
  }

  /** Restarting from any partial origin backfill ends in the same store. */
  lemma OriginBackfillRestarts(db: Tables, partial: Tables, preexisted: bool)
    requires PartlyAnchored(db, partial, preexisted)
    ensures Migrated(partial, true) == Migrated(db, preexisted)
  {
    forall id | id in db.records ensures Migrated(partial, true).records[id] == Migrated(db, preexisted).records[id] {
      SealOnce(id, db.records[id], preexisted);
      AnchoredIsSealed(db.events, id, SealRow(id, db.records[id], preexisted));
    }
    assert Migrated(partial, true).records == Migrated(db, preexisted).records;
  }

  /** The seal backfill does not restart like that: a process that died after adding the column
      but before sealing leaves rows the next start takes for corrupt. The outcome is the same
      exactly when there was no readable row left to seal. */
  lemma SealBackfillRestarts(db: Tables)
    ensures Migrated(db, true) == Migrated(db, false)
      <==> forall id :: id in db.records && db.records[id].body.Obj? ==> Present(db.records[id].integrity)
  {
    var restarted, straight := Migrated(db, true), Migrated(db, false);
    if forall id :: id in db.records && db.records[id].body.Obj? ==> Present(db.records[id].integrity) {
      forall id | id in db.records ensures restarted.records[id] == straight.records[id] {
        assert SealRow(id, db.records[id], true) == SealRow(id, db.records[id], false);
      }
      assert restarted.records == straight.records;
    } else {
      var id :| id in db.records && db.records[id].body.Obj? && !Present(db.records[id].integrity);
      assert restarted.records[id].integrity == db.records[id].integrity;
      assert Present(straight.records[id].integrity);
    }
  }

  /** A store from before there were seals and origins. */
  predicate FromBeforeSeals(db: Tables) {
    forall id :: id in db.records ==> db.records[id].integrity.None? && db.records[id].origin.None?
  }

  /** Of such a store a start that is not interrupted makes every ordinary object readable, and one that
      restarts before the seals were filled makes nothing readable. */
  lemma InterruptedSealsLoseAll(db: Tables, id: Text)
    requires FromBeforeSeals(db) && id in db.records
    ensures EnvelopeOf(Migrated(db, true).records, id).None?
    ensures db.records[id].body.Obj? && db.records[id].rtype != Lit(ApprovalRecord) && db.records[id].rtype != Lit(EvidenceRecord)
      ==> EnvelopeOf(Migrated(db, false).records, id).Some?
  {
    SealOnce(id, db.records[id], false);
  }

  /** Rows that are not JSON objects, and rows whose seal does not match, are never touched. */
  lemma CorruptRowsAreKept(db: Tables, preexisted: bool, id: Text)
    requires id in db.records
    requires !db.records[id].body.Obj? || (Present(db.records[id].integrity) && !Intact(id, db.records[id]))
    ensures Migrated(db, preexisted).records[id] == db.records[id]
  {
  }

  /** The records whose first form only their events can vouch for. */
  predicate Vouched(rtype: Word) {
    rtype == ApprovalRecord || rtype == EvidenceRecord
  }

  /** One event that spoils a record's history, or two that disagree, leave it unanchored. */
  lemma ConflictQuarantines(db: Tables, preexisted: bool, rtype: Word, id: Text, eid: Text, eid': Text)
    requires Vouched(rtype) && id in db.records && db.records[id].rtype == Lit(rtype) && db.records[id].origin.None?
    requires eid in db.events && eid' in db.events
    requires var v, v' := VoteOf(rtype, eid, db.events[eid]), VoteOf(rtype, eid', db.events[eid']);
      SpeaksFor(v, id) && SpeaksFor(v', id) && (v.snapshot.None? || v.snapshot != v'.snapshot)
    ensures Migrated(db, preexisted).records[id].origin.None?
    ensures EnvelopeOf(Migrated(db, preexisted).records, id).None?
  {
    var ballots := Ballots(rtype, db.events);
    assert eid in ballots && eid' in ballots;
    assert ballots[eid] == VoteOf(rtype, eid, db.events[eid]) && ballots[eid'] == VoteOf(rtype, eid', db.events[eid']);
    UnelectedStaysOpen(db, preexisted, rtype, id);
  }

  lemma UnelectedStaysOpen(db: Tables, preexisted: bool, rtype: Word, id: Text)
    requires Vouched(rtype) && id in db.records && db.records[id].rtype == Lit(rtype) && db.records[id].origin.None?
    requires Elected(Ballots(rtype, db.events), id).None?
    ensures Migrated(db, preexisted).records[id].origin.None?
    ensures EnvelopeOf(Migrated(db, preexisted).records, id).None?
  {
    SealKeepsColumns(id, db.records[id], preexisted);
    UnvouchedStays(id, SealRow(id, db.records[id], preexisted), rtype,
                   Elected(Ballots(ApprovalRecord, db.events), id), Elected(Ballots(EvidenceRecord, db.events), id));
  }

  lemma UnvouchedStays(id: Text, row: Row, rtype: Word, requested: Option<Snapshot>, created: Option<Snapshot>)
    requires Vouched(rtype) && row.rtype == Lit(rtype) && (if rtype == ApprovalRecord then requested.None? else created.None?)
    ensures AnchorRow(id, row, requested, created) == row
  {
  }

  /** The upgrade blesses an approval only as its request event describes it: the upgraded record
      passes the origin check exactly when nothing but status and decision differs from the
      request. A decided record repurposed before the upgrade stays unusable. */
  lemma MigrationBlessesOnlyTheRequest(db: Tables, preexisted: bool, id: Text)
    requires id in db.records && db.records[id].rtype == Lit(ApprovalRecord) && db.records[id].origin.None?
    requires EnvelopeOf(Migrated(db, preexisted).records, id).Some?
    ensures var env := EnvelopeOf(Migrated(db, preexisted).records, id).value;
      var request := Elected(Ballots(ApprovalRecord, db.events), id);
      request.Some? && Str(request.value.mission) == env.mission
      && (OriginMatches(env, Original(env.payload)) <==> Original(env.payload) == Original(request.value.payload))
  {
    SealOnce(id, db.records[id], preexisted);
  }

  lemma AnchoredAsCreated(
    rs: map<Text, Row>, id: Text, row: Row, requested: Option<Snapshot>, created: Option<Snapshot>, p: Payload)
    requires id in rs && rs[id] == AnchorRow(id, row, requested, created)
    requires row.rtype == Lit(EvidenceRecord) && row.origin.None? && EnvelopeOf(rs, id).Some?
    ensures var env := EnvelopeOf(rs, id).value;
      created.Some? && Str(created.value.mission) == env.mission && (OriginMatches(env, p) <==> p == created.value.payload)
  {
  }

  lemma SealKeepsColumns(id: Text, row: Row, preexisted: bool)
    ensures var sealed := SealRow(id, row, preexisted); sealed.rtype == row.rtype && sealed.origin == row.origin
  {
  }

  /** Evidence likewise: the upgraded record passes the origin check exactly in the form that its
      creation event describes. */
  lemma MigrationBlessesOnlyTheCreation(db: Tables, preexisted: bool, id: Text, p: Payload)
    requires id in db.records && db.records[id].rtype == Lit(EvidenceRecord) && db.records[id].origin.None?
    requires EnvelopeOf(Migrated(db, preexisted).records, id).Some?
    ensures var env := EnvelopeOf(Migrated(db, preexisted).records, id).value;
      var created := Elected(Ballots(EvidenceRecord, db.events), id);
      created.Some? && Str(created.value.mission) == env.mission
      && (OriginMatches(env, p) <==> p == created.value.payload)
  {
    SealKeepsColumns(id, db.records[id], preexisted);
    AnchoredAsCreated(Migrated(db, preexisted).records, id, SealRow(id, db.records[id], preexisted),
                      Elected(Ballots(ApprovalRecord, db.events), id), Elected(Ballots(EvidenceRecord, db.events), id), p);
  }

  // ---- what the upgrade leaves, in columns ----------------------------------------------------------

  lemma ResealSays(id: Text, row: Row, q: Payload)
    requires row.body.Obj? && A.PayloadKept(row.rtype, row.body.p, q)
    ensures A.SealedAnew(id, row, Reseal(id, row, q))
  {
  }

  lemma StampKept(row: Row)
    requires LacksEnvelope(row)
    ensures A.PayloadKept(row.rtype, row.body.p, Stamped(row.body.p))
  {
    EvidenceAnswers.StampFits(row.body.p);
  }

  lemma UntrustedStays(id: Text, row: Row, preexisted: bool)
    requires !A.Trusted(id, row, preexisted)
    ensures SealRow(id, row, preexisted) == row && !Intact(id, row)
  {
  }

  lemma FittingSealStays(id: Text, row: Row)
    requires StoreAnswers.SealFits(id, row)
    ensures Reseal(id, row, row.body.p) == row && Present(row.integrity) && Intact(id, row)
  {
  }

  lemma TrustedIsResealed(id: Text, row: Row, preexisted: bool)
    requires A.Trusted(id, row, preexisted)
    ensures SealRow(id, row, preexisted) == Reseal(id, row, if LacksEnvelope(row) then Stamped(row.body.p) else row.body.p)
  {
    if StoreAnswers.SealFits(id, row) { FittingSealStays(id, row); }
  }

  lemma TrustedIsSealed(id: Text, row: Row, preexisted: bool)
    requires A.Trusted(id, row, preexisted)
    ensures SealRow(id, row, preexisted).origin == row.origin && A.SealedAnew(id, row, SealRow(id, row, preexisted))
  {
    TrustedIsResealed(id, row, preexisted);
    if LacksEnvelope(row) { StampKept(row); }
    ResealSays(id, row, if LacksEnvelope(row) then Stamped(row.body.p) else row.body.p);
  }

  lemma RequestSpeaks(es: map<Text, EventRow>, id: Text, eid: Text)
    requires eid in es
    ensures SpeaksFor(Ballots(ApprovalRecord, es)[eid], id) <==> A.OfRequest(es[eid], id)
  {
  }

  /** The request elected is that of the one event there is. */
  lemma RequestElects(es: map<Text, EventRow>, id: Text, s: Snapshot)
    requires Elects(Ballots(ApprovalRecord, es), id, s)
    ensures exists q :: A.SoleRequest(es, id, q) && s == Snapshot(es[TransitionId(Key(Requested, id))].aggregate, Unmarked(q))
  {
    var ballots, eid := Ballots(ApprovalRecord, es), TransitionId(Key(Requested, id));
    forall e | e in es ensures SpeaksFor(ballots[e], id) <==> A.OfRequest(es[e], id) { RequestSpeaks(es, id, e); }
    forall e | e in es && A.OfRequest(es[e], id) ensures e == eid {
      assert ballots[e].snapshot == Some(s);
    }
    assert A.SoleRequest(es, id, Get(es[eid].body.p, Request).fields);
  }

  lemma RequestIsElected(es: map<Text, EventRow>, id: Text, q: Payload)
    requires A.SoleRequest(es, id, q)
    ensures Elects(Ballots(ApprovalRecord, es), id, Snapshot(es[TransitionId(Key(Requested, id))].aggregate, Unmarked(q)))
  {
    var ballots, eid := Ballots(ApprovalRecord, es), TransitionId(Key(Requested, id));
    forall e | e in es ensures SpeaksFor(ballots[e], id) <==> A.OfRequest(es[e], id) { RequestSpeaks(es, id, e); }
    assert SpeaksFor(ballots[eid], id);
  }

  lemma CreationSpeaks(es: map<Text, EventRow>, id: Text, eid: Text)
    requires eid in es
    ensures SpeaksFor(Ballots(EvidenceRecord, es)[eid], id) <==> A.OfCreation(es[eid], id)
  {
  }

  /** A creation event elected is under the id and key of its record; so there is one. */
  lemma CreationNamed(es: map<Text, EventRow>, id: Text, s: Snapshot, e: Text)
    requires Elects(Ballots(EvidenceRecord, es), id, s) && e in es && A.OfCreation(es[e], id)
    ensures var q := Get(es[e].body.p, Record).fields;
      A.CreationKey(q, id).Str? && e == EvidenceEventId(A.CreationKey(q, id).t) && es[e].key == Some(A.CreationKey(q, id).t)
      && s == Snapshot(es[e].aggregate, Unmarked(q))
  {
    CreationSpeaks(es, id, e);
    assert Ballots(EvidenceRecord, es)[e].snapshot == Some(s);
  }

  lemma UnmarkedKey(q: Payload, q': Payload, id: Text)
    requires Unmarked(q) == Unmarked(q')
    ensures A.CreationKey(q, id) == A.CreationKey(q', id)
  {
    assert Get(Unmarked(q), IdempotencyKey) == Get(q, IdempotencyKey);
    assert Get(Unmarked(q'), IdempotencyKey) == Get(q', IdempotencyKey);
  }

  lemma CreationElects(es: map<Text, EventRow>, id: Text, s: Snapshot)
    requires Elects(Ballots(EvidenceRecord, es), id, s)
    ensures exists q :: A.SoleCreation(es, id, q) && s == Snapshot(es[EvidenceEventId(A.CreationKey(q, id).t)].aggregate, Unmarked(q))
  {
    var eid :| eid in Ballots(EvidenceRecord, es) && SpeaksFor(Ballots(EvidenceRecord, es)[eid], id);
    CreationSpeaks(es, id, eid);
    CreationNamed(es, id, s, eid);
    var q := Get(es[eid].body.p, Record).fields;
    forall e | e in es && A.OfCreation(es[e], id) ensures e == eid {
      CreationNamed(es, id, s, e);
      UnmarkedKey(Get(es[e].body.p, Record).fields, q, id);
    }
    assert A.SoleCreation(es, id, q);
  }

  lemma CreationIsElected(es: map<Text, EventRow>, id: Text, q: Payload)
    requires A.SoleCreation(es, id, q)
    ensures Elects(Ballots(EvidenceRecord, es), id, Snapshot(es[EvidenceEventId(A.CreationKey(q, id).t)].aggregate, Unmarked(q)))
  {
    var ballots, eid := Ballots(EvidenceRecord, es), EvidenceEventId(A.CreationKey(q, id).t);
    forall e | e in es ensures SpeaksFor(ballots[e], id) <==> A.OfCreation(es[e], id) { CreationSpeaks(es, id, e); }
    assert SpeaksFor(ballots[eid], id);
  }

  // ---- anchors --------------------------------------------------------------------------------------

  lemma RequestedForm(q: Payload)
    ensures A.Pending(Original(Unmarked(q))) && MARK !in Original(Unmarked(q))
    ensures A.SameBut(A.DECISION_FIELDS + {MARK}, q, Original(Unmarked(q)))
  {
  }

  lemma CreatedForm(q: Payload)
    ensures MARK !in Unmarked(q) && A.SameBut({MARK}, q, Unmarked(q))
  {
  }

  /** What the vote on a row comes to, in the fields of its events. */
  lemma OriginSays(es: map<Text, EventRow>, id: Text, row: Row)
    requires row.body.Obj?
    ensures var p := OriginPayload(id, row, Elected(Ballots(ApprovalRecord, es), id), Elected(Ballots(EvidenceRecord, es), id));
      if p.Some? then A.FirstForm(es, id, row, p.value) else forall q :: !A.FirstForm(es, id, row, q)
  {
    if row.rtype == Lit(ApprovalRecord) {
      RequestOriginSays(es, id, row);
    } else if row.rtype == Lit(EvidenceRecord) {
      CreationOriginSays(es, id, row);
    }
  }

  lemma RequestOriginSays(es: map<Text, EventRow>, id: Text, row: Row)
    requires row.body.Obj? && row.rtype == Lit(ApprovalRecord)
    ensures var p := OriginPayload(id, row, Elected(Ballots(ApprovalRecord, es), id), Elected(Ballots(EvidenceRecord, es), id));
      if p.Some? then A.FirstForm(es, id, row, p.value) else forall q :: !A.FirstForm(es, id, row, q)
  {
    var requested, created := Elected(Ballots(ApprovalRecord, es), id), Elected(Ballots(EvidenceRecord, es), id);
    if exists q :: A.SoleRequest(es, id, q) {
      var q :| A.SoleRequest(es, id, q);
      RequestIsElected(es, id, q);
      ElectedOnce(Ballots(ApprovalRecord, es), id, Snapshot(es[TransitionId(Key(Requested, id))].aggregate, Unmarked(q)));
      SoleOriginSays(es, id, row, requested, created, q);
    } else if requested.Some? {
      RequestElects(es, id, requested.value);
    }
  }

  lemma SoleVouches(
    es: map<Text, EventRow>, id: Text, row: Row, requested: Option<Snapshot>, created: Option<Snapshot>, q: Payload)
    requires row.body.Obj? && row.rtype == Lit(ApprovalRecord) && A.SoleRequest(es, id, q)
    requires requested == Some(Snapshot(es[TransitionId(Key(Requested, id))].aggregate, Unmarked(q)))
    ensures OriginPayload(id, row, requested, created)
      == if A.RequestedAs(es, id, row.mission, q) then Some(Original(Unmarked(q))) else None
  {
    assert Get(Unmarked(q), ApprovalId) == Get(q, ApprovalId) && Get(Unmarked(q), MissionId) == Get(q, MissionId);
  }

  lemma NoOtherRequest(es: map<Text, EventRow>, id: Text, row: Row, q: Payload)
    requires row.rtype == Lit(ApprovalRecord) && A.SoleRequest(es, id, q) && !A.RequestedAs(es, id, row.mission, q)
    ensures forall p :: !A.FirstForm(es, id, row, p)
  {
    forall q' ensures !A.RequestedAs(es, id, row.mission, q') {
      assert A.SoleRequest(es, id, q') ==> q' == q;
    }
  }

  lemma SoleOriginSays(
    es: map<Text, EventRow>, id: Text, row: Row, requested: Option<Snapshot>, created: Option<Snapshot>, q: Payload)
    requires row.body.Obj? && row.rtype == Lit(ApprovalRecord) && A.SoleRequest(es, id, q)
    requires requested == Some(Snapshot(es[TransitionId(Key(Requested, id))].aggregate, Unmarked(q)))
    ensures var p := OriginPayload(id, row, requested, created);
      if p.Some? then A.FirstForm(es, id, row, p.value) else forall q :: !A.FirstForm(es, id, row, q)
  {
    SoleVouches(es, id, row, requested, created, q);
    if A.RequestedAs(es, id, row.mission, q) { RequestedForm(q); } else { NoOtherRequest(es, id, row, q); }
  }

  lemma CreationOriginSays(es: map<Text, EventRow>, id: Text, row: Row)
    requires row.body.Obj? && row.rtype == Lit(EvidenceRecord)
    ensures var p := OriginPayload(id, row, Elected(Ballots(ApprovalRecord, es), id), Elected(Ballots(EvidenceRecord, es), id));
      if p.Some? then A.FirstForm(es, id, row, p.value) else forall q :: !A.FirstForm(es, id, row, q)
  {
    var requested, created := Elected(Ballots(ApprovalRecord, es), id), Elected(Ballots(EvidenceRecord, es), id);
    if exists q :: A.SoleCreation(es, id, q) {
      var q :| A.SoleCreation(es, id, q);
      CreationIsElected(es, id, q);
      ElectedOnce(Ballots(EvidenceRecord, es), id, Snapshot(es[EvidenceEventId(A.CreationKey(q, id).t)].aggregate, Unmarked(q)));
      SoleCreationSays(es, id, row, requested, created, q);
    } else if created.Some? {
      CreationElects(es, id, created.value);
    }
  }

  lemma SoleIsSole(es: map<Text, EventRow>, id: Text, q: Payload, q': Payload)
    requires A.SoleCreation(es, id, q) && A.SoleCreation(es, id, q')
    ensures q == q'
  {
  }

  lemma CreationVouches(
    es: map<Text, EventRow>, id: Text, row: Row, requested: Option<Snapshot>, created: Option<Snapshot>, q: Payload)
    requires row.body.Obj? && row.rtype == Lit(EvidenceRecord) && A.SoleCreation(es, id, q)
    requires created == Some(Snapshot(es[EvidenceEventId(A.CreationKey(q, id).t)].aggregate, Unmarked(q)))
    ensures OriginPayload(id, row, requested, created) == if A.CreatedAs(es, id, row.mission, q) then Some(Unmarked(q)) else None
  {
    assert Get(Unmarked(q), EvidenceId) == Get(q, EvidenceId) && Get(Unmarked(q), MissionId) == Get(q, MissionId);
  }

  lemma NoOtherCreation(es: map<Text, EventRow>, id: Text, row: Row, q: Payload)
    requires row.rtype == Lit(EvidenceRecord) && A.SoleCreation(es, id, q) && !A.CreatedAs(es, id, row.mission, q)
    ensures forall p :: !A.FirstForm(es, id, row, p)
  {
    forall q' ensures !A.CreatedAs(es, id, row.mission, q') {
      if A.SoleCreation(es, id, q') { SoleIsSole(es, id, q, q'); }
    }
  }

  lemma SoleCreationSays(
    es: map<Text, EventRow>, id: Text, row: Row, requested: Option<Snapshot>, created: Option<Snapshot>, q: Payload)
    requires row.body.Obj? && row.rtype == Lit(EvidenceRecord) && A.SoleCreation(es, id, q)
    requires created == Some(Snapshot(es[EvidenceEventId(A.CreationKey(q, id).t)].aggregate, Unmarked(q)))
    ensures var p := OriginPayload(id, row, requested, created);
      if p.Some? then A.FirstForm(es, id, row, p.value) else forall q :: !A.FirstForm(es, id, row, q)
  {
    CreationVouches(es, id, row, requested, created, q);
    if A.CreatedAs(es, id, row.mission, q) { CreatedForm(q); } else { NoOtherCreation(es, id, row, q); }
  }

  /** The upgrade of every row, told in its columns and in the fields of the events. */
  lemma MigrationMeans(db: Tables, preexisted: bool)
    ensures A.MigratesTo(db, Migrated(db, preexisted), preexisted)
  {
    forall id | id in db.records
      ensures A.MigratedAs(db.events, id, db.records[id], Migrated(db, preexisted).records[id], preexisted)
    {
      RowMeans(db.events, id, db.records[id], preexisted);
    }
  }

  lemma RowMeans(es: map<Text, EventRow>, id: Text, row: Row, preexisted: bool)
    ensures A.MigratedAs(es, id, row, MigratedRow(es, id, row, preexisted), preexisted)
  {
    var sealed := SealRow(id, row, preexisted);
    if !A.Trusted(id, row, preexisted) {
      UntrustedStays(id, row, preexisted);
    } else {
      TrustedIsSealed(id, row, preexisted);
      OriginSays(es, id, sealed);
      AnchorSays(es, id, row, sealed);
    }
  }

  lemma AnchorSays(es: map<Text, EventRow>, id: Text, row: Row, sealed: Row)
    requires A.SealedAnew(id, row, sealed) && sealed.origin == row.origin
    requires var p := OriginPayload(id, sealed, Elected(Ballots(ApprovalRecord, es), id), Elected(Ballots(EvidenceRecord, es), id));
      if p.Some? then A.FirstForm(es, id, sealed, p.value) else forall q :: !A.FirstForm(es, id, sealed, q)
    ensures A.SealedAnew(id, row, OriginRow(es, id, sealed)) && A.AnchoredAs(es, id, row, OriginRow(es, id, sealed))
  {
    forall q ensures A.FirstForm(es, id, OriginRow(es, id, sealed), q) <==> A.FirstForm(es, id, sealed, q) {}
  }
}
