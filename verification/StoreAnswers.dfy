/** What the store calls that go through leave in the tables, column by column. */
module StoreAnswers {
  import opened Ledger
  import opened StoreSpec

  // ---- one row, one event -------------------------------------------------------------------------

  /** Only this row has another payload, sealed again; its other columns are as they were. */
  predicate OneRowRewritten(rs: map<Text, Row>, rs': map<Text, Row>, id: Text, q: Payload) {
    id in rs && id in rs' && rs' == rs[id := rs'[id]]
    && rs'[id].rtype == rs[id].rtype && rs'[id].mission == rs[id].mission && rs'[id].created == rs[id].created
    && rs'[id].origin == rs[id].origin && rs'[id].body == Obj(q)
    && rs'[id].integrity == Some(Seal(id, rs[id].rtype, rs[id].mission, rs[id].created, q))
  }

  /** Only this row is new; it is anchored to what it says. */
  predicate OneRowAdded(rs: map<Text, Row>, rs': map<Text, Row>, id: Text, rtype: Text, mission: Value, created: Text, p: Payload) {
    id !in rs && id in rs' && rs' == rs[id := rs'[id]]
    && rs'[id].rtype == rtype && rs'[id].mission == mission && rs'[id].created == created && rs'[id].body == Obj(p)
    && rs'[id].integrity == Some(Seal(id, rtype, mission, created, p)) && rs'[id].origin == Some(Seal(id, rtype, mission, created, p))
  }

  /** Under this id stands an event of this kind, about this, by this actor; no other event was added
      or changed. */
  predicate OneEventStands(
    es: map<Text, EventRow>, es': map<Text, EventRow>, eid: Text, etype: Text, aggregate: Text, aggregateType: Text,
    actor: Text, key: Text, body: Payload)
  {
    eid in es' && es' == es[eid := es'[eid]]
    && es'[eid].etype == etype && es'[eid].aggregate == aggregate && es'[eid].aggregateType == aggregateType
    && es'[eid].actor == actor && es'[eid].key == Some(key) && es'[eid].body == Obj(body)
  }

  /** Sealed over its own columns and payload. */
  predicate SealFits(id: Text, row: Row) {
    row.body.Obj? && row.integrity == Some(Seal(id, row.rtype, row.mission, row.created, row.body.p))
  }

  /** What `get_record_envelope` hands out: an object under a seal that fits, with an origin. */
  predicate IntactRow(rs: map<Text, Row>, id: Text) {
    id in rs && SealFits(id, rs[id]) && rs[id].origin.Some? && rs[id].origin != Some(EMPTY)
  }

  lemma IntactIsRead(rs: map<Text, Row>, id: Text)
    ensures EnvelopeOf(rs, id).Some? <==> IntactRow(rs, id)
    ensures IntactRow(rs, id) ==> EnvelopeOf(rs, id).value == Envelope(
      id, rs[id].rtype, rs[id].mission, rs[id].created, rs[id].integrity.value, rs[id].origin.value, rs[id].body.p)
  {
  }

  // ---- single rows --------------------------------------------------------------------------------

  /** An upsert writes every column, and the origin only where there was no row. */
  lemma SaveRecordStands(db: Tables, it: Item)
    ensures var rs, rs' := db.records, SaveRecord(db, it).records;
      it.id in rs' && rs' == rs[it.id := rs'[it.id]] && SaveRecord(db, it).events == db.events
      && SealFits(it.id, rs'[it.id])
      && rs'[it.id].rtype == it.rtype && rs'[it.id].mission == it.mission && rs'[it.id].created == it.created
      && rs'[it.id].body == Obj(it.payload)
      && rs'[it.id].origin == if it.id in rs then rs[it.id].origin else rs'[it.id].integrity
  {
  }

  lemma SaveIfAbsentStands(db: Tables, it: Item)
    ensures var db' := SaveRecordIfAbsent(db, it);
      db'.events == db.events
      && if it.id in db.records then db' == db
         else OneRowAdded(db.records, db'.records, it.id, it.rtype, it.mission, it.created, it.payload)
  {
  }

  /** One field is set exactly where the row is of the type, sealed, and holds what was expected;
      otherwise nothing is written. */
  lemma CasFieldStands(db: Tables, id: Text, rtype: Text, f: Field, expected: Value, v: Value)
    ensures var db' := CasField(db, id, rtype, f, expected, v);
      db'.events == db.events
      && if id in db.records && db.records[id].rtype == rtype && SealFits(id, db.records[id])
            && Get(db.records[id].body.p, f) == expected && db.records[id].integrity != Some(EMPTY) then
           OneRowRewritten(db.records, db'.records, id, db.records[id].body.p[f := v])
         else db' == db
  {
  }

  /** A payload is replaced exactly where the row is of the type, sealed, and sealed as the caller
      read it; otherwise nothing is written. */
  lemma ReplaceStands(db: Tables, id: Text, rtype: Text, seal: Text, p: Payload)
    ensures var db' := Replace(db, id, rtype, seal, p);
      db'.events == db.events
      && if id in db.records && db.records[id].rtype == rtype && SealFits(id, db.records[id])
            && db.records[id].integrity == Some(seal) && seal != EMPTY then
           OneRowRewritten(db.records, db'.records, id, p)
         else db' == db
  {
  }

  // ---- several rows ---------------------------------------------------------------------------------

  /** The row has the item's columns, payload and seal. */
  predicate RowIs(row: Row, it: Item) {
    row.rtype == it.rtype && row.mission == it.mission && row.created == it.created && row.body == Obj(it.payload)
    && row.integrity == Some(Seal(it.id, it.rtype, it.mission, it.created, it.payload))
  }

  /** The items are in the rows, which have nothing else new; what was there stays. */
  ghost predicate AllSaved(rs: map<Text, Row>, rs': map<Text, Row>, items: seq<Item>) {
    (forall i :: 0 <= i < |items| ==> items[i].id in rs' && RowIs(rs'[items[i].id], items[i]))
    && (forall id :: id in rs ==> id in rs' && rs'[id] == rs[id])
    && (forall id :: id in rs' && id !in rs ==>
          rs'[id].origin == rs'[id].integrity && exists i :: 0 <= i < |items| && items[i].id == id)
  }

  /** No item contradicts a row that is there, or another item of its id. */
  ghost predicate Compatible(rs: map<Text, Row>, items: seq<Item>) {
    (forall i :: 0 <= i < |items| && items[i].id in rs ==> RowIs(rs[items[i].id], items[i]))
    && forall i, j :: 0 <= i < j < |items| && items[i].id == items[j].id ==> items[i] == items[j]
  }

  lemma LastSaved(rs: map<Text, Row>, most: seq<Item>, last: Item)
    ensures SaveAll(rs, most + [last]) == match SaveAll(rs, most)
      case None => None
      case Some(done) =>
        if last.id !in done then Some(done[last.id := FirstWrite(last)]) else if RowIs(done[last.id], last) then Some(done) else None
  {
    assert (most + [last])[..|most + [last]| - 1] == most;
  }

  lemma FewerCompatible(rs: map<Text, Row>, most: seq<Item>, last: Item)
    requires Compatible(rs, most + [last])
    ensures Compatible(rs, most)
  {
    assert forall i :: 0 <= i < |most| ==> (most + [last])[i] == most[i];
  }

  /** Several rows are saved exactly where nothing is contradicted. */
  lemma {:induction false} SaveAllStands(rs: map<Text, Row>, items: seq<Item>)
    ensures SaveAll(rs, items).Some? <==> Compatible(rs, items)
    ensures SaveAll(rs, items).Some? ==> AllSaved(rs, SaveAll(rs, items).value, items)
  {
    if items != [] {
      var most, last := items[..|items| - 1], items[|items| - 1];
      assert items == most + [last];
      SaveAllStands(rs, most);
      LastSaved(rs, most, last);
      if Compatible(rs, items) { FewerCompatible(rs, most, last); }
      if Compatible(rs, most) { OneMoreSaved(rs, most, last, SaveAll(rs, most).value, items); }
    }
  }

  lemma OneMoreSaved(rs: map<Text, Row>, most: seq<Item>, last: Item, done: map<Text, Row>, items: seq<Item>)
    requires Compatible(rs, most) && AllSaved(rs, done, most) && items == most + [last]
    ensures (last.id in done ==> RowIs(done[last.id], last)) <==> Compatible(rs, items)
    ensures last.id !in done ==> AllSaved(rs, done[last.id := FirstWrite(last)], items)
    ensures last.id in done && RowIs(done[last.id], last) ==> AllSaved(rs, done, items)
  {
    assert forall i :: 0 <= i < |most| ==> items[i] == most[i];
    assert items[|most|] == last;
    StillCompatible(rs, most, last, done, items);
  }

  lemma StillCompatible(rs: map<Text, Row>, most: seq<Item>, last: Item, done: map<Text, Row>, items: seq<Item>)
    requires Compatible(rs, most) && AllSaved(rs, done, most) && items == most + [last]
    ensures (last.id in done ==> RowIs(done[last.id], last)) <==> Compatible(rs, items)
  {
    assert forall i :: 0 <= i < |most| ==> items[i] == most[i];
    assert items[|most|] == last;
    if last.id in done ==> RowIs(done[last.id], last) {
      forall i | 0 <= i < |most| && items[i].id == last.id ensures items[i] == last {
        assert RowIs(done[last.id], most[i]);
      }
    } else if last.id !in rs {
      var i :| 0 <= i < |most| && most[i].id == last.id;
      assert RowIs(done[last.id], most[i]) && items[i] != items[|most|] && items[i].id == items[|most|].id;
    }
  }

  // ---- a row with its event -----------------------------------------------------------------------

  /** What stands there is the event, or has everything of it but trace and time. */
  predicate IsTheEvent(e: EventRow, ev: Event) {
    e.etype == ev.row.etype && e.aggregate == ev.row.aggregate && e.aggregateType == ev.row.aggregateType
    && e.actor == ev.row.actor && e.body == ev.row.body && e.key == ev.row.key
  }

  predicate Unclaimed(es: map<Text, EventRow>, ev: Event) {
    ev.id !in es && forall e :: e in es ==> ev.row.key.None? || es[e].key != ev.row.key
  }

  /** A record and its event are claimed together exactly where the record is new and the event is new
      or there already. */
  lemma ClaimStands(db: Tables, it: Item, ev: Event)
    ensures var (db', claim) := SaveWithEvent(db, it, ev);
      (claim.Claimed? <==> it.id !in db.records && (Unclaimed(db.events, ev) || (ev.id in db.events && IsTheEvent(db.events[ev.id], ev))))
      && (claim.Lost? <==> it.id in db.records)
      && if claim.Claimed? then
           OneRowAdded(db.records, db'.records, it.id, it.rtype, it.mission, it.created, it.payload)
           && ev.id in db'.events && IsTheEvent(db'.events[ev.id], ev)
           && db'.events == (if Unclaimed(db.events, ev) then db.events[ev.id := ev.row] else db.events)
         else db' == db
  {
  }

  /** So the event stands, alone of its kind. */
  lemma ClaimedEventStands(es: map<Text, EventRow>, es': map<Text, EventRow>, ev: Event)
    requires ev.id in es' && IsTheEvent(es'[ev.id], ev) && ev.row.key.Some? && ev.row.body.Obj?
    requires es' == if Unclaimed(es, ev) then es[ev.id := ev.row] else es
    ensures OneEventStands(es, es', ev.id, ev.row.etype, ev.row.aggregate, ev.row.aggregateType, ev.row.actor,
                           ev.row.key.value, ev.row.body.p)
  {
  }

  /** The event is there already, or new, or there but for its key; and nobody else has the key. */
  predicate Bindable(es: map<Text, EventRow>, ev: Event) {
    (ev.id in es && IsTheEvent(es[ev.id], ev))
    || ((forall e :: e in es ==> es[e].key != ev.row.key)
        && (ev.id in es ==> IsTheEvent(es[ev.id].(key := ev.row.key), ev) && es[ev.id].key.None?))
  }

  /** A payload is replaced and its event bound exactly where the row is sealed as the caller read it
      and the event can be bound. */
  lemma RepairStands(db: Tables, id: Text, rtype: Text, seal: Text, q: Payload, ev: Event)
    requires ev.row.key.Some? && ev.row.key != Some(EMPTY) && seal != EMPTY
    ensures var (db', result) := Repair(db, id, rtype, seal, q, ev);
      var there := id in db.records && db.records[id].rtype == rtype && SealFits(id, db.records[id])
                   && db.records[id].integrity == Some(seal);
      (result.Repaired? <==> there && Bindable(db.events, ev)) && (result.Refused? <==> !there)
      && if result.Repaired? then
           OneRowRewritten(db.records, db'.records, id, q)
           && ev.id in db'.events && db'.events == db.events[ev.id := db'.events[ev.id]] && IsTheEvent(db'.events[ev.id], ev)
         else db' == db
  {
  }

  /** An event is inserted exactly where neither its id nor its key is taken. */
  lemma SaveEventStands(db: Tables, ev: Event)
    ensures var db' := SaveEvent(db, ev);
      db'.records == db.records && db'.events == if Unclaimed(db.events, ev) then db.events[ev.id := ev.row] else db.events
  {
  }

  // ---- a conversation bundle ------------------------------------------------------------------------

  /** Both payloads are written, sealed over the columns of this call; a row that was there keeps its
      own type, mission, time and origin. */
  lemma BundleStands(db: Tables, message: Item, conversation: Item, ev: Event)
    requires message.id != conversation.id
    ensures var db' := SaveBundle(db, message, conversation, ev);
      db'.events == SaveEvent(db, ev).events
      && UpsertStands(db.records, db'.records, message) && UpsertStands(db.records, db'.records, conversation)
      && forall id :: id != message.id && id != conversation.id ==>
           (id in db'.records <==> id in db.records) && (id in db.records ==> db'.records[id] == db.records[id])
  {
  }

  predicate UpsertStands(rs: map<Text, Row>, rs': map<Text, Row>, it: Item) {
    it.id in rs' && rs'[it.id].body == Obj(it.payload)
    && rs'[it.id].integrity == Some(Seal(it.id, it.rtype, it.mission, it.created, it.payload))
    && if it.id in rs then
         rs'[it.id].rtype == rs[it.id].rtype && rs'[it.id].mission == rs[it.id].mission
         && rs'[it.id].created == rs[it.id].created && rs'[it.id].origin == rs[it.id].origin
       else
         rs'[it.id].rtype == it.rtype && rs'[it.id].mission == it.mission && rs'[it.id].created == it.created
         && rs'[it.id].origin == rs'[it.id].integrity
  }
}
