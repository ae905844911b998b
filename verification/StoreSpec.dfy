/** What each store operation does to the two tables, and what no operation ever undoes. */
module StoreSpec {
  import opened Ledger

  // ---- seals and envelopes ------------------------------------------------

  function SealOf(id: Text, row: Row, p: Payload): Text {
    Seal(id, row.rtype, row.mission, row.created, p)
  }

  predicate Present(t: Option<Text>) {
    t.Some? && t.value != EMPTY
  }

  predicate Intact(id: Text, row: Row) {
    row.body.Obj? && row.integrity == Some(SealOf(id, row, row.body.p))
  }

  /** `get_record_envelope`. */
  function EnvelopeOf(records: map<Text, Row>, id: Text): (env: Option<Envelope>)
    ensures env.Some? ==> env.value.id == id && id in records && records[id].rtype == env.value.rtype
  {
    if id in records && Intact(id, records[id]) && Present(records[id].origin) then
      var row := records[id];
      Some(Envelope(id, row.rtype, row.mission, row.created, row.integrity.value,
                    row.origin.value, row.body.p))
    else
      None
  }

  /** `record_origin_matches`. */
  predicate OriginMatches(env: Envelope, p: Payload) {
    env.origin != EMPTY && env.origin == Seal(env.id, env.rtype, env.mission, env.created, p)
  }

  /** An intact record of that type with that field. */
  predicate Finds(records: map<Text, Row>, rtype: Text, field: Field, v: Value, id: Text) {
    id in records && records[id].rtype == rtype && EnvelopeOf(records, id).Some?
    && Get(EnvelopeOf(records, id).value.payload, field) == v
  }

  /** `list_records` lists the row: an empty mission lists every row of the type. */
  predicate ListedAt(records: map<Text, Row>, rtype: Text, mission: Value, id: Text) {
    id in records && records[id].rtype == rtype && (Truthy(mission) ==> records[id].mission == mission)
  }

  /** The listed rows, once each, oldest first. */
  ghost predicate Listing(records: map<Text, Row>, rtype: Text, mission: Value, ids: seq<Text>) {
    (forall id :: id in ids <==> ListedAt(records, rtype, mission, id))
    && (forall i, j :: 0 <= i < j < |ids| ==> ids[i] != ids[j])
    && (forall i, j :: 0 <= i < j < |ids| ==> NotAfter(records, ids[i], ids[j]))
  }

  predicate NotAfter(records: map<Text, Row>, a: Text, b: Text) {
    a in records && b in records && records[a].created.Stamp? && records[b].created.Stamp?
    ==> records[a].created.at <= records[b].created.at
  }

  predicate Oldest(records: map<Text, Row>, left: set<Text>, id: Text) {
    forall other :: other in left ==> NotAfter(records, id, other)
  }

  lemma {:induction false} OneIsOldest(records: map<Text, Row>, ids: set<Text>)
    requires ids != {}
    ensures exists id :: id in ids && Oldest(records, ids, id)
  {
    var a :| a in ids;
    var oldest := a;
    if ids != {a} {
      OneIsOldest(records, ids - {a});
      var b :| b in ids - {a} && Oldest(records, ids - {a}, b);
      oldest := if NotAfter(records, a, b) && b in records && records[b].created.Stamp? then a else b;
      forall other | other in ids ensures NotAfter(records, oldest, other) {
        assert other != a ==> NotAfter(records, b, other);
      }
    }
    assert oldest in ids && Oldest(records, ids, oldest);
  }

  /** `find_record_envelope` may return `id`: of the intact records of that type with that field, none
      is older. */
  ghost predicate FindsFirst(records: map<Text, Row>, rtype: Text, field: Field, v: Value, id: Text) {
    Finds(records, rtype, field, v, id)
    && forall other :: Finds(records, rtype, field, v, other) ==> NotAfter(records, id, other)
  }

  /** Every row of the type is an object. */
  ghost predicate Readable(records: map<Text, Row>, rtype: Text) {
    forall id :: id in records && records[id].rtype == rtype ==> records[id].body.Obj?
  }

  function PayloadsOf(records: map<Text, Row>, ids: seq<Text>): (all: seq<Payload>)
    requires forall id :: id in ids ==> id in records && records[id].body.Obj?
    ensures |all| == |ids| && forall i :: 0 <= i < |ids| ==> all[i] == records[ids[i]].body.p
  {
    seq(|ids|, i requires 0 <= i < |ids| => assert ids[i] in ids; records[ids[i]].body.p)
  }

  // ---- single rows ----------------------------------------------------------

  datatype Item = Item(id: Text, rtype: Text, mission: Value, created: Text, payload: Payload)

  function ItemSeal(it: Item): Text {
    Seal(it.id, it.rtype, it.mission, it.created, it.payload)
  }

  function FirstWrite(it: Item): Row {
    Row(it.rtype, it.mission, Obj(it.payload), it.created, Some(ItemSeal(it)), Some(ItemSeal(it)))
  }

  function Reseal(id: Text, row: Row, p: Payload): Row {
    row.(body := Obj(p), integrity := Some(SealOf(id, row, p)))
  }

  /** The same record, bit for bit, is already stored. */
  predicate SameRecord(row: Row, it: Item) {
    row.rtype == it.rtype && row.mission == it.mission && row.body == Obj(it.payload)
    && row.created == it.created && row.integrity == Some(ItemSeal(it))
  }

  // ---- events ---------------------------------------------------------------

  predicate KeyTaken(events: map<Text, EventRow>, k: Text) {
    exists id :: id in events && events[id].key == Some(k)
  }

  predicate Clashes(events: map<Text, EventRow>, ev: Event) {
    ev.id in events || (ev.row.key.Some? && KeyTaken(events, ev.row.key.value))
  }

  /** Everything but trace, timestamp and key agrees. */
  predicate SameIdentity(a: EventRow, b: EventRow) {
    a.etype == b.etype && a.aggregate == b.aggregate && a.aggregateType == b.aggregateType
    && a.actor == b.actor && a.body == b.body
  }

  /** `INSERT OR IGNORE`. */
  function InsertOrIgnore(events: map<Text, EventRow>, ev: Event): map<Text, EventRow> {
    if Clashes(events, ev) then events else events[ev.id := ev.row]
  }

  /** The row `save_event` hands back for `ev`: found by key when it has one, else by id. */
  predicate Answers(events: map<Text, EventRow>, ev: Event, id: Text) {
    id in events && if Present(ev.row.key) then events[id].key == ev.row.key else id == ev.id
  }

  predicate SameProducer(a: EventRow, b: EventRow) {
    a.etype == b.etype && a.aggregate == b.aggregate && a.aggregateType == b.aggregateType && a.actor == b.actor
  }

  /** `EventBus.publish` returns: what answers for the event comes from the same producer. */
  ghost predicate Publishes(events: map<Text, EventRow>, ev: Event) {
    var after := InsertOrIgnore(events, ev);
    exists id :: Answers(after, ev, id) && SameProducer(after[id], ev.row)
  }

  // ---- operations -------------------------------------------------------------

  function SaveRecord(db: Tables, it: Item): Tables {
    var row := FirstWrite(it);
    db.(records := db.records[it.id :=
      if it.id in db.records then row.(origin := db.records[it.id].origin) else row])
  }

  function SaveRecordIfAbsent(db: Tables, it: Item): Tables {
    if it.id in db.records then db else db.(records := db.records[it.id := FirstWrite(it)])
  }

  function SaveAll(records: map<Text, Row>, items: seq<Item>): Option<map<Text, Row>> {
    if items == [] then Some(records)
    else
      var last := items[|items| - 1];
      match SaveAll(records, items[..|items| - 1])
      case None => None
      case Some(done) =>
        if last.id !in done then Some(done[last.id := FirstWrite(last)])
        else if SameRecord(done[last.id], last) then Some(done)
        else None
  }

  datatype Claim = Claimed(inserted: bool, event: Event) | Lost | ClaimConflict

  function SaveWithEvent(db: Tables, it: Item, ev: Event): (Tables, Claim) {
    if it.id in db.records then (db, Lost)
    else
      var records := db.records[it.id := FirstWrite(it)];
      if ev.id in db.events && db.events[ev.id].key == ev.row.key
         && SameIdentity(db.events[ev.id], ev.row) then
        (db.(records := records), Claimed(false, Event(ev.id, db.events[ev.id])))
      else if Clashes(db.events, ev) then (db, ClaimConflict)
      else (Tables(records, db.events[ev.id := ev.row]), Claimed(true, ev))
  }

  function CasField(db: Tables, id: Text, rtype: Text, f: Field, expected: Value, v: Value): Tables {
    if ReadyFor(db.records, Update(id, rtype, f, expected, v, None)) then
      db.(records := db.records[id := Reseal(id, db.records[id], db.records[id].body.p[f := v])])
    else db
  }

  /** The record is there, of that type, intact, and sealed exactly as the caller read it. */
  predicate SealedAs(records: map<Text, Row>, id: Text, rtype: Text, seal: Text) {
    id in records && records[id].rtype == rtype && Intact(id, records[id])
    && records[id].integrity == Some(seal)
  }

  function Replace(db: Tables, id: Text, rtype: Text, seal: Text, p: Payload): Tables {
    if SealedAs(db.records, id, rtype, seal) then
      db.(records := db.records[id := Reseal(id, db.records[id], p)])
    else db
  }

  datatype Update = Update(
    id: Text, rtype: Text, field: Field, expected: Value, value: Value, seal: Option<Text>)

  predicate ReadyFor(records: map<Text, Row>, u: Update) {
    u.id in records && records[u.id].rtype == u.rtype && Intact(u.id, records[u.id])
    && (u.seal.Some? ==> records[u.id].integrity == u.seal)
    && Get(records[u.id].body.p, u.field) == u.expected
  }

  predicate AllReady(records: map<Text, Row>, us: seq<Update>) {
    forall i :: 0 <= i < |us| ==> ReadyFor(records, us[i])
  }

  predicate DistinctIds(us: seq<Update>) {
    forall i, j :: 0 <= i < j < |us| ==> us[i].id != us[j].id
  }

  predicate Touches(us: seq<Update>, id: Text) {
    exists i :: 0 <= i < |us| && us[i].id == id
  }

  /** Event ids and keys are distinct and every key is a non-empty text. */
  predicate DistinctEvents(es: seq<Event>) {
    (forall i :: 0 <= i < |es| ==> Present(es[i].row.key))
    && (forall i, j :: 0 <= i < j < |es| ==> es[i].id != es[j].id && es[i].row.key != es[j].row.key)
  }

  predicate NoClash(events: map<Text, EventRow>, es: seq<Event>) {
    forall i :: 0 <= i < |es| ==> !Clashes(events, es[i])
  }

  function Updated(records: map<Text, Row>, us: seq<Update>): map<Text, Row>
    requires AllReady(records, us)
  {
    if us == [] then records
    else
      var u := us[|us| - 1];
      assert ReadyFor(records, u);
      Updated(records, us[..|us| - 1])[u.id := Advanced(records, u)]
  }

  /** The row after one field transition, sealed again. */
  function Advanced(records: map<Text, Row>, u: Update): Row
    requires ReadyFor(records, u)
  {
    Reseal(u.id, records[u.id], records[u.id].body.p[u.field := u.value])
  }

  function WithEvents(events: map<Text, EventRow>, es: seq<Event>): map<Text, EventRow> {
    if es == [] then events
    else WithEvents(events, es[..|es| - 1])[es[|es| - 1].id := es[|es| - 1].row]
  }

  predicate Committable(db: Tables, us: seq<Update>, es: seq<Event>) {
    us != [] && |us| == |es| && DistinctIds(us) && DistinctEvents(es)
    && AllReady(db.records, us) && NoClash(db.events, es)
  }

  function CasFields(db: Tables, us: seq<Update>): Tables {
    if DistinctIds(us) && AllReady(db.records, us) then db.(records := Updated(db.records, us)) else db
  }

  function CasFieldsAndEvents(db: Tables, us: seq<Update>, es: seq<Event>): Tables {
    if Committable(db, us, es) then
      Tables(Updated(db.records, us), WithEvents(db.events, es))
    else db
  }

  datatype RepairResult = Repaired(inserted: bool, event: Event) | Refused | RepairConflict

  /** The event a repair would leave under `ev.id`, or None when another identity holds it. */
  function Bind(events: map<Text, EventRow>, ev: Event): Option<EventRow>
    requires ev.row.key.Some?
  {
    if ev.id in events && SameIdentity(events[ev.id], ev.row) && events[ev.id].key == ev.row.key then
      Some(events[ev.id])
    else if KeyTaken(events, ev.row.key.value) then None
    else if ev.id !in events then Some(ev.row)
    else if events[ev.id].key == None && SameIdentity(events[ev.id], ev.row) then
      Some(events[ev.id].(key := ev.row.key))
    else None
  }

  function Repair(db: Tables, id: Text, rtype: Text, seal: Text, p: Payload, ev: Event):
    (Tables, RepairResult)
  {
    if !Present(ev.row.key) then (db, RepairConflict)
    else if !SealedAs(db.records, id, rtype, seal) then (db, Refused)
    else
      match Bind(db.events, ev)
      case None => (db, RepairConflict)
      case Some(row) =>
        (Tables(db.records[id := Reseal(id, db.records[id], p)], db.events[ev.id := row]),
         Repaired(ev.id !in db.events, Event(ev.id, row)))
  }

  function SaveEvent(db: Tables, ev: Event): Tables {
    db.(events := InsertOrIgnore(db.events, ev))
  }

  /** An upsert that, on conflict, keeps the old type, mission and creation columns. */
  function Upsert(records: map<Text, Row>, it: Item): map<Text, Row> {
    records[it.id :=
      if it.id in records then
        records[it.id].(body := Obj(it.payload), integrity := Some(ItemSeal(it)))
      else FirstWrite(it)]
  }

  function SaveBundle(db: Tables, message: Item, conversation: Item, ev: Event): Tables {
    Tables(Upsert(Upsert(db.records, message), conversation), InsertOrIgnore(db.events, ev))
  }

  /** Every write the store offers, with any arguments. */
  datatype Op =
    | DoSave(it: Item)
    | DoSaveIfAbsent(it: Item)
    | DoSaveAll(items: seq<Item>)
    | DoSaveWithEvent(it: Item, ev: Event)
    | DoCasField(id: Text, rtype: Text, field: Field, expected: Value, value: Value)
    | DoReplace(id: Text, rtype: Text, seal: Text, payload: Payload)
    | DoCasFields(us: seq<Update>)
    | DoCommit(us: seq<Update>, es: seq<Event>)
    | DoRepair(id: Text, rtype: Text, seal: Text, payload: Payload, ev: Event)
    | DoSaveEvent(ev: Event)
    | DoBundle(message: Item, conversation: Item, ev: Event)

  function Apply(db: Tables, op: Op): Tables {
    match op
    case DoSave(it) => SaveRecord(db, it)
    case DoSaveIfAbsent(it) => SaveRecordIfAbsent(db, it)
    case DoSaveAll(items) =>
      (match SaveAll(db.records, items) case None => db case Some(records) => db.(records := records))
    case DoSaveWithEvent(it, ev) => SaveWithEvent(db, it, ev).0
    case DoCasField(id, rtype, f, expected, v) => CasField(db, id, rtype, f, expected, v)
    case DoReplace(id, rtype, seal, p) => Replace(db, id, rtype, seal, p)
    case DoCasFields(us) => CasFields(db, us)
    case DoCommit(us, es) => CasFieldsAndEvents(db, us, es)
    case DoRepair(id, rtype, seal, p, ev) => Repair(db, id, rtype, seal, p, ev).0
    case DoSaveEvent(ev) => SaveEvent(db, ev)
    case DoBundle(message, conversation, ev) => SaveBundle(db, message, conversation, ev)
  }

  // ---- what no operation undoes -----------------------------------------------

  /** The unique index over non-null idempotency keys. */
  ghost predicate UniqueKeys(events: map<Text, EventRow>) {
    forall a, b :: a in events && b in events && a != b && events[a].key.Some?
      ==> events[a].key != events[b].key
  }

  /** An event keeps everything; only a missing key may be filled in. */
  predicate KeepsEvent(e: EventRow, e': EventRow) {
    e' == e || (e.key.None? && e'.key.Some? && e' == e.(key := e'.key))
  }

  predicate KeepsRow(r: Row, r': Row) {
    r.origin.Some? ==> r'.origin == r.origin
  }

  /** The rows a write may create, in the order it writes them. */
  function ItemsOf(op: Op): seq<Item> {
    match op
    case DoSave(it) => [it]
    case DoSaveIfAbsent(it) => [it]
    case DoSaveAll(items) => items
    case DoSaveWithEvent(it, _) => [it]
    case DoBundle(message, conversation, _) => [message, conversation]
    case _ => []
  }

  predicate Mentions(items: seq<Item>, id: Text) {
    exists i :: 0 <= i < |items| && items[i].id == id
  }

  /** The first write of `id` in a list of writes. */
  function First(items: seq<Item>, id: Text): Item
    requires Mentions(items, id)
  {
    if items[0].id == id then items[0] else First(items[1..], id)
  }

  /** Rows stay and keep a set origin; a new row is anchored to its first write. */
  ghost predicate RecordsGrow(rs: map<Text, Row>, rs': map<Text, Row>, items: seq<Item>) {
    (forall id :: id in rs ==> id in rs' && KeepsRow(rs[id], rs'[id]))
    && (forall id :: id in rs' && id !in rs ==>
        Mentions(items, id) && rs'[id].origin == Some(ItemSeal(First(items, id))))
  }

  ghost predicate EventsGrow(es: map<Text, EventRow>, es': map<Text, EventRow>) {
    forall id :: id in es ==> id in es' && KeepsEvent(es[id], es'[id])
  }

  ghost predicate Grows(db: Tables, db': Tables, items: seq<Item>) {
    RecordsGrow(db.records, db'.records, items) && EventsGrow(db.events, db'.events)
  }

  // ---- lemmas -----------------------------------------------------------------

  lemma FirstOfLonger(items: seq<Item>, last: Item, id: Text)
    requires Mentions(items, id)
    ensures Mentions(items + [last], id) && First(items + [last], id) == First(items, id)
  {
    var i :| 0 <= i < |items| && items[i].id == id;
    assert (items + [last])[i].id == id;
    if items[0].id != id {
      assert items[1..][i - 1].id == id;
      FirstOfLonger(items[1..], last, id);
      assert (items + [last])[1..] == items[1..] + [last];
    }
  }

  lemma FirstOfNew(items: seq<Item>, last: Item)
    requires !Mentions(items, last.id)
    ensures Mentions(items + [last], last.id) && First(items + [last], last.id) == last
  {
    assert (items + [last])[|items|].id == last.id;
    if items != [] {
      assert items[0].id != last.id;
      forall i | 0 <= i < |items[1..]| ensures items[1..][i].id != last.id {
        assert items[1..][i] == items[i + 1];
      }
      FirstOfNew(items[1..], last);
      assert (items + [last])[1..] == items[1..] + [last];
    }
  }

  /** The atomic multi-record save keeps every row that was there and anchors the new ones. */
  lemma {:induction false} SaveAllGrows(records: map<Text, Row>, items: seq<Item>)
    ensures match SaveAll(records, items)
      case None => true
      case Some(done) =>
        RecordsGrow(records, done, items)
        && (forall id :: id in records ==> done[id] == records[id])
        && (forall id :: Mentions(items, id) ==> id in done)
  {
    if items != [] {
      var prefix, last := items[..|items| - 1], items[|items| - 1];
      SaveAllGrows(records, prefix);
      assert items == prefix + [last];
      if SaveAll(records, items).Some? {
        var before, after := SaveAll(records, prefix).value, SaveAll(records, items).value;
        forall id | Mentions(items, id) ensures id in after {
          if id != last.id {
            var i :| 0 <= i < |items| && items[i].id == id;
            assert prefix[i].id == id;
          }
        }
        forall id | id in after && id !in records
          ensures Mentions(items, id) && after[id].origin == Some(ItemSeal(First(items, id)))
        {
          if id in before { FirstOfLonger(prefix, last, id); } else { FirstOfNew(prefix, last); }
        }
      }
    }
  }

  /** Updates touch exactly the named rows. */
  lemma {:induction false} UpdatedAt(records: map<Text, Row>, us: seq<Update>)
    requires AllReady(records, us) && DistinctIds(us)
    ensures Updated(records, us).Keys == records.Keys
    ensures forall i :: 0 <= i < |us| ==> Updated(records, us)[us[i].id] == Advanced(records, us[i])
    ensures forall id :: id in records && !Touches(us, id) ==> Updated(records, us)[id] == records[id]
  {
    if us != [] {
      var prefix := us[..|us| - 1];
      UpdatedAt(records, prefix);
      assert forall i :: 0 <= i < |prefix| ==> prefix[i] == us[i];
      assert us[|us| - 1].id in records;
      forall id | Touches(prefix, id) ensures Touches(us, id) {
        var i :| 0 <= i < |prefix| && prefix[i].id == id;
        assert us[i].id == id;
      }
    }
  }

  lemma UpdatedOne(records: map<Text, Row>, u: Update)
    requires ReadyFor(records, u)
    ensures AllReady(records, [u]) && Updated(records, [u]) == records[u.id := Advanced(records, u)]
  {
    var us := [u];
    assert us[..|us| - 1] == [] && us[|us| - 1] == u;
    assert Updated(records, []) == records;
  }

  lemma WithEventsOne(events: map<Text, EventRow>, ev: Event)
    ensures WithEvents(events, [ev]) == events[ev.id := ev.row]
  {
    var es := [ev];
    assert es[..|es| - 1] == [] && es[|es| - 1] == ev;
    assert WithEvents(events, []) == events;
  }

  lemma {:induction false} WithEventsAt(events: map<Text, EventRow>, es: seq<Event>)
    requires DistinctEvents(es) && NoClash(events, es)
    ensures forall id :: id in events ==> id in WithEvents(events, es) && WithEvents(events, es)[id] == events[id]
    ensures forall i :: 0 <= i < |es| ==>
      es[i].id in WithEvents(events, es) && WithEvents(events, es)[es[i].id] == es[i].row
    ensures forall id :: id in WithEvents(events, es) && id !in events ==>
      exists i :: 0 <= i < |es| && es[i].id == id
  {
    if es != [] {
      var prefix := es[..|es| - 1];
      WithEventsAt(events, prefix);
      assert forall i :: 0 <= i < |prefix| ==> prefix[i] == es[i];
      forall id | id in WithEvents(events, es) && id !in events
        ensures exists i :: 0 <= i < |es| && es[i].id == id
      {
        if id == es[|es| - 1].id {
        } else {
          var i :| 0 <= i < |prefix| && prefix[i].id == id;
          assert es[i].id == id;
        }
      }
    }
  }

  lemma WithEventsUnique(events: map<Text, EventRow>, es: seq<Event>)
    requires UniqueKeys(events) && DistinctEvents(es) && NoClash(events, es)
    ensures UniqueKeys(WithEvents(events, es))
  {
    WithEventsAt(events, es);
    var all := WithEvents(events, es);
    forall a, b | a in all && b in all && a != b && all[a].key.Some?
      ensures all[a].key != all[b].key
    {
      if a !in events && b !in events {
        var i :| 0 <= i < |es| && es[i].id == a;
        var j :| 0 <= j < |es| && es[j].id == b;
        if i < j { assert es[i].row.key != es[j].row.key; } else { assert es[j].row.key != es[i].row.key; }
      } else if a !in events {
        var i :| 0 <= i < |es| && es[i].id == a;
        assert !Clashes(events, es[i]);
      } else if b !in events {
        var j :| 0 <= j < |es| && es[j].id == b;
        assert !Clashes(events, es[j]);
      }
    }
  }

  /** No store call, whatever its arguments, loses a row or an event, changes a set origin,
      rewrites an event, or puts one idempotency key on two events; and every row it creates is
      anchored to the first content written under that id. */
  lemma ApplyGrows(db: Tables, op: Op)
    requires UniqueKeys(db.events)
    ensures Grows(db, Apply(db, op), ItemsOf(op)) && UniqueKeys(Apply(db, op).events)
  {
    match op
    case DoSaveAll(items) => SaveAllGrows(db.records, items);
    case DoCasFields(us) =>
      if DistinctIds(us) && AllReady(db.records, us) { UpdatesGrow(db.records, us); }
    case DoCommit(us, es) =>
      if Committable(db, us, es) {
        UpdatesGrow(db.records, us);
        WithEventsAt(db.events, es);
        WithEventsUnique(db.events, es);
      }
    case DoRepair(id, rtype, seal, p, ev) =>
      if Present(ev.row.key) && Bind(db.events, ev).Some? { BindKeeps(db.events, ev); }
    case DoSave(it) => FirstOfOne(it);
    case DoSaveIfAbsent(it) => FirstOfOne(it);
    case DoSaveWithEvent(it, ev) => FirstOfOne(it); ClaimGrows(db, it, ev);
    case DoBundle(message, conversation, ev) => BundleGrows(db, message, conversation, ev);
    case _ =>
  }

  lemma FirstOfOne(it: Item)
    ensures Mentions([it], it.id) && First([it], it.id) == it
  {
    assert [it][0] == it;
  }

  lemma ClaimGrows(db: Tables, it: Item, ev: Event)
    requires UniqueKeys(db.events)
    ensures var db' := SaveWithEvent(db, it, ev).0;
      Grows(db, db', [it]) && UniqueKeys(db'.events)
  {
    FirstOfOne(it);
  }

  lemma UpdatesGrow(records: map<Text, Row>, us: seq<Update>)
    requires DistinctIds(us) && AllReady(records, us)
    ensures RecordsGrow(records, Updated(records, us), [])
  {
    UpdatedAt(records, us);
    forall id | id in records ensures KeepsRow(records[id], Updated(records, us)[id]) {
      if Touches(us, id) {
        var i :| 0 <= i < |us| && us[i].id == id;
        assert Updated(records, us)[us[i].id] == Advanced(records, us[i]);
      }
    }
  }

  lemma BindKeeps(events: map<Text, EventRow>, ev: Event)
    requires UniqueKeys(events) && ev.row.key.Some? && Bind(events, ev).Some?
    ensures var events' := events[ev.id := Bind(events, ev).value];
      EventsGrow(events, events') && UniqueKeys(events')
  {
  }

  lemma BundleGrows(db: Tables, message: Item, conversation: Item, ev: Event)
    requires UniqueKeys(db.events)
    ensures var db' := SaveBundle(db, message, conversation, ev);
      Grows(db, db', [message, conversation]) && UniqueKeys(db'.events)
  {
    var items := [message, conversation];
    assert items[0] == message && items[1] == conversation;
    assert Mentions(items, message.id) && Mentions(items, conversation.id);
    assert items[1..] == [conversation];
    if message.id != conversation.id { assert First(items, conversation.id) == conversation; }
  }

  /** All or nothing: a commit applies every field change, reseals every row it touches and
      inserts every event, or leaves both tables exactly as they were. */
  lemma CommitIsAtomic(db: Tables, us: seq<Update>, es: seq<Event>)
    requires UniqueKeys(db.events)
    ensures var db' := CasFieldsAndEvents(db, us, es);
      if Committable(db, us, es) then
        db'.records.Keys == db.records.Keys
        && (forall i :: 0 <= i < |us| ==>
          Intact(us[i].id, db'.records[us[i].id])
          && db'.records[us[i].id].body.p == db.records[us[i].id].body.p[us[i].field := us[i].value])
        && (forall i :: 0 <= i < |es| ==> es[i].id in db'.events && db'.events[es[i].id] == es[i].row)
        && (forall id :: id in db.records && !Touches(us, id) ==> db'.records[id] == db.records[id])
        && UniqueKeys(db'.events)
      else db' == db
  {
    if Committable(db, us, es) {
      UpdatedAt(db.records, us);
      WithEventsAt(db.events, es);
      WithEventsUnique(db.events, es);
      forall i | 0 <= i < |us|
        ensures Intact(us[i].id, Updated(db.records, us)[us[i].id])
      {
        assert ReadyFor(db.records, us[i]);
        assert Updated(db.records, us)[us[i].id] == Advanced(db.records, us[i]);
      }
    }
  }
}
