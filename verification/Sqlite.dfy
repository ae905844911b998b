/** The store itself: two tables changed in place, one method per store call. Every method is
    proved to do exactly what its counterpart in StoreSpec says. */
module Sqlite {
  import opened Ledger
  import opened StoreSpec

  class SQLiteStore {
    var records: map<Text, Row>
    var events: map<Text, EventRow>
    var index: map<Text, IndexRow>

    ghost function Now(): Tables
      reads this
    {
      Tables(records, events)
    }

    ghost predicate Valid()
      reads this
    {
      UniqueKeys(events)
    }

    constructor ()
      ensures Valid() && Now() == Tables(map[], map[]) && index == map[]
    {
      records, events, index := map[], map[], map[];
    }

    // ---- reads ----

    method GetRecordEnvelope(id: Text) returns (env: Option<Envelope>)
      ensures env == EnvelopeOf(records, id)
    {
      if id !in records {
        return None;
      }
      var row := records[id];
      if !row.body.Obj? {
        return None;
      }
      var expected := SealOf(id, row, row.body.p);
      if !Present(row.integrity) || row.integrity.value != expected {
        return None;
      }
      if !Present(row.origin) {
        return None;
      }
      return Some(Envelope(id, row.rtype, row.mission, row.created, row.integrity.value,
                           row.origin.value, row.body.p));
    }

    method GetEventByIdempotency(k: Text) returns (hit: Option<Event>)
      requires Valid()
      ensures hit.Some? ==> hit.value.id in events && events[hit.value.id] == hit.value.row
                            && hit.value.row.key == Some(k)
      ensures hit.None? <==> !KeyTaken(events, k)
    {
      if id :| id in events && events[id].key == Some(k) {
        return Some(Event(id, events[id]));
      } else {
        return None;
      }
    }

    /** The events in some order. */
    method ListEvents() returns (all: seq<Event>)
      ensures forall i :: 0 <= i < |all| ==> all[i].id in events && events[all[i].id] == all[i].row
      ensures forall id :: id in events ==> Event(id, events[id]) in all
    {
      all := [];
      var left := events.Keys;
      while left != {}
        invariant left <= events.Keys
        invariant forall i :: 0 <= i < |all| ==> all[i].id in events && events[all[i].id] == all[i].row
        invariant forall id :: id in events.Keys - left ==> Event(id, events[id]) in all
        decreases |left|
      {
        var id :| id in left;
        all := all + [Event(id, events[id])];
        left := left - {id};
      }
    }

    /** Goes through the records of the type, oldest first, up to the first intact one whose field has
        that value. */
    method FindRecordEnvelope(rtype: Text, field: Field, v: Value) returns (env: Option<Envelope>)
      ensures env.None? ==> forall id :: !Finds(records, rtype, field, v, id)
      ensures env.Some? ==> FindsFirst(records, rtype, field, v, env.value.id)
                            && env == EnvelopeOf(records, env.value.id)
    {
      var left := set id | id in records && records[id].rtype == rtype;
      while left != {}
        invariant Unsearched(records, rtype, field, v, left)
        decreases |left|
      {
        OneIsOldest(records, left);
        var id :| id in left && Oldest(records, left, id);
        env := GetRecordEnvelope(id);
        OldestIsFirst(records, rtype, field, v, left, id);
        if env.Some? && Get(env.value.payload, field) == v {
          return;
        }
        left := left - {id};
      }
      return None;
    }

    /** Repeatedly takes one of the oldest rows left. */
    method ListRecords(rtype: Text, mission: Value) returns (all: seq<Payload>, ghost ids: seq<Text>)
      requires Readable(records, rtype)
      ensures Listing(records, rtype, mission, ids) && all == PayloadsOf(records, ids)
    {
      var order: seq<Text> := [];
      var left := set id | id in records && ListedAt(records, rtype, mission, id);
      while left != {}
        invariant Halfway(records, rtype, mission, order, left)
        decreases |left|
      {
        OneIsOldest(records, left);
        var id :| id in left && Oldest(records, left, id);
        TakeOldest(records, rtype, mission, order, left, id);
        order, left := order + [id], left - {id};
      }
      AllListed(records, rtype, mission, order);
      all, ids := PayloadsOf(records, order), order;
    }

    // ---- single-row writes ----

    method SaveRecord(it: Item)
      requires Valid()
      modifies this`records
      ensures Valid() && Now() == StoreSpec.SaveRecord(old(Now()), it)
    {
      var seal := Seal(it.id, it.rtype, it.mission, it.created, it.payload);
      if it.id in records {
        records := records[it.id :=
          Row(it.rtype, it.mission, Obj(it.payload), it.created, Some(seal), records[it.id].origin)];
      } else {
        records := records[it.id :=
          Row(it.rtype, it.mission, Obj(it.payload), it.created, Some(seal), Some(seal))];
      }
    }

    method SaveRecordIfAbsent(it: Item) returns (inserted: bool)
      requires Valid()
      modifies this
      ensures Valid() && Now() == StoreSpec.SaveRecordIfAbsent(old(Now()), it)
      ensures inserted == (it.id !in old(records))
    {
      inserted := it.id !in records;
      if inserted {
        records := records[it.id := FirstWrite(it)];
      }
    }

    method CompareAndSetRecordField(
      id: Text, rtype: Text, field: Field, expected: Value, v: Value) returns (p: Option<Payload>)
      requires Valid()
      modifies this
      ensures Valid() && Now() == CasField(old(Now()), id, rtype, field, expected, v)
      ensures p.Some? <==> ReadyFor(old(records), Update(id, rtype, field, expected, v, None))
      ensures p.Some? ==> records[id].body == Obj(p.value)
    {
      if id !in records || records[id].rtype != rtype || !records[id].body.Obj? {
        return None;
      }
      var row := records[id];
      if !Present(row.integrity) || row.integrity.value != SealOf(id, row, row.body.p) {
        return None;
      }
      if Get(row.body.p, field) != expected {
        return None;
      }
      var payload := row.body.p[field := v];
      records := records[id := row.(body := Obj(payload), integrity := Some(SealOf(id, row, payload)))];
      return Some(payload);
    }

    /** The exact validated record is still there. */
    method StillSealed(id: Text, rtype: Text, seal: Text) returns (same: bool)
      ensures same == SealedAs(records, id, rtype, seal)
    {
      if id !in records || records[id].rtype != rtype {
        return false;
      }
      var row := records[id];
      if row.integrity != Some(seal) || !row.body.Obj? {
        return false;
      }
      return SealOf(id, row, row.body.p) == seal;
    }

    method ReplaceRecordPayload(id: Text, rtype: Text, seal: Text, p: Payload) returns (done: bool)
      requires Valid()
      modifies this
      ensures Valid() && Now() == Replace(old(Now()), id, rtype, seal, p)
      ensures done == SealedAs(old(records), id, rtype, seal)
    {
      var same := StillSealed(id, rtype, seal);
      if !same {
        return false;
      }
      records := records[id := Reseal(id, records[id], p)];
      return true;
    }

    // ---- multi-row writes ----

    /** Inserts the records one by one; an existing record must be the same, bit for bit. */
    method SaveRecordsAtomically(items: seq<Item>) returns (saved: bool)
      requires Valid()
      modifies this
      ensures Valid() && Now() == Apply(old(Now()), DoSaveAll(items))
      ensures saved == SaveAll(old(records), items).Some?
    {
      var snapshot := records;
      var i := 0;
      while i < |items|
        invariant 0 <= i <= |items| && events == old(events)
        invariant SaveAll(snapshot, items[..i]) == Some(records)
      {
        var it := items[i];
        assert items[..i + 1][..i] == items[..i] && items[..i + 1][i] == it;
        if it.id in records {
          var row := records[it.id];
          if row.rtype != it.rtype || row.mission != it.mission || row.body != Obj(it.payload)
             || row.created != it.created || row.integrity != Some(ItemSeal(it)) {
            SaveAllFails(snapshot, items, i + 1);
            records := snapshot;
            return false;
          }
        } else {
          records := records[it.id := FirstWrite(it)];
        }
        i := i + 1;
      }
      assert items[..i] == items;
      return true;
    }

    /** Checks every row, then writes every row; any failed check leaves the table alone. */
    method CompareAndSetRecordFields(us: seq<Update>) returns (done: bool)
      requires Valid()
      modifies this
      ensures Valid() && Now() == CasFields(old(Now()), us)
      ensures done == (DistinctIds(us) && AllReady(old(records), us))
    {
      if !DistinctIds(us) {
        return false;
      }
      var ready := CheckUpdates(us);
      if !ready {
        return false;
      }
      WriteUpdates(us);
      return true;
    }

    /** The loop that reads and checks each row before anything is written. */
    method CheckUpdates(us: seq<Update>) returns (ready: bool)
      ensures ready == AllReady(records, us)
    {
      var i := 0;
      while i < |us|
        invariant 0 <= i <= |us|
        invariant forall j :: 0 <= j < i ==> ReadyFor(records, us[j])
      {
        var u := us[i];
        if u.id !in records || records[u.id].rtype != u.rtype || !records[u.id].body.Obj? {
          assert !ReadyFor(records, us[i]);
          return false;
        }
        var row := records[u.id];
        if row.integrity != Some(SealOf(u.id, row, row.body.p))
           || (u.seal.Some? && row.integrity != u.seal)
           || Get(row.body.p, u.field) != u.expected {
          assert !ReadyFor(records, us[i]);
          return false;
        }
        i := i + 1;
      }
      return true;
    }

    /** The loop that writes each prepared row. */
    method WriteUpdates(us: seq<Update>)
      requires DistinctIds(us) && AllReady(records, us)
      modifies this`records
      ensures records == Updated(old(records), us)
    {
      var start := records;
      var i := 0;
      while i < |us|
        invariant 0 <= i <= |us|
        invariant AllReady(start, us[..i]) && records == Updated(start, us[..i])
      {
        var u := us[i];
        assert us[..i + 1][..i] == us[..i] && us[..i + 1][i] == u;
        assert ReadyFor(start, u);
        assert DistinctIds(us[..i]) && !Touches(us[..i], u.id);
        UpdatedAt(start, us[..i]);
        var row := records[u.id];
        var p := row.body.p[u.field := u.value];
        records := records[u.id := row.(body := Obj(p), integrity := Some(SealOf(u.id, row, p)))];
        i := i + 1;
      }
      assert us[..i] == us;
    }

    /** Field transitions and their audit events, in one transaction. */
    method CompareAndSetRecordFieldsAndEvents(us: seq<Update>, es: seq<Event>) returns (done: bool)
      requires Valid()
      modifies this
      ensures Valid() && Now() == CasFieldsAndEvents(old(Now()), us, es)
      ensures done == Committable(old(Now()), us, es)
    {
      if us == [] || |us| != |es| || !DistinctIds(us) || !DistinctEvents(es) {
        return false;
      }
      var snapshot := events;
      var ready := CheckUpdates(us);
      if !ready {
        return false;
      }
      var i := 0;
      while i < |es|
        invariant 0 <= i <= |es| && records == old(records)
        invariant DistinctEvents(es[..i]) && NoClash(snapshot, es[..i])
        invariant events == WithEvents(snapshot, es[..i])
      {
        var ev := es[i];
        assert es[..i + 1][..i] == es[..i] && es[..i + 1][i] == ev;
        ClashGrows(snapshot, es[..i], ev);
        if Clashes(events, ev) {
          assert Clashes(snapshot, es[i]);
          events := snapshot;
          return false;
        }
        events := events[ev.id := ev.row];
        i := i + 1;
      }
      assert es[..i] == es;
      WithEventsUnique(snapshot, es);
      WriteUpdates(us);
      return true;
    }

    // ---- records together with events ----

    method SaveRecordAndEventIfAbsent(it: Item, ev: Event) returns (claim: Claim)
      requires Valid()
      modifies this
      ensures Valid() && Now() == SaveWithEvent(old(Now()), it, ev).0
      ensures claim == SaveWithEvent(old(Now()), it, ev).1
    {
      if it.id in records {
        return Lost;
      }
      var existing: Option<Event> := None;
      if Present(ev.row.key) {
        existing := GetEventByIdempotency(ev.row.key.value);
      } else if ev.id in events {
        existing := Some(Event(ev.id, events[ev.id]));
      }
      if existing.Some? {
        if existing.value.id != ev.id || !SameIdentity(existing.value.row, ev.row)
           || existing.value.row.key != ev.row.key {
          return ClaimConflict;
        }
        records := records[it.id := FirstWrite(it)];
        return Claimed(false, existing.value);
      }
      if Clashes(events, ev) {
        return ClaimConflict;
      }
      records, events := records[it.id := FirstWrite(it)], events[ev.id := ev.row];
      return Claimed(true, ev);
    }

    method RepairRecordEvent(id: Text, rtype: Text, seal: Text, p: Payload, ev: Event)
      returns (result: RepairResult)
      requires Valid()
      modifies this
      ensures Valid() && Now() == Repair(old(Now()), id, rtype, seal, p, ev).0
      ensures result == Repair(old(Now()), id, rtype, seal, p, ev).1
    {
      if !Present(ev.row.key) {
        return RepairConflict;
      }
      var same := StillSealed(id, rtype, seal);
      if !same {
        return Refused;
      }
      var rows, inserted := records, ev.id !in events;
      var bound := BindEvent(ev);
      if !bound {
        return RepairConflict;
      }
      records := records[id := Reseal(id, rows[id], p)];
      return Repaired(inserted, Event(ev.id, events[ev.id]));
    }

    /** Finds the event by key, else by id; adopts it, gives it its missing key, or inserts it. */
    method BindEvent(ev: Event) returns (bound: bool)
      requires Valid() && ev.row.key.Some?
      modifies this`events
      ensures Valid() && bound == Bind(old(events), ev).Some?
      ensures events == if bound then old(events)[ev.id := Bind(old(events), ev).value] else old(events)
    {
      if Bind(events, ev).Some? { BindKeeps(events, ev); }
      var existing := GetEventByIdempotency(ev.row.key.value);
      if existing.None? && ev.id in events {
        if events[ev.id].key != None {
          return false;
        }
        existing := Some(Event(ev.id, events[ev.id]));
      }
      if existing.None? {
        events := events[ev.id := ev.row];
        return true;
      }
      if existing.value.id != ev.id || !SameIdentity(existing.value.row, ev.row) {
        return false;
      }
      if existing.value.row.key == None {
        events := events[ev.id := events[ev.id].(key := ev.row.key)];
      }
      return true;
    }

    /** The row that now answers for the event: by key when it has one, else by id. */
    method SaveEvent(ev: Event) returns (persisted: Option<Event>)
      requires Valid()
      modifies this`events
      ensures Valid() && Now() == StoreSpec.SaveEvent(old(Now()), ev)
      ensures persisted.Some? <==> exists id :: Answers(events, ev, id)
      ensures persisted.Some? ==>
        Answers(events, ev, persisted.value.id) && events[persisted.value.id] == persisted.value.row
      ensures !Clashes(old(events), ev) ==> persisted == Some(ev)
    {
      if !Clashes(events, ev) {
        events := events[ev.id := ev.row];
      }
      assert UniqueKeys(events);
      if Present(ev.row.key) {
        persisted := GetEventByIdempotency(ev.row.key.value);
        if !Clashes(old(events), ev) {
          assert events[ev.id].key == Some(ev.row.key.value);
          assert KeyTaken(events, ev.row.key.value);
        }
        if persisted.Some? { assert Answers(events, ev, persisted.value.id); }
      } else if ev.id in events {
        persisted := Some(Event(ev.id, events[ev.id]));
        assert Answers(events, ev, ev.id);
      } else {
        persisted := None;
      }
    }

    /** A message, its conversation, its index row and its event, in one transaction; answers with the
        event that now holds the key. */
    method SaveConversationBundle(message: Item, conversation: Item, ev: Event) returns (persisted: Option<Event>)
      requires Valid()
      modifies this
      ensures Valid() && Now() == SaveBundle(old(Now()), message, conversation, ev)
      ensures index == old(index)[message.id := IndexRow(Show(message.mission), message.created)]
      ensures persisted.Some? <==> ev.row.key.Some? && KeyTaken(events, ev.row.key.value)
      ensures persisted.Some? ==> persisted.value.id in events && events[persisted.value.id] == persisted.value.row
                                  && persisted.value.row.key == ev.row.key
    {
      UpsertBundleRow(message);
      UpsertBundleRow(conversation);
      index := index[message.id := IndexRow(Show(message.mission), message.created)];
      if !Clashes(events, ev) {
        events := events[ev.id := ev.row];
      }
      if ev.row.key.None? {
        return None;
      }
      persisted := GetEventByIdempotency(ev.row.key.value);
    }

    method UpsertBundleRow(it: Item)
      modifies this`records
      ensures records == Upsert(old(records), it)
    {
      if it.id in records {
        records := records[it.id :=
          records[it.id].(body := Obj(it.payload), integrity := Some(ItemSeal(it)))];
      } else {
        records := records[it.id := FirstWrite(it)];
      }
    }
  }

  /** Rows of the type still to be searched, all the hits among them. */
  ghost predicate Unsearched(records: map<Text, Row>, rtype: Text, field: Field, v: Value, left: set<Text>) {
    (forall id :: id in left ==> id in records && records[id].rtype == rtype)
    && forall id :: Finds(records, rtype, field, v, id) ==> id in left
  }

  lemma OldestIsFirst(records: map<Text, Row>, rtype: Text, field: Field, v: Value, left: set<Text>, id: Text)
    requires Unsearched(records, rtype, field, v, left) && id in left && Oldest(records, left, id)
    ensures var env := EnvelopeOf(records, id);
      if env.Some? && Get(env.value.payload, field) == v then FindsFirst(records, rtype, field, v, id)
      else Unsearched(records, rtype, field, v, left - {id})
  {
  }

  /** Part of a listing, oldest first, and the rows still to be listed. */
  ghost predicate Halfway(records: map<Text, Row>, rtype: Text, mission: Value, order: seq<Text>, left: set<Text>) {
    (forall id :: ListedAt(records, rtype, mission, id) <==> id in left || id in order)
    && (forall i :: 0 <= i < |order| ==> order[i] !in left)
    && (forall i, j :: 0 <= i < j < |order| ==> order[i] != order[j] && NotAfter(records, order[i], order[j]))
    && (forall i, id :: 0 <= i < |order| && id in left ==> NotAfter(records, order[i], id))
  }

  lemma AllListed(records: map<Text, Row>, rtype: Text, mission: Value, order: seq<Text>)
    requires Readable(records, rtype) && Halfway(records, rtype, mission, order, {})
    ensures Listing(records, rtype, mission, order)
    ensures forall id :: id in order ==> id in records && records[id].body.Obj?
  {
  }

  lemma TakeOldest(
    records: map<Text, Row>, rtype: Text, mission: Value, order: seq<Text>, left: set<Text>, id: Text)
    requires Halfway(records, rtype, mission, order, left) && id in left && Oldest(records, left, id)
    ensures Halfway(records, rtype, mission, order + [id], left - {id})
  {
  }

  lemma {:induction false} SaveAllFails(records: map<Text, Row>, items: seq<Item>, n: nat)
    requires n <= |items| && SaveAll(records, items[..n]).None?
    ensures SaveAll(records, items).None?
    decreases |items|
  {
    if n < |items| {
      var prefix := items[..|items| - 1];
      assert prefix[..n] == items[..n];
      SaveAllFails(records, prefix, n);
    } else {
      assert items[..n] == items;
    }
  }

  /** With distinct ids and keys, events inserted so far cannot clash with a later one. */
  lemma {:induction false} ClashGrows(events: map<Text, EventRow>, es: seq<Event>, ev: Event)
    requires DistinctEvents(es + [ev]) && NoClash(events, es)
    ensures Clashes(WithEvents(events, es), ev) <==> Clashes(events, ev)
  {
    var all := es + [ev];
    assert forall i :: 0 <= i < |es| ==> all[i] == es[i];
    assert all[|es|] == ev;
    assert DistinctEvents(es) by {
      forall i, j | 0 <= i < j < |es| ensures es[i].id != es[j].id && es[i].row.key != es[j].row.key {
        assert all[i].id != all[j].id && all[i].row.key != all[j].row.key;
      }
    }
    WithEventsAt(events, es);
    var after := WithEvents(events, es);
    forall i | 0 <= i < |es| ensures es[i].id != ev.id && es[i].row.key != ev.row.key {
      assert all[i].id != all[|es|].id && all[i].row.key != all[|es|].row.key;
    }
    forall id | id in after && id !in events ensures after[id].key != ev.row.key {
      var i :| 0 <= i < |es| && es[i].id == id;
    }
    if KeyTaken(events, ev.row.key.value) {
      var id :| id in events && events[id].key == Some(ev.row.key.value);
      assert id in after && after[id].key == Some(ev.row.key.value);
    }
  }
}
