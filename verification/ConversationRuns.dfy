/** Runs of the conversation calls, one after another, among any changes that others make elsewhere. */
module ConversationRuns {
  import opened Ledger
  import opened StoreSpec
  import opened ConversationRules

  datatype Move =
    | Created(title: Option<string>, gen: Fresh)
    | Posted(c: Text, post: Post, gen: Fresh, hit: Option<Text>)
    | Closed(c: Text, gen: Fresh)
    | Reopened(c: Text, gen: Fresh)
    | Elsewhere(db: Tables)

  /** The stored state and the last reading of the clock. */
  datatype Sys = Sys(base: Base, now: int)

  predicate Ours(row: Row) {
    row.rtype == Lit(ConversationRecord) || row.rtype == Lit(MessageRecord)
  }

  predicate MessageNews(e: EventRow) {
    e.etype.Key? && e.etype.prefix == MessagePosted
  }

  /** Nothing of ours is added, lost or changed. */
  ghost predicate Leaves(db: Tables, db': Tables) {
    (forall id :: (id in db.records && Ours(db.records[id])) || (id in db'.records && Ours(db'.records[id])) ==>
      id in db.records && id in db'.records && db'.records[id] == db.records[id])
    && (forall e :: (e in db.events && MessageNews(db.events[e])) || (e in db'.events && MessageNews(db'.events[e])) ==>
      e in db.events && e in db'.events && db'.events[e] == db.events[e])
    && UniqueKeys(db'.events)
  }

  predicate IsFresh(b: Base, gen: Fresh) {
    gen.id !in b.db.records && gen.id !in b.index && gen.event !in b.db.events
    && !KeyTaken(b.db.events, Key(MessagePosted, gen.id))
  }

  /** The clock does not go back; with `strict` it moves between any two calls. */
  predicate Later(a: int, b: int, strict: bool) {
    if strict then a < b else a <= b
  }

  predicate Timely(now: int, gen: Fresh, strict: bool) {
    Later(now, gen.at, strict) && gen.at <= gen.stamp
  }

  ghost predicate Allowed(s: Sys, m: Move, strict: bool) {
    match m
    case Elsewhere(db) => Leaves(s.base.db, db)
    case Posted(c, post, gen, hit) =>
      IsFresh(s.base, gen) && Timely(s.now, gen, strict) && MayHit(s.base.db.records, c, post.idem, hit)
    case _ => IsFresh(s.base, m.gen) && Timely(s.now, m.gen, strict)
  }

  ghost function After(b: Base, m: Move): Result {
    match m
    case Created(title, gen) => Create(b, title, gen)
    case Posted(c, post, gen, hit) => Append(b, c, post, gen, hit)
    case Closed(c, gen) => Close(b, c, gen)
    case Reopened(c, gen) => Reopen(b, c, gen)
    case Elsewhere(db) => Result(b.(db := db), Raised(ConversationNotFound))
  }

  ghost function Do(s: Sys, m: Move): Sys {
    Sys(After(s.base, m).base, if m.Elsewhere? then s.now else m.gen.stamp)
  }

  const START := Sys(Base(Tables(map[], map[]), map[]), 0)

  ghost function Run(moves: seq<Move>): Sys {
    if moves == [] then START else Do(Run(moves[..|moves| - 1]), moves[|moves| - 1])
  }

  ghost predicate EngineRun(moves: seq<Move>, strict: bool) {
    moves == []
    || (EngineRun(moves[..|moves| - 1], strict) && Allowed(Run(moves[..|moves| - 1]), moves[|moves| - 1], strict))
  }

  // ---- the invariant ------------------------------------------------------------------------

  function IdsAt(rs: map<Text, Row>, c: Text): seq<Text> {
    if c in rs && rs[c].body.Obj? then Ids(rs[c].body.p) else []
  }

  function At(rs: map<Text, Row>, m: Text): int {
    if m in rs && rs[m].created.Stamp? then rs[m].created.at else 0
  }

  predicate ListsTexts(v: Value) {
    v.List? && forall i :: 0 <= i < |v.items| ==> v.items[i].Str?
  }

  /** A conversation row is sealed, anchored and complete. */
  predicate ConversationOk(c: Text, row: Row) {
    Intact(c, row) && Present(row.origin) && row.mission == Str(c) && row.created.Stamp?
    && Get(row.body.p, ConversationId) == Str(c) && Get(row.body.p, CreatedAt) == Str(row.created)
    && (Get(row.body.p, Status) == Literal(OpenStatus) || Get(row.body.p, Status) == Literal(ClosedStatus))
    && ListsTexts(Get(row.body.p, MessageIds))
  }

  /** A message row is sealed, anchored and belongs to the conversation of its mission column. */
  predicate MessageOk(m: Text, row: Row) {
    Intact(m, row) && Present(row.origin) && row.created.Stamp?
    && Get(row.body.p, MessageId) == Str(m) && Get(row.body.p, CreatedAt) == Str(row.created)
    && Get(row.body.p, ConversationId).Str? && row.mission == Get(row.body.p, ConversationId)
  }

  ghost predicate RowsOk(rs: map<Text, Row>) {
    (forall c :: IsConversation(rs, c) ==> ConversationOk(c, rs[c]))
    && (forall m :: IsMessage(rs, m) ==> MessageOk(m, rs[m]))
  }

  /** The list of a conversation names exactly its messages, once each, oldest first. */
  ghost predicate ListOk(rs: map<Text, Row>, c: Text, strict: bool) {
    var ids := IdsAt(rs, c);
    (forall m :: m in ids <==> MessageOf(rs, c, m))
    && (forall i, j :: 0 <= i < j < |ids| ==> ids[i] != ids[j] && Later(At(rs, ids[i]), At(rs, ids[j]), strict))
  }

  ghost predicate ListsOk(rs: map<Text, Row>, strict: bool) {
    (forall c :: IsConversation(rs, c) ==> ListOk(rs, c, strict))
    && (forall c, m :: MessageOf(rs, c, m) ==> IsConversation(rs, c))
  }

  /** At most one message of a conversation has a given key. */
  ghost predicate KeysOk(rs: map<Text, Row>) {
    forall c, idem, a, b :: Truthy(idem) && Keyed(rs, c, idem, a) && Keyed(rs, c, idem, b) ==> a == b
  }

  predicate Indexed(rs: map<Text, Row>, index: map<Text, IndexRow>, m: Text) {
    IsMessage(rs, m) && rs[m].body.Obj? && m in index
    && index[m] == IndexRow(Show(Get(rs[m].body.p, ConversationId)), rs[m].created)
  }

  ghost predicate IndexOk(rs: map<Text, Row>, index: map<Text, IndexRow>) {
    forall m :: IsMessage(rs, m) || m in index ==> Indexed(rs, index, m)
  }

  /** Event `e` announces message `m` of conversation `c`. */
  predicate Reports(es: map<Text, EventRow>, c: Text, m: Text, e: Text) {
    e in es && MessageNews(es[e]) && es[e].aggregate == c && es[e].aggregateType == Lit(ConversationAggregate)
    && es[e].key == Some(Key(MessagePosted, m)) && es[e].body.Obj? && Get(es[e].body.p, MessageId) == Str(m)
  }

  predicate News(rs: map<Text, Row>, es: map<Text, EventRow>, c: Text, m: Text, e: Text) {
    MessageOf(rs, c, m) && Reports(es, c, m, e) && es[e].stamp.Stamp? && At(rs, m) <= es[e].stamp.at
  }

  /** Every message is announced, and every message event announces a message. */
  ghost predicate NewsOk(rs: map<Text, Row>, es: map<Text, EventRow>) {
    (forall c, m :: MessageOf(rs, c, m) ==> exists e :: News(rs, es, c, m, e))
    && (forall e :: e in es && MessageNews(es[e]) ==> exists c, m :: News(rs, es, c, m, e))
  }

  /** An event comes before every later message of its conversation. */
  ghost predicate Paced(rs: map<Text, Row>, es: map<Text, EventRow>, strict: bool) {
    forall c, i, j, e :: 0 <= i < j < |IdsAt(rs, c)| && IsConversation(rs, c) && News(rs, es, c, IdsAt(rs, c)[i], e) ==>
      Later(es[e].stamp.at, At(rs, IdsAt(rs, c)[j]), strict)
  }

  /** Nothing is stamped later than the clock reads. */
  ghost predicate Dated(rs: map<Text, Row>, es: map<Text, EventRow>, now: int) {
    (forall m :: IsMessage(rs, m) ==> At(rs, m) <= now)
    && (forall e :: e in es && MessageNews(es[e]) && es[e].stamp.Stamp? ==> es[e].stamp.at <= now)
  }

  ghost predicate Good(b: Base, now: int, strict: bool) {
    var rs, es := b.db.records, b.db.events;
    UniqueKeys(es) && RowsOk(rs) && ListsOk(rs, strict) && KeysOk(rs) && IndexOk(rs, b.index) && NewsOk(rs, es)
    && Paced(rs, es, strict) && Dated(rs, es, now)
  }

  // ---- steps that add no message --------------------------------------------------------------

  ghost predicate SameMessages(rs: map<Text, Row>, rs': map<Text, Row>) {
    forall m :: IsMessage(rs, m) || IsMessage(rs', m) ==> m in rs && m in rs' && rs'[m] == rs[m]
  }

  /** The conversations there were list what they listed; a new one lists nothing. */
  ghost predicate SameLists(rs: map<Text, Row>, rs': map<Text, Row>) {
    (forall c :: IsConversation(rs, c) ==> IsConversation(rs', c) && IdsAt(rs', c) == IdsAt(rs, c))
    && (forall c :: IsConversation(rs', c) && !IsConversation(rs, c) ==> IdsAt(rs', c) == [])
  }

  ghost predicate SameNews(es: map<Text, EventRow>, es': map<Text, EventRow>) {
    forall e :: (e in es && MessageNews(es[e])) || (e in es' && MessageNews(es'[e])) ==>
      e in es && e in es' && es'[e] == es[e]
  }

  lemma SameMessageOf(rs: map<Text, Row>, rs': map<Text, Row>, c: Text, m: Text)
    requires SameMessages(rs, rs')
    ensures MessageOf(rs', c, m) <==> MessageOf(rs, c, m)
    ensures MessageOf(rs, c, m) ==> m in rs && m in rs' && rs'[m] == rs[m] && At(rs', m) == At(rs, m)
  {
    assert IsMessage(rs, m) || IsMessage(rs', m) ==> rs'[m] == rs[m];
  }

  lemma SameListOk(rs: map<Text, Row>, rs': map<Text, Row>, c: Text, strict: bool)
    requires ListsOk(rs, strict) && SameMessages(rs, rs') && SameLists(rs, rs') && IsConversation(rs', c)
    ensures ListOk(rs', c, strict)
  {
    forall m ensures MessageOf(rs', c, m) <==> m in IdsAt(rs', c) {
      SameMessageOf(rs, rs', c, m);
    }
    if IsConversation(rs, c) {
      var ids := IdsAt(rs, c);
      forall i, j | 0 <= i < j < |ids| ensures ids[i] != ids[j] && Later(At(rs', ids[i]), At(rs', ids[j]), strict) {
        SameMessageOf(rs, rs', c, ids[i]);
        SameMessageOf(rs, rs', c, ids[j]);
        assert ids[i] in ids && ids[j] in ids;
      }
    }
  }

  lemma SameListsOk(rs: map<Text, Row>, rs': map<Text, Row>, strict: bool)
    requires ListsOk(rs, strict) && SameMessages(rs, rs') && SameLists(rs, rs')
    ensures ListsOk(rs', strict)
  {
    forall c | IsConversation(rs', c) ensures ListOk(rs', c, strict) {
      SameListOk(rs, rs', c, strict);
    }
    forall c, m | MessageOf(rs', c, m) ensures IsConversation(rs', c) {
      SameMessageOf(rs, rs', c, m);
    }
  }

  lemma SameNewsOk(rs: map<Text, Row>, es: map<Text, EventRow>, rs': map<Text, Row>, es': map<Text, EventRow>)
    requires NewsOk(rs, es) && SameMessages(rs, rs') && SameNews(es, es')
    ensures NewsOk(rs', es')
  {
    forall c, m | MessageOf(rs', c, m) ensures exists e :: News(rs', es', c, m, e) {
      SameMessageOf(rs, rs', c, m);
      var e :| News(rs, es, c, m, e);
      assert News(rs', es', c, m, e);
    }
    forall e | e in es' && MessageNews(es'[e]) ensures exists c, m :: News(rs', es', c, m, e) {
      var c, m :| News(rs, es, c, m, e);
      SameMessageOf(rs, rs', c, m);
      assert News(rs', es', c, m, e);
    }
  }

  lemma SamePaced(
    rs: map<Text, Row>, es: map<Text, EventRow>, rs': map<Text, Row>, es': map<Text, EventRow>, strict: bool)
    requires Paced(rs, es, strict) && ListsOk(rs, strict)
    requires SameMessages(rs, rs') && SameLists(rs, rs') && SameNews(es, es')
    ensures Paced(rs', es', strict)
  {
    forall c, i, j, e | 0 <= i < j < |IdsAt(rs', c)| && IsConversation(rs', c) && News(rs', es', c, IdsAt(rs', c)[i], e)
      ensures Later(es'[e].stamp.at, At(rs', IdsAt(rs', c)[j]), strict)
    {
      SameMessageOf(rs, rs', c, IdsAt(rs, c)[i]);
      SameMessageOf(rs, rs', c, IdsAt(rs, c)[j]);
      assert News(rs, es, c, IdsAt(rs, c)[i], e);
      assert ListOk(rs, c, strict) && IdsAt(rs, c)[j] in IdsAt(rs, c);
    }
  }

  lemma SameKeysOk(rs: map<Text, Row>, rs': map<Text, Row>)
    requires KeysOk(rs) && SameMessages(rs, rs')
    ensures KeysOk(rs')
  {
    forall c, idem, a, b | Truthy(idem) && Keyed(rs', c, idem, a) && Keyed(rs', c, idem, b) ensures a == b {
      SameMessageOf(rs, rs', c, a);
      SameMessageOf(rs, rs', c, b);
      assert Keyed(rs, c, idem, a) && Keyed(rs, c, idem, b);
    }
  }

  lemma SameIndexOk(rs: map<Text, Row>, rs': map<Text, Row>, index: map<Text, IndexRow>)
    requires IndexOk(rs, index) && SameMessages(rs, rs')
    ensures IndexOk(rs', index)
  {
    forall m | IsMessage(rs', m) || m in index ensures Indexed(rs', index, m) {
      assert IsMessage(rs, m) || IsMessage(rs', m) ==> rs'[m] == rs[m];
      assert Indexed(rs, index, m);
    }
  }

  lemma SameDated(
    rs: map<Text, Row>, es: map<Text, EventRow>, rs': map<Text, Row>, es': map<Text, EventRow>, now: int, now': int)
    requires Dated(rs, es, now) && SameMessages(rs, rs') && SameNews(es, es') && now <= now'
    ensures Dated(rs', es', now')
  {
    forall m | IsMessage(rs', m) ensures At(rs', m) <= now' {
      assert IsMessage(rs, m) && rs'[m] == rs[m];
    }
  }

  /** Whatever keeps the messages, the lists and the news keeps everything. */
  lemma SameIsGood(b: Base, now: int, db': Tables, now': int, strict: bool)
    requires Good(b, now, strict) && now <= now' && UniqueKeys(db'.events) && RowsOk(db'.records)
    requires SameMessages(b.db.records, db'.records) && SameLists(b.db.records, db'.records)
    requires SameNews(b.db.events, db'.events)
    ensures Good(b.(db := db'), now', strict)
  {
    SameListsOk(b.db.records, db'.records, strict);
    SameKeysOk(b.db.records, db'.records);
    SameIndexOk(b.db.records, db'.records, b.index);
    SameNewsOk(b.db.records, b.db.events, db'.records, db'.events);
    SamePaced(b.db.records, b.db.events, db'.records, db'.events, strict);
    SameDated(b.db.records, b.db.events, db'.records, db'.events, now, now');
  }

  lemma LeftRowsOk(db: Tables, db': Tables)
    requires RowsOk(db.records) && Leaves(db, db')
    ensures RowsOk(db'.records) && SameMessages(db.records, db'.records)
    ensures SameLists(db.records, db'.records) && SameNews(db.events, db'.events)
  {
  }

  ghost predicate Renewal(rs: map<Text, Row>, c: Text, row: Row) {
    row.rtype == Lit(ConversationRecord) && ConversationOk(c, row)
    && if IsConversation(rs, c) then Ids(row.body.p) == IdsAt(rs, c) else c !in rs && Ids(row.body.p) == []
  }

  lemma RenewedRows(rs: map<Text, Row>, c: Text, row: Row)
    requires RowsOk(rs) && Renewal(rs, c, row)
    ensures RowsOk(rs[c := row]) && SameMessages(rs, rs[c := row]) && SameLists(rs, rs[c := row])
  {
    var rs' := rs[c := row];
    forall x | IsConversation(rs', x) ensures ConversationOk(x, rs'[x]) {
      if x != c { assert IsConversation(rs, x); }
    }
    assert forall m :: IsMessage(rs', m) ==> IsMessage(rs, m);
    assert IdsAt(rs', c) == Ids(row.body.p);
  }

  lemma SavedRow(rs: map<Text, Row>, it: Item)
    requires RowsOk(rs) && it.rtype == Lit(ConversationRecord) && ConversationOk(it.id, FirstWrite(it))
    requires IsConversation(rs, it.id) || it.id !in rs
    ensures var row := SaveRecord(Tables(rs, map[]), it).records[it.id];
      row.rtype == it.rtype && row.body == Obj(it.payload) && ConversationOk(it.id, row)
  {
    if IsConversation(rs, it.id) { assert ConversationOk(it.id, rs[it.id]); }
  }

  lemma OtherNews(es: map<Text, EventRow>, ev: Event)
    requires UniqueKeys(es) && !MessageNews(ev.row)
    ensures UniqueKeys(InsertOrIgnore(es, ev)) && SameNews(es, InsertOrIgnore(es, ev))
  {
  }

  lemma RenewedIsGood(b: Base, now: int, c: Text, row: Row, es': map<Text, EventRow>, now': int, strict: bool)
    requires Good(b, now, strict) && now <= now' && Renewal(b.db.records, c, row)
    requires UniqueKeys(es') && SameNews(b.db.events, es')
    ensures Good(b.(db := Tables(b.db.records[c := row], es')), now', strict)
  {
    RenewedRows(b.db.records, c, row);
    SameIsGood(b, now, Tables(b.db.records[c := row], es'), now', strict);
  }

  lemma SavedRenewal(rs: map<Text, Row>, it: Item)
    requires RowsOk(rs) && it.rtype == Lit(ConversationRecord) && Renewal(rs, it.id, FirstWrite(it))
    ensures exists row :: Renewal(rs, it.id, row) && SaveRecord(Tables(rs, map[]), it).records == rs[it.id := row]
  {
    SavedRow(rs, it);
    var row := SaveRecord(Tables(rs, map[]), it).records[it.id];
    assert Renewal(rs, it.id, row);
  }

  /** A conversation row saved again with the ids it had, or a new one that lists nothing, and an event
      that announces no message. */
  lemma AnnouncedIsGood(b: Base, now: int, it: Item, ev: Event, now': int, strict: bool)
    requires Good(b, now, strict) && now <= now' && it.rtype == Lit(ConversationRecord)
    requires !MessageNews(ev.row) && Renewal(b.db.records, it.id, FirstWrite(it))
    ensures Good(Announce(b, it, ev).base, now', strict)
  {
    SavedRenewal(b.db.records, it);
    var row :| Renewal(b.db.records, it.id, row)
               && SaveRecord(Tables(b.db.records, map[]), it).records == b.db.records[it.id := row];
    OtherNews(b.db.events, ev);
    RenewedIsGood(b, now, it.id, row, InsertOrIgnore(b.db.events, ev), now', strict);
  }
}
