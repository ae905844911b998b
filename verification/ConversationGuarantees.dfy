/** What holds of every conversation, in every run. */
module ConversationGuarantees {
  import opened Ledger
  import opened StoreSpec
  import opened ConversationRules
  import opened ConversationRuns

  // ---- a message is added ---------------------------------------------------------------------

  /** A new message row, and the row of its conversation with the new id at the end of the list. */
  ghost predicate Growth(rs: map<Text, Row>, c: Text, m: Text, message: Row, row: Row) {
    m !in rs && IsConversation(rs, c) && message.rtype == Lit(MessageRecord) && MessageOk(m, message)
    && message.mission == Str(c) && row.rtype == Lit(ConversationRecord) && ConversationOk(c, row)
    && Ids(row.body.p) == IdsAt(rs, c) + [m]
  }

  function Grown(rs: map<Text, Row>, c: Text, m: Text, message: Row, row: Row): map<Text, Row> {
    rs[m := message][c := row]
  }

  lemma GrownMessageOf(rs: map<Text, Row>, c: Text, m: Text, message: Row, row: Row, d: Text, x: Text)
    requires Growth(rs, c, m, message, row)
    ensures var rs' := Grown(rs, c, m, message, row);
      (MessageOf(rs', d, x) <==> (x == m && d == c) || MessageOf(rs, d, x))
      && (MessageOf(rs, d, x) ==> x != m && x != c && x in rs' && rs'[x] == rs[x] && At(rs', x) == At(rs, x))
      && At(rs', m) == message.created.at
  {
  }

  lemma GrownIds(rs: map<Text, Row>, c: Text, m: Text, message: Row, row: Row, d: Text)
    requires Growth(rs, c, m, message, row)
    ensures var rs' := Grown(rs, c, m, message, row);
      (IsConversation(rs', d) <==> IsConversation(rs, d))
      && (IsConversation(rs, d) ==> IdsAt(rs', d) == if d == c then IdsAt(rs, c) + [m] else IdsAt(rs, d))
  {
  }

  lemma GrownRows(rs: map<Text, Row>, c: Text, m: Text, message: Row, row: Row)
    requires RowsOk(rs) && Growth(rs, c, m, message, row)
    ensures RowsOk(Grown(rs, c, m, message, row))
  {
    var rs' := Grown(rs, c, m, message, row);
    forall x | IsConversation(rs', x) ensures ConversationOk(x, rs'[x]) {
      if x != c { assert IsConversation(rs, x); }
    }
    forall x | IsMessage(rs', x) ensures MessageOk(x, rs'[x]) {
      if x != m { assert IsMessage(rs, x); }
    }
  }

  /** Every message there is was stamped before the new one. */
  ghost predicate AllBefore(rs: map<Text, Row>, at: int, strict: bool) {
    forall d, x :: MessageOf(rs, d, x) ==> Later(At(rs, x), at, strict)
  }

  lemma GrownList(rs: map<Text, Row>, c: Text, m: Text, message: Row, row: Row, d: Text, strict: bool)
    requires ListsOk(rs, strict) && Growth(rs, c, m, message, row) && AllBefore(rs, message.created.at, strict)
    requires IsConversation(rs, d)
    ensures ListOk(Grown(rs, c, m, message, row), d, strict)
  {
    var rs' := Grown(rs, c, m, message, row);
    GrownIds(rs, c, m, message, row, d);
    assert ListOk(rs, d, strict);
    var was, ids := IdsAt(rs, d), IdsAt(rs', d);
    forall x ensures x in ids <==> MessageOf(rs', d, x) {
      GrownMessageOf(rs, c, m, message, row, d, x);
    }
    forall i, j | 0 <= i < j < |ids| ensures ids[i] != ids[j] && Later(At(rs', ids[i]), At(rs', ids[j]), strict) {
      assert ids[i] == was[i] && was[i] in was;
      GrownMessageOf(rs, c, m, message, row, d, was[i]);
      if j < |was| {
        assert ids[j] == was[j] && was[j] in was;
        GrownMessageOf(rs, c, m, message, row, d, was[j]);
      } else {
        assert MessageOf(rs, d, was[i]);
      }
    }
  }

  lemma GrownLists(rs: map<Text, Row>, c: Text, m: Text, message: Row, row: Row, strict: bool)
    requires ListsOk(rs, strict) && Growth(rs, c, m, message, row) && AllBefore(rs, message.created.at, strict)
    ensures ListsOk(Grown(rs, c, m, message, row), strict)
  {
    var rs' := Grown(rs, c, m, message, row);
    forall d | IsConversation(rs', d) ensures ListOk(rs', d, strict) {
      GrownIds(rs, c, m, message, row, d);
      GrownList(rs, c, m, message, row, d, strict);
    }
    forall d, x | MessageOf(rs', d, x) ensures IsConversation(rs', d) {
      GrownIds(rs, c, m, message, row, d);
      GrownMessageOf(rs, c, m, message, row, d, x);
    }
  }

  lemma GrownKeys(rs: map<Text, Row>, c: Text, m: Text, message: Row, row: Row)
    requires KeysOk(rs) && Growth(rs, c, m, message, row)
    requires var idem := Get(message.body.p, IdempotencyKey);
      Truthy(idem) ==> forall x :: !Keyed(rs, c, idem, x)
    ensures KeysOk(Grown(rs, c, m, message, row))
  {
    var rs' := Grown(rs, c, m, message, row);
    forall d, idem, a, b | Truthy(idem) && Keyed(rs', d, idem, a) && Keyed(rs', d, idem, b) ensures a == b {
      GrownMessageOf(rs, c, m, message, row, d, a);
      GrownMessageOf(rs, c, m, message, row, d, b);
      assert a != m ==> Keyed(rs, d, idem, a);
      assert b != m ==> Keyed(rs, d, idem, b);
    }
  }

  lemma GrownIndex(rs: map<Text, Row>, c: Text, m: Text, message: Row, row: Row, index: map<Text, IndexRow>)
    requires IndexOk(rs, index) && Growth(rs, c, m, message, row)
    ensures IndexOk(Grown(rs, c, m, message, row), index[m := IndexRow(c, message.created)])
  {
    var rs' := Grown(rs, c, m, message, row);
    var index' := index[m := IndexRow(c, message.created)];
    forall x | IsMessage(rs', x) || x in index' ensures Indexed(rs', index', x) {
      if x != m {
        assert IsMessage(rs, x) || x in index;
        assert Indexed(rs, index, x);
      }
    }
  }

  /** The event of the new message. */
  predicate Announces(es: map<Text, EventRow>, c: Text, m: Text, message: Row, e: Text, news: EventRow) {
    e !in es && Reports(map[e := news], c, m, e) && news.stamp.Stamp? && message.created.Stamp?
    && message.created.at <= news.stamp.at
  }

  lemma OldNews(
    rs: map<Text, Row>, es: map<Text, EventRow>, c: Text, m: Text, message: Row, row: Row, e: Text, news: EventRow,
    d: Text, x: Text, f: Text)
    requires Growth(rs, c, m, message, row) && Announces(es, c, m, message, e, news) && x != m
    ensures News(Grown(rs, c, m, message, row), es[e := news], d, x, f) <==> News(rs, es, d, x, f)
  {
    GrownMessageOf(rs, c, m, message, row, d, x);
  }

  lemma NewNews(
    rs: map<Text, Row>, es: map<Text, EventRow>, c: Text, m: Text, message: Row, row: Row, e: Text, news: EventRow)
    requires Growth(rs, c, m, message, row) && Announces(es, c, m, message, e, news)
    ensures News(Grown(rs, c, m, message, row), es[e := news], c, m, e)
  {
    GrownMessageOf(rs, c, m, message, row, c, m);
  }

  lemma GrownNews(
    rs: map<Text, Row>, es: map<Text, EventRow>, c: Text, m: Text, message: Row, row: Row, e: Text, news: EventRow)
    requires NewsOk(rs, es) && Growth(rs, c, m, message, row) && Announces(es, c, m, message, e, news)
    ensures NewsOk(Grown(rs, c, m, message, row), es[e := news])
  {
    var rs', es' := Grown(rs, c, m, message, row), es[e := news];
    forall d, x | MessageOf(rs', d, x) ensures exists f :: News(rs', es', d, x, f) {
      GrownMessageOf(rs, c, m, message, row, d, x);
      if x == m && d == c {
        NewNews(rs, es, c, m, message, row, e, news);
      } else {
        var f :| News(rs, es, d, x, f);
        OldNews(rs, es, c, m, message, row, e, news, d, x, f);
        assert News(rs', es', d, x, f);
      }
    }
    forall f | f in es' && MessageNews(es'[f]) ensures exists d, x :: News(rs', es', d, x, f) {
      if f == e {
        NewNews(rs, es, c, m, message, row, e, news);
      } else {
        var d, x :| News(rs, es, d, x, f);
        OldNews(rs, es, c, m, message, row, e, news, d, x, f);
        assert News(rs', es', d, x, f);
      }
    }
  }

  lemma GrownPacedAt(
    rs: map<Text, Row>, es: map<Text, EventRow>, c: Text, m: Text, message: Row, row: Row, e: Text, news: EventRow,
    now: int, strict: bool, d: Text, i: nat, j: nat, f: Text)
    requires Paced(rs, es, strict) && ListOk(rs, d, strict) && Dated(rs, es, now)
    requires Growth(rs, c, m, message, row) && Announces(es, c, m, message, e, news)
    requires Later(now, message.created.at, strict) && IsConversation(rs, d)
    requires var rs' := Grown(rs, c, m, message, row);
      i < j < |IdsAt(rs', d)| && News(rs', es[e := news], d, IdsAt(rs', d)[i], f)
    ensures var rs' := Grown(rs, c, m, message, row);
      Later(es[e := news][f].stamp.at, At(rs', IdsAt(rs', d)[j]), strict)
  {
    GrownIds(rs, c, m, message, row, d);
    var was := IdsAt(rs, d);
    assert was[i] in was;
    GrownMessageOf(rs, c, m, message, row, d, was[i]);
    OldNews(rs, es, c, m, message, row, e, news, d, was[i], f);
    assert es[e := news][f] == es[f];
    if j < |was| {
      assert was[j] in was;
      GrownMessageOf(rs, c, m, message, row, d, was[j]);
    } else {
      GrownMessageOf(rs, c, m, message, row, c, m);
    }
  }

  lemma GrownPaced(
    rs: map<Text, Row>, es: map<Text, EventRow>, c: Text, m: Text, message: Row, row: Row, e: Text, news: EventRow,
    now: int, strict: bool)
    requires Paced(rs, es, strict) && ListsOk(rs, strict) && Dated(rs, es, now)
    requires Growth(rs, c, m, message, row) && Announces(es, c, m, message, e, news)
    requires Later(now, message.created.at, strict)
    ensures Paced(Grown(rs, c, m, message, row), es[e := news], strict)
  {
    var rs', es' := Grown(rs, c, m, message, row), es[e := news];
    forall d, i, j, f | 0 <= i < j < |IdsAt(rs', d)| && IsConversation(rs', d) && News(rs', es', d, IdsAt(rs', d)[i], f)
      ensures Later(es'[f].stamp.at, At(rs', IdsAt(rs', d)[j]), strict)
    {
      GrownIds(rs, c, m, message, row, d);
      GrownPacedAt(rs, es, c, m, message, row, e, news, now, strict, d, i, j, f);
    }
  }

  lemma GrownDated(
    rs: map<Text, Row>, es: map<Text, EventRow>, c: Text, m: Text, message: Row, row: Row, e: Text, news: EventRow,
    now: int)
    requires Dated(rs, es, now) && Growth(rs, c, m, message, row) && Announces(es, c, m, message, e, news)
    requires now <= message.created.at
    ensures Dated(Grown(rs, c, m, message, row), es[e := news], news.stamp.at)
  {
    var rs' := Grown(rs, c, m, message, row);
    forall x | IsMessage(rs', x) ensures At(rs', x) <= news.stamp.at {
      if x != m { assert IsMessage(rs, x); }
    }
  }

  lemma EarlierAll(rs: map<Text, Row>, es: map<Text, EventRow>, now: int, at: int, strict: bool)
    requires Dated(rs, es, now) && Later(now, at, strict)
    ensures AllBefore(rs, at, strict)
  {
    forall d, x | MessageOf(rs, d, x) ensures Later(At(rs, x), at, strict) {
      assert IsMessage(rs, x);
    }
  }

  /** No event speaks of the id yet. */
  ghost predicate KeysApart(es: map<Text, EventRow>, m: Text) {
    forall e :: e in es ==> es[e].key != Some(Key(MessagePosted, m))
  }

  lemma NewsIsUnique(es: map<Text, EventRow>, m: Text, e: Text, news: EventRow)
    requires UniqueKeys(es) && KeysApart(es, m) && news.key == Some(Key(MessagePosted, m))
    ensures UniqueKeys(es[e := news])
  {
  }

  lemma GrownIsGood(
    b: Base, now: int, c: Text, m: Text, message: Row, row: Row, e: Text, news: EventRow, strict: bool)
    requires Good(b, now, strict) && Growth(b.db.records, c, m, message, row)
    requires Announces(b.db.events, c, m, message, e, news) && KeysApart(b.db.events, m)
    requires Later(now, message.created.at, strict)
    requires var idem := Get(message.body.p, IdempotencyKey);
      Truthy(idem) ==> forall x :: !Keyed(b.db.records, c, idem, x)
    ensures Good(Base(Tables(Grown(b.db.records, c, m, message, row), b.db.events[e := news]),
                      b.index[m := IndexRow(c, message.created)]), news.stamp.at, strict)
  {
    var rs, es := b.db.records, b.db.events;
    NewsIsUnique(es, m, e, news);
    EarlierAll(rs, es, now, message.created.at, strict);
    GrownRows(rs, c, m, message, row);
    GrownLists(rs, c, m, message, row, strict);
    GrownKeys(rs, c, m, message, row);
    GrownIndex(rs, c, m, message, row, b.index);
    GrownNews(rs, es, c, m, message, row, e, news);
    GrownPaced(rs, es, c, m, message, row, e, news, now, strict);
    GrownDated(rs, es, c, m, message, row, e, news, now);
  }

  // ---- every call keeps the invariant -----------------------------------------------------------

  lemma LookupFacts(rs: map<Text, Row>, c: Text)
    requires RowsOk(rs)
    ensures Lookup(rs, c).Returned? <==> IsConversation(rs, c)
    ensures IsConversation(rs, c) ==> ConversationOk(c, rs[c]) && Lookup(rs, c) == Returned(rs[c].body.p)
  {
    if IsConversation(rs, c) {
      assert ConversationOk(c, rs[c]);
      assert Finds(rs, Lit(ConversationRecord), ConversationId, Str(c), c);
    } else if Lookup(rs, c).Returned? {
      var id :| Finds(rs, Lit(ConversationRecord), ConversationId, Str(c), id);
      assert IsConversation(rs, id);
    }
  }

  lemma {:induction false} NamesOf(items: seq<Value>, last: Text)
    ensures Names(items + [Str(last)]) == Names(items) + [last]
  {
    var names := Names(items + [Str(last)]);
    forall i | 0 <= i < |names| ensures names[i] == (Names(items) + [last])[i] {
      if i < |items| { assert (items + [Str(last)])[i] == items[i]; }
    }
  }

  lemma WithMessageFacts(c: Text, row: Row, post: Post, gen: Fresh)
    requires ConversationOk(c, row)
    ensures var p, q := row.body.p, WithMessage(row.body.p, post, gen);
      Ids(q) == Ids(p) + [gen.id] && ListsTexts(Get(q, MessageIds)) && Get(q, ConversationId) == Get(p, ConversationId)
      && Get(q, CreatedAt) == Get(p, CreatedAt) && Get(q, Status) == Get(p, Status)
  {
    NamesOf(Get(row.body.p, MessageIds).items, gen.id);
  }

  lemma RowWithMessage(c: Text, row: Row, post: Post, gen: Fresh)
    requires ConversationOk(c, row) && row.rtype == Lit(ConversationRecord)
    ensures var q := WithMessage(row.body.p, post, gen);
      var row' := row.(body := Obj(q), integrity := Some(ItemSeal(ConversationItem(c, q))));
      ConversationOk(c, row') && Ids(q) == Ids(row.body.p) + [gen.id]
  {
    WithMessageFacts(c, row, post, gen);
  }

  lemma MessageGet(c: Text, post: Post, gen: Fresh, f: Field)
    requires f in MESSAGE_FIELDS
    ensures Get(NewMessage(c, post, gen), f) == MessageField(f, c, post, gen)
  {
  }

  lemma MessageColumns(c: Text, post: Post, gen: Fresh, p: Payload)
    requires p == NewMessage(c, post, gen)
    ensures Get(p, MessageId) == Str(gen.id) && Get(p, ConversationId) == Str(c) && Get(p, CreatedAt) == Str(Stamp(gen.at))
  {
    MessageGet(c, post, gen, MessageId);
    MessageGet(c, post, gen, ConversationId);
    MessageGet(c, post, gen, CreatedAt);
  }

  lemma MessageSaying(c: Text, post: Post, gen: Fresh, p: Payload)
    requires p == NewMessage(c, post, gen)
    ensures Get(p, IdempotencyKey) == post.idem && SameSaying(p, post)
  {
    MessageGet(c, post, gen, IdempotencyKey);
    MessageGet(c, post, gen, Role);
    MessageGet(c, post, gen, Content);
  }

  lemma MessageFacts(c: Text, post: Post, gen: Fresh)
    ensures var row := FirstWrite(MessageItem(c, post, gen));
      MessageOk(gen.id, row) && row.mission == Str(c) && Get(row.body.p, IdempotencyKey) == post.idem
  {
    MessageColumns(c, post, gen, NewMessage(c, post, gen));
    MessageSaying(c, post, gen, NewMessage(c, post, gen));
  }

  lemma AppendedGrows(b: Base, c: Text, post: Post, gen: Fresh)
    requires RowsOk(b.db.records) && IsConversation(b.db.records, c) && IsFresh(b, gen)
    ensures var rs := b.db.records;
      var message := FirstWrite(MessageItem(c, post, gen));
      exists row :: Growth(rs, c, gen.id, message, row)
        && Appended(b, c, rs[c].body.p, post, gen).db.records == Grown(rs, c, gen.id, message, row)
  {
    var rs := b.db.records;
    assert ConversationOk(c, rs[c]);
    MessageFacts(c, post, gen);
    RowWithMessage(c, rs[c], post, gen);
    var q := WithMessage(rs[c].body.p, post, gen);
    var row := rs[c].(body := Obj(q), integrity := Some(ItemSeal(ConversationItem(c, q))));
    assert Growth(rs, c, gen.id, FirstWrite(MessageItem(c, post, gen)), row);
  }

  lemma NewEventFacts(b: Base, c: Text, post: Post, gen: Fresh)
    requires IsFresh(b, gen) && gen.at <= gen.stamp
    ensures var ev := MessageEvent(c, post, gen);
      Announces(b.db.events, c, gen.id, FirstWrite(MessageItem(c, post, gen)), ev.id, ev.row)
      && KeysApart(b.db.events, gen.id) && InsertOrIgnore(b.db.events, ev) == b.db.events[ev.id := ev.row]
  {
    var ev := MessageEvent(c, post, gen);
    assert Get(ev.row.body.p, MessageId) == Str(gen.id);
    forall e | e in b.db.events ensures b.db.events[e].key != Some(Key(MessagePosted, gen.id)) {
      assert b.db.events[e].key == Some(Key(MessagePosted, gen.id)) ==> KeyTaken(b.db.events, Key(MessagePosted, gen.id));
    }
  }

  lemma AppendedIsGood(b: Base, now: int, c: Text, post: Post, gen: Fresh, strict: bool)
    requires Good(b, now, strict) && IsConversation(b.db.records, c) && IsFresh(b, gen) && Timely(now, gen, strict)
    requires Truthy(post.idem) ==> forall x :: !Keyed(b.db.records, c, post.idem, x)
    ensures Good(Appended(b, c, b.db.records[c].body.p, post, gen), gen.stamp, strict)
  {
    var rs, ev := b.db.records, MessageEvent(c, post, gen);
    var message := FirstWrite(MessageItem(c, post, gen));
    AppendedGrows(b, c, post, gen);
    var row :| Growth(rs, c, gen.id, message, row)
               && Appended(b, c, rs[c].body.p, post, gen).db.records == Grown(rs, c, gen.id, message, row);
    NewEventFacts(b, c, post, gen);
    MessageFacts(c, post, gen);
    GrownIsGood(b, now, c, gen.id, message, row, ev.id, ev.row, strict);
  }

  lemma LaterIsGood(b: Base, now: int, now': int, strict: bool)
    requires Good(b, now, strict) && now <= now'
    ensures Good(b, now', strict)
  {
    SameIsGood(b, now, b.db, now', strict);
  }

  /** Either nothing changes, or a message is added that no key forbids. */
  lemma AppendCases(b: Base, c: Text, post: Post, gen: Fresh, hit: Option<Text>)
    requires RowsOk(b.db.records) && MayHit(b.db.records, c, post.idem, hit)
    ensures var b' := Append(b, c, post, gen, hit).base;
      b' == b
      || (IsConversation(b.db.records, c) && b' == Appended(b, c, b.db.records[c].body.p, post, gen)
          && (Truthy(post.idem) ==> forall x :: !Keyed(b.db.records, c, post.idem, x)))
  {
    LookupFacts(b.db.records, c);
  }

  lemma AppendIsGood(b: Base, now: int, c: Text, post: Post, gen: Fresh, hit: Option<Text>, strict: bool)
    requires Good(b, now, strict) && IsFresh(b, gen) && Timely(now, gen, strict) && MayHit(b.db.records, c, post.idem, hit)
    ensures Good(Append(b, c, post, gen, hit).base, gen.stamp, strict)
  {
    AppendCases(b, c, post, gen, hit);
    var b' := Append(b, c, post, gen, hit).base;
    if b' == b {
      LaterIsGood(b, now, gen.stamp, strict);
    } else {
      AppendedIsGood(b, now, c, post, gen, strict);
    }
  }

  lemma NewRenewal(rs: map<Text, Row>, title: Option<string>, gen: Fresh)
    requires gen.id !in rs
    ensures Renewal(rs, gen.id, FirstWrite(ConversationItem(gen.id, NewConversation(title, gen))))
  {
  }

  lemma StatusRenewal(rs: map<Text, Row>, c: Text, status: Word, gen: Fresh)
    requires RowsOk(rs) && IsConversation(rs, c) && (status == OpenStatus || status == ClosedStatus)
    ensures var q := rs[c].body.p[Status := Literal(status)][UpdateTime := Str(Stamp(gen.at))];
      Renewal(rs, c, FirstWrite(ConversationItem(c, q)))
  {
    assert ConversationOk(c, rs[c]);
    var q := rs[c].body.p[Status := Literal(status)][UpdateTime := Str(Stamp(gen.at))];
    assert Get(q, MessageIds) == Get(rs[c].body.p, MessageIds) && Get(q, CreatedAt) == Get(rs[c].body.p, CreatedAt);
  }

  lemma StatusCases(b: Base, c: Text, status: Word, kind: Word, gen: Fresh)
    requires RowsOk(b.db.records)
    ensures var b' := SetStatus(b, c, status, kind, gen).base;
      b' == b
      || (IsConversation(b.db.records, c)
          && (var q := b.db.records[c].body.p[Status := Literal(status)][UpdateTime := Str(Stamp(gen.at))];
              b' == Announce(b, ConversationItem(c, q), ConversationEvent(kind, c, gen, Status, Literal(status))).base))
  {
    LookupFacts(b.db.records, c);
  }

  lemma StatusIsGood(b: Base, now: int, c: Text, status: Word, kind: Word, gen: Fresh, strict: bool)
    requires Good(b, now, strict) && (status == OpenStatus || status == ClosedStatus) && now <= gen.stamp
    ensures Good(SetStatus(b, c, status, kind, gen).base, gen.stamp, strict)
  {
    StatusCases(b, c, status, kind, gen);
    var b' := SetStatus(b, c, status, kind, gen).base;
    if b' == b {
      LaterIsGood(b, now, gen.stamp, strict);
    } else {
      StatusRenewal(b.db.records, c, status, gen);
      var q := b.db.records[c].body.p[Status := Literal(status)][UpdateTime := Str(Stamp(gen.at))];
      AnnouncedIsGood(b, now, ConversationItem(c, q), ConversationEvent(kind, c, gen, Status, Literal(status)), gen.stamp, strict);
    }
  }

  lemma CreateIsGood(b: Base, now: int, title: Option<string>, gen: Fresh, strict: bool)
    requires Good(b, now, strict) && IsFresh(b, gen) && now <= gen.stamp
    ensures Good(Create(b, title, gen).base, gen.stamp, strict)
  {
    var p := NewConversation(title, gen);
    NewRenewal(b.db.records, title, gen);
    AnnouncedIsGood(b, now, ConversationItem(gen.id, p), ConversationEvent(ConversationCreated, gen.id, gen, Title, p[Title]),
                    gen.stamp, strict);
  }

  lemma ElsewhereIsGood(b: Base, now: int, db: Tables, strict: bool)
    requires Good(b, now, strict) && Leaves(b.db, db)
    ensures Good(b.(db := db), now, strict)
  {
    LeftRowsOk(b.db, db);
    SameIsGood(b, now, db, now, strict);
  }

  lemma MoveIsGood(s: Sys, m: Move, strict: bool)
    requires Good(s.base, s.now, strict) && Allowed(s, m, strict)
    ensures Good(Do(s, m).base, Do(s, m).now, strict)
  {
    match m
    case Created(title, gen) => CreateIsGood(s.base, s.now, title, gen, strict);
    case Posted(c, post, gen, hit) => AppendIsGood(s.base, s.now, c, post, gen, hit, strict);
    case Closed(c, gen) => StatusIsGood(s.base, s.now, c, ClosedStatus, ConversationClosed, gen, strict);
    case Reopened(c, gen) => StatusIsGood(s.base, s.now, c, OpenStatus, ConversationReopened, gen, strict);
    case Elsewhere(db) => ElsewhereIsGood(s.base, s.now, db, strict);
  }

  lemma {:induction false} RunIsGood(moves: seq<Move>, strict: bool)
    requires EngineRun(moves, strict)
    ensures Good(Run(moves).base, Run(moves).now, strict)
  {
    if moves != [] {
      RunIsGood(moves[..|moves| - 1], strict);
      MoveIsGood(Run(moves[..|moves| - 1]), moves[|moves| - 1], strict);
    }
  }
}
