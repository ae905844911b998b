/** Calls that read a conversation, and write it back after others have written it too. */
module ConversationLate {
  import opened Ledger
  import opened StoreSpec
  import opened ConversationRules
  import opened ConversationRuns
  import opened ConversationGuarantees
  import opened ConversationReplay
  import L = ConversationLog

  /** A conversation as some call read it. */
  predicate AsRead(c: Text, p: Payload) {
    Get(p, ConversationId) == Str(c) && ListsTexts(Get(p, MessageIds))
  }

  /** The conversation still lists the messages it listed when it was read. */
  ghost predicate StillLists(b: Base, c: Text, p: Payload) {
    forall m :: m in Ids(p) <==> m in IdsAt(b.db.records, c)
  }

  ghost predicate ProjectionsOk(b: Base, c: Text) {
    forall m :: AllAgree(b, c, m)
  }

  ghost predicate Reported(es: map<Text, EventRow>, c: Text, m: Text) {
    exists e :: Reports(es, c, m, e)
  }

  predicate IndexedFor(index: map<Text, IndexRow>, c: Text, m: Text) {
    m in index && index[m].conversation == c
  }

  /** Stored, indexed and announced as before. */
  ghost predicate SameAt(b: Base, b': Base, c: Text, m: Text) {
    (MessageOf(b'.db.records, c, m) <==> MessageOf(b.db.records, c, m))
    && (IndexedFor(b'.index, c, m) <==> IndexedFor(b.index, c, m))
    && (Reported(b'.db.events, c, m) <==> Reported(b.db.events, c, m))
  }

  ghost predicate InFull(b: Base, c: Text, m: Text) {
    MessageOf(b.db.records, c, m) && IndexedFor(b.index, c, m) && Reported(b.db.events, c, m)
  }

  lemma AgreesAt(b: Base, c: Text, m: Text)
    ensures AllAgree(b, c, m) <==>
      (m in IdsAt(b.db.records, c) <==> MessageOf(b.db.records, c, m))
      && (m in IdsAt(b.db.records, c) <==> IndexedFor(b.index, c, m))
      && (m in IdsAt(b.db.records, c) <==> Reported(b.db.events, c, m))
  {
  }

  /** Only the list may have changed, and at most one message was added in full. */
  ghost predicate Relisted(b: Base, c: Text, b': Base, ids: seq<Text>, added: Option<Text>) {
    IdsAt(b'.db.records, c) == ids
    && forall m :: if added == Some(m) then InFull(b', c, m) else SameAt(b, b', c, m)
  }

  lemma RelistedAt(b: Base, c: Text, b': Base, p: Payload, added: Option<Text>, m: Text)
    requires AllAgree(b, c, m) && Relisted(b, c, b', if added.Some? then Ids(p) + [added.value] else Ids(p), added)
    requires added.Some? ==> added.value !in Ids(p) && added.value !in IdsAt(b.db.records, c)
    ensures AllAgree(b', c, m) <==> (m in Ids(p) <==> m in IdsAt(b.db.records, c))
  {
    AgreesAt(b, c, m);
    AgreesAt(b', c, m);
    assert if added == Some(m) then InFull(b', c, m) else SameAt(b, b', c, m);
  }

  lemma RelistedAgreesExactlyWhen(b: Base, c: Text, b': Base, p: Payload, added: Option<Text>)
    requires ProjectionsOk(b, c)
    requires Relisted(b, c, b', if added.Some? then Ids(p) + [added.value] else Ids(p), added)
    requires added.Some? ==> added.value !in Ids(p) && added.value !in IdsAt(b.db.records, c)
    ensures ProjectionsOk(b', c) <==> StillLists(b, c, p)
  {
    forall m ensures AllAgree(b', c, m) <==> (m in Ids(p) <==> m in IdsAt(b.db.records, c)) {
      assert AllAgree(b, c, m);
      RelistedAt(b, c, b', p, added, m);
    }
  }

  // ---- a late append --------------------------------------------------------------------------

  lemma OneMoreListed(p: Payload, post: Post, gen: Fresh)
    requires ListsTexts(Get(p, MessageIds))
    ensures Ids(WithMessage(p, post, gen)) == Ids(p) + [gen.id]
  {
    NamesOf(Get(p, MessageIds).items, gen.id);
  }

  lemma OneMoreMessage(rs: map<Text, Row>, rs': map<Text, Row>, c: Text, n: Text)
    requires IsConversation(rs, c) && IsConversation(rs', c) && n !in rs && MessageOf(rs', c, n)
    requires forall m :: m != n && m != c ==> (m in rs' <==> m in rs) && (m in rs ==> rs'[m] == rs[m])
    ensures forall m :: m != n ==> (MessageOf(rs', c, m) <==> MessageOf(rs, c, m))
  {
  }

  lemma LateMessage(b: Base, c: Text, p: Payload, post: Post, gen: Fresh)
    requires RowsOk(b.db.records) && IsConversation(b.db.records, c) && AsRead(c, p) && IsFresh(b, gen) && gen.id != c
    ensures var rs, rs' := b.db.records, Appended(b, c, p, post, gen).db.records;
      IdsAt(rs', c) == Ids(p) + [gen.id] && MessageOf(rs', c, gen.id)
      && (forall m :: m != gen.id ==> (MessageOf(rs', c, m) <==> MessageOf(rs, c, m)))
  {
    var rs' := Appended(b, c, p, post, gen).db.records;
    LateRows(b, c, p, post, gen);
    LateColumns(rs', c, post, gen);
    OneMoreListed(p, post, gen);
    OneMoreMessage(b.db.records, rs', c, gen.id);
  }

  lemma LateColumns(rs: map<Text, Row>, c: Text, post: Post, gen: Fresh)
    requires gen.id in rs && rs[gen.id] == FirstWrite(MessageItem(c, post, gen))
    ensures MessageOf(rs, c, gen.id)
  {
    MessageColumns(c, post, gen, NewMessage(c, post, gen));
  }

  lemma LateRows(b: Base, c: Text, p: Payload, post: Post, gen: Fresh)
    requires IsConversation(b.db.records, c) && IsFresh(b, gen) && gen.id != c
    ensures var rs, rs' := b.db.records, Appended(b, c, p, post, gen).db.records;
      gen.id in rs' && rs'[gen.id] == FirstWrite(MessageItem(c, post, gen))
      && c in rs' && rs'[c].body == Obj(WithMessage(p, post, gen)) && rs'[c].rtype == Lit(ConversationRecord)
      && forall m :: m != gen.id && m != c ==> (m in rs' <==> m in rs) && (m in rs ==> rs'[m] == rs[m])
  {
  }

  lemma LateNews(b: Base, c: Text, p: Payload, post: Post, gen: Fresh, m: Text)
    requires IsFresh(b, gen)
    ensures var es, es' := b.db.events, Appended(b, c, p, post, gen).db.events;
      if m == gen.id then Reports(es', c, m, gen.event) else Reported(es', c, m) <==> Reported(es, c, m)
  {
    var ev := MessageEvent(c, post, gen);
    var es, es' := b.db.events, InsertOrIgnore(b.db.events, ev);
    NewKeyIsFree(b, gen, ev);
    assert Get(ev.row.body.p, MessageId) == Str(gen.id);
    if m != gen.id { OneMoreReports(es, ev, c, m); }
  }

  lemma NewKeyIsFree(b: Base, gen: Fresh, ev: Event)
    requires IsFresh(b, gen) && ev.id == gen.event && ev.row.key == Some(Key(MessagePosted, gen.id))
    ensures InsertOrIgnore(b.db.events, ev) == b.db.events[ev.id := ev.row]
  {
  }

  lemma OneMoreReports(es: map<Text, EventRow>, ev: Event, c: Text, m: Text)
    requires ev.id !in es && ev.row.key != Some(Key(MessagePosted, m))
    ensures Reported(es[ev.id := ev.row], c, m) <==> Reported(es, c, m)
  {
    var es' := es[ev.id := ev.row];
    if e :| Reports(es, c, m, e) { assert Reports(es', c, m, e); }
    if e :| Reports(es', c, m, e) { assert Reports(es, c, m, e); }
  }

  lemma LateAppendRelists(b: Base, c: Text, p: Payload, post: Post, gen: Fresh)
    requires RowsOk(b.db.records) && IsConversation(b.db.records, c) && AsRead(c, p) && IsFresh(b, gen)
    ensures Relisted(b, c, Appended(b, c, p, post, gen), Ids(p) + [gen.id], Some(gen.id))
  {
    var b' := Appended(b, c, p, post, gen);
    LateMessage(b, c, p, post, gen);
    forall m ensures if gen.id == m then InFull(b', c, m) else SameAt(b, b', c, m) {
      LateNews(b, c, p, post, gen, m);
      LateIndex(b, c, p, post, gen, m);
    }
  }

  lemma LateIndex(b: Base, c: Text, p: Payload, post: Post, gen: Fresh, m: Text)
    ensures var b' := Appended(b, c, p, post, gen);
      if m == gen.id then IndexedFor(b'.index, c, m) else IndexedFor(b'.index, c, m) <==> IndexedFor(b.index, c, m)
  {
  }

  /** An append that comes late keeps the projections of the conversation together exactly when the
      conversation still lists what the call had read. */
  lemma LateAppendAgreesExactlyWhen(b: Base, now: int, strict: bool, c: Text, p: Payload, post: Post, gen: Fresh)
    requires Good(b, now, strict) && IsConversation(b.db.records, c) && AsRead(c, p) && IsFresh(b, gen) && gen.id !in Ids(p)
    ensures ProjectionsOk(Appended(b, c, p, post, gen), c) <==> StillLists(b, c, p)
  {
    GoodProjections(b, now, strict, c);
    LateAppendRelists(b, c, p, post, gen);
    FreshIsUnlisted(b, now, strict, c, gen);
    RelistedAgreesExactlyWhen(b, c, Appended(b, c, p, post, gen), p, Some(gen.id));
  }

  lemma GoodProjections(b: Base, now: int, strict: bool, c: Text)
    requires Good(b, now, strict) && IsConversation(b.db.records, c)
    ensures ProjectionsOk(b, c)
  {
    forall m ensures AllAgree(b, c, m) {
      GoodAgree(b, now, strict, c, m);
    }
  }

  lemma FreshIsUnlisted(b: Base, now: int, strict: bool, c: Text, gen: Fresh)
    requires Good(b, now, strict) && IsConversation(b.db.records, c) && IsFresh(b, gen)
    ensures gen.id !in IdsAt(b.db.records, c)
  {
    assert ListOk(b.db.records, c, strict);
  }

  // ---- a late change of status ------------------------------------------------------------------

  /** What a change of status writes that has read the conversation before. */
  ghost function LateStatus(b: Base, c: Text, p: Payload, status: Word, kind: Word, gen: Fresh): Base {
    var q := p[Status := Literal(status)][UpdateTime := Str(Stamp(gen.at))];
    Announce(b, ConversationItem(c, q), ConversationEvent(kind, c, gen, Status, Literal(status))).base
  }

  lemma LateStatusRows(b: Base, c: Text, p: Payload, status: Word, kind: Word, gen: Fresh)
    requires IsConversation(b.db.records, c)
    ensures var rs, rs' := b.db.records, LateStatus(b, c, p, status, kind, gen).db.records;
      IdsAt(rs', c) == Ids(p) && c in rs' && rs' == rs[c := rs'[c]] && rs'[c].rtype == Lit(ConversationRecord)
  {
    var q := p[Status := Literal(status)][UpdateTime := Str(Stamp(gen.at))];
    assert Get(q, MessageIds) == Get(p, MessageIds);
  }

  lemma LateStatusTables(b: Base, c: Text, p: Payload, status: Word, kind: Word, gen: Fresh)
    ensures var b' := LateStatus(b, c, p, status, kind, gen);
      b'.index == b.index
      && b'.db.events == InsertOrIgnore(b.db.events, ConversationEvent(kind, c, gen, Status, Literal(status)))
  {
  }

  lemma LateStatusReports(es: map<Text, EventRow>, c: Text, status: Word, kind: Word, gen: Fresh, m: Text)
    ensures Reported(InsertOrIgnore(es, ConversationEvent(kind, c, gen, Status, Literal(status))), c, m) <==> Reported(es, c, m)
  {
    var ev := ConversationEvent(kind, c, gen, Status, Literal(status));
    if !Clashes(es, ev) { OtherEventReports(es, ev, c, m); }
  }

  lemma OneRowMessageOf(rs: map<Text, Row>, rs': map<Text, Row>, c: Text, m: Text)
    requires IsConversation(rs, c) && c in rs' && rs' == rs[c := rs'[c]] && rs'[c].rtype == Lit(ConversationRecord)
    ensures MessageOf(rs', c, m) <==> MessageOf(rs, c, m)
  {
  }

  lemma LateStatusAt(b: Base, c: Text, p: Payload, status: Word, kind: Word, gen: Fresh, m: Text)
    requires IsConversation(b.db.records, c)
    ensures SameAt(b, LateStatus(b, c, p, status, kind, gen), c, m)
  {
    LateStatusRows(b, c, p, status, kind, gen);
    LateStatusTables(b, c, p, status, kind, gen);
    LateStatusReports(b.db.events, c, status, kind, gen, m);
    OneRowMessageOf(b.db.records, LateStatus(b, c, p, status, kind, gen).db.records, c, m);
  }

  lemma OtherEventReports(es: map<Text, EventRow>, ev: Event, c: Text, m: Text)
    requires ev.id !in es && !MessageNews(ev.row)
    ensures Reported(es[ev.id := ev.row], c, m) <==> Reported(es, c, m)
  {
    var es' := es[ev.id := ev.row];
    if e :| Reports(es, c, m, e) { assert Reports(es', c, m, e); }
    if e :| Reports(es', c, m, e) { assert Reports(es, c, m, e); }
  }

  /** So does a late close or reopen. */
  lemma LateStatusAgreesExactlyWhen(
    b: Base, now: int, strict: bool, c: Text, p: Payload, status: Word, kind: Word, gen: Fresh)
    requires Good(b, now, strict) && IsConversation(b.db.records, c)
    ensures ProjectionsOk(LateStatus(b, c, p, status, kind, gen), c) <==> StillLists(b, c, p)
  {
    GoodProjections(b, now, strict, c);
    LateStatusRows(b, c, p, status, kind, gen);
    forall m ensures SameAt(b, LateStatus(b, c, p, status, kind, gen), c, m) {
      LateStatusAt(b, c, p, status, kind, gen, m);
    }
    RelistedAgreesExactlyWhen(b, c, LateStatus(b, c, p, status, kind, gen), p, None);
  }

  // ---- two appends that read the same -------------------------------------------------------------

  /** Two appends that both read the conversation before either wrote: the first message is stored,
      indexed and announced, and the conversation does not list it. */
  lemma {:induction false} TwoAppendsLoseOne(
    moves: seq<Move>, strict: bool, c: Text, one: Post, two: Post, g: Fresh, h: Fresh)
    requires EngineRun(moves, strict) && IsConversation(Run(moves).base.db.records, c)
    requires IsFresh(Run(moves).base, g) && Run(moves).base.db.records[c].body.Obj?
    requires IsFresh(Appended(Run(moves).base, c, Run(moves).base.db.records[c].body.p, one, g), h)
    ensures var p := Run(moves).base.db.records[c].body.p;
      var b := Appended(Appended(Run(moves).base, c, p, one, g), c, p, two, h);
      MessageOf(b.db.records, c, g.id) && g.id in b.index && b.index[g.id].conversation == c
      && Reports(b.db.events, c, g.id, g.event) && g.id !in IdsAt(b.db.records, c)
      && h.id in IdsAt(b.db.records, c)
  {
    RunIsGood(moves, strict);
    LosesOne(Run(moves).base, Run(moves).now, strict, c, one, two, g, h);
  }

  lemma LosesOne(b: Base, now: int, strict: bool, c: Text, one: Post, two: Post, g: Fresh, h: Fresh)
    requires Good(b, now, strict) && IsConversation(b.db.records, c) && IsFresh(b, g)
    requires IsFresh(Appended(b, c, b.db.records[c].body.p, one, g), h)
    ensures var p := b.db.records[c].body.p;
      var b' := Appended(Appended(b, c, p, one, g), c, p, two, h);
      MessageOf(b'.db.records, c, g.id) && g.id in b'.index && b'.index[g.id].conversation == c
      && Reports(b'.db.events, c, g.id, g.event) && g.id !in IdsAt(b'.db.records, c) && h.id in IdsAt(b'.db.records, c)
  {
    var p := b.db.records[c].body.p;
    var b1 := Appended(b, c, p, one, g);
    assert ConversationOk(c, b.db.records[c]);
    FreshIsUnlisted(b, now, strict, c, g);
    LateMessage(b, c, p, one, g);
    LateRows(b, c, p, one, g);
    LateNews(b, c, p, one, g, g.id);
    AppendedRowsOk(b, c, one, g);
    LateMessage(b1, c, p, two, h);
    LateNewsStays(b1, c, p, two, h, g.id, g.event);
  }

  lemma AppendedRowsOk(b: Base, c: Text, post: Post, gen: Fresh)
    requires RowsOk(b.db.records) && IsConversation(b.db.records, c) && IsFresh(b, gen)
    ensures RowsOk(Appended(b, c, b.db.records[c].body.p, post, gen).db.records)
  {
    var rs := b.db.records;
    var message := FirstWrite(MessageItem(c, post, gen));
    AppendedGrows(b, c, post, gen);
    var row :| Growth(rs, c, gen.id, message, row)
               && Appended(b, c, rs[c].body.p, post, gen).db.records == Grown(rs, c, gen.id, message, row);
    GrownRows(rs, c, gen.id, message, row);
  }

  lemma LateNewsStays(b: Base, c: Text, p: Payload, post: Post, gen: Fresh, m: Text, e: Text)
    requires Reports(b.db.events, c, m, e) && IsFresh(b, gen)
    ensures Reports(Appended(b, c, p, post, gen).db.events, c, m, e)
  {
    ReportsStay(b.db.events, MessageEvent(c, post, gen), c, m, e);
  }

  lemma ReportsStay(es: map<Text, EventRow>, ev: Event, c: Text, m: Text, e: Text)
    requires Reports(es, c, m, e)
    ensures Reports(InsertOrIgnore(es, ev), c, m, e)
  {
  }

  lemma NextIsFresh(b: Base, b': Base, ev: Event, m: Text, gen: Fresh)
    requires IsFresh(b, gen) && gen.id != m && gen.event != ev.id && ev.row.key != Some(Key(MessagePosted, gen.id))
    requires b'.db.events == InsertOrIgnore(b.db.events, ev) && b'.db.records.Keys == b.db.records.Keys + {m}
    requires b'.index.Keys == b.index.Keys + {m}
    ensures IsFresh(b', gen)
  {
  }

  lemma AppendedNames(b: Base, c: Text, p: Payload, post: Post, gen: Fresh)
    requires IsConversation(b.db.records, c)
    ensures var b' := Appended(b, c, p, post, gen);
      b'.db.events == InsertOrIgnore(b.db.events, MessageEvent(c, post, gen))
      && b'.db.records.Keys == b.db.records.Keys + {gen.id} && b'.index.Keys == b.index.Keys + {gen.id}
  {
  }

  lemma FirstAppendIsFresh(b: Base, c: Text, one: Post)
    requires L.Tidy(b, c, 2) && b.db.records[c].body.Obj?
    ensures IsFresh(b, L.GenAt(2)) && IsFresh(Appended(b, c, b.db.records[c].body.p, one, L.GenAt(2)), L.GenAt(3))
  {
    var p, g := b.db.records[c].body.p, L.GenAt(2);
    L.TidyFreshFrom(b, c, 2, 2);
    L.TidyFreshFrom(b, c, 2, 3);
    AppendedNames(b, c, p, one, g);
    NextIsFresh(b, Appended(b, c, p, one, g), MessageEvent(c, one, g), g.id, L.GenAt(3));
  }

  /** It happens to a conversation just created. */
  lemma {:induction false} TwoAppendsToANewConversation(title: Option<string>, one: Post, two: Post) returns (moves: seq<Move>)
    ensures moves == [Created(title, L.GenAt(1))] && EngineRun(moves, true)
    ensures var b, c, g, h := Run(moves).base, L.GenAt(1).id, L.GenAt(2), L.GenAt(3);
      L.HasStatus(b, c, OpenStatus)
      && (var p := b.db.records[c].body.p;
          var b' := Appended(Appended(b, c, p, one, g), c, p, two, h);
          MessageOf(b'.db.records, c, g.id) && g.id !in IdsAt(b'.db.records, c) && h.id in IdsAt(b'.db.records, c))
  {
    moves := L.CreateFirst(title);
    FirstAppendIsFresh(Run(moves).base, L.GenAt(1).id, one);
    TwoAppendsLoseOne(moves, true, L.GenAt(1).id, one, two, L.GenAt(2), L.GenAt(3));
  }
}
