/** The four projections of a conversation agree in every run, and a repeated append answers as the
    first one did. */
module ConversationReplay {
  import opened Ledger
  import opened StoreSpec
  import opened Lists
  import opened ConversationRules
  import opened ConversationRuns
  import opened ConversationGuarantees

  // ---- the projections ------------------------------------------------------------------------

  /** The id is listed, is stored, is indexed and is announced, or is none of these. */
  ghost predicate AllAgree(b: Base, c: Text, m: Text) {
    var rs, es, listed := b.db.records, b.db.events, m in IdsAt(b.db.records, c);
    (listed <==> MessageOf(rs, c, m))
    && (listed <==> m in b.index && b.index[m].conversation == c)
    && (listed <==> exists e :: Reports(es, c, m, e))
  }

  lemma ReportIsNews(rs: map<Text, Row>, es: map<Text, EventRow>, c: Text, m: Text, e: Text)
    requires NewsOk(rs, es) && Reports(es, c, m, e)
    ensures News(rs, es, c, m, e)
  {
    var d, x :| News(rs, es, d, x, e);
    assert Key(MessagePosted, x) == Key(MessagePosted, m);
  }

  lemma GoodAgree(b: Base, now: int, strict: bool, c: Text, m: Text)
    requires Good(b, now, strict) && IsConversation(b.db.records, c)
    ensures AllAgree(b, c, m)
  {
    var rs, es := b.db.records, b.db.events;
    assert ListOk(rs, c, strict);
    if m in b.index || IsMessage(rs, m) {
      assert Indexed(rs, b.index, m) && MessageOk(m, rs[m]);
    }
    if MessageOf(rs, c, m) {
      var e :| News(rs, es, c, m, e);
      assert Reports(es, c, m, e);
    } else if exists e :: Reports(es, c, m, e) {
      var e :| Reports(es, c, m, e);
      ReportIsNews(rs, es, c, m, e);
    }
  }

  /** In every run, the list of a conversation, its stored messages, its index rows and its message
      events name the same messages. */
  lemma {:induction false} ProjectionsAgree(moves: seq<Move>, strict: bool, c: Text, m: Text)
    requires EngineRun(moves, strict) && IsConversation(Run(moves).base.db.records, c)
    ensures AllAgree(Run(moves).base, c, m)
  {
    RunIsGood(moves, strict);
    GoodAgree(Run(moves).base, Run(moves).now, strict, c, m);
  }

  lemma GoodInOneOrder(b: Base, now: int, strict: bool, c: Text, i: nat, j: nat, e: Text, f: Text)
    requires Good(b, now, strict) && IsConversation(b.db.records, c) && i < j < |IdsAt(b.db.records, c)|
    requires Reports(b.db.events, c, IdsAt(b.db.records, c)[i], e) && Reports(b.db.events, c, IdsAt(b.db.records, c)[j], f)
    ensures var ids := IdsAt(b.db.records, c);
      ids[i] != ids[j] && Later(At(b.db.records, ids[i]), At(b.db.records, ids[j]), strict)
      && b.db.events[e].stamp.Stamp? && b.db.events[f].stamp.Stamp?
      && Later(b.db.events[e].stamp.at, b.db.events[f].stamp.at, strict)
  {
    var rs, es, ids := b.db.records, b.db.events, IdsAt(b.db.records, c);
    assert ListOk(rs, c, strict);
    ReportIsNews(rs, es, c, ids[i], e);
    ReportIsNews(rs, es, c, ids[j], f);
  }

  /** A message listed before another is stored and announced no later, and strictly earlier when
      the clock moves between calls; no message is listed twice. */
  lemma {:induction false} InOneOrder(moves: seq<Move>, strict: bool, c: Text, i: nat, j: nat, e: Text, f: Text)
    requires EngineRun(moves, strict)
    requires var db := Run(moves).base.db;
      IsConversation(db.records, c) && i < j < |IdsAt(db.records, c)|
      && Reports(db.events, c, IdsAt(db.records, c)[i], e) && Reports(db.events, c, IdsAt(db.records, c)[j], f)
    ensures var db := Run(moves).base.db;
      var ids := IdsAt(db.records, c);
      ids[i] != ids[j] && Later(At(db.records, ids[i]), At(db.records, ids[j]), strict)
      && db.events[e].stamp.Stamp? && db.events[f].stamp.Stamp?
      && Later(db.events[e].stamp.at, db.events[f].stamp.at, strict)
  {
    RunIsGood(moves, strict);
    GoodInOneOrder(Run(moves).base, Run(moves).now, strict, c, i, j, e, f);
  }

  /** When the clock moves between calls, the messages of a conversation, oldest first, are its list. */
  lemma {:induction false} MessagesAreTheList(moves: seq<Move>, c: Text, order: seq<Text>)
    requires EngineRun(moves, true) && IsConversation(Run(moves).base.db.records, c)
    requires Listing(Run(moves).base.db.records, Lit(MessageRecord), Null, order)
    ensures Filter(order, Belongs(Run(moves).base.db.records, c)) == IdsAt(Run(moves).base.db.records, c)
  {
    RunIsGood(moves, true);
    GoodListing(Run(moves).base, Run(moves).now, c, order);
  }

  lemma GoodListing(b: Base, now: int, c: Text, order: seq<Text>)
    requires Good(b, now, true) && IsConversation(b.db.records, c)
    requires Listing(b.db.records, Lit(MessageRecord), Null, order)
    ensures Filter(order, Belongs(b.db.records, c)) == IdsAt(b.db.records, c)
  {
    var rs := b.db.records;
    var ids, at := IdsAt(rs, c), m => At(rs, m);
    assert ListOk(rs, c, true);
    forall i, j | 0 <= i < j < |order| && MessageOf(rs, c, order[i]) && MessageOf(rs, c, order[j])
      ensures At(rs, order[i]) < At(rs, order[j])
    {
      ApartInTime(rs, c, order[i], order[j]);
      assert NotAfter(rs, order[i], order[j]);
      assert MessageOk(order[i], rs[order[i]]) && MessageOk(order[j], rs[order[j]]);
    }
    FilterAscends(order, Belongs(rs, c), at);
    assert Ascending(ids, at);
    forall m ensures m in Filter(order, Belongs(rs, c)) <==> m in ids {
      assert MessageOf(rs, c, m) ==> ListedAt(rs, Lit(MessageRecord), Null, m);
    }
    AscendingIsUnique(Filter(order, Belongs(rs, c)), ids, at);
  }

  lemma ApartInTime(rs: map<Text, Row>, c: Text, a: Text, b: Text)
    requires ListOk(rs, c, true) && MessageOf(rs, c, a) && MessageOf(rs, c, b) && a != b
    ensures At(rs, a) != At(rs, b)
  {
    var ids := IdsAt(rs, c);
    assert a in ids && b in ids;
    var i :| 0 <= i < |ids| && ids[i] == a;
    var j :| 0 <= j < |ids| && ids[j] == b;
    if i < j { assert Later(At(rs, ids[i]), At(rs, ids[j]), true); } else { assert Later(At(rs, ids[j]), At(rs, ids[i]), true); }
  }

  /** A restart finds nothing to add to the index. */
  lemma {:induction false} BackfillIsIdle(moves: seq<Move>, strict: bool)
    requires EngineRun(moves, strict)
    ensures var b := Run(moves).base; Backfilled(b.db.records, b.index) == b.index
  {
    RunIsGood(moves, strict);
    NothingToBackfill(Run(moves).base.db.records, Run(moves).base.index);
  }

  lemma NothingToBackfill(rs: map<Text, Row>, index: map<Text, IndexRow>)
    requires IndexOk(rs, index)
    ensures Backfilled(rs, index) == index
  {
    forall m | IsMessage(rs, m) ensures m in index {
      assert Indexed(rs, index, m);
    }
  }

  // ---- replay ---------------------------------------------------------------------------------

  predicate IsOpen(rs: map<Text, Row>, c: Text) {
    IsConversation(rs, c) && rs[c].body.Obj? && Get(rs[c].body.p, Status) != Literal(ClosedStatus)
  }

  predicate WellPosed(post: Post) {
    post.role in ROLES && Strip(post.content) != "" && Truthy(post.idem)
  }

  /** Under a key, an append to an open conversation adds a message exactly when no message of this
      conversation has the key; otherwise it changes nothing and answers with that message, or
      refuses when the message says something else. */
  lemma {:induction false} AppendAnswers(moves: seq<Move>, strict: bool, c: Text, post: Post, gen: Fresh, hit: Option<Text>, m: Text)
    requires EngineRun(moves, strict) && Allowed(Run(moves), Posted(c, post, gen, hit), strict)
    requires IsOpen(Run(moves).base.db.records, c) && WellPosed(post)
    ensures var b := Run(moves).base;
      var result := Append(b, c, post, gen, hit);
      (result.base != b <==> forall x :: !Keyed(b.db.records, c, post.idem, x))
      && (result.base != b ==> MessageOf(result.base.db.records, c, gen.id) && result.outcome == Returned(NewMessage(c, post, gen)))
      && (Keyed(b.db.records, c, post.idem, m) ==>
          result == Result(b, if SameSaying(b.db.records[m].body.p, post) then Returned(b.db.records[m].body.p)
                              else Raised(KeyConflict)))
  {
    RunIsGood(moves, strict);
    StateAnswers(Run(moves).base, c, post, gen, hit, m);
  }

  lemma StateAnswers(b: Base, c: Text, post: Post, gen: Fresh, hit: Option<Text>, m: Text)
    requires RowsOk(b.db.records) && KeysOk(b.db.records) && IsFresh(b, gen) && MayHit(b.db.records, c, post.idem, hit)
    requires IsOpen(b.db.records, c) && WellPosed(post)
    ensures var result := Append(b, c, post, gen, hit);
      (result.base != b <==> forall x :: !Keyed(b.db.records, c, post.idem, x))
      && (result.base != b ==> MessageOf(result.base.db.records, c, gen.id) && result.outcome == Returned(NewMessage(c, post, gen)))
      && (Keyed(b.db.records, c, post.idem, m) ==>
          result == Result(b, if SameSaying(b.db.records[m].body.p, post) then Returned(b.db.records[m].body.p)
                              else Raised(KeyConflict)))
  {
    LookupFacts(b.db.records, c);
    if hit.Some? {
      assert Keyed(b.db.records, c, post.idem, hit.value);
    } else {
      NewMessageIsThere(b, c, post, gen);
    }
  }

  lemma NewMessageIsThere(b: Base, c: Text, post: Post, gen: Fresh)
    requires RowsOk(b.db.records) && IsConversation(b.db.records, c) && IsFresh(b, gen)
    ensures var rs' := Appended(b, c, b.db.records[c].body.p, post, gen).db.records;
      Keyed(rs', c, post.idem, gen.id) && rs'[gen.id].body.p == NewMessage(c, post, gen)
  {
    MessageColumns(c, post, gen, NewMessage(c, post, gen));
    MessageSaying(c, post, gen, NewMessage(c, post, gen));
    NewMessageRow(b, c, b.db.records[c].body.p, post, gen);
  }

  lemma NewMessageRow(b: Base, c: Text, p: Payload, post: Post, gen: Fresh)
    requires c in b.db.records && IsFresh(b, gen)
    ensures var rs' := Appended(b, c, p, post, gen).db.records;
      gen.id in rs' && rs'[gen.id] == FirstWrite(MessageItem(c, post, gen))
  {
  }

  /** No message is ever lost or changed. */
  ghost predicate MessagesStay(rs: map<Text, Row>, rs': map<Text, Row>) {
    forall m :: IsMessage(rs, m) ==> IsMessage(rs', m) && rs'[m] == rs[m]
  }

  lemma AppendKeepsMessages(b: Base, c: Text, post: Post, gen: Fresh, hit: Option<Text>)
    requires RowsOk(b.db.records) && IsFresh(b, gen) && MayHit(b.db.records, c, post.idem, hit)
    ensures MessagesStay(b.db.records, Append(b, c, post, gen, hit).base.db.records)
  {
    AppendCases(b, c, post, gen, hit);
    if Append(b, c, post, gen, hit).base != b {
      AppendedKeepsMessages(b, c, post, gen);
    }
  }

  lemma AppendedKeepsMessages(b: Base, c: Text, post: Post, gen: Fresh)
    requires RowsOk(b.db.records) && IsConversation(b.db.records, c) && IsFresh(b, gen)
    ensures MessagesStay(b.db.records, Appended(b, c, b.db.records[c].body.p, post, gen).db.records)
  {
    var rs := b.db.records;
    var message := FirstWrite(MessageItem(c, post, gen));
    AppendedGrows(b, c, post, gen);
    var row :| Growth(rs, c, gen.id, message, row)
               && Appended(b, c, rs[c].body.p, post, gen).db.records == Grown(rs, c, gen.id, message, row);
    GrownKeepsMessages(rs, c, gen.id, message, row);
  }

  lemma GrownKeepsMessages(rs: map<Text, Row>, c: Text, m: Text, message: Row, row: Row)
    requires m !in rs && IsConversation(rs, c)
    ensures MessagesStay(rs, Grown(rs, c, m, message, row))
  {
  }

  lemma AnnounceKeepsMessages(b: Base, it: Item, ev: Event)
    requires it.rtype == Lit(ConversationRecord) && !IsMessage(b.db.records, it.id)
    ensures MessagesStay(b.db.records, Announce(b, it, ev).base.db.records)
  {
  }

  lemma StatusKeepsMessages(b: Base, c: Text, status: Word, kind: Word, gen: Fresh)
    requires RowsOk(b.db.records)
    ensures MessagesStay(b.db.records, SetStatus(b, c, status, kind, gen).base.db.records)
  {
    StatusCases(b, c, status, kind, gen);
    var b' := SetStatus(b, c, status, kind, gen).base;
    if b' != b {
      var q := b.db.records[c].body.p[Status := Literal(status)][UpdateTime := Str(Stamp(gen.at))];
      AnnounceKeepsMessages(b, ConversationItem(c, q), ConversationEvent(kind, c, gen, Status, Literal(status)));
    }
  }

  lemma MoveKeepsMessages(s: Sys, m: Move, strict: bool)
    requires RowsOk(s.base.db.records) && Allowed(s, m, strict)
    ensures MessagesStay(s.base.db.records, Do(s, m).base.db.records)
  {
    match m
    case Created(title, gen) =>
      var p := NewConversation(title, gen);
      AnnounceKeepsMessages(s.base, ConversationItem(gen.id, p),
                            ConversationEvent(ConversationCreated, gen.id, gen, Title, p[Title]));
    case Posted(c, post, gen, hit) => AppendKeepsMessages(s.base, c, post, gen, hit);
    case Closed(c, gen) => StatusKeepsMessages(s.base, c, ClosedStatus, ConversationClosed, gen);
    case Reopened(c, gen) => StatusKeepsMessages(s.base, c, OpenStatus, ConversationReopened, gen);
    case Elsewhere(db) => LeftRowsOk(s.base.db, db);
  }

  lemma {:induction false} RunKeepsMessages(moves: seq<Move>, n: nat, strict: bool)
    requires EngineRun(moves, strict) && n <= |moves|
    ensures EngineRun(moves[..n], strict) && MessagesStay(Run(moves[..n]).base.db.records, Run(moves).base.db.records)
  {
    if n == |moves| {
      assert moves[..n] == moves;
    } else {
      var most := moves[..|moves| - 1];
      assert most[..n] == moves[..n];
      RunKeepsMessages(most, n, strict);
      RunIsGood(most, strict);
      MoveKeepsMessages(Run(most), moves[|moves| - 1], strict);
    }
  }

  /** A successful append under a key leaves a message with that key and the returned payload. */
  lemma ReturnedIsStored(b: Base, c: Text, post: Post, gen: Fresh, hit: Option<Text>) returns (m: Text)
    requires RowsOk(b.db.records) && IsFresh(b, gen) && MayHit(b.db.records, c, post.idem, hit) && Truthy(post.idem)
    requires Append(b, c, post, gen, hit).outcome.Returned?
    ensures var result := Append(b, c, post, gen, hit);
      Keyed(result.base.db.records, c, post.idem, m) && result.base.db.records[m].body.p == result.outcome.p
      && SameSaying(result.outcome.p, post)
  {
    LookupFacts(b.db.records, c);
    if hit.Some? {
      m := hit.value;
    } else {
      m := gen.id;
      NewMessageIsThere(b, c, post, gen);
      MessageSaying(c, post, gen, NewMessage(c, post, gen));
    }
  }

  /** Once an append under a key has returned a message, the same append returns that message and
      changes nothing, after any further calls, as long as the conversation is open; trace and
      metadata of the repeated request do not matter. */
  lemma {:induction false} ReplayReturnsTheMessage(moves: seq<Move>, n: nat, strict: bool, again: Post, gen: Fresh, hit: Option<Text>)
    requires EngineRun(moves, strict) && n < |moves| && moves[n].Posted? && Truthy(moves[n].post.idem)
    requires After(Run(moves[..n]).base, moves[n]).outcome.Returned?
    requires var m := moves[n];
      again.role == m.post.role && again.content == m.post.content && again.idem == m.post.idem
      && IsOpen(Run(moves).base.db.records, m.c) && Allowed(Run(moves), Posted(m.c, again, gen, hit), strict)
    ensures After(Run(moves).base, Posted(moves[n].c, again, gen, hit))
            == Result(Run(moves).base, After(Run(moves[..n]).base, moves[n]).outcome)
  {
    var m, first := moves[n], Run(moves[..n]);
    RunKeepsMessages(moves, n, strict);
    RunKeepsMessages(moves, n + 1, strict);
    RunIsGood(moves[..n], strict);
    assert moves[..n + 1][..n] == moves[..n] && moves[..n + 1][n] == m;
    var x := ReturnedIsStored(first.base, m.c, m.post, m.gen, m.hit);
    RunIsGood(moves, strict);
    StateAnswers(Run(moves).base, m.c, again, gen, hit, x);
  }
}
