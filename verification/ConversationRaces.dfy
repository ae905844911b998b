/** What else two calls on one conversation can do to each other: one key on two messages, a message in a
    closed conversation, a message dropped. */
module ConversationRaces {
  import opened Ledger
  import opened StoreSpec
  import opened ConversationRules
  import opened ConversationRuns
  import opened ConversationGuarantees
  import opened ConversationReplay
  import opened ConversationLate
  import L = ConversationLog

  // ---- one key on two messages --------------------------------------------------------------------

  lemma LateKeyed(b: Base, c: Text, p: Payload, post: Post, gen: Fresh, d: Text, idem: Value, m: Text)
    requires IsConversation(b.db.records, c) && IsFresh(b, gen)
    ensures var rs, rs' := b.db.records, Appended(b, c, p, post, gen).db.records;
      Keyed(rs', d, idem, m) <==> if m == gen.id then d == c && idem == post.idem else Keyed(rs, d, idem, m)
  {
    LateRows(b, c, p, post, gen);
    MessageSays(c, post, gen);
    OneMoreKeyed(b.db.records, Appended(b, c, p, post, gen).db.records, c, gen.id, post.idem, d, idem, m);
  }

  lemma MessageSays(c: Text, post: Post, gen: Fresh)
    ensures var row := FirstWrite(MessageItem(c, post, gen));
      row.rtype == Lit(MessageRecord) && row.body.Obj?
      && Get(row.body.p, ConversationId) == Str(c) && Get(row.body.p, IdempotencyKey) == post.idem
  {
    MessageColumns(c, post, gen, NewMessage(c, post, gen));
    MessageSaying(c, post, gen, NewMessage(c, post, gen));
  }

  lemma OneMoreKeyed(rs: map<Text, Row>, rs': map<Text, Row>, c: Text, n: Text, own: Value, d: Text, idem: Value, m: Text)
    requires IsConversation(rs, c) && IsConversation(rs', c) && n != c && IsMessage(rs', n) && rs'[n].body.Obj?
    requires Get(rs'[n].body.p, ConversationId) == Str(c) && Get(rs'[n].body.p, IdempotencyKey) == own
    requires forall x :: x != n && x != c ==> (x in rs' <==> x in rs) && (x in rs ==> rs'[x] == rs[x])
    ensures Keyed(rs', d, idem, m) <==> if m == n then d == c && idem == own else Keyed(rs, d, idem, m)
  {
  }

  /** An append that comes late leaves each key to one message exactly when it has no key, or no message
      of the conversation has the key by then. */
  lemma LateAppendKeepsKeysExactlyWhen(b: Base, c: Text, p: Payload, post: Post, gen: Fresh)
    requires KeysOk(b.db.records) && IsConversation(b.db.records, c) && IsFresh(b, gen)
    ensures KeysOk(Appended(b, c, p, post, gen).db.records)
            <==> !Truthy(post.idem) || forall m :: !Keyed(b.db.records, c, post.idem, m)
  {
    var rs, rs' := b.db.records, Appended(b, c, p, post, gen).db.records;
    if Truthy(post.idem) && exists m :: Keyed(rs, c, post.idem, m) {
      var m :| Keyed(rs, c, post.idem, m);
      LateKeyed(b, c, p, post, gen, c, post.idem, m);
      LateKeyed(b, c, p, post, gen, c, post.idem, gen.id);
    } else {
      forall d, idem, x, y | Truthy(idem) && Keyed(rs', d, idem, x) && Keyed(rs', d, idem, y) ensures x == y {
        LateKeyed(b, c, p, post, gen, d, idem, x);
        LateKeyed(b, c, p, post, gen, d, idem, y);
      }
    }
  }

  lemma NoMessagesYet(b: Base, c: Text, idem: Value)
    requires L.Tidy(b, c, 2)
    ensures MayHit(b.db.records, c, idem, None)
  {
  }

  /** Two appends under one key that both search a new conversation before either writes: both messages
      are stored under the key. */
  lemma {:induction false} TwoKeyedAppendsLeaveTwo(title: Option<string>, one: Post, two: Post) returns (moves: seq<Move>)
    requires Truthy(one.idem) && two.idem == one.idem
    ensures moves == [Created(title, L.GenAt(1))] && EngineRun(moves, true)
    ensures var b, c, g, h := Run(moves).base, L.GenAt(1).id, L.GenAt(2), L.GenAt(3);
      L.HasStatus(b, c, OpenStatus) && MayHit(b.db.records, c, one.idem, None)
      && (var p := b.db.records[c].body.p;
          var rs := Appended(Appended(b, c, p, one, g), c, p, two, h).db.records;
          g.id != h.id && Keyed(rs, c, one.idem, g.id) && Keyed(rs, c, one.idem, h.id))
  {
    moves := L.CreateFirst(title);
    var b, c, g, h := Run(moves).base, L.GenAt(1).id, L.GenAt(2), L.GenAt(3);
    var p := b.db.records[c].body.p;
    NoMessagesYet(b, c, one.idem);
    FirstAppendIsFresh(b, c, one);
    LateRows(b, c, p, one, g);
    LateKeyed(b, c, p, one, g, c, one.idem, g.id);
    LateKeyed(Appended(b, c, p, one, g), c, p, two, h, c, one.idem, g.id);
    LateKeyed(Appended(b, c, p, one, g), c, p, two, h, c, one.idem, h.id);
  }

  // ---- a message in a closed conversation ------------------------------------------------------------

  lemma StatusAsRead(p: Payload, post: Post, gen: Fresh)
    ensures Get(WithMessage(p, post, gen), Status) == Get(p, Status)
  {
  }

  /** An append that read a conversation while it was open leaves its status alone exactly when it is
      still open; otherwise it opens it again. */
  lemma LateAppendReopensExactlyWhen(b: Base, c: Text, p: Payload, post: Post, gen: Fresh)
    requires RowsOk(b.db.records) && IsConversation(b.db.records, c) && IsFresh(b, gen) && Get(p, Status) == Literal(OpenStatus)
    ensures var b' := Appended(b, c, p, post, gen);
      L.HasStatus(b', c, OpenStatus)
      && (Get(b'.db.records[c].body.p, Status) == Get(b.db.records[c].body.p, Status) <==> !L.HasStatus(b, c, ClosedStatus))
  {
    assert ConversationOk(c, b.db.records[c]);
    LateRows(b, c, p, post, gen);
    StatusAsRead(p, post, gen);
  }

  /** A conversation is created and closed; an append that had read it before it was closed opens it. */
  lemma {:induction false} LateAppendReopens(title: Option<string>, post: Post) returns (one: seq<Move>, last: Move)
    ensures one == [Created(title, L.GenAt(1))] && last == Closed(L.GenAt(1).id, L.GenAt(2)) && EngineRun(one + [last], true)
    ensures var b, c := Run(one + [last]).base, L.GenAt(1).id;
      L.HasStatus(Run(one).base, c, OpenStatus) && L.HasStatus(b, c, ClosedStatus)
      && (var b' := Appended(b, c, Run(one).base.db.records[c].body.p, post, L.GenAt(3));
          L.HasStatus(b', c, OpenStatus) && MessageOf(b'.db.records, c, L.GenAt(3).id))
  {
    one := L.CreateFirst(title);
    last := L.CloseNext(one, 2);
    var b, c := Run(one + [last]).base, L.GenAt(1).id;
    L.TidyIsFresh(b, c, 3);
    var p := Run(one).base.db.records[c].body.p;
    LateAppendReopensExactlyWhen(b, c, p, post, L.GenAt(3));
    LateKeyed(b, c, p, post, L.GenAt(3), c, post.idem, L.GenAt(3).id);
  }

  // ---- a message dropped --------------------------------------------------------------------------

  lemma PostsFirst(b: Base, c: Text, post: Post, gen: Fresh)
    requires RowsOk(b.db.records) && L.HasStatus(b, c, OpenStatus) && post.role in ROLES && Strip(post.content) != ""
    ensures Append(b, c, post, gen, None).base == Appended(b, c, b.db.records[c].body.p, post, gen)
  {
    LookupFacts(b.db.records, c);
  }

  /** A conversation is created and a message posted; a close that had read it before the message
      drops the message from its list. */
  lemma {:induction false} LateCloseDropsMessage(title: Option<string>, post: Post) returns (one: seq<Move>, last: Move)
    requires post.role in ROLES && Strip(post.content) != ""
    ensures one == [Created(title, L.GenAt(1))] && last == Posted(L.GenAt(1).id, post, L.GenAt(2), None)
    ensures EngineRun(one + [last], true) && L.HasStatus(Run(one).base, L.GenAt(1).id, OpenStatus)
    ensures var b, c, m := Run(one + [last]).base, L.GenAt(1).id, L.GenAt(2).id;
      var b' := LateStatus(b, c, Run(one).base.db.records[c].body.p, ClosedStatus, ConversationClosed, L.GenAt(3));
      m in IdsAt(b.db.records, c) && MessageOf(b'.db.records, c, m) && m !in IdsAt(b'.db.records, c)
  {
    one := L.CreateFirst(title);
    var b0, c, g := Run(one).base, L.GenAt(1).id, L.GenAt(2);
    last := Posted(c, post, g, None);
    NoMessagesYet(b0, c, post.idem);
    L.TidyIsFresh(b0, c, 2);
    L.OneMove(one, last);
    PostsFirst(b0, c, post, g);
    var b, p := Run(one + [last]).base, b0.db.records[c].body.p;
    assert ConversationOk(c, b0.db.records[c]);
    LateMessage(b0, c, p, post, g);
    FreshIsUnlistedIn(one, c, g);
    LateRows(b0, c, p, post, g);
    LateStatusRows(b, c, p, ClosedStatus, ConversationClosed, L.GenAt(3));
    OneRowMessageOf(b.db.records, LateStatus(b, c, p, ClosedStatus, ConversationClosed, L.GenAt(3)).db.records, c, g.id);
  }

  lemma {:induction false} FreshIsUnlistedIn(moves: seq<Move>, c: Text, gen: Fresh)
    requires EngineRun(moves, true) && IsConversation(Run(moves).base.db.records, c) && IsFresh(Run(moves).base, gen)
    ensures gen.id !in IdsAt(Run(moves).base.db.records, c)
  {
    RunIsGood(moves, true);
    FreshIsUnlisted(Run(moves).base, Run(moves).now, true, c, gen);
  }
}
