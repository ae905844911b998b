/** What the event log tells of the status of a conversation, and when a change of status fails after
    it was saved. */
module ConversationLog {
  import opened Ledger
  import opened StoreSpec
  import opened ConversationRules
  import opened ConversationRuns
  import opened ConversationGuarantees

  predicate IsStatus(status: Word) {
    status == OpenStatus || status == ClosedStatus
  }

  /** The status is about to move. */
  predicate Moves(b: Base, c: Text, status: Word) {
    IsConversation(b.db.records, c) && b.db.records[c].body.Obj? && Get(b.db.records[c].body.p, Status) != Literal(status)
  }

  predicate HasStatus(b: Base, c: Text, status: Word) {
    IsConversation(b.db.records, c) && b.db.records[c].body.Obj? && Get(b.db.records[c].body.p, Status) == Literal(status)
  }

  /** The event of a change of status comes from the runtime and names the conversation. */
  predicate Ours(row: EventRow, kind: Word, c: Text) {
    row.etype == Lit(kind) && row.aggregate == c && row.aggregateType == Lit(ConversationAggregate) && row.actor == Lit(RuntimeActor)
  }

  /** Somebody else's event holds the fixed key of this kind of change. */
  ghost predicate HeldByOther(es: map<Text, EventRow>, kind: Word, c: Text) {
    exists e :: e in es && es[e].key == Some(Key(kind, c)) && !Ours(es[e], kind, c)
  }

  lemma KeyedPublishes(es: map<Text, EventRow>, ev: Event, kind: Word, c: Text)
    requires UniqueKeys(es) && ev.id !in es && ev.row.key == Some(Key(kind, c)) && Ours(ev.row, kind, c)
    ensures Publishes(es, ev) <==> !HeldByOther(es, kind, c)
  {
    var after := InsertOrIgnore(es, ev);
    if KeyTaken(es, Key(kind, c)) {
      var e :| e in es && es[e].key == Some(Key(kind, c));
      assert Answers(after, ev, e);
    } else {
      assert Answers(after, ev, ev.id) && SameProducer(after[ev.id], ev.row);
    }
  }

  lemma ChangeIs(b: Base, c: Text, status: Word, kind: Word, gen: Fresh, p: Payload)
    requires Lookup(b.db.records, c) == Returned(p) && Get(p, Status) != Literal(status)
    ensures var ev := ConversationEvent(kind, c, gen, Status, Literal(status));
      var q := p[Status := Literal(status)][UpdateTime := Str(Stamp(gen.at))];
      SetStatus(b, c, status, kind, gen) == Announce(b, ConversationItem(c, q), ev)
      && SetStatus(b, c, status, kind, gen).base.db.events == InsertOrIgnore(b.db.events, ev)
      && ev.id == gen.event && ev.row.key == Some(Key(kind, c)) && Ours(ev.row, kind, c)
  {
  }

  lemma ChangeSaves(b: Base, c: Text, status: Word, kind: Word, gen: Fresh)
    requires RowsOk(b.db.records) && Moves(b, c, status) && IsStatus(status)
    ensures var b' := SetStatus(b, c, status, kind, gen).base;
      RowsOk(b'.db.records) && HasStatus(b', c, status)
      && c in b'.db.records && b'.db.records == b.db.records[c := b'.db.records[c]] && b'.index == b.index
  {
    var rs := b.db.records;
    LookupFacts(rs, c);
    ChangeIs(b, c, status, kind, gen, rs[c].body.p);
    var q := rs[c].body.p[Status := Literal(status)][UpdateTime := Str(Stamp(gen.at))];
    StatusRenewal(rs, c, status, gen);
    SavedRow(rs, ConversationItem(c, q));
    var row := SaveRecord(Tables(rs, map[]), ConversationItem(c, q)).records[c];
    assert Renewal(rs, c, row);
    RenewedRows(rs, c, row);
    assert SetStatus(b, c, status, kind, gen).base.db.records == rs[c := row];
  }

  /** A change of status is saved in any case. It leaves no trace in the event log exactly when the
      fixed key of its kind is taken, and raises, after saving, exactly when somebody else took it. */
  lemma ChangeIsLoggedExactlyWhen(b: Base, c: Text, status: Word, kind: Word, gen: Fresh)
    requires RowsOk(b.db.records) && UniqueKeys(b.db.events) && Moves(b, c, status) && IsStatus(status)
    requires gen.event !in b.db.events
    ensures var result := SetStatus(b, c, status, kind, gen);
      HasStatus(result.base, c, status)
      && (result.base.db.events == b.db.events <==> KeyTaken(b.db.events, Key(kind, c)))
      && (result.outcome.Raised? <==> HeldByOther(b.db.events, kind, c))
  {
    LookupFacts(b.db.records, c);
    ChangeSaves(b, c, status, kind, gen);
    var p, ev := b.db.records[c].body.p, ConversationEvent(kind, c, gen, Status, Literal(status));
    ChangeIs(b, c, status, kind, gen, p);
    KeyedPublishes(b.db.events, ev, kind, c);
  }

  lemma ChangeGrowsLog(b: Base, c: Text, status: Word, kind: Word, gen: Fresh)
    requires RowsOk(b.db.records) && UniqueKeys(b.db.events) && Moves(b, c, status)
    ensures var es, es' := b.db.events, SetStatus(b, c, status, kind, gen).base.db.events;
      UniqueKeys(es') && forall e :: e in es ==> e in es' && es'[e] == es[e]
  {
    LookupFacts(b.db.records, c);
    ChangeIs(b, c, status, kind, gen, b.db.records[c].body.p);
    LogGrows(b.db.events, ConversationEvent(kind, c, gen, Status, Literal(status)));
  }

  lemma LogGrows(es: map<Text, EventRow>, ev: Event)
    requires UniqueKeys(es)
    ensures UniqueKeys(InsertOrIgnore(es, ev)) && forall e :: e in es ==> e in InsertOrIgnore(es, ev) && InsertOrIgnore(es, ev)[e] == es[e]
  {
  }

  /** Closing and reopening a conversation leaves the event log as it was exactly when the keys of both
      kinds were taken before. */
  lemma LogHidesStatusExactlyWhen(b: Base, c: Text, gen: Fresh, gen': Fresh)
    requires RowsOk(b.db.records) && UniqueKeys(b.db.events) && Moves(b, c, ClosedStatus)
    requires gen.event !in b.db.events && gen'.event !in Close(b, c, gen).base.db.events
    ensures var shut := Close(b, c, gen).base;
      var open := Reopen(shut, c, gen').base;
      HasStatus(shut, c, ClosedStatus) && HasStatus(open, c, OpenStatus)
      && (open.db.events == b.db.events <==>
          KeyTaken(b.db.events, Key(ConversationClosed, c)) && KeyTaken(b.db.events, Key(ConversationReopened, c)))
  {
    ChangeIsLoggedExactlyWhen(b, c, ClosedStatus, ConversationClosed, gen);
    ChangeSaves(b, c, ClosedStatus, ConversationClosed, gen);
    ChangeGrowsLog(b, c, ClosedStatus, ConversationClosed, gen);
    var shut := Close(b, c, gen).base;
    ChangeIsLoggedExactlyWhen(shut, c, OpenStatus, ConversationReopened, gen');
    ChangeGrowsLog(shut, c, OpenStatus, ConversationReopened, gen');
    LogsGrow(b.db.events, shut.db.events, Reopen(shut, c, gen').base.db.events);
  }

  lemma LogsGrow(es: map<Text, EventRow>, es': map<Text, EventRow>, es'': map<Text, EventRow>)
    requires forall e :: e in es ==> e in es' && es'[e] == es[e]
    requires forall e :: e in es' ==> e in es'' && es''[e] == es'[e]
    ensures es'' == es <==> es' == es && es'' == es'
  {
    if es'' == es {
      assert forall e :: e in es' ==> e in es;
      assert es' == es;
    }
  }

  // ---- a run ----------------------------------------------------------------------------------

  /** What the n-th call generates. */
  function GenAt(n: int): Fresh {
    Fresh(Key(ConversationRecord, Stamp(n)), Key(ConversationCreated, Stamp(n)), n, n)
  }

  /** Only the conversation, and events of its own about it, made before the n-th call. */
  ghost predicate Tidy(b: Base, c: Text, n: int) {
    RowsOk(b.db.records) && UniqueKeys(b.db.events) && b.db.records.Keys == {c} && IsConversation(b.db.records, c)
    && b.index == map[] && c == GenAt(1).id && n > 1
    && TidyLog(b.db.events, c, n)
  }

  predicate OwnEvent(row: EventRow, c: Text) {
    row.key.Some? && row.key.value.Key? && row.key.value.prefix != MessagePosted && row.key.value.of == c
    && Ours(row, row.key.value.prefix, c)
  }

  lemma TidyIsFresh(b: Base, c: Text, n: int)
    requires Tidy(b, c, n)
    ensures IsFresh(b, GenAt(n)) && forall kind :: !HeldByOther(b.db.events, kind, c)
  {
  }

  lemma TidyFreshFrom(b: Base, c: Text, n: int, k: int)
    requires Tidy(b, c, n) && k >= n
    ensures IsFresh(b, GenAt(k))
  {
  }

  ghost predicate TidyLog(es: map<Text, EventRow>, c: Text, n: int) {
    forall e :: e in es ==> OwnEvent(es[e], c) && exists k :: k < n && e == GenAt(k).event
  }

  lemma TidyAfter(b: Base, b': Base, c: Text, n: int)
    requires Tidy(b, c, n) && RowsOk(b'.db.records) && IsConversation(b'.db.records, c) && b'.index == b.index
    requires b'.db.records.Keys == b.db.records.Keys && UniqueKeys(b'.db.events) && TidyLog(b'.db.events, c, n + 1)
    ensures Tidy(b', c, n + 1)
  {
  }

  lemma ChangeIsLoggedTidily(b: Base, c: Text, n: int, status: Word, kind: Word, es': map<Text, EventRow>)
    requires Tidy(b, c, n) && Moves(b, c, status) && kind != MessagePosted
    requires es' == SetStatus(b, c, status, kind, GenAt(n)).base.db.events
    ensures UniqueKeys(es') && TidyLog(es', c, n + 1) && KeyTaken(es', Key(kind, c))
    ensures forall k :: KeyTaken(b.db.events, k) ==> KeyTaken(es', k)
  {
    LookupFacts(b.db.records, c);
    ChangeGrowsLog(b, c, status, kind, GenAt(n));
    ChangeIs(b, c, status, kind, GenAt(n), b.db.records[c].body.p);
    TidyIsFresh(b, c, n);
    LoggedKeys(b.db.events, ConversationEvent(kind, c, GenAt(n), Status, Literal(status)), c, n, kind);
  }

  lemma ChangeKeepsRows(b: Base, c: Text, status: Word, kind: Word, gen: Fresh)
    requires RowsOk(b.db.records) && Moves(b, c, status) && IsStatus(status)
    ensures var b' := SetStatus(b, c, status, kind, gen).base;
      RowsOk(b'.db.records) && IsConversation(b'.db.records, c) && b'.index == b.index
      && b'.db.records.Keys == b.db.records.Keys
  {
    ChangeSaves(b, c, status, kind, gen);
  }

  lemma StatusStaysTidy(b: Base, c: Text, n: int, status: Word, kind: Word)
    requires Tidy(b, c, n) && Moves(b, c, status) && IsStatus(status) && kind != MessagePosted
    ensures var b' := SetStatus(b, c, status, kind, GenAt(n)).base;
      Tidy(b', c, n + 1) && KeyTaken(b'.db.events, Key(kind, c))
      && forall k :: KeyTaken(b.db.events, k) ==> KeyTaken(b'.db.events, k)
  {
    var b' := SetStatus(b, c, status, kind, GenAt(n)).base;
    ChangeKeepsRows(b, c, status, kind, GenAt(n));
    ChangeIsLoggedTidily(b, c, n, status, kind, b'.db.events);
    TidyAfter(b, b', c, n);
  }

  lemma LoggedKeys(es: map<Text, EventRow>, ev: Event, c: Text, n: int, kind: Word)
    requires TidyLog(es, c, n)
    requires ev.id == GenAt(n).event && ev.row.key == Some(Key(kind, c)) && OwnEvent(ev.row, c) && ev.id !in es
    ensures var es' := InsertOrIgnore(es, ev);
      TidyLog(es', c, n + 1) && KeyTaken(es', Key(kind, c)) && forall k :: KeyTaken(es, k) ==> KeyTaken(es', k)
  {
    TidyLogGrows(es, ev, c, n);
    TakenStay(es, ev, Key(kind, c));
  }

  lemma TakenStay(es: map<Text, EventRow>, ev: Event, key: Text)
    requires ev.row.key == Some(key) && ev.id !in es
    ensures var es' := InsertOrIgnore(es, ev); KeyTaken(es', key) && forall k :: KeyTaken(es, k) ==> KeyTaken(es', k)
  {
    var es' := InsertOrIgnore(es, ev);
    if !KeyTaken(es, key) { assert es'[ev.id].key == Some(key); }
    forall k | KeyTaken(es, k) ensures KeyTaken(es', k) {
      var e :| e in es && es[e].key == Some(k);
      assert e in es' && es'[e].key == Some(k);
    }
  }

  lemma TidyLogGrows(es: map<Text, EventRow>, ev: Event, c: Text, n: int)
    requires TidyLog(es, c, n) && ev.id == GenAt(n).event && OwnEvent(ev.row, c)
    ensures TidyLog(InsertOrIgnore(es, ev), c, n + 1)
  {
    var es' := InsertOrIgnore(es, ev);
    forall e | e in es' ensures exists k :: k < n + 1 && e == GenAt(k).event {
      if e in es {
        var k :| k < n && e == GenAt(k).event;
        assert k < n + 1;
      } else {
        assert e == GenAt(n).event;
      }
    }
  }

  lemma FirstRow(title: Option<string>, gen: Fresh)
    ensures var row := FirstWrite(ConversationItem(gen.id, NewConversation(title, gen)));
      ConversationOk(gen.id, row) && row.rtype == Lit(ConversationRecord) && Get(row.body.p, Status) == Literal(OpenStatus)
  {
    NewRenewal(map[], title, gen);
  }

  lemma OneRowIsTidy(c: Text, row: Row, ev: Event)
    requires c == GenAt(1).id && ConversationOk(c, row) && row.rtype == Lit(ConversationRecord)
    requires OwnEvent(ev.row, c) && ev.id == GenAt(1).event
    ensures Tidy(Base(Tables(map[c := row], map[ev.id := ev.row]), map[]), c, 2)
  {
  }

  lemma CreateOnEmpty(title: Option<string>, gen: Fresh)
    ensures var p := NewConversation(title, gen);
      var row, ev := FirstWrite(ConversationItem(gen.id, p)), ConversationEvent(ConversationCreated, gen.id, gen, Title, p[Title]);
      Create(START.base, title, gen).base == Base(Tables(map[gen.id := row], map[ev.id := ev.row]), map[])
  {
  }

  lemma CreatedIsTidy(title: Option<string>)
    ensures var b := Create(START.base, title, GenAt(1)).base;
      Tidy(b, GenAt(1).id, 2) && HasStatus(b, GenAt(1).id, OpenStatus)
  {
    var gen, p := GenAt(1), NewConversation(title, GenAt(1));
    var row, ev := FirstWrite(ConversationItem(gen.id, p)), ConversationEvent(ConversationCreated, gen.id, gen, Title, p[Title]);
    FirstRow(title, gen);
    OneRowIsTidy(gen.id, row, ev);
    CreateOnEmpty(title, gen);
  }

  lemma {:induction false} OneMove(moves: seq<Move>, m: Move)
    requires EngineRun(moves, true) && Allowed(Run(moves), m, true)
    ensures EngineRun(moves + [m], true) && Run(moves + [m]) == Do(Run(moves), m)
  {
    assert (moves + [m])[..|moves + [m]| - 1] == moves;
  }

  ghost predicate TidyRun(moves: seq<Move>, n: int) {
    EngineRun(moves, true) && Tidy(Run(moves).base, GenAt(1).id, n) && Run(moves).now == n - 1
  }

  lemma {:induction false} CreateFirst(title: Option<string>) returns (moves: seq<Move>)
    ensures moves == [Created(title, GenAt(1))] && TidyRun(moves, 2) && HasStatus(Run(moves).base, GenAt(1).id, OpenStatus)
  {
    OneMove([], Created(title, GenAt(1)));
    moves := [Created(title, GenAt(1))];
    assert [] + moves == moves;
    CreatedIsTidy(title);
  }

  lemma {:induction false} CloseNext(moves: seq<Move>, n: int) returns (m: Move)
    requires TidyRun(moves, n) && HasStatus(Run(moves).base, GenAt(1).id, OpenStatus)
    ensures m == Closed(GenAt(1).id, GenAt(n)) && TidyRun(moves + [m], n + 1)
    ensures var b, b' := Run(moves).base, Run(moves + [m]).base;
      HasStatus(b', GenAt(1).id, ClosedStatus) && KeyTaken(b'.db.events, Key(ConversationClosed, GenAt(1).id))
      && (b'.db.events == b.db.events <==> KeyTaken(b.db.events, Key(ConversationClosed, GenAt(1).id)))
      && After(b, m).outcome.Returned?
  {
    m := Closed(GenAt(1).id, GenAt(n));
    TidyIsFresh(Run(moves).base, GenAt(1).id, n);
    OneMove(moves, m);
    ChangeIsLoggedExactlyWhen(Run(moves).base, GenAt(1).id, ClosedStatus, ConversationClosed, GenAt(n));
    StatusStaysTidy(Run(moves).base, GenAt(1).id, n, ClosedStatus, ConversationClosed);
  }

  lemma {:induction false} ReopenNext(moves: seq<Move>, n: int) returns (m: Move)
    requires TidyRun(moves, n) && HasStatus(Run(moves).base, GenAt(1).id, ClosedStatus)
    ensures m == Reopened(GenAt(1).id, GenAt(n)) && TidyRun(moves + [m], n + 1)
    ensures var b, b' := Run(moves).base, Run(moves + [m]).base;
      HasStatus(b', GenAt(1).id, OpenStatus) && forall k :: KeyTaken(b.db.events, k) ==> KeyTaken(b'.db.events, k)
  {
    m := Reopened(GenAt(1).id, GenAt(n));
    TidyIsFresh(Run(moves).base, GenAt(1).id, n);
    OneMove(moves, m);
    ChangeIsLoggedExactlyWhen(Run(moves).base, GenAt(1).id, OpenStatus, ConversationReopened, GenAt(n));
    StatusStaysTidy(Run(moves).base, GenAt(1).id, n, OpenStatus, ConversationReopened);
  }

  /** Created, closed, reopened, closed again: the last call closes the conversation and returns, and the
      event log is what it was while the conversation stood open. */
  lemma {:induction false} SecondCloseLeavesNoTrace(title: Option<string>) returns (open: seq<Move>, last: Move)
    ensures |open| == 3 && open[0].Created? && open[1].Closed? && open[2].Reopened? && last.Closed?
    ensures EngineRun(open + [last], true) && After(Run(open).base, last).outcome.Returned?
    ensures HasStatus(Run(open).base, last.c, OpenStatus) && HasStatus(Run(open + [last]).base, last.c, ClosedStatus)
    ensures Run(open + [last]).base.db.events == Run(open).base.db.events
  {
    var one := CreateFirst(title);
    var first := CloseNext(one, 2);
    var second := ReopenNext(one + [first], 3);
    open := one + [first] + [second];
    last := CloseNext(open, 4);
  }

  // ---- a key that somebody else took --------------------------------------------------------------

  lemma CreatedTakesOneKey(title: Option<string>, kind: Word)
    requires kind != ConversationCreated
    ensures !KeyTaken(Create(START.base, title, GenAt(1)).base.db.events, Key(kind, GenAt(1).id))
  {
    CreateOnEmpty(title, GenAt(1));
  }

  lemma ForeignIsElsewhere(b: Base, c: Text, row: EventRow)
    requires Tidy(b, c, 2) && row.key == Some(Key(ConversationClosed, c)) && !KeyTaken(b.db.events, Key(ConversationClosed, c))
    requires !Ours(row, ConversationClosed, c) && !MessageNews(row)
    ensures var db := b.db.(events := b.db.events[GenAt(2).event := row]);
      Leaves(b.db, db) && IsFresh(b.(db := db), GenAt(3)) && UniqueKeys(db.events) && HeldByOther(db.events, ConversationClosed, c)
  {
    TidyFreshFrom(b, c, 2, 2);
    TidyFreshFrom(b, c, 2, 3);
    OneEventElsewhere(b.db, GenAt(2).event, row);
    StillFresh(b, GenAt(2).event, row, GenAt(3));
    NowHeld(b.db.events[GenAt(2).event := row], GenAt(2).event, c);
  }

  lemma NowHeld(es: map<Text, EventRow>, e: Text, c: Text)
    requires e in es && es[e].key == Some(Key(ConversationClosed, c)) && !Ours(es[e], ConversationClosed, c)
    ensures HeldByOther(es, ConversationClosed, c)
  {
  }

  lemma OneEventElsewhere(db: Tables, e: Text, row: EventRow)
    requires UniqueKeys(db.events) && e !in db.events && row.key.Some? && !KeyTaken(db.events, row.key.value) && !MessageNews(row)
    ensures var db' := db.(events := db.events[e := row]); Leaves(db, db') && UniqueKeys(db'.events)
  {
  }

  lemma StillFresh(b: Base, e: Text, row: EventRow, gen: Fresh)
    requires IsFresh(b, gen) && e != gen.event && row.key != Some(Key(MessagePosted, gen.id))
    ensures IsFresh(b.(db := b.db.(events := b.db.events[e := row])), gen)
  {
  }

  /** Somebody else records an event under the key of a conversation's closing: closing it raises, and
      leaves it closed. */
  lemma {:induction false} ClosingRaises(title: Option<string>, row: EventRow) returns (moves: seq<Move>, last: Move)
    requires row.key == Some(Key(ConversationClosed, GenAt(1).id)) && !Ours(row, ConversationClosed, GenAt(1).id)
    requires !MessageNews(row)
    ensures |moves| == 2 && moves[0].Created? && moves[1].Elsewhere? && last == Closed(GenAt(1).id, GenAt(3))
    ensures moves[1].db == Run([moves[0]]).base.db.(events := Run([moves[0]]).base.db.events[GenAt(2).event := row])
    ensures EngineRun(moves + [last], true) && HasStatus(Run(moves).base, GenAt(1).id, OpenStatus)
    ensures After(Run(moves).base, last).outcome.Raised? && HasStatus(Run(moves + [last]).base, GenAt(1).id, ClosedStatus)
  {
    var one := CreateFirst(title);
    var b := Run(one).base;
    CreatedTakesOneKey(title, ConversationClosed);
    CreatedAlone(title, one);
    ForeignIsElsewhere(b, GenAt(1).id, row);
    var other := Elsewhere(b.db.(events := b.db.events[GenAt(2).event := row]));
    OneMove(one, other);
    moves := one + [other];
    last := Closed(GenAt(1).id, GenAt(3));
    OneMove(moves, last);
    ChangeIsLoggedExactlyWhen(Run(moves).base, GenAt(1).id, ClosedStatus, ConversationClosed, GenAt(3));
  }

  lemma {:induction false} CreatedAlone(title: Option<string>, one: seq<Move>)
    requires one == [Created(title, GenAt(1))]
    ensures Run(one).base == Create(START.base, title, GenAt(1)).base && [one[0]] == one
  {
    assert one[..0] == [];
  }
}
