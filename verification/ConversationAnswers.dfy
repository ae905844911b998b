/** What the conversation calls answer and leave behind: texts, rows, index and events. */
module ConversationAnswers {
  import opened Ledger
  import opened StoreSpec
  import opened StoreAnswers
  import opened ConversationRules
  import opened ConversationRuns

  // ---- texts -----------------------------------------------------------------------------------------------

  predicate IsSpace(ch: char) { ch == ' ' || ch == '\t' || ch == '\n' || ch == '\r' }

  predicate AllSpace(s: string, from: nat, to: nat) {
    forall i :: from <= i < to && i < |s| ==> IsSpace(s[i])
  }

  /** `t` is in `s` at `a`, and all the rest of `s` is white space. */
  predicate TrimsAt(s: string, t: string, a: nat) {
    a + |t| <= |s| && t == s[a..a + |t|] && AllSpace(s, 0, a) && AllSpace(s, a + |t|, |s|)
  }

  /** `t` is `s` without the white space around it. */
  ghost predicate Trimmed(s: string, t: string) {
    (t != "" ==> !IsSpace(t[0]) && !IsSpace(t[|t| - 1])) && exists a: nat :: TrimsAt(s, t, a)
  }

  /** `t` is `s`, or its first hundred and twenty characters if there are more. */
  predicate CutTo120(s: string, t: string) {
    t <= s && |t| == if |s| < 120 then |s| else 120
  }

  ghost predicate TextIs(v: Value, s: string) {
    v.Str? && v.t.User? && Trimmed(s, v.t.s)
  }

  /** The stored title: trimmed, and cut. */
  ghost predicate TitleIs(v: Value, s: string) {
    v.Str? && v.t.User? && exists t :: Trimmed(s, t) && CutTo120(t, v.t.s)
  }

  lemma {:induction false} LeftDropped(s: string) returns (a: nat)
    ensures a <= |s| && DropLeft(s) == s[a..] && AllSpace(s, 0, a) && (a < |s| ==> !IsSpace(s[a]))
  {
    a := 0;
    if s != "" && Whitespace(s[..1]) {
      assert IsSpace(s[..1][0]);
      var b := LeftDropped(s[1..]);
      a := b + 1;
      assert s[1..][b..] == s[a..];
      forall i | 0 <= i < a ensures IsSpace(s[i]) { assert i > 0 ==> s[i] == s[1..][i - 1]; }
    } else if s != "" {
      assert s[..1] == [s[0]];
    }
  }

  lemma {:induction false} RightDropped(s: string) returns (n: nat)
    ensures n <= |s| && DropRight(s) == s[..n] && AllSpace(s, n, |s|) && (n > 0 ==> !IsSpace(s[n - 1]))
  {
    n := |s|;
    if s != "" && Whitespace(s[|s| - 1..]) {
      assert IsSpace(s[|s| - 1..][0]);
      n := RightDropped(s[..|s| - 1]);
      assert s[..|s| - 1][..n] == s[..n];
    } else if s != "" {
      assert s[|s| - 1..] == [s[|s| - 1]];
    }
  }

  /** Stripping leaves exactly the trimmed text, and there is one such text. */
  lemma StripTrims(s: string)
    ensures Trimmed(s, Strip(s))
  {
    var a := LeftDropped(s);
    var n := RightDropped(s[a..]);
    assert Strip(s) == s[a..a + n];
    forall i | a + n <= i < |s| ensures IsSpace(s[i]) { assert s[i] == s[a..][i - a]; }
    assert TrimsAt(s, Strip(s), a);
  }

  lemma TrimmedOnce(s: string, t: string, u: string)
    requires Trimmed(s, t) && Trimmed(s, u)
    ensures t == u
  {
    var a: nat :| TrimsAt(s, t, a);
    var b: nat :| TrimsAt(s, u, b);
    if t != "" {
      TextInside(s, t, a, u, b);
    }
    if u != "" {
      TextInside(s, u, b, t, a);
    }
  }

  /** A trimmed text lies within any other. */
  lemma TextInside(s: string, t: string, a: nat, u: string, b: nat)
    requires TrimsAt(s, t, a) && TrimsAt(s, u, b) && t != "" && !IsSpace(t[0]) && !IsSpace(t[|t| - 1])
    ensures b <= a && a + |t| <= b + |u|
  {
    assert s[a] == t[0] && s[a + |t| - 1] == t[|t| - 1];
  }

  lemma HeadCuts(s: string)
    ensures CutTo120(s, Head(s))
  {
  }

  lemma StripIsEmpty(s: string)
    ensures Strip(s) == "" <==> AllSpace(s, 0, |s|)
  {
    StripTrims(s);
    if AllSpace(s, 0, |s|) {
      assert TrimsAt(s, "", 0);
      TrimmedOnce(s, Strip(s), "");
    } else {
      var a: nat :| TrimsAt(s, Strip(s), a);
    }
  }

  // ---- what stands ------------------------------------------------------------------------------------------

  /** A conversation row that somebody can find under its id. */
  predicate Findable(rs: map<Text, Row>, c: Text, id: Text) {
    IntactRow(rs, id) && rs[id].rtype == Lit(ConversationRecord) && Get(rs[id].body.p, ConversationId) == Str(c)
  }

  /** `get` returns the record: it names itself, and an intact conversation record of that id exists. */
  ghost predicate Opens(rs: map<Text, Row>, c: Text) {
    c in rs && rs[c].body.Obj? && Get(rs[c].body.p, ConversationId) == Str(c) && exists id :: Findable(rs, c, id)
  }

  /** Why a conversation is not returned. */
  ghost predicate NotOpened(rs: map<Text, Row>, c: Text, outcome: Outcome) {
    if c !in rs then outcome == Raised(ConversationNotFound)
    else if rs[c].body.Malformed? || (rs[c].body.NonObject? && Truthy(rs[c].body.v)) then outcome == Raised(Unreadable)
    else if rs[c].body.NonObject? || Get(rs[c].body.p, ConversationId) != Str(c) then outcome == Raised(ConversationNotFound)
    else outcome == Raised(IntegrityInvalid)
  }

  /** The conversation row is written, under its own columns; a set origin stays. */
  predicate ConversationSaved(rs: map<Text, Row>, rs': map<Text, Row>, c: Text, p: Payload) {
    c in rs' && rs' == rs[c := rs'[c]] && rs'[c].rtype == Lit(ConversationRecord) && rs'[c].mission == Str(c)
    && rs'[c].created == Show(Get(p, CreatedAt)) && rs'[c].body == Obj(p) && SealFits(c, rs'[c])
    && rs'[c].origin == if c in rs then rs[c].origin else rs'[c].integrity
  }

  /** The event of a change: inserted where neither its id nor its key is taken, and then the call
      returns. */
  ghost predicate ChangeTold(
    es: map<Text, EventRow>, es': map<Text, EventRow>, kind: Word, c: Text, gen: Fresh, f: Field, v: Value, p: Payload, outcome: Outcome)
  {
    var ev := Event(gen.event, EventRow(Lit(kind), c, Lit(ConversationAggregate), Lit(RuntimeActor), c, Stamp(gen.stamp),
                                        Some(Key(kind, c)), Obj(map[f := v])));
    es' == (if Unclaimed(es, ev) then es[ev.id := ev.row] else es)
    && (Unclaimed(es, ev) ==> outcome == Returned(p)) && (outcome == Returned(p) || outcome == Raised(EventIdentityConflict))
  }

  /** A new conversation: open, empty, under the title asked for or the standard one. */
  ghost predicate CreateAnswers(b: Base, b': Base, title: Option<string>, gen: Fresh, outcome: Outcome) {
    b'.index == b.index && exists p ::
      NewlyOpen(p, title, gen) && ConversationSaved(b.db.records, b'.db.records, gen.id, p)
      && ChangeTold(b.db.events, b'.db.events, ConversationCreated, gen.id, gen, Title, Get(p, Title), p, outcome)
  }

  ghost predicate NewlyOpen(p: Payload, title: Option<string>, gen: Fresh) {
    Get(p, ConversationId) == Str(gen.id) && Get(p, Status) == Str(Lit(OpenStatus)) && Get(p, MessageIds) == List([])
    && Get(p, CreatedAt) == Str(Stamp(gen.at)) && Get(p, UpdateTime) == Str(Stamp(gen.at))
    && TitleIs(Get(p, Title), if title.None? || title.value == "" then "NEXARA \U{5BF9}\U{8BDD}" else title.value)
  }

  /** Closing and reopening: nothing where the status is there already, else the status and the time. */
  ghost predicate StatusAnswers(b: Base, b': Base, c: Text, status: Word, kind: Word, gen: Fresh, outcome: Outcome) {
    if !Opens(b.db.records, c) then b' == b && NotOpened(b.db.records, c, outcome)
    else
      var p := b.db.records[c].body.p;
      if Get(p, Status) == Str(Lit(status)) then b' == b && outcome == Returned(p)
      else
        b'.index == b.index
        && (var q := p[Status := Str(Lit(status))][UpdateTime := Str(Stamp(gen.at))];
            ConversationSaved(b.db.records, b'.db.records, c, q)
            && ChangeTold(b.db.events, b'.db.events, kind, c, gen, Status, Str(Lit(status)), q, outcome))
  }

  // ---- messages ---------------------------------------------------------------------------------------------

  predicate MessageUnder(rs: map<Text, Row>, c: Text, idem: Value, m: Text) {
    m in rs && rs[m].rtype == Lit(MessageRecord) && rs[m].body.Obj? && Get(rs[m].body.p, ConversationId) == Str(c)
    && Get(rs[m].body.p, IdempotencyKey) == idem
  }

  ghost predicate MessageSays(c: Text, post: Post, gen: Fresh, q: Payload) {
    Get(q, MessageId) == Str(gen.id) && Get(q, ConversationId) == Str(c) && Get(q, Role) == Str(post.role)
    && TextIs(Get(q, Content), post.content) && Get(q, CreatedAt) == Str(Stamp(gen.at)) && Get(q, TraceId) == Str(post.trace)
    && Get(q, IdempotencyKey) == post.idem
    && Get(q, Metadata) == (if Truthy(post.metadata) then post.metadata else Object(map[]))
  }

  function ListedIds(p: Payload): seq<Value> {
    if Get(p, MessageIds).List? then Get(p, MessageIds).items else []
  }

  /** One id more, a new time, and a first user message names a conversation under the standard title. */
  ghost predicate Extended(p: Payload, post: Post, gen: Fresh, q: Payload) {
    Get(q, MessageIds) == List(ListedIds(p) + [Str(gen.id)]) && Get(q, UpdateTime) == Str(Stamp(gen.at))
    && (forall f :: f != MessageIds && f != UpdateTime && f != Title ==> Get(q, f) == Get(p, f))
    && (if Get(p, Title) == Str(User("NEXARA \U{5BF9}\U{8BDD}")) && post.role == Lit(UserRole) then TitleIs(Get(q, Title), post.content)
        else Get(q, Title) == Get(p, Title))
  }

  /** The message, the longer conversation, the index row and the event. */
  ghost predicate AppendStands(b: Base, b': Base, c: Text, p: Payload, post: Post, gen: Fresh, q: Payload) {
    MessageSays(c, post, gen, q)
    && OneRowIn(b'.db.records, gen.id, Lit(MessageRecord), Str(c), Stamp(gen.at), q)
    && c in b'.db.records && b'.db.records[c].body.Obj? && Extended(p, post, gen, b'.db.records[c].body.p)
    && (forall id :: id != gen.id && id != c ==>
          (id in b'.db.records <==> id in b.db.records) && (id in b.db.records ==> b'.db.records[id] == b.db.records[id]))
    && b'.index == b.index[gen.id := IndexRow(c, Stamp(gen.at))]
    && b'.db.events == b.db.events[gen.event := EventRow(
         Key(MessagePosted, post.role), c, Lit(ConversationAggregate), Lit(RuntimeActor), post.trace, Stamp(gen.stamp),
         Some(Key(MessagePosted, gen.id)), Obj(map[MessageId := Str(gen.id), Role := Str(post.role)]))]
  }

  predicate OneRowIn(rs: map<Text, Row>, id: Text, rtype: Text, mission: Value, created: Text, p: Payload) {
    var seal := Some(Seal(id, rtype, mission, created, p));
    id in rs && rs[id] == Row(rtype, mission, Obj(p), created, seal, seal)
  }

  /** What an append answers: refusals in their order, the message under the key, or a new message. */
  ghost predicate AppendAnswers(b: Base, b': Base, c: Text, post: Post, gen: Fresh, outcome: Outcome) {
    if post.role != Lit(UserRole) && post.role != Lit(AssistantRole) && post.role != Lit(SystemRole) then
      b' == b && outcome == Raised(RoleInvalid)
    else if AllSpace(post.content, 0, |post.content|) then b' == b && outcome == Raised(MessageEmpty)
    else if !Opens(b.db.records, c) then b' == b && NotOpened(b.db.records, c, outcome)
    else
      var p := b.db.records[c].body.p;
      if Get(p, Status) == Str(Lit(ClosedStatus)) then b' == b && outcome == Raised(IsClosed)
      else if Truthy(post.idem) && exists m :: MessageUnder(b.db.records, c, post.idem, m) then
        b' == b && RepeatAnswers(b.db.records, c, post, outcome)
      else outcome.Returned? && AppendStands(b, b', c, p, post, gen, outcome.p)
  }

  /** A message under the key answers: itself if it says the same, else a conflict. */
  ghost predicate RepeatAnswers(rs: map<Text, Row>, c: Text, post: Post, outcome: Outcome) {
    exists m :: MessageUnder(rs, c, post.idem, m)
      && if Get(rs[m].body.p, Role) == Str(post.role) && TextIs(Get(rs[m].body.p, Content), post.content) then
           outcome == Returned(rs[m].body.p)
         else outcome == Raised(KeyConflict)
  }

  // ---- the proof: creating and changing -----------------------------------------------------------------------

  lemma OpensExactlyWhen(rs: map<Text, Row>, c: Text)
    ensures Lookup(rs, c).Returned? <==> Opens(rs, c)
    ensures if Opens(rs, c) then Lookup(rs, c) == Returned(rs[c].body.p) else NotOpened(rs, c, Lookup(rs, c))
  {
    forall id ensures Finds(rs, Lit(ConversationRecord), ConversationId, Str(c), id) <==> Findable(rs, c, id) { IntactIsRead(rs, id); }
  }

  lemma AnnounceMeans(b: Base, c: Text, p: Payload, kind: Word, gen: Fresh, f: Field, v: Value)
    requires gen.event !in b.db.events
    ensures var result := Announce(b, ConversationItem(c, p), ConversationEvent(kind, c, gen, f, v));
      result.base.index == b.index && ConversationSaved(b.db.records, result.base.db.records, c, p)
      && ChangeTold(b.db.events, result.base.db.events, kind, c, gen, f, v, p, result.outcome)
  {
    var ev := ConversationEvent(kind, c, gen, f, v);
    SaveRecordStands(b.db, ConversationItem(c, p));
    SaveEventStands(SaveRecord(b.db, ConversationItem(c, p)), ev);
    if Unclaimed(b.db.events, ev) { NewEventAnswers(b.db.events, ev); }
  }

  lemma NewEventAnswers(es: map<Text, EventRow>, ev: Event)
    requires Unclaimed(es, ev) && ev.row.key.Some?
    ensures Publishes(es, ev)
  {
    var after := InsertOrIgnore(es, ev);
    assert after == es[ev.id := ev.row];
    assert Answers(after, ev, ev.id);
  }

  lemma TitleOf(s: string)
    ensures TitleIs(Str(User(Head(Strip(s)))), s)
  {
    StripTrims(s);
    HeadCuts(Strip(s));
  }

  lemma NewIsTitled(title: Option<string>, gen: Fresh, p: Payload)
    requires p == NewConversation(title, gen)
    ensures TitleIs(Get(p, Title), if title.None? || title.value == "" then "NEXARA \U{5BF9}\U{8BDD}" else title.value)
  {
    TitleOf(if title.None? || title.value == "" then DEFAULT_TITLE else title.value);
  }

  lemma NewIsOpen(title: Option<string>, gen: Fresh, p: Payload)
    requires p == NewConversation(title, gen)
    ensures NewlyOpen(p, title, gen)
  {
    NewIsTitled(title, gen, p);
  }

  lemma CreateMeans(b: Base, title: Option<string>, gen: Fresh, result: Result)
    requires IsFresh(b, gen) && result == Create(b, title, gen)
    ensures CreateAnswers(b, result.base, title, gen, result.outcome)
  {
    var p := NewConversation(title, gen);
    NewIsOpen(title, gen, p);
    AnnounceMeans(b, gen.id, p, ConversationCreated, gen, Title, Get(p, Title));
  }

  lemma StatusMeans(b: Base, c: Text, status: Word, kind: Word, gen: Fresh)
    requires IsFresh(b, gen)
    ensures var result := SetStatus(b, c, status, kind, gen); StatusAnswers(b, result.base, c, status, kind, gen, result.outcome)
  {
    OpensExactlyWhen(b.db.records, c);
    if Opens(b.db.records, c) {
      var q := b.db.records[c].body.p[Status := Str(Lit(status))][UpdateTime := Str(Stamp(gen.at))];
      AnnounceMeans(b, c, q, kind, gen, Status, Str(Lit(status)));
    }
  }

  // ---- the proof: appending -----------------------------------------------------------------------------------

  lemma MessageFieldIs(c: Text, post: Post, gen: Fresh, f: Field)
    requires f in MESSAGE_FIELDS
    ensures Get(NewMessage(c, post, gen), f) == MessageField(f, c, post, gen)
  {
  }

  lemma MessageNames(c: Text, post: Post, gen: Fresh, q: Payload)
    requires q == NewMessage(c, post, gen)
    ensures Get(q, MessageId) == Str(gen.id) && Get(q, ConversationId) == Str(c)
  {
    MessageFieldIs(c, post, gen, MessageId);
    MessageFieldIs(c, post, gen, ConversationId);
  }

  lemma MessageWords(c: Text, post: Post, gen: Fresh, q: Payload)
    requires q == NewMessage(c, post, gen)
    ensures Get(q, Role) == Str(post.role) && TextIs(Get(q, Content), post.content)
  {
    MessageFieldIs(c, post, gen, Role);
    MessageFieldIs(c, post, gen, Content);
    StripTrims(post.content);
  }

  lemma MessageTimes(c: Text, post: Post, gen: Fresh, q: Payload)
    requires q == NewMessage(c, post, gen)
    ensures Get(q, CreatedAt) == Str(Stamp(gen.at)) && Get(q, TraceId) == Str(post.trace)
  {
    MessageFieldIs(c, post, gen, CreatedAt);
    MessageFieldIs(c, post, gen, TraceId);
  }

  lemma MessageRests(c: Text, post: Post, gen: Fresh, q: Payload)
    requires q == NewMessage(c, post, gen)
    ensures Get(q, IdempotencyKey) == post.idem
    ensures Get(q, Metadata) == (if Truthy(post.metadata) then post.metadata else Object(map[]))
  {
    MessageFieldIs(c, post, gen, IdempotencyKey);
    MessageFieldIs(c, post, gen, Metadata);
  }

  lemma MessageIsAsSaid(c: Text, post: Post, gen: Fresh, q: Payload)
    requires q == NewMessage(c, post, gen)
    ensures MessageSays(c, post, gen, q)
  {
    MessageNames(c, post, gen, q);
    MessageWords(c, post, gen, q);
    MessageTimes(c, post, gen, q);
    MessageRests(c, post, gen, q);
  }

  lemma ListExtended(p: Payload, post: Post, gen: Fresh, q: Payload)
    requires q == WithMessage(p, post, gen)
    ensures Get(q, MessageIds) == List(ListedIds(p) + [Str(gen.id)]) && Get(q, UpdateTime) == Str(Stamp(gen.at))
  {
  }

  lemma OthersExtended(p: Payload, post: Post, gen: Fresh, q: Payload, f: Field)
    requires q == WithMessage(p, post, gen) && f != MessageIds && f != UpdateTime && f != Title
    ensures Get(q, f) == Get(p, f)
  {
  }

  lemma TitleExtended(p: Payload, post: Post, gen: Fresh, q: Payload)
    requires q == WithMessage(p, post, gen)
    ensures if Get(p, Title) == Str(User("NEXARA \U{5BF9}\U{8BDD}")) && post.role == Lit(UserRole) then TitleIs(Get(q, Title), post.content)
            else Get(q, Title) == Get(p, Title)
  {
    TitleOf(post.content);
  }

  lemma WithMessageExtends(p: Payload, post: Post, gen: Fresh, q: Payload)
    requires q == WithMessage(p, post, gen)
    ensures Extended(p, post, gen, q)
  {
    ListExtended(p, post, gen, q);
    TitleExtended(p, post, gen, q);
    forall f | f != MessageIds && f != UpdateTime && f != Title ensures Get(q, f) == Get(p, f) {
      OthersExtended(p, post, gen, q, f);
    }
  }

  lemma AppendedStands(b: Base, c: Text, p: Payload, post: Post, gen: Fresh, b': Base)
    requires IsFresh(b, gen) && gen.id != c && b' == Appended(b, c, p, post, gen)
    ensures AppendStands(b, b', c, p, post, gen, NewMessage(c, post, gen))
  {
    MessageIsAsSaid(c, post, gen, NewMessage(c, post, gen));
    WithMessageExtends(p, post, gen, WithMessage(p, post, gen));
    BundleRows(b, c, p, post, gen, b');
    BundleEvents(b, c, p, post, gen, b');
  }

  lemma BundleRows(b: Base, c: Text, p: Payload, post: Post, gen: Fresh, b': Base)
    requires IsFresh(b, gen) && gen.id != c && b' == Appended(b, c, p, post, gen)
    ensures OneRowIn(b'.db.records, gen.id, Lit(MessageRecord), Str(c), Stamp(gen.at), NewMessage(c, post, gen))
    ensures c in b'.db.records && b'.db.records[c].body == Obj(WithMessage(p, post, gen))
    ensures forall id :: id != gen.id && id != c ==>
      (id in b'.db.records <==> id in b.db.records) && (id in b.db.records ==> b'.db.records[id] == b.db.records[id])
  {
    BundleStands(b.db, MessageItem(c, post, gen), ConversationItem(c, WithMessage(p, post, gen)), MessageEvent(c, post, gen));
  }

  lemma BundleEvents(b: Base, c: Text, p: Payload, post: Post, gen: Fresh, b': Base)
    requires IsFresh(b, gen) && b' == Appended(b, c, p, post, gen)
    ensures b'.db.events == b.db.events[gen.event := MessageEvent(c, post, gen).row]
  {
  }

  lemma KeyedIsUnder(rs: map<Text, Row>, c: Text, idem: Value, hit: Option<Text>)
    requires MayHit(rs, c, idem, hit)
    ensures hit.Some? <==> exists m :: MessageUnder(rs, c, idem, m)
    ensures hit.Some? ==> MessageUnder(rs, c, idem, hit.value)
  {
    if m :| MessageUnder(rs, c, idem, m) { assert Keyed(rs, c, idem, m); }
    if hit.Some? { assert Keyed(rs, c, idem, hit.value) && MessageUnder(rs, c, idem, hit.value); }
  }

  lemma SameSayingMeans(q: Payload, post: Post)
    ensures SameSaying(q, post) <==> Get(q, Role) == Str(post.role) && TextIs(Get(q, Content), post.content)
  {
    StripTrims(post.content);
    if TextIs(Get(q, Content), post.content) { TrimmedOnce(post.content, Get(q, Content).t.s, Strip(post.content)); }
  }

  /** What an append answers and leaves, on any tables. */
  lemma AppendMeans(b: Base, c: Text, post: Post, gen: Fresh, hit: Option<Text>, result: Result)
    requires IsFresh(b, gen) && MayHit(b.db.records, c, post.idem, hit) && result == Append(b, c, post, gen, hit)
    ensures AppendAnswers(b, result.base, c, post, gen, result.outcome)
  {
    StripIsEmpty(post.content);
    OpensExactlyWhen(b.db.records, c);
    if Opens(b.db.records, c) && Strip(post.content) != "" {
      AppendToMeans(b, c, b.db.records[c].body.p, post, gen, hit, AppendTo(b, c, b.db.records[c].body.p, post, gen, hit));
    }
  }

  lemma AppendToMeans(b: Base, c: Text, p: Payload, post: Post, gen: Fresh, hit: Option<Text>, result: Result)
    requires IsFresh(b, gen) && c in b.db.records && MayHit(b.db.records, c, post.idem, hit)
    requires result == AppendTo(b, c, p, post, gen, hit)
    ensures if Get(p, Status) == Str(Lit(ClosedStatus)) then result == Result(b, Raised(IsClosed))
      else if Truthy(post.idem) && exists m :: MessageUnder(b.db.records, c, post.idem, m) then
        result.base == b && RepeatAnswers(b.db.records, c, post, result.outcome)
      else result.outcome.Returned? && AppendStands(b, result.base, c, p, post, gen, result.outcome.p)
  {
    KeyedIsUnder(b.db.records, c, post.idem, hit);
    if hit.Some? && Truthy(post.idem) {
      SameSayingMeans(b.db.records[hit.value].body.p, post);
    } else if Get(p, Status) != Str(Lit(ClosedStatus)) {
      AppendedStands(b, c, p, post, gen, result.base);
    }
  }
}
