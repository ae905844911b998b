/** The conversation store on the live tables. */
module ConversationEngine {
  import opened Ledger
  import opened StoreSpec
  import opened Lists
  import opened Sqlite
  import opened Bus
  import opened ConversationRules
  import opened ConversationRuns
  import A = ConversationAnswers

  datatype Reading = Listed(all: seq<Payload>) | Unread(why: Why)

  /** The payloads of the conversation's messages, in the order the rows are listed. */
  function Told(rs: map<Text, Row>, c: Text, order: seq<Text>): (all: seq<Payload>)
    ensures |all| == |Filter(order, Belongs(rs, c))|
    ensures forall i :: 0 <= i < |all| ==>
      MessageOf(rs, c, Filter(order, Belongs(rs, c))[i]) && all[i] == rs[Filter(order, Belongs(rs, c))[i]].body.p
  {
    var mine := Filter(order, Belongs(rs, c));
    assert forall m :: m in mine ==> MessageOf(rs, c, m);
    PayloadsOf(rs, mine)
  }

  lemma TellOneMore(rs: map<Text, Row>, c: Text, order: seq<Text>, i: nat)
    requires i < |order|
    ensures order[..i + 1] == order[..i] + [order[i]]
    ensures Told(rs, c, order[..i + 1])
            == if MessageOf(rs, c, order[i]) then Told(rs, c, order[..i]) + [rs[order[i]].body.p] else Told(rs, c, order[..i])
  {
    assert order[..i + 1] == order[..i] + [order[i]];
    FilterSnoc(order[..i], order[i], Belongs(rs, c));
  }

  lemma SavedIsReadable(rs: map<Text, Row>, it: Item)
    requires Readable(rs, Lit(MessageRecord)) && it.rtype == Lit(ConversationRecord)
    ensures Readable(SaveRecord(Tables(rs, map[]), it).records, Lit(MessageRecord))
  {
  }

  class ConversationStore {
    const store: SQLiteStore
    const bus: EventBus

    ghost predicate Valid()
      reads this, bus, store
    {
      bus.store == store && bus.Valid() && Readable(store.records, Lit(MessageRecord))
    }

    ghost function Now(): Base
      reads this, store
    {
      Base(store.Now(), store.index)
    }

    constructor (store: SQLiteStore, bus: EventBus)
      requires bus.store == store && bus.Valid() && Readable(store.records, Lit(MessageRecord))
      ensures Valid() && this.store == store && this.bus == bus
    {
      this.store := store;
      this.bus := bus;
    }

    method Get(c: Text) returns (outcome: Outcome)
      ensures outcome == Lookup(store.records, c)
      ensures if A.Opens(store.records, c) then outcome == Returned(store.records[c].body.p)
              else A.NotOpened(store.records, c, outcome)
    {
      A.OpensExactlyWhen(store.records, c);
      outcome := Fetch(c);
    }

    method Fetch(c: Text) returns (outcome: Outcome)
      ensures outcome == Lookup(store.records, c)
    {
      if c !in store.records {
        return Raised(ConversationNotFound);
      }
      var body := store.records[c].body;
      if body.Malformed? {
        return Raised(Unreadable);
      } else if body.NonObject? {
        return Raised(if Truthy(body.v) then Unreadable else ConversationNotFound);
      } else if Ledger.Get(body.p, ConversationId) != Str(c) {
        return Raised(ConversationNotFound);
      }
      var envelope := store.FindRecordEnvelope(Lit(ConversationRecord), ConversationId, Str(c));
      return if envelope.None? then Raised(IntegrityInvalid) else Returned(body.p);
    }

    /** All message records are listed, oldest first, and those of the conversation kept. */
    method Messages(c: Text) returns (reading: Reading, ghost order: seq<Text>)
      requires Valid()
      ensures Listing(store.records, Lit(MessageRecord), Null, order)
      ensures reading == match Lookup(store.records, c)
        case Raised(why) => Unread(why)
        case Returned(_) => Listed(Told(store.records, c, order))
    {
      var rows, ids := store.ListRecords(Lit(MessageRecord), Null);
      order := ids;
      var found := Fetch(c);
      if found.Raised? {
        return Unread(found.why), order;
      }
      var all: seq<Payload> := [];
      var i := 0;
      while i < |rows|
        invariant 0 <= i <= |rows| && all == Told(store.records, c, ids[..i])
      {
        TellOneMore(store.records, c, ids, i);
        assert ids[i] in ids && IsMessage(store.records, ids[i]);
        if Ledger.Get(rows[i], ConversationId) == Str(c) {
          all := all + [rows[i]];
        }
        i := i + 1;
      }
      assert ids[..i] == ids;
      return Listed(all), order;
    }

    method FindMessageByIdempotency(c: Text, idem: Value) returns (found: Option<Payload>, ghost hit: Option<Text>)
      requires Valid() && Lookup(store.records, c).Returned?
      ensures MayHit(store.records, c, idem, hit) && (found.Some? <==> hit.Some?)
      ensures found.Some? ==> store.records[hit.value].body == Obj(found.value)
    {
      var reading, order := Messages(c);
      var all := reading.all;
      ghost var mine := Filter(order, Belongs(store.records, c));
      var i := 0;
      while i < |all|
        invariant 0 <= i <= |all|
        invariant forall j :: 0 <= j < i ==> Ledger.Get(all[j], IdempotencyKey) != idem
      {
        if Ledger.Get(all[i], IdempotencyKey) == idem {
          return Some(all[i]), Some(mine[i]);
        }
        i := i + 1;
      }
      forall m ensures !Keyed(store.records, c, idem, m) {
        if MessageOf(store.records, c, m) {
          assert ListedAt(store.records, Lit(MessageRecord), Null, m);
          assert m in mine;
        }
      }
      return None, None;
    }

    /** Saves the conversation and publishes the event of the change. */
    method SaveAndPublish(it: Item, ev: Event) returns (outcome: Outcome)
      requires Valid() && it.rtype == Lit(ConversationRecord) && ev.id !in store.events
      modifies store, bus
      ensures Valid() && Now() == Announce(old(Now()), it, ev).base
      ensures outcome == Announce(old(Now()), it, ev).outcome
    {
      SavedIsReadable(store.records, it);
      store.SaveRecord(it);
      var publication := bus.Publish(ev);
      return if publication.Published? then Returned(it.payload) else Raised(EventIdentityConflict);
    }

    method Create(title: Option<string>, gen: Fresh) returns (outcome: Outcome)
      requires Valid() && IsFresh(Now(), gen)
      modifies store, bus
      ensures Valid() && Now() == ConversationRules.Create(old(Now()), title, gen).base
      ensures outcome == ConversationRules.Create(old(Now()), title, gen).outcome
      ensures A.CreateAnswers(old(Now()), Now(), title, gen, outcome)
    {
      A.CreateMeans(Now(), title, gen, ConversationRules.Create(Now(), title, gen));
      var p := NewConversation(title, gen);
      outcome := SaveAndPublish(
        ConversationItem(gen.id, p), ConversationEvent(ConversationCreated, gen.id, gen, Title, p[Title]));
    }

    method MoveStatus(c: Text, status: Word, kind: Word, gen: Fresh) returns (outcome: Outcome)
      requires Valid() && IsFresh(Now(), gen)
      modifies store, bus
      ensures Valid() && Now() == SetStatus(old(Now()), c, status, kind, gen).base
      ensures outcome == SetStatus(old(Now()), c, status, kind, gen).outcome
    {
      outcome := Fetch(c);
      if outcome.Raised? || Ledger.Get(outcome.p, Status) == Literal(status) {
        return;
      }
      var p := outcome.p[Status := Literal(status)];
      p := p[UpdateTime := Str(Stamp(gen.at))];
      outcome := SaveAndPublish(ConversationItem(c, p), ConversationEvent(kind, c, gen, Status, Literal(status)));
    }

    method Close(c: Text, gen: Fresh) returns (outcome: Outcome)
      requires Valid() && IsFresh(Now(), gen)
      modifies store, bus
      ensures Valid() && Now() == ConversationRules.Close(old(Now()), c, gen).base
      ensures outcome == ConversationRules.Close(old(Now()), c, gen).outcome
      ensures A.StatusAnswers(old(Now()), Now(), c, ClosedStatus, ConversationClosed, gen, outcome)
    {
      A.StatusMeans(Now(), c, ClosedStatus, ConversationClosed, gen);
      outcome := MoveStatus(c, ClosedStatus, ConversationClosed, gen);
    }

    method Reopen(c: Text, gen: Fresh) returns (outcome: Outcome)
      requires Valid() && IsFresh(Now(), gen)
      modifies store, bus
      ensures Valid() && Now() == ConversationRules.Reopen(old(Now()), c, gen).base
      ensures outcome == ConversationRules.Reopen(old(Now()), c, gen).outcome
      ensures A.StatusAnswers(old(Now()), Now(), c, OpenStatus, ConversationReopened, gen, outcome)
    {
      A.StatusMeans(Now(), c, OpenStatus, ConversationReopened, gen);
      outcome := MoveStatus(c, OpenStatus, ConversationReopened, gen);
    }

    /** The bundle is saved and its event handed to the subscribers. */
    method SaveMessage(c: Text, p: Payload, post: Post, gen: Fresh)
      requires Valid() && IsFresh(Now(), gen)
      modifies store, bus
      ensures Valid() && Now() == Appended(old(Now()), c, p, post, gen)
      ensures bus.inboxes == Delivered(old(bus.inboxes), MessageEvent(c, post, gen))
    {
      ghost var before := store.Now();
      var ev := MessageEvent(c, post, gen);
      var persisted := store.SaveConversationBundle(
        MessageItem(c, post, gen), ConversationItem(c, WithMessage(p, post, gen)), ev);
      InboxesSurvive(bus.inboxes, before.events, store.events);
      assert store.events == before.events[ev.id := ev.row];
      assert KeyTaken(store.events, Key(MessagePosted, gen.id)) by { assert store.events[ev.id].key == ev.row.key; }
      assert persisted.value.row.key == store.events[ev.id].key;
      bus.NotifyPersisted(persisted.value);
    }

    method AppendMessage(c: Text, post: Post, gen: Fresh) returns (outcome: Outcome, ghost hit: Option<Text>)
      requires Valid() && IsFresh(Now(), gen)
      modifies store, bus
      ensures Valid() && MayHit(old(store.records), c, post.idem, hit)
      ensures Now() == Append(old(Now()), c, post, gen, hit).base
      ensures outcome == Append(old(Now()), c, post, gen, hit).outcome
      ensures A.AppendAnswers(old(Now()), Now(), c, post, gen, outcome)
    {
      outcome, hit := CheckAndAppend(c, post, gen);
      A.AppendMeans(old(Now()), c, post, gen, hit, Append(old(Now()), c, post, gen, hit));
    }

    method CheckAndAppend(c: Text, post: Post, gen: Fresh) returns (outcome: Outcome, ghost hit: Option<Text>)
      requires Valid() && IsFresh(Now(), gen)
      modifies store, bus
      ensures Valid() && MayHit(old(store.records), c, post.idem, hit)
      ensures Now() == Append(old(Now()), c, post, gen, hit).base
      ensures outcome == Append(old(Now()), c, post, gen, hit).outcome
    {
      hit := SomeHit(store.records, c, post.idem);
      if post.role !in ROLES {
        return Raised(RoleInvalid), hit;
      }
      if Strip(post.content) == "" {
        return Raised(MessageEmpty), hit;
      }
      outcome := Fetch(c);
      if outcome.Raised? {
        return;
      }
      if Ledger.Get(outcome.p, Status) == Literal(ClosedStatus) {
        return Raised(IsClosed), hit;
      }
      if Truthy(post.idem) {
        var existing, found := FindMessageByIdempotency(c, post.idem);
        hit := found;
        if existing.Some? {
          return if SameSaying(existing.value, post) then Returned(existing.value) else Raised(KeyConflict), hit;
        }
      }
      SaveMessage(c, outcome.p, post, gen);
      return Returned(NewMessage(c, post, gen)), hit;
    }
  }

  /** Whatever is not looked for still has a possible value. */
  lemma SomeHit(rs: map<Text, Row>, c: Text, idem: Value) returns (hit: Option<Text>)
    ensures MayHit(rs, c, idem, hit)
  {
    if m :| Keyed(rs, c, idem, m) {
      hit := Some(m);
    } else {
      hit := None;
    }
  }
}
