/** Writer leases: at any time, all active leases on a resource belong to one writer. */
module Leases {
  import opened Ledger
  import opened StoreSpec

  datatype Bid = Bid(resource: Text, writer: Text, trace: Text, ttl: int)

  /** A generated lease id and event id, and what the clock read for the expiry and for the two stamps. */
  datatype Fresh = Fresh(lease: Text, event: Text, from: int, at: int, stamp: int)

  datatype Why = LeaseConflict | LeaseNotFound | OnlyOwnerCanRelease | Unreadable

  const LEASE_FIELDS: set<Field> := {LeaseId, ResourceId, Writer, TraceId, ExpiresAt, Active}

  /** `WriterLease.model_validate`, for a complete dump. */
  predicate Parses(p: Payload) {
    p.Keys == LEASE_FIELDS && p[LeaseId].Str? && p[ResourceId].Str? && p[Writer].Str? && p[TraceId].Str?
    && p[ExpiresAt].Str? && p[Active].Flag?
  }

  /** The expiry is a timestamp. */
  predicate Expires(p: Payload) {
    Parses(p) && p[ExpiresAt].t.Stamp?
  }

  /** `_active` at a reading of the clock. */
  predicate Live(p: Payload, at: int) {
    Expires(p) && p[Active].b && p[ExpiresAt].t.at > at
  }

  predicate IsLease(rs: map<Text, Row>, id: Text) {
    id in rs && rs[id].rtype == Lit(LeaseRecord)
  }

  predicate Sensible(rs: map<Text, Row>, id: Text) {
    id in rs && rs[id].body.Obj? && Parses(rs[id].body.p)
  }

  predicate HeldBy(rs: map<Text, Row>, id: Text, resource: Text, writer: Text, at: int) {
    Sensible(rs, id) && Live(rs[id].body.p, at) && rs[id].body.p[ResourceId] == Str(resource)
    && rs[id].body.p[Writer] == Str(writer)
  }

  /** `acquire` can read the lease; it reads the expiry only of leases on its own resource. */
  predicate Legible(rs: map<Text, Row>, id: Text, bid: Bid) {
    Sensible(rs, id) && (rs[id].body.p[ResourceId] == Str(bid.resource) ==> Expires(rs[id].body.p))
  }

  /** Another writer holds the resource. */
  predicate Bars(rs: map<Text, Row>, id: Text, bid: Bid, at: int) {
    Sensible(rs, id) && rs[id].body.p[ResourceId] == Str(bid.resource) && Live(rs[id].body.p, at)
    && rs[id].body.p[Writer] != Str(bid.writer)
  }

  /** The loop of `acquire` finds no conflict; it looks at each lease when the clock reads `look[id]`. */
  ghost predicate Unbarred(rs: map<Text, Row>, bid: Bid, look: map<Text, int>) {
    forall id :: IsLease(rs, id) ==> id in look && Legible(rs, id, bid) && !Bars(rs, id, bid, look[id])
  }

  function NewLease(bid: Bid, gen: Fresh): Payload {
    map[LeaseId := Str(gen.lease), ResourceId := Str(bid.resource), Writer := Str(bid.writer),
        TraceId := Str(bid.trace), ExpiresAt := Str(Stamp(gen.from + bid.ttl)), Active := Flag(true)]
  }

  function LeaseItem(id: Text, created: Text, p: Payload): Item {
    Item(id, Lit(LeaseRecord), Null, created, p)
  }

  function LeaseEvent(kind: Word, resource: Text, writer: Text, trace: Text, lease: Text, id: Text, stamp: int): Event {
    Event(id, EventRow(Lit(kind), resource, Lit(ResourceAggregate), writer, trace, Stamp(stamp), None,
                       Obj(map[LeaseId := Str(lease)])))
  }

  function Granted(db: Tables, bid: Bid, gen: Fresh): Tables {
    SaveEvent(SaveRecord(db, LeaseItem(gen.lease, Stamp(gen.at), NewLease(bid, gen))),
              LeaseEvent(LeaseAcquired, bid.resource, bid.writer, bid.trace, gen.lease, gen.event, gen.stamp))
  }

  function Ended(p: Payload): Payload {
    p[Active := Flag(false)]
  }

  /** The lease is there and is the writer's. */
  predicate Releasable(rs: map<Text, Row>, id: Text, writer: Text) {
    Sensible(rs, id) && rs[id].body.p[Writer] == Str(writer)
  }

  /** The record is saved again, as inactive, with its expiry for a creation time. */
  function Released(db: Tables, id: Text, writer: Text, trace: Text, event: Text, stamp: int): Tables
    requires Releasable(db.records, id, writer)
  {
    var p := db.records[id].body.p;
    SaveEvent(SaveRecord(db, LeaseItem(p[LeaseId].t, p[ExpiresAt].t, Ended(p))),
              LeaseEvent(LeaseReleased, p[ResourceId].t, writer, trace, id, event, stamp))
  }

  // ---- runs -----------------------------------------------------------------------------------

  /** `acquire` holds the manager's lock from its first look to its last write; `release` takes no lock
      and may come in between. */
  datatype Move =
    | Look(bid: Bid, look: map<Text, int>, until: int)
    | Grant(gen: Fresh)
    | Release(id: Text, writer: Text, trace: Text, event: Text, stamp: int)
    | Elsewhere(db: Tables)

  /** A request whose `acquire` has passed its loop, and when it had. */
  datatype Cleared = Cleared(bid: Bid, until: int)

  /** The tables, the clock, and who is inside `acquire`. */
  datatype Sys = Sys(db: Tables, now: int, holder: Option<Cleared>)

  predicate Ours(row: Row) {
    row.rtype == Lit(LeaseRecord) || (row.body.Obj? && Parses(row.body.p))
  }

  ghost predicate Leaves(rs: map<Text, Row>, rs': map<Text, Row>) {
    forall id :: (id in rs && Ours(rs[id])) || (id in rs' && Ours(rs'[id])) ==> id in rs && id in rs' && rs'[id] == rs[id]
  }

  /** The clock does not go back. */
  ghost predicate Within(look: map<Text, int>, now: int, until: int) {
    now <= until && forall id :: id in look ==> now <= look[id] <= until
  }

  ghost predicate Allowed(s: Sys, m: Move) {
    match m
    case Look(bid, look, until) => s.holder.None? && Within(look, s.now, until) && Unbarred(s.db.records, bid, look)
    case Grant(gen) =>
      s.holder.Some? && gen.lease !in s.db.records && s.now <= gen.from && s.holder.value.until <= gen.from <= gen.at <= gen.stamp
    case Release(id, writer, _, _, stamp) => Releasable(s.db.records, id, writer) && s.now <= stamp
    case Elsewhere(db) => Leaves(s.db.records, db.records)
  }

  ghost function Do(s: Sys, m: Move): Sys
    requires Allowed(s, m)
  {
    match m
    case Look(bid, look, until) => s.(holder := Some(Cleared(bid, until)))
    case Grant(gen) => Sys(Granted(s.db, s.holder.value.bid, gen), gen.stamp, None)
    case Release(id, writer, trace, event, stamp) => s.(db := Released(s.db, id, writer, trace, event, stamp), now := stamp)
    case Elsewhere(db) => s.(db := db)
  }

  /** The states that runs reach. */
  ghost predicate Steps(states: seq<Sys>, moves: seq<Move>) {
    |states| == |moves| + 1 && states[0] == Sys(Tables(map[], map[]), 0, None)
    && forall i :: 0 <= i < |moves| ==> Allowed(states[i], moves[i]) && states[i + 1] == Do(states[i], moves[i])
  }

  // ---- the invariant --------------------------------------------------------------------------

  predicate LeaseOk(id: Text, row: Row) {
    row.rtype == Lit(LeaseRecord) && row.body.Obj? && Expires(row.body.p) && row.body.p[LeaseId] == Str(id)
  }

  ghost predicate RowsOk(rs: map<Text, Row>) {
    forall id :: id in rs && Ours(rs[id]) ==> LeaseOk(id, rs[id])
  }

  /** Two leases that are active together, now or later, have one writer. */
  ghost predicate Exclusive(rs: map<Text, Row>, now: int) {
    forall a, b, resource, v, w, at :: now <= at && HeldBy(rs, a, resource, v, at) && HeldBy(rs, b, resource, w, at) ==> v == w
  }

  /** Nobody else holds the resource of whoever is inside `acquire`. */
  ghost predicate HolderOk(rs: map<Text, Row>, holder: Option<Cleared>) {
    holder.Some? ==> forall id, w, at ::
      holder.value.until <= at && HeldBy(rs, id, holder.value.bid.resource, w, at) ==> w == holder.value.bid.writer
  }

  ghost predicate Good(s: Sys) {
    RowsOk(s.db.records) && Exclusive(s.db.records, s.now) && HolderOk(s.db.records, s.holder)
  }

  /** Nothing is held that was not held before. */
  ghost predicate Fewer(rs: map<Text, Row>, rs': map<Text, Row>) {
    forall id, resource, w, at :: HeldBy(rs', id, resource, w, at) ==> HeldBy(rs, id, resource, w, at)
  }

  lemma FewerIsGood(s: Sys, s': Sys)
    requires Good(s) && RowsOk(s'.db.records) && Fewer(s.db.records, s'.db.records)
    requires s.now <= s'.now && s'.holder == s.holder
    ensures Good(s')
  {
  }

  lemma LiveForLess(p: Payload, at: int, later: int)
    requires at <= later && Live(p, later)
    ensures Live(p, at)
  {
  }

  lemma LookIsGood(s: Sys, bid: Bid, look: map<Text, int>, until: int)
    requires Good(s) && Allowed(s, Look(bid, look, until))
    ensures Good(Do(s, Look(bid, look, until)))
  {
    var rs := s.db.records;
    forall id, w, at | until <= at && HeldBy(rs, id, bid.resource, w, at) ensures w == bid.writer {
      assert LeaseOk(id, rs[id]) && IsLease(rs, id);
      LiveForLess(rs[id].body.p, look[id], at);
      assert !Bars(rs, id, bid, look[id]);
    }
  }

  lemma NewLeaseFacts(bid: Bid, gen: Fresh)
    ensures var p := NewLease(bid, gen);
      Parses(p) && p[LeaseId] == Str(gen.lease) && p[ResourceId] == Str(bid.resource) && p[Writer] == Str(bid.writer)
  {
  }

  lemma GrantedHolds(db: Tables, bid: Bid, gen: Fresh, id: Text, resource: Text, w: Text, at: int)
    requires gen.lease !in db.records && HeldBy(Granted(db, bid, gen).records, id, resource, w, at)
    ensures if id == gen.lease then resource == bid.resource && w == bid.writer else HeldBy(db.records, id, resource, w, at)
  {
    NewLeaseFacts(bid, gen);
  }

  lemma GrantIsGood(s: Sys, gen: Fresh)
    requires Good(s) && Allowed(s, Grant(gen))
    ensures Good(Do(s, Grant(gen)))
  {
    var bid := s.holder.value.bid;
    var rs, rs' := s.db.records, Granted(s.db, bid, gen).records;
    NewLeaseFacts(bid, gen);
    forall id | id in rs' && Ours(rs'[id]) ensures LeaseOk(id, rs'[id]) {
      assert id != gen.lease ==> id in rs && rs'[id] == rs[id];
    }
    forall a, b, resource, v, w, at | gen.stamp <= at && HeldBy(rs', a, resource, v, at) && HeldBy(rs', b, resource, w, at)
      ensures v == w
    {
      GrantedHolds(s.db, bid, gen, a, resource, v, at);
      GrantedHolds(s.db, bid, gen, b, resource, w, at);
    }
  }

  lemma EndedFacts(p: Payload)
    requires Parses(p)
    ensures Parses(Ended(p)) && (Expires(p) ==> Expires(Ended(p))) && !Ended(p)[Active].b && Ended(p)[LeaseId] == p[LeaseId]
  {
    assert Active in LEASE_FIELDS;
  }

  lemma ReleaseIsGood(s: Sys, id: Text, writer: Text, trace: Text, event: Text, stamp: int)
    requires Good(s) && Allowed(s, Release(id, writer, trace, event, stamp))
    ensures Good(Do(s, Release(id, writer, trace, event, stamp)))
  {
    var rs := s.db.records;
    assert LeaseOk(id, rs[id]);
    EndedFacts(rs[id].body.p);
    var s' := Do(s, Release(id, writer, trace, event, stamp));
    assert s'.db.records.Keys == rs.Keys && forall x :: x in rs && x != id ==> s'.db.records[x] == rs[x];
    FewerIsGood(s, s');
  }

  lemma ElsewhereIsGood(s: Sys, db: Tables)
    requires Good(s) && Allowed(s, Elsewhere(db))
    ensures Good(Do(s, Elsewhere(db)))
  {
    var rs, rs' := s.db.records, db.records;
    forall id, resource, w, at | HeldBy(rs', id, resource, w, at) ensures HeldBy(rs, id, resource, w, at) {
      assert Ours(rs'[id]) && rs'[id] == rs[id];
    }
    FewerIsGood(s, s.(db := db));
  }

  lemma MoveIsGood(s: Sys, m: Move)
    requires Good(s) && Allowed(s, m)
    ensures Good(Do(s, m))
  {
    match m
    case Look(bid, look, until) => LookIsGood(s, bid, look, until);
    case Grant(gen) => GrantIsGood(s, gen);
    case Release(id, writer, trace, event, stamp) => ReleaseIsGood(s, id, writer, trace, event, stamp);
    case Elsewhere(db) => ElsewhereIsGood(s, db);
  }

  lemma {:induction false} StepsAreGood(states: seq<Sys>, moves: seq<Move>, n: nat)
    requires Steps(states, moves) && n < |states|
    ensures Good(states[n])
  {
    if n > 0 {
      StepsAreGood(states, moves, n - 1);
      MoveIsGood(states[n - 1], moves[n - 1]);
    }
  }

  // ---- what every run guarantees ----------------------------------------------------------------

  /** In every state of every run, two leases on one resource that are active at the same time, then
      or later, have the same writer. */
  lemma {:induction false} OneWriterAtATime(
    states: seq<Sys>, moves: seq<Move>, n: nat, a: Text, b: Text, resource: Text, v: Text, w: Text, at: int)
    requires Steps(states, moves) && n < |states| && states[n].now <= at
    requires HeldBy(states[n].db.records, a, resource, v, at) && HeldBy(states[n].db.records, b, resource, w, at)
    ensures v == w
  {
    StepsAreGood(states, moves, n);
  }

  /** An `acquire` that looks at one moment passes its loop exactly when no other writer holds the
      resource at that moment. */
  lemma {:induction false} AcquireExactlyWhen(states: seq<Sys>, moves: seq<Move>, n: nat, bid: Bid, at: int)
    requires Steps(states, moves) && n < |states|
    ensures Unbarred(states[n].db.records, bid, map id | id in states[n].db.records :: at)
            <==> forall id, w :: HeldBy(states[n].db.records, id, bid.resource, w, at) ==> w == bid.writer
  {
    StepsAreGood(states, moves, n);
    var rs := states[n].db.records;
    var look := map id | id in rs :: at;
    if forall id, w :: HeldBy(rs, id, bid.resource, w, at) ==> w == bid.writer {
      forall id | IsLease(rs, id) ensures id in look && Legible(rs, id, bid) && !Bars(rs, id, bid, look[id]) {
        assert LeaseOk(id, rs[id]);
        if Bars(rs, id, bid, at) {
          assert HeldBy(rs, id, bid.resource, rs[id].body.p[Writer].t, at);
        }
      }
    } else {
      var id, w :| HeldBy(rs, id, bid.resource, w, at) && w != bid.writer;
      assert LeaseOk(id, rs[id]) && Bars(rs, id, bid, look[id]);
    }
  }

  predicate Over(rs: map<Text, Row>, id: Text) {
    Sensible(rs, id) && !rs[id].body.p[Active].b
  }

  lemma ReleaseEnds(s: Sys, id: Text, writer: Text, trace: Text, event: Text, stamp: int)
    requires Good(s) && Allowed(s, Release(id, writer, trace, event, stamp))
    ensures Over(Do(s, Release(id, writer, trace, event, stamp)).db.records, id)
  {
    assert LeaseOk(id, s.db.records[id]);
    EndedFacts(s.db.records[id].body.p);
  }

  lemma OverStays(s: Sys, m: Move, id: Text)
    requires Good(s) && Allowed(s, m) && Over(s.db.records, id)
    ensures Over(Do(s, m).db.records, id)
  {
    assert LeaseOk(id, s.db.records[id]);
    if m.Release? {
      assert LeaseOk(m.id, s.db.records[m.id]);
      ReleaseEnds(s, m.id, m.writer, m.trace, m.event, m.stamp);
    }
  }

  /** A released lease is never active again. */
  lemma {:induction false} ReleaseIsFinal(states: seq<Sys>, moves: seq<Move>, k: nat, n: nat)
    requires Steps(states, moves) && k < n < |states| && moves[k].Release?
    ensures Over(states[n].db.records, moves[k].id)
  {
    StepsAreGood(states, moves, n - 1);
    if n == k + 1 {
      var m := moves[k];
      ReleaseEnds(states[k], m.id, m.writer, m.trace, m.event, m.stamp);
    } else {
      ReleaseIsFinal(states, moves, k, n - 1);
      OverStays(states[n - 1], moves[n - 1], moves[k].id);
    }
  }

  /** A lease granted without the lock, however long after its look, keeps one writer per resource
      exactly when nobody else holds the resource by then, or the lease is over by then. */
  lemma LateGrantExcludesExactlyWhen(db: Tables, now: int, bid: Bid, gen: Fresh)
    requires Exclusive(db.records, now) && gen.lease !in db.records
    ensures Exclusive(Granted(db, bid, gen).records, now)
            <==> gen.from + bid.ttl <= now || forall id, w :: HeldBy(db.records, id, bid.resource, w, now) ==> w == bid.writer
  {
    var rs, rs' := db.records, Granted(db, bid, gen).records;
    GrantedRow(db, bid, gen);
    if gen.from + bid.ttl <= now || forall id, w :: HeldBy(rs, id, bid.resource, w, now) ==> w == bid.writer {
      forall a, b, resource, v, w, at | now <= at && HeldBy(rs', a, resource, v, at) && HeldBy(rs', b, resource, w, at)
        ensures v == w
      {
        GrantedHolds(db, bid, gen, a, resource, v, at);
        GrantedHolds(db, bid, gen, b, resource, w, at);
        if a != gen.lease { HeldForLess(rs, a, resource, v, now, at); }
        if b != gen.lease { HeldForLess(rs, b, resource, w, now, at); }
      }
    } else {
      var id, w :| HeldBy(rs, id, bid.resource, w, now) && w != bid.writer;
      assert HeldBy(rs', id, bid.resource, w, now) && HeldBy(rs', gen.lease, bid.resource, bid.writer, now);
    }
  }

  lemma HeldForLess(rs: map<Text, Row>, id: Text, resource: Text, w: Text, at: int, later: int)
    requires at <= later && HeldBy(rs, id, resource, w, later)
    ensures HeldBy(rs, id, resource, w, at)
  {
  }

  lemma GrantedRow(db: Tables, bid: Bid, gen: Fresh)
    requires gen.lease !in db.records
    ensures var rs' := Granted(db, bid, gen).records;
      (forall id :: id in db.records ==> id in rs' && rs'[id] == db.records[id])
      && forall at :: HeldBy(rs', gen.lease, bid.resource, bid.writer, at) <==> at < gen.from + bid.ttl
  {
    NewLeaseFacts(bid, gen);
  }

  /** The lock is what excludes: two requests of different writers that both pass the loop before
      either writes both end up holding the resource. */
  lemma WithoutTheLockBothHold(db: Tables, one: Bid, two: Bid, look: map<Text, int>, g: Fresh, h: Fresh, at: int)
    requires Unbarred(db.records, one, look) && Unbarred(db.records, two, look) && one.resource == two.resource
    requires g.lease != h.lease && at < g.from + one.ttl && at < h.from + two.ttl
    ensures var rs := Granted(Granted(db, one, g), two, h).records;
      HeldBy(rs, g.lease, one.resource, one.writer, at) && HeldBy(rs, h.lease, one.resource, two.writer, at)
      && (one.writer != two.writer ==> !Exclusive(rs, at))
  {
    NewLeaseFacts(one, g);
    NewLeaseFacts(two, h);
    var rs := Granted(Granted(db, one, g), two, h).records;
    assert HeldBy(rs, g.lease, one.resource, one.writer, at) && HeldBy(rs, h.lease, one.resource, two.writer, at);
  }
}
