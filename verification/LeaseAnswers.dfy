/** What the lease calls answer and leave behind, in the fields of the lease rows. */
module LeaseAnswers {
  import opened Ledger
  import opened StoreSpec
  import opened StoreAnswers
  import opened Leases

  // ---- lease rows ----------------------------------------------------------------------------------------

  /** The row is that writer's lease on the resource: switched on, and its expiry still to come. */
  predicate ActiveFor(row: Row, resource: Text, writer: Value, at: int) {
    row.body.Obj? && Get(row.body.p, ResourceId) == Str(resource) && Get(row.body.p, Writer) == writer
    && Get(row.body.p, Active) == Flag(true) && Get(row.body.p, ExpiresAt).Str? && Get(row.body.p, ExpiresAt).t.Stamp?
    && Get(row.body.p, ExpiresAt).t.at > at
  }

  predicate SixFields(p: Payload) {
    p.Keys == {LeaseId, ResourceId, Writer, TraceId, ExpiresAt, Active}
    && p[LeaseId].Str? && p[ResourceId].Str? && p[Writer].Str? && p[TraceId].Str? && p[ExpiresAt].Str? && p[Active].Flag?
  }

  /** What a request can read: a complete lease, and a timestamp if it is on the same resource. */
  predicate CanRead(row: Row, resource: Text) {
    row.body.Obj? && SixFields(row.body.p)
    && (row.body.p[ResourceId] == Str(resource) ==> row.body.p[ExpiresAt].t.Stamp?)
  }

  /** Somebody else's active lease on the resource. */
  predicate OthersLease(row: Row, bid: Bid, at: int) {
    CanRead(row, bid.resource) && Get(row.body.p, Writer) != Str(bid.writer)
    && ActiveFor(row, bid.resource, Get(row.body.p, Writer), at)
  }

  predicate IsLeaseRow(rs: map<Text, Row>, id: Text) {
    id in rs && rs[id].rtype == Lit(LeaseRecord)
  }

  /** Under this id that writer holds the resource. */
  predicate Holding(rs: map<Text, Row>, id: Text, resource: Text, writer: Value, at: int) {
    IsLeaseRow(rs, id) && ActiveFor(rs[id], resource, writer, at)
  }

  lemma LegibleIsRead(rs: map<Text, Row>, id: Text, bid: Bid)
    requires id in rs
    ensures Legible(rs, id, bid) <==> CanRead(rs[id], bid.resource)
  {
  }

  lemma BarsMeans(rs: map<Text, Row>, id: Text, bid: Bid, at: int)
    requires id in rs
    ensures Bars(rs, id, bid, at) <==> OthersLease(rs[id], bid, at)
  {
  }

  // ---- acquiring -----------------------------------------------------------------------------------------

  /** No lease bars the request; each is looked at when the clock reads `look[id]`. */
  ghost predicate NobodyElse(rs: map<Text, Row>, bid: Bid, look: map<Text, int>) {
    forall id :: IsLeaseRow(rs, id) ==> id in look && CanRead(rs[id], bid.resource) && !OthersLease(rs[id], bid, look[id])
  }

  /** What stopped a request: somebody else's lease, or one that cannot be read. */
  ghost predicate StoppedBy(rs: map<Text, Row>, bid: Bid, look: map<Text, int>, why: Why) {
    exists id :: IsLeaseRow(rs, id) && id in look
      && if why == LeaseConflict then OthersLease(rs[id], bid, look[id]) else why == Unreadable && !CanRead(rs[id], bid.resource)
  }

  /** The new lease: the writer's, switched on, for so many seconds from the reading for it. */
  predicate LeaseSays(bid: Bid, gen: Fresh, p: Payload) {
    p == map[LeaseId := Str(gen.lease), ResourceId := Str(bid.resource), Writer := Str(bid.writer), TraceId := Str(bid.trace),
             ExpiresAt := Str(Stamp(gen.from + bid.ttl)), Active := Flag(true)]
  }

  predicate LeaseTold(
    es: map<Text, EventRow>, es': map<Text, EventRow>, kind: Word, resource: Text, writer: Text, trace: Text, lease: Text,
    event: Text, stamp: int)
  {
    es' == es[event := EventRow(Lit(kind), resource, Lit(ResourceAggregate), writer, trace, Stamp(stamp), None,
                                Obj(map[LeaseId := Str(lease)]))]
  }

  predicate LeaseStands(bid: Bid, gen: Fresh, db: Tables, db': Tables, p: Payload) {
    LeaseSays(bid, gen, p) && OneRowAdded(db.records, db'.records, gen.lease, Lit(LeaseRecord), Null, Stamp(gen.at), p)
    && LeaseTold(db.events, db'.events, LeaseAcquired, bid.resource, bid.writer, bid.trace, gen.lease, gen.event, gen.stamp)
  }

  lemma UnbarredMeans(rs: map<Text, Row>, bid: Bid, look: map<Text, int>)
    ensures Unbarred(rs, bid, look) <==> NobodyElse(rs, bid, look)
  {
    forall id | id in rs
      ensures Legible(rs, id, bid) <==> CanRead(rs[id], bid.resource)
      ensures id in look ==> (Bars(rs, id, bid, look[id]) <==> OthersLease(rs[id], bid, look[id]))
    {
      LegibleIsRead(rs, id, bid);
      if id in look { BarsMeans(rs, id, bid, look[id]); }
    }
    if NobodyElse(rs, bid, look) {
      forall id | IsLease(rs, id) ensures id in look && Legible(rs, id, bid) && !Bars(rs, id, bid, look[id]) {
        assert IsLeaseRow(rs, id);
      }
    }
    if Unbarred(rs, bid, look) {
      forall id | IsLeaseRow(rs, id) ensures id in look && CanRead(rs[id], bid.resource) && !OthersLease(rs[id], bid, look[id]) {
        assert IsLease(rs, id);
      }
    }
  }

  lemma StoppedMeans(rs: map<Text, Row>, bid: Bid, look: map<Text, int>, why: Why, id: Text)
    requires IsLease(rs, id) && id in look
    requires if why == LeaseConflict then Bars(rs, id, bid, look[id]) else why == Unreadable && !Legible(rs, id, bid)
    ensures StoppedBy(rs, bid, look, why)
  {
    LegibleIsRead(rs, id, bid);
    BarsMeans(rs, id, bid, look[id]);
    assert IsLeaseRow(rs, id);
  }

  lemma GrantedStands(db: Tables, bid: Bid, gen: Fresh)
    requires gen.lease !in db.records && gen.event !in db.events
    ensures LeaseStands(bid, gen, db, Granted(db, bid, gen), NewLease(bid, gen))
  {
  }

  // ---- releasing -----------------------------------------------------------------------------------------

  /** The lease is there, complete, and the writer's. */
  predicate OwnLease(rs: map<Text, Row>, id: Text, writer: Text) {
    id in rs && rs[id].body.Obj? && SixFields(rs[id].body.p) && rs[id].body.p[Writer] == Str(writer)
  }

  /** No row, or one whose payload is nothing. */
  predicate NoLease(rs: map<Text, Row>, id: Text) {
    id !in rs || rs[id].body == Obj(map[]) || (rs[id].body.NonObject? && !Truthy(rs[id].body.v))
  }

  /** Why a release is refused: there is no lease, it cannot be read, or it is somebody else's. */
  predicate ReleaseRefused(rs: map<Text, Row>, id: Text, why: Why) {
    if NoLease(rs, id) then why == LeaseNotFound
    else why == if rs[id].body.Obj? && SixFields(rs[id].body.p) then OnlyOwnerCanRelease else Unreadable
  }

  /** The lease is saved again, switched off, with its expiry for a creation time. */
  predicate ReleaseStands(id: Text, writer: Text, trace: Text, event: Text, stamp: int, db: Tables, db': Tables) {
    OwnLease(db.records, id, writer)
    && (var p := db.records[id].body.p;
        var lease, q := p[LeaseId].t, p[Active := Flag(false)];
        lease in db'.records && db'.records == db.records[lease := db'.records[lease]] && db'.records[lease].body == Obj(q)
        && db'.records[lease].rtype == Lit(LeaseRecord) && db'.records[lease].mission == Null
        && db'.records[lease].created == p[ExpiresAt].t && SealFits(lease, db'.records[lease])
        && LeaseTold(db.events, db'.events, LeaseReleased, p[ResourceId].t, writer, trace, id, event, stamp))
  }

  /** The refusals of `release`, in their order. */
  function Refusal(rs: map<Text, Row>, id: Text, writer: Text): Option<Why> {
    if id !in rs || (rs[id].body.NonObject? && !Truthy(rs[id].body.v)) || rs[id].body == Obj(map[]) then Some(LeaseNotFound)
    else if !rs[id].body.Obj? || !Parses(rs[id].body.p) then Some(Unreadable)
    else if rs[id].body.p[Writer] == Str(writer) then None else Some(OnlyOwnerCanRelease)
  }

  lemma SixFieldsParse(p: Payload)
    ensures Parses(p) <==> SixFields(p)
  {
  }

  lemma RefusalMeans(rs: map<Text, Row>, id: Text, writer: Text)
    ensures Refusal(rs, id, writer).Some? ==> ReleaseRefused(rs, id, Refusal(rs, id, writer).value)
    ensures Refusal(rs, id, writer).None? <==> OwnLease(rs, id, writer)
    ensures Refusal(rs, id, writer) == Some(OnlyOwnerCanRelease) <==> Sensible(rs, id) && Refusal(rs, id, writer).Some?
  {
    if id in rs && rs[id].body.Obj? { SixFieldsParse(rs[id].body.p); }
  }

  lemma ReleasableMeans(rs: map<Text, Row>, id: Text, writer: Text)
    ensures Releasable(rs, id, writer) <==> OwnLease(rs, id, writer)
  {
  }

  lemma ReleasedStands(db: Tables, id: Text, writer: Text, trace: Text, event: Text, stamp: int)
    requires Releasable(db.records, id, writer) && event !in db.events
    ensures ReleaseStands(id, writer, trace, event, stamp, db, Released(db, id, writer, trace, event, stamp))
  {
  }

  // ---- in every run --------------------------------------------------------------------------------------

  /** Every row is looked at when the clock reads `at`. */
  function LookAt(rs: map<Text, Row>, at: int): map<Text, int> {
    map id | id in rs :: at
  }

  /** A look at one moment passes exactly when nobody else's lease on the resource is active then. */
  lemma {:induction false} GrantedExactlyWhen(states: seq<Sys>, moves: seq<Move>, n: nat, bid: Bid, at: int)
    requires Steps(states, moves) && n < |states|
    ensures Unbarred(states[n].db.records, bid, LookAt(states[n].db.records, at))
      <==> forall id, writer :: Holding(states[n].db.records, id, bid.resource, writer, at) ==> writer == Str(bid.writer)
  {
    var rs := states[n].db.records;
    var look := LookAt(rs, at);
    StepsAreGood(states, moves, n);
    UnbarredMeans(rs, bid, look);
    forall id | IsLeaseRow(rs, id) ensures CanRead(rs[id], bid.resource) { assert LeaseOk(id, rs[id]); }
    if NobodyElse(rs, bid, look) {
      forall id, writer | Holding(rs, id, bid.resource, writer, at) ensures writer == Str(bid.writer) {
        assert !OthersLease(rs[id], bid, look[id]);
      }
    } else {
      var id :| IsLeaseRow(rs, id) && OthersLease(rs[id], bid, look[id]);
      assert Holding(rs, id, bid.resource, Get(rs[id].body.p, Writer), at);
    }
  }

  /** While one lease alone is active on a resource, every other writer's request is barred; once its
      owner has released it, none is. */
  lemma {:induction false} ReleaseFrees(
    states: seq<Sys>, moves: seq<Move>, n: nat, id: Text, writer: Text, trace: Text, event: Text, stamp: int, bid: Bid, at: int)
    requires Steps(states, moves) && n < |moves| && moves[n] == Release(id, writer, trace, event, stamp)
    requires Holding(states[n].db.records, id, bid.resource, Str(writer), at)
    requires forall x, w :: Holding(states[n].db.records, x, bid.resource, w, at) ==> x == id
    ensures Unbarred(states[n].db.records, bid, LookAt(states[n].db.records, at)) <==> bid.writer == writer
    ensures Unbarred(states[n + 1].db.records, bid, LookAt(states[n + 1].db.records, at))
  {
    GrantedExactlyWhen(states, moves, n, bid, at);
    GrantedExactlyWhen(states, moves, n + 1, bid, at);
    StepsAreGood(states, moves, n);
    var rs, rs' := states[n].db.records, states[n + 1].db.records;
    assert LeaseOk(id, rs[id]);
    forall x, w | Holding(rs', x, bid.resource, w, at) ensures w == Str(bid.writer) {
      SwitchedOff(states[n].db, id, writer, trace, event, stamp, x, bid.resource, w, at);
    }
  }

  lemma SwitchedOff(
    db: Tables, id: Text, writer: Text, trace: Text, event: Text, stamp: int, x: Text, resource: Text, w: Value, at: int)
    requires Releasable(db.records, id, writer) && db.records[id].body.p[LeaseId] == Str(id)
    requires Holding(Released(db, id, writer, trace, event, stamp).records, x, resource, w, at)
    ensures x != id && Holding(db.records, x, resource, w, at)
  {
  }
}
