/** The writer-lease manager on the live store. */
module LeaseEngine {
  import opened Ledger
  import opened StoreSpec
  import opened Sqlite
  import opened Bus
  import opened Leases
  import A = LeaseAnswers

  datatype Answer = Acquired(p: Payload) | Done | Failed(why: Why)

  /** Every lease examined so far is legible and bars nobody. */
  ghost predicate CheckedSoFar(rs: map<Text, Row>, bid: Bid, ids: seq<Text>, look: map<Text, int>) {
    forall id :: id in ids ==> id in look && Legible(rs, id, bid) && !Bars(rs, id, bid, look[id])
  }

  ghost predicate Stopped(rs: map<Text, Row>, bid: Bid, look: map<Text, int>, why: Why) {
    exists id :: IsLease(rs, id) && id in look
      && if why == LeaseConflict then Bars(rs, id, bid, look[id]) else why == Unreadable && !Legible(rs, id, bid)
  }

  class WriterLeaseManager {
    const store: SQLiteStore
    const bus: EventBus

    ghost predicate Valid()
      reads this, bus, store
    {
      bus.store == store && bus.Valid() && Readable(store.records, Lit(LeaseRecord))
    }

    constructor (store: SQLiteStore, bus: EventBus)
      requires bus.store == store && bus.Valid() && Readable(store.records, Lit(LeaseRecord))
      ensures Valid() && this.store == store && this.bus == bus
    {
      this.store := store;
      this.bus := bus;
    }

    /** `acquire`; the clock reads `clock(i)` when the i-th lease is examined. */
    method Acquire(bid: Bid, gen: Fresh, clock: nat -> int) returns (answer: Answer, ghost look: map<Text, int>)
      requires Valid() && gen.event !in store.events && gen.lease !in store.records
      modifies store, bus
      ensures Valid()
      ensures forall id :: id in look ==> exists i :: look[id] == clock(i)
      ensures answer.Acquired? ==> Unbarred(old(store.records), bid, look) && answer.p == NewLease(bid, gen)
                                   && store.Now() == Granted(old(store.Now()), bid, gen)
      ensures answer.Acquired? ==> A.NobodyElse(old(store.records), bid, look)
                                   && A.LeaseStands(bid, gen, old(store.Now()), store.Now(), answer.p)
      ensures answer.Failed? ==> A.StoppedBy(old(store.records), bid, look, answer.why) && store.Now() == old(store.Now())
      ensures !answer.Done?
      ensures bus.inboxes == if answer.Failed? then old(bus.inboxes) else Delivered(
        old(bus.inboxes), LeaseEvent(LeaseAcquired, bid.resource, bid.writer, bid.trace, gen.lease, gen.event, gen.stamp))
    {
      answer, look := LookAndGrant(bid, gen, clock);
      if answer.Acquired? {
        A.UnbarredMeans(old(store.records), bid, look);
        A.GrantedStands(old(store.Now()), bid, gen);
      } else {
        ghost var id :| IsLease(old(store.records), id) && id in look && if answer.why == LeaseConflict
          then Bars(old(store.records), id, bid, look[id]) else answer.why == Unreadable && !Legible(old(store.records), id, bid);
        A.StoppedMeans(old(store.records), bid, look, answer.why, id);
      }
    }

    method LookAndGrant(bid: Bid, gen: Fresh, clock: nat -> int) returns (answer: Answer, ghost look: map<Text, int>)
      requires Valid() && gen.event !in store.events && gen.lease !in store.records
      modifies store, bus
      ensures Valid()
      ensures forall id :: id in look ==> exists i :: look[id] == clock(i)
      ensures answer.Acquired? ==> Unbarred(old(store.records), bid, look) && answer.p == NewLease(bid, gen)
                                   && store.Now() == Granted(old(store.Now()), bid, gen)
      ensures answer.Failed? ==> Stopped(old(store.records), bid, look, answer.why) && store.Now() == old(store.Now())
      ensures !answer.Done?
      ensures bus.inboxes == if answer.Failed? then old(bus.inboxes) else Delivered(
        old(bus.inboxes), LeaseEvent(LeaseAcquired, bid.resource, bid.writer, bid.trace, gen.lease, gen.event, gen.stamp))
    {
      var all, ids := store.ListRecords(Lit(LeaseRecord), Null);
      look := map[];
      var i := 0;
      while i < |all|
        invariant 0 <= i <= |all|
        invariant forall id :: id in look ==> exists k :: look[id] == clock(k)
        invariant forall id :: id in look <==> id in ids[..i]
        invariant CheckedSoFar(store.records, bid, ids[..i], look)
      {
        var p := all[i];
        assert ids[i] in ids && IsLease(store.records, ids[i]);
        look := look[ids[i] := clock(i)];
        if !Parses(p) {
          assert !Legible(store.records, ids[i], bid);
          return Failed(Unreadable), look;
        }
        if p[ResourceId] == Str(bid.resource) {
          if !Expires(p) {
            assert !Legible(store.records, ids[i], bid);
            return Failed(Unreadable), look;
          }
          if Live(p, clock(i)) && p[Writer] != Str(bid.writer) {
            assert Bars(store.records, ids[i], bid, look[ids[i]]);
            return Failed(LeaseConflict), look;
          }
        }
        assert ids[..i + 1] == ids[..i] + [ids[i]];
        i := i + 1;
      }
      assert ids[..i] == ids;
      forall id | IsLease(store.records, id) ensures id in ids {
        assert ListedAt(store.records, Lit(LeaseRecord), Null, id);
      }
      var p := NewLease(bid, gen);
      SaveAndPublish(
        LeaseItem(gen.lease, Stamp(gen.at), p),
        LeaseEvent(LeaseAcquired, bid.resource, bid.writer, bid.trace, gen.lease, gen.event, gen.stamp));
      return Acquired(p), look;
    }

    /** Saves the lease and announces it. */
    method SaveAndPublish(it: Item, ev: Event)
      requires bus.store == store && bus.Valid() && ev.id !in store.events && ev.row.key == None
      modifies store, bus
      ensures bus.Valid() && store.Now() == SaveEvent(SaveRecord(old(store.Now()), it), ev)
      ensures bus.inboxes == Delivered(old(bus.inboxes), ev)
    {
      store.SaveRecord(it);
      var publication := bus.Publish(ev);
    }

    /** What `release` refuses, before it writes anything. */
    method CheckRelease(id: Text, writer: Text) returns (refusal: Option<Why>)
      ensures refusal == A.Refusal(store.records, id, writer)
    {
      if id !in store.records {
        return Some(LeaseNotFound);
      }
      var body := store.records[id].body;
      if (body.NonObject? && !Truthy(body.v)) || body == Obj(map[]) {
        return Some(LeaseNotFound);
      }
      if !body.Obj? || !Parses(body.p) {
        return Some(Unreadable);
      }
      return if body.p[Writer] == Str(writer) then None else Some(OnlyOwnerCanRelease);
    }

    method Release(id: Text, writer: Text, trace: Text, event: Text, stamp: int) returns (answer: Answer)
      requires Valid() && event !in store.events
      modifies store, bus
      ensures bus.Valid()
      ensures answer.Done? <==> Releasable(old(store.records), id, writer)
      ensures answer.Done? <==> A.OwnLease(old(store.records), id, writer)
      ensures answer.Failed? ==> A.ReleaseRefused(old(store.records), id, answer.why)
      ensures answer.Done? ==> A.ReleaseStands(id, writer, trace, event, stamp, old(store.Now()), store.Now())
      ensures (answer.Done? ==> Expires(old(store.records)[id].body.p)) ==> Valid()
      ensures answer.Done? ==> store.Now() == Released(old(store.Now()), id, writer, trace, event, stamp)
      ensures !answer.Done? ==> store.Now() == old(store.Now()) && answer.Failed?
      ensures answer == Failed(OnlyOwnerCanRelease) <==> Sensible(old(store.records), id) && !answer.Done?
      ensures !answer.Done? ==> bus.inboxes == old(bus.inboxes)
      ensures answer.Done? ==> bus.inboxes == Delivered(old(bus.inboxes), LeaseEvent(
        LeaseReleased, old(store.records)[id].body.p[ResourceId].t, writer, trace, id, event, stamp))
    {
      A.ReleasableMeans(store.records, id, writer);
      A.RefusalMeans(store.records, id, writer);
      var refusal := CheckRelease(id, writer);
      if refusal.Some? {
        return Failed(refusal.value);
      }
      var p := store.records[id].body.p;
      A.ReleasedStands(store.Now(), id, writer, trace, event, stamp);
      SaveAndPublish(LeaseItem(p[LeaseId].t, p[ExpiresAt].t, Ended(p)),
                     LeaseEvent(LeaseReleased, p[ResourceId].t, writer, trace, id, event, stamp));
      return Done;
    }
  }
}
