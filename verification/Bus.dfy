/** The event bus: an event reaches subscribers only after it is durably in the table, and each
    event reaches each subscriber at most once. */
module Bus {
  import opened Ledger
  import opened StoreSpec
  import opened Sqlite

  /** Every subscriber is handed the event. */
  function Delivered(inboxes: seq<seq<Event>>, ev: Event): seq<seq<Event>> {
    seq(|inboxes|, i requires 0 <= i < |inboxes| => inboxes[i] + [ev])
  }

  predicate Heard(inboxes: seq<seq<Event>>, id: Text) {
    exists i, j :: 0 <= i < |inboxes| && 0 <= j < |inboxes[i]| && inboxes[i][j].id == id
  }

  /** What every inbox satisfies at all times. */
  ghost predicate InboxesOk(inboxes: seq<seq<Event>>, events: map<Text, EventRow>) {
    (forall id :: Heard(inboxes, id) ==> id in events)
    && forall i, j, k :: 0 <= i < |inboxes| && 0 <= j < k < |inboxes[i]| ==> inboxes[i][j].id != inboxes[i][k].id
  }

  lemma DeliveryKeepsInboxes(inboxes: seq<seq<Event>>, events: map<Text, EventRow>, ev: Event)
    requires InboxesOk(inboxes, events) && ev.id in events && !Heard(inboxes, ev.id)
    ensures InboxesOk(Delivered(inboxes, ev), events)
  {
    var after := Delivered(inboxes, ev);
    forall id | Heard(after, id) ensures id in events {
      var i, j :| 0 <= i < |after| && 0 <= j < |after[i]| && after[i][j].id == id;
      if j < |inboxes[i]| { assert inboxes[i][j].id == id; }
    }
    forall i, j, k | 0 <= i < |after| && 0 <= j < k < |after[i]| ensures after[i][j].id != after[i][k].id {
      assert inboxes[i][j] == after[i][j];
    }
  }

  lemma InboxesSurvive(inboxes: seq<seq<Event>>, es: map<Text, EventRow>, es': map<Text, EventRow>)
    requires InboxesOk(inboxes, es) && es.Keys <= es'.Keys
    ensures InboxesOk(inboxes, es')
  {
  }

  datatype Publication = Published(event: Event) | IdentityConflict | NotPersisted

  class EventBus {
    const store: SQLiteStore
    var inboxes: seq<seq<Event>>     // one per subscriber, in delivery order

    ghost predicate Valid()
      reads this, store
    {
      store.Valid() && InboxesOk(inboxes, store.events)
    }

    constructor (store: SQLiteStore)
      requires store.Valid()
      ensures Valid() && this.store == store && inboxes == []
    {
      this.store := store;
      inboxes := [];
    }

    method Subscribe()
      requires Valid()
      modifies this
      ensures Valid() && inboxes == old(inboxes) + [[]]
    {
      ghost var before: seq<seq<Event>> := inboxes;
      inboxes := inboxes + [[]];
      forall id | Heard(inboxes, id) ensures id in store.events {
        var i, j :| 0 <= i < |inboxes| && 0 <= j < |inboxes[i]| && inboxes[i][j].id == id;
        assert before[i][j].id == id;
      }
    }

    /** Hands a durable event to every subscriber in turn; only a caller whose event is new keeps the
        promise that nobody hears it twice. */
    method NotifyPersisted(ev: Event)
      requires Valid() && ev.id in store.events
      modifies this
      ensures inboxes == Delivered(old(inboxes), ev)
      ensures !Heard(old(inboxes), ev.id) ==> Valid()
    {
      var before: seq<seq<Event>> := inboxes;
      var i := 0;
      while i < |before|
        invariant 0 <= i <= |before| == |inboxes|
        invariant forall k :: 0 <= k < i ==> inboxes[k] == before[k] + [ev]
        invariant forall k :: i <= k < |before| ==> inboxes[k] == before[k]
      {
        inboxes := inboxes[i := inboxes[i] + [ev]];
        i := i + 1;
      }
      assert inboxes == Delivered(before, ev);
      if !Heard(before, ev.id) { DeliveryKeepsInboxes(before, store.events, ev); }
    }

    /** Saves the event; subscribers hear of it exactly when this call inserted it. */
    method Publish(ev: Event) returns (result: Publication)
      requires Valid() && ev.id !in store.events
      modifies store`events, this
      ensures Valid() && store.Now() == StoreSpec.SaveEvent(old(store.Now()), ev)
      ensures inboxes == if Clashes(old(store.events), ev) then old(inboxes) else Delivered(old(inboxes), ev)
      ensures result.Published? <==> Publishes(old(store.events), ev)
      ensures result.Published? ==> Answers(store.events, ev, result.event.id)
                                    && store.events[result.event.id] == result.event.row
                                    && SameProducer(result.event.row, ev.row)
      ensures !Clashes(old(store.events), ev) ==> result == Published(ev)
    {
      var persisted := store.SaveEvent(ev);
      InboxesSurvive(inboxes, old(store.events), store.events);
      if persisted.None? {
        return NotPersisted;
      }
      var row := persisted.value.row;
      if !SameProducer(row, ev.row) {
        return IdentityConflict;
      }
      if persisted.value.id == ev.id {
        NotifyPersisted(persisted.value);
      }
      return Published(persisted.value);
    }
  }
}
