/** The capability registry on the live store: its lists are appended to, its entries and scores edited
    in place, and a new registry loads both from the records. */
module CapabilityEngine {
  import opened Ledger
  import opened StoreSpec
  import opened Lists
  import opened Sqlite
  import opened Capabilities
  import A = CapabilityAnswers

  // ---- lemmas about the loops -----------------------------------------------------------------

  lemma EntriesOneMore(rs: map<Text, Row>, ids: seq<Text>, id: Text)
    requires forall x :: x in ids + [id] ==> x in rs && rs[x].body.Obj?
    ensures (forall x :: x in ids ==> x in ids + [id]) && id in ids + [id]
    ensures Entries(rs, ids + [id]) == Entries(rs, ids) + [LoadedEntry(rs[id].body.p)]
  {
    assert (ids + [id])[|ids|] == id;
    assert forall i :: 0 <= i < |ids| ==> (ids + [id])[i] == ids[i];
  }

  lemma LoadOneMore(rs: map<Text, Row>, ids: seq<Text>, id: Text, cap: Text)
    ensures Loaded(rs, ids + [id], cap) == if OfCap(rs, cap, id)
      then Loaded(rs, ids, cap) + [LoadedEntry(rs[id].body.p)] else Loaded(rs, ids, cap)
  {
    FilterSnoc(ids, id, About(rs, cap));
    if OfCap(rs, cap, id) { EntriesOneMore(rs, Filter(ids, About(rs, cap)), id); }
  }

  lemma CapsOneMore(rs: map<Text, Row>, ids: seq<Text>, i: nat)
    requires i < |ids|
    ensures Caps(rs, ids[..i + 1]) == Caps(rs, ids[..i]) + (if CapAt(rs, ids[i]) != EMPTY then {CapAt(rs, ids[i])} else {})
  {
    assert ids[..i + 1] == ids[..i] + [ids[i]];
    assert ids[i] in ids[..i + 1];
  }

  /** The first records listed have been filed under their capabilities. */
  ghost predicate LoadedSoFar(rs: map<Text, Row>, ids: seq<Text>, history: map<Text, seq<Entry>>) {
    history.Keys == Caps(rs, ids) && forall cap :: HistoryOf(history, cap) == Loaded(rs, ids, cap)
  }

  /** One outcome filed under its capability, if it names one. */
  function FileUnder(history: map<Text, seq<Entry>>, raw: Payload): map<Text, seq<Entry>> {
    var cap := if CapabilityId in raw then Show(raw[CapabilityId]) else EMPTY;
    if cap == EMPTY then history else history[cap := HistoryOf(history, cap) + [LoadedEntry(raw)]]
  }

  lemma ListedOutcome(rs: map<Text, Row>, rows: seq<Payload>, ids: seq<Text>, i: nat)
    requires Listing(rs, Lit(HistoryRecord), Null, ids) && Readable(rs, Lit(HistoryRecord)) && i < |ids|
    requires (forall id :: id in ids ==> id in rs && rs[id].body.Obj?) && rows == PayloadsOf(rs, ids)
    ensures ids[i] in rs && rs[ids[i]].rtype == Lit(HistoryRecord) && rs[ids[i]].body == Obj(rows[i])
  {
    assert ids[i] in ids && ListedAt(rs, Lit(HistoryRecord), Null, ids[i]);
  }

  lemma FiledFor(rs: map<Text, Row>, before: seq<Text>, id: Text, history: map<Text, seq<Entry>>, d: Text)
    requires HistoryOf(history, d) == Loaded(rs, before, d)
    requires id in rs && rs[id].rtype == Lit(HistoryRecord) && rs[id].body.Obj?
    ensures HistoryOf(FileUnder(history, rs[id].body.p), d) == Loaded(rs, before + [id], d)
  {
    LoadOneMore(rs, before, id, d);
  }

  lemma FiledKeys(rs: map<Text, Row>, id: Text, history: map<Text, seq<Entry>>)
    requires id in rs && rs[id].body.Obj?
    ensures FileUnder(history, rs[id].body.p).Keys == history.Keys + (if CapAt(rs, id) != EMPTY then {CapAt(rs, id)} else {})
  {
  }

  lemma FiledOneMore(rs: map<Text, Row>, ids: seq<Text>, i: nat, history: map<Text, seq<Entry>>)
    requires i < |ids| && LoadedSoFar(rs, ids[..i], history)
    requires ids[i] in rs && rs[ids[i]].rtype == Lit(HistoryRecord) && rs[ids[i]].body.Obj?
    ensures LoadedSoFar(rs, ids[..i + 1], FileUnder(history, rs[ids[i]].body.p))
  {
    var history' := FileUnder(history, rs[ids[i]].body.p);
    CapsOneMore(rs, ids, i);
    FiledKeys(rs, ids[i], history);
    assert ids[..i + 1] == ids[..i] + [ids[i]];
    forall d ensures HistoryOf(history', d) == Loaded(rs, ids[..i + 1], d) {
      assert HistoryOf(history, d) == Loaded(rs, ids[..i], d);
      FiledFor(rs, ids[..i], ids[i], history, d);
    }
  }

  lemma NothingLoaded(rs: map<Text, Row>)
    ensures LoadedSoFar(rs, [], map[])
  {
    forall cap ensures Loaded(rs, [], cap) == [] {
      assert Filter([], About(rs, cap)) == [];
    }
  }

  lemma ScoredOneMore(history: map<Text, seq<Entry>>, left: set<Text>, cap: Text)
    requires left <= history.Keys && cap in left
    ensures ScoresBut(history, left - {cap}) == if history[cap] == [] then ScoresBut(history, left)
      else ScoresBut(history, left)[cap := Score(RebuiltStats(history[cap]), [])]
  {
  }

  lemma LoadedAll(rs: map<Text, Row>, ids: seq<Text>, history: map<Text, seq<Entry>>)
    requires LoadedSoFar(rs, ids, history)
    ensures history == AllLoaded(rs, ids)
  {
    forall cap | cap in history ensures history[cap] == Loaded(rs, ids, cap) {
      assert HistoryOf(history, cap) == Loaded(rs, ids, cap);
    }
  }

  class CapabilityRegistry {
    const store: SQLiteStore
    var scores: map<Text, Score>
    var history: map<Text, seq<Entry>>
    ghost var listed: seq<Text>      // the records a new registry loaded

    ghost predicate Valid()
      reads this, store
    {
      store.Valid() && Readable(store.records, Lit(HistoryRecord))
    }

    ghost function Now(): State
      reads this, store
    {
      State(store.records, Registry(history, scores))
    }

    /** A registry that starts on a store with outcomes in it. */
    constructor (store: SQLiteStore)
      requires store.Valid() && Readable(store.records, Lit(HistoryRecord))
      ensures Valid() && this.store == store
      ensures Listing(store.records, Lit(HistoryRecord), Null, listed)
      ensures Now() == State(store.records, Rebuilt(store.records, listed))
      ensures A.RestartAnswers(store.records, Registry(history, scores))
    {
      this.store := store;
      scores, history := map[], map[];
      new;
      LoadHistory();
      RecomputeScores();
      A.RestartMeans(store.records, listed);
    }

    /** Files every stored outcome under its capability, oldest first. */
    method LoadHistory()
      requires Valid() && history == map[]
      modifies this
      ensures Valid() && scores == old(scores) && Listing(store.records, Lit(HistoryRecord), Null, listed)
      ensures LoadedSoFar(store.records, listed, history)
    {
      var rows, ids := store.ListRecords(Lit(HistoryRecord), Null);
      listed := ids;
      NothingLoaded(store.records);
      assert ids[..0] == [];
      var i := 0;
      while i < |rows|
        invariant 0 <= i <= |rows| && Valid() && scores == old(scores) && listed == ids
        invariant LoadedSoFar(store.records, ids[..i], history)
      {
        ListedOutcome(store.records, rows, ids, i);
        FiledOneMore(store.records, ids, i, history);
        history := FileUnder(history, rows[i]);
        i := i + 1;
      }
      assert ids[..i] == ids;
    }

    method RecomputeScores()
      requires Valid() && scores == map[] && LoadedSoFar(store.records, listed, history)
      modifies this`scores
      ensures Valid() && Registry(history, scores) == Rebuilt(store.records, listed)
    {
      var left := history.Keys;
      assert ScoresBut(history, left) == map[];
      while left != {}
        invariant left <= history.Keys && scores == ScoresBut(history, left)
        decreases |left|
      {
        var cap :| cap in left;
        ScoredOneMore(history, left, cap);
        if history[cap] != [] {
          scores := scores[cap := Score(RebuiltStats(history[cap]), [])];
        }
        left := left - {cap};
      }
      LoadedAll(store.records, listed, history);
    }

    method RegisterV2(cap: Text)
      requires Valid()
      modifies this
      ensures Valid() && Now() == Register(old(Now()), cap)
      ensures A.RegisterAnswers(old(Now()), Now(), cap)
    {
      A.RegisterMeans(Now(), cap);
      scores := scores[cap := Score(UNSCORED, [])];
      history := history[cap := []];
    }

    method HoldsKey(h: seq<Entry>, key: Text) returns (found: bool)
      ensures found == HasKey(h, key)
    {
      if key == EMPTY {
        return false;
      }
      var i := 0;
      while i < |h|
        invariant 0 <= i <= |h| && forall j :: 0 <= j < i ==> h[j].key != key
      {
        if h[i].key == key {
          return true;
        }
        i := i + 1;
      }
      return false;
    }

    /** `find_record` by key, over the outcomes of all capabilities. */
    method FindStored(key: Text) returns (found: bool)
      requires Valid() && key != EMPTY
      ensures found == KeyStored(store.records, key)
    {
      var rows, ids := store.ListRecords(Lit(HistoryRecord), Null);
      var i := 0;
      while i < |rows|
        invariant 0 <= i <= |rows|
        invariant forall j :: 0 <= j < i ==> Get(rows[j], IdempotencyKey) != Str(key)
      {
        assert ids[i] in ids && ListedAt(store.records, Lit(HistoryRecord), Null, ids[i]);
        if Get(rows[i], IdempotencyKey) == Str(key) {
          return true;
        }
        i := i + 1;
      }
      forall id | id in store.records && store.records[id].rtype == Lit(HistoryRecord)
        ensures Get(store.records[id].body.p, IdempotencyKey) != Str(key)
      {
        assert ListedAt(store.records, Lit(HistoryRecord), Null, id);
        assert id in ids;
        var j :| 0 <= j < |ids| && ids[j] == id;
        assert Get(rows[j], IdempotencyKey) != Str(key);
      }
      return false;
    }

    /** Adds one outcome to memory and store, unless its key is known. */
    method RecordHistory(cap: Text, r: Report, gen: Fresh) returns (added: bool)
      requires Valid() && gen.record !in store.records
      modifies this`history, store
      ensures Valid()
      ensures added == !Known(old(store.records), HistoryOf(old(history), cap), r.key)
      ensures store.records == RowsAfter(old(store.records), HistoryOf(old(history), cap), cap, r, gen)
      ensures history == if added then old(history)[cap := Recorded(old(store.records), HistoryOf(old(history), cap), r, gen)]
                         else old(history)
    {
      var h := HistoryOf(history, cap);
      var known := HoldsKey(h, r.key);
      if !known && r.key != EMPTY {
        known := FindStored(r.key);
      }
      if known {
        return false;
      }
      history := history[cap := h + [NewEntry(r, gen)]];
      store.SaveRecord(OutcomeItem(cap, r, gen));
      return true;
    }

    /** The entry found by key, or the last one, takes over the evidence. */
    method MarkEvidence(cap: Text, r: Report)
      modifies this`history
      ensures history == if HistoryOf(old(history), cap) == [] then old(history)
                         else old(history)[cap := Marked(HistoryOf(old(history), cap), r.key, r.evidence)]
    {
      var h := HistoryOf(history, cap);
      if h == [] {
        return;
      }
      var target := |h| - 1;
      var keyed := HoldsKey(h, r.key);
      if keyed {
        target := 0;
        while h[target].key != r.key
          invariant 0 <= target <= FirstWith(h, r.key)
          decreases |h| - target
        {
          target := target + 1;
        }
      }
      history := history[cap := h[target := h[target].(evidence := r.evidence)]];
    }

    /** The outcome is recorded and its evidence marked. */
    method RecordAndMark(cap: Text, r: Report, gen: Fresh)
      requires Valid() && gen.record !in store.records
      modifies this`history, store
      ensures Valid()
      ensures store.records == RowsAfter(old(store.records), HistoryOf(old(history), cap), cap, r, gen)
      ensures var h' := HistoryAfter(old(store.records), HistoryOf(old(history), cap), r, gen);
        history == if h' == [] then old(history) else old(history)[cap := h']
    {
      ghost var h1 := Recorded(store.records, HistoryOf(history, cap), r, gen);
      var added := RecordHistory(cap, r, gen);
      assert HistoryOf(history, cap) == h1;
      MarkEvidence(cap, r);
    }

    method UpdateScore(cap: Text, r: Report, gen: Fresh) returns (score: Option<Score>)
      requires Valid() && gen.record !in store.records
      modifies this, store
      ensures Valid() && Now() == Capabilities.UpdateScore(old(Now()), cap, r, gen)
      ensures score == if cap in scores then Some(scores[cap]) else None
      ensures A.UpdateAnswers(old(Now()), Now(), cap, r, gen)
    {
      A.UpdateMeans(Now(), cap, r, gen);
      if cap !in scores {
        return None;
      }
      RecordAndMark(cap, r, gen);
      scores := scores[cap := Rescored(scores[cap], HistoryOf(history, cap))];
      return Some(scores[cap]);
    }
  }
}
