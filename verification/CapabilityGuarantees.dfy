/** Restart agreement, and exactly which calls keep it. */
module CapabilityGuarantees {
  import opened Ledger
  import opened StoreSpec
  import opened Lists
  import opened Capabilities
  import opened CapabilityRuns

  // ---- a mirror scores as the records it mirrors do ---------------------------------------------

  function Records(h: seq<Entry>): (ids: seq<Text>)
    ensures |ids| == |h| && forall i :: 0 <= i < |h| ==> ids[i] == h[i].record
  {
    seq(|h|, i requires 0 <= i < |h| => h[i].record)
  }

  function Stored(rs: map<Text, Row>, id: Text): Entry {
    LoadedEntry(if id in rs && rs[id].body.Obj? then rs[id].body.p else map[])
  }

  function ByRow(rs: map<Text, Row>, g: Entry -> real): Text -> real {
    id => g(Stored(rs, id))
  }

  lemma MirrorNames(rs: map<Text, Row>, cap: Text, h: seq<Entry>, ids: seq<Text>, strict: bool)
    requires Mirrors(rs, cap, h, strict) && Listing(rs, Lit(HistoryRecord), Null, ids)
    ensures AllApart(Records(h)) && AllApart(Filter(ids, About(rs, cap)))
    ensures forall id :: id in Records(h) <==> id in Filter(ids, About(rs, cap))
  {
    var names := Records(h);
    FilterApart(ids, About(rs, cap));
    forall id ensures id in names <==> OfCap(rs, cap, id) {
      if OfCap(rs, cap, id) {
        var i :| 0 <= i < |h| && h[i].record == id;
        assert names[i] == id;
      }
    }
    forall id ensures id in Filter(ids, About(rs, cap)) <==> OfCap(rs, cap, id) {
      assert OfCap(rs, cap, id) ==> ListedAt(rs, Lit(HistoryRecord), Null, id);
    }
  }

  lemma TotalStored(rs: map<Text, Row>, ids: seq<Text>, cap: Text, g: Entry -> real)
    ensures Total(Loaded(rs, ids, cap), g) == Total(Filter(ids, About(rs, cap)), ByRow(rs, g))
  {
    var mine := Filter(ids, About(rs, cap));
    forall i | 0 <= i < |mine| ensures g(Loaded(rs, ids, cap)[i]) == ByRow(rs, g)(mine[i]) {
      assert mine[i] in mine && OfCap(rs, cap, mine[i]);
      assert Loaded(rs, ids, cap)[i] == Stored(rs, mine[i]);
    }
    TotalPointwise(Loaded(rs, ids, cap), mine, g, ByRow(rs, g));
  }

  /** A sum over the entries is the sum over the loaded records of what corresponds. */
  lemma SameTotal(
    rs: map<Text, Row>, cap: Text, h: seq<Entry>, ids: seq<Text>, strict: bool, f: Entry -> real, g: Entry -> real)
    requires Mirrors(rs, cap, h, strict) && Listing(rs, Lit(HistoryRecord), Null, ids)
    requires forall i :: 0 <= i < |h| ==> f(h[i]) == g(Stored(rs, h[i].record))
    ensures Total(h, f) == Total(Loaded(rs, ids, cap), g) && |h| == |Loaded(rs, ids, cap)|
  {
    var names := Records(h);
    MirrorNames(rs, cap, h, ids, strict);
    TotalPointwise(h, names, f, ByRow(rs, g));
    TotalOfSame(names, Filter(ids, About(rs, cap)), ByRow(rs, g));
    TotalStored(rs, ids, cap, g);
  }

  lemma OnePiece(p: Payload)
    ensures Pieces()(LoadedEntry(p)) == Marks()(LoadedEntry(p))
  {
  }

  lemma EntryAgrees(rs: map<Text, Row>, cap: Text, h: seq<Entry>, strict: bool, i: nat)
    requires Mirrors(rs, cap, h, strict) && i < |h|
    ensures var e, stored := h[i], Stored(rs, h[i].record);
      e.success == stored.success && e.latency == stored.latency && e.cost == stored.cost
      && Marks()(e) == Pieces()(stored)
  {
    OnePiece(rs[h[i].record].body.p);
  }

  lemma SameEvidence(rs: map<Text, Row>, cap: Text, h: seq<Entry>, ids: seq<Text>, strict: bool)
    requires Mirrors(rs, cap, h, strict) && Listing(rs, Lit(HistoryRecord), Null, ids)
    ensures Total(h, Marks()) == Total(Loaded(rs, ids, cap), Pieces())
  {
    forall i | 0 <= i < |h| ensures Marks()(h[i]) == Pieces()(Stored(rs, h[i].record)) {
      EntryAgrees(rs, cap, h, strict, i);
    }
    SameTotal(rs, cap, h, ids, strict, Marks(), Pieces());
  }

  lemma SameSums(rs: map<Text, Row>, cap: Text, h: seq<Entry>, ids: seq<Text>, strict: bool)
    requires Mirrors(rs, cap, h, strict) && Listing(rs, Lit(HistoryRecord), Null, ids)
    ensures var l := Loaded(rs, ids, cap);
      |l| == |h| && Total(h, Won()) == Total(l, Won()) && Total(h, Missed()) == Total(l, Missed())
      && Total(h, LatencyOf()) == Total(l, LatencyOf()) && Total(h, CostOf()) == Total(l, CostOf())
  {
    forall i | 0 <= i < |h|
      ensures h[i].success == Stored(rs, h[i].record).success && h[i].latency == Stored(rs, h[i].record).latency
              && h[i].cost == Stored(rs, h[i].record).cost
    {
      EntryAgrees(rs, cap, h, strict, i);
    }
    SameTotal(rs, cap, h, ids, strict, Won(), Won());
    SameTotal(rs, cap, h, ids, strict, Missed(), Missed());
    SameTotal(rs, cap, h, ids, strict, LatencyOf(), LatencyOf());
    SameTotal(rs, cap, h, ids, strict, CostOf(), CostOf());
  }

  // ---- with a clock that moves, the order is the same too ---------------------------------------

  lemma MirrorApart(rs: map<Text, Row>, cap: Text, h: seq<Entry>, a: Text, b: Text)
    requires Mirrors(rs, cap, h, true) && OfCap(rs, cap, a) && OfCap(rs, cap, b) && a != b
    ensures At(rs, a) != At(rs, b)
  {
    var i :| 0 <= i < |h| && h[i].record == a;
    var j :| 0 <= j < |h| && h[j].record == b;
    if i < j { assert Later(At(rs, h[i].record), At(rs, h[j].record), true); }
    else { assert Later(At(rs, h[j].record), At(rs, h[i].record), true); }
  }

  lemma SameOrder(rs: map<Text, Row>, now: int, cap: Text, h: seq<Entry>, ids: seq<Text>)
    requires Mirrors(rs, cap, h, true) && Listing(rs, Lit(HistoryRecord), Null, ids) && RowsOk(rs, now)
    ensures Records(h) == Filter(ids, About(rs, cap))
  {
    var at := (id: Text) => At(rs, id);
    MirrorNames(rs, cap, h, ids, true);
    forall i, j | 0 <= i < j < |ids| && OfCap(rs, cap, ids[i]) && OfCap(rs, cap, ids[j]) ensures at(ids[i]) < at(ids[j]) {
      MirrorApart(rs, cap, h, ids[i], ids[j]);
      assert NotAfter(rs, ids[i], ids[j]);
    }
    FilterAscends(ids, About(rs, cap), at);
    AscendingIsUnique(Records(h), Filter(ids, About(rs, cap)), at);
  }

  lemma SameRecent(rs: map<Text, Row>, now: int, cap: Text, h: seq<Entry>, ids: seq<Text>)
    requires Mirrors(rs, cap, h, true) && Listing(rs, Lit(HistoryRecord), Null, ids) && RowsOk(rs, now)
    ensures var l := Loaded(rs, ids, cap);
      |l| == |h| && Total(Recent(h), Missed()) == Total(Recent(l), Missed())
  {
    var l, names := Loaded(rs, ids, cap), Records(h);
    SameOrder(rs, now, cap, h, ids);
    forall i | 0 <= i < |h| ensures Missed()(h[i]) == Missed()(l[i]) {
      assert l[i] == LoadedEntry(rs[names[i]].body.p);
      EntryAgrees(rs, cap, h, true, i);
    }
    TotalPointwise(Recent(h), Recent(l), Missed(), Missed());
  }

  // ---- agreement ------------------------------------------------------------------------------

  /** All scores agree; the failure rate of the last hundred outcomes when `window` says so. */
  predicate SameScores(a: Stats, b: Stats, window: bool) {
    a.rate == b.rate && a.latency == b.latency && a.cost == b.cost && a.evidence == b.evidence
    && a.confidence == b.confidence && (window ==> a.recentFailures == b.recentFailures)
  }

  lemma MirrorScores(rs: map<Text, Row>, now: int, cap: Text, h: seq<Entry>, ids: seq<Text>, strict: bool)
    requires Mirrors(rs, cap, h, strict) && Listing(rs, Lit(HistoryRecord), Null, ids) && RowsOk(rs, now) && h != []
    ensures var l := Loaded(rs, ids, cap);
      l != [] && SameScores(LiveStats(h), RebuiltStats(l), strict || |h| <= 100)
  {
    SameSums(rs, cap, h, ids, strict);
    SameEvidence(rs, cap, h, ids, strict);
    if strict { SameRecent(rs, now, cap, h, ids); }
  }

  lemma RebuiltHistory(rs: map<Text, Row>, now: int, ids: seq<Text>, cap: Text)
    requires Listing(rs, Lit(HistoryRecord), Null, ids) && RowsOk(rs, now)
    ensures HistoryOf(Rebuilt(rs, ids).history, cap) == Loaded(rs, ids, cap)
    ensures cap in Rebuilt(rs, ids).scores <==> Loaded(rs, ids, cap) != []
  {
    var mine := Filter(ids, About(rs, cap));
    if mine != [] {
      assert mine[0] in mine && mine[0] in ids && CapAt(rs, mine[0]) == cap;
    }
    assert cap in Caps(rs, ids) || Loaded(rs, ids, cap) == [];
  }

  ghost predicate OldestFirst(rs: map<Text, Row>, s: seq<Text>) {
    forall i, j :: 0 <= i < j < |s| ==> At(rs, s[i]) <= At(rs, s[j])
  }

  lemma {:induction false} FilterInOrder(rs: map<Text, Row>, s: seq<Text>, f: Text -> bool)
    requires OldestFirst(rs, s)
    ensures OldestFirst(rs, Filter(s, f))
  {
    if s != [] {
      var most, last := s[..|s| - 1], s[|s| - 1];
      FilterInOrder(rs, most, f);
      var rest := Filter(most, f);
      forall i | 0 <= i < |rest| ensures At(rs, rest[i]) <= At(rs, last) {
        assert rest[i] in rest;
        var k :| 0 <= k < |most| && most[k] == rest[i];
        assert s[k] == rest[i];
      }
      if f(last) { assert Filter(s, f) == rest + [last]; } else { assert Filter(s, f) == rest; }
    }
  }

  lemma LoadedInOrder(rs: map<Text, Row>, now: int, ids: seq<Text>, cap: Text)
    requires Listing(rs, Lit(HistoryRecord), Null, ids) && RowsOk(rs, now)
    ensures OldestFirst(rs, Filter(ids, About(rs, cap)))
  {
    forall i, j | 0 <= i < j < |ids| ensures At(rs, ids[i]) <= At(rs, ids[j]) {
      assert ids[i] in ids && ids[j] in ids;
      assert IsOutcome(rs, ids[i]) && IsOutcome(rs, ids[j]) && NotAfter(rs, ids[i], ids[j]);
    }
    FilterInOrder(rs, ids, About(rs, cap));
  }

  lemma LoadedAt(rs: map<Text, Row>, now: int, ids: seq<Text>, cap: Text, i: nat)
    requires RowsOk(rs, now) && i < |Loaded(rs, ids, cap)|
    ensures var l, mine := Loaded(rs, ids, cap), Filter(ids, About(rs, cap));
      |l| == |mine| && l[i].record == mine[i] && OfCap(rs, cap, mine[i]) && Matches(rs[mine[i]].body.p, l[i])
  {
    var mine := Filter(ids, About(rs, cap));
    assert mine[i] in mine && OfCap(rs, cap, mine[i]) && OutcomeOk(mine[i], rs[mine[i]]);
  }

  /** A new registry mirrors the store. */
  lemma LoadedMirrors(rs: map<Text, Row>, now: int, ids: seq<Text>, cap: Text, h: seq<Entry>, strict: bool)
    requires Listing(rs, Lit(HistoryRecord), Null, ids) && RowsOk(rs, now) && Mirrors(rs, cap, h, strict)
    ensures Mirrors(rs, cap, Loaded(rs, ids, cap), strict)
  {
    var mine, l := Filter(ids, About(rs, cap)), Loaded(rs, ids, cap);
    MirrorNames(rs, cap, h, ids, strict);
    forall i | 0 <= i < |l| ensures OfCap(rs, cap, l[i].record) && Matches(rs[l[i].record].body.p, l[i]) && l[i].record == mine[i] {
      LoadedAt(rs, now, ids, cap, i);
    }
    forall id | OfCap(rs, cap, id) ensures exists i :: 0 <= i < |l| && l[i].record == id {
      assert ListedAt(rs, Lit(HistoryRecord), Null, id) && id in mine;
      var i :| 0 <= i < |mine| && mine[i] == id;
      assert l[i].record == id;
    }
    LoadedInOrder(rs, now, ids, cap);
    forall i, j | 0 <= i < j < |l|
      ensures l[i].record != l[j].record && Later(At(rs, l[i].record), At(rs, l[j].record), strict)
    {
      assert mine[i] != mine[j] && At(rs, mine[i]) <= At(rs, mine[j]);
      if strict { MirrorApart(rs, cap, h, mine[i], mine[j]); }
    }
  }
}
