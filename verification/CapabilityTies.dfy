/** The failure rate of the last hundred outcomes, live and after a restart, when outcomes share a
    timestamp. */
module CapabilityTies {
  import opened Ledger
  import opened StoreSpec
  import opened Lists
  import W = Windows
  import opened Capabilities
  import opened CapabilityRuns
  import opened CapabilityGuarantees
  import opened CapabilityRestart

  /** No outcome inside the window of the last hundred shares its timestamp with one before it, or all
      that share that timestamp succeeded alike. */
  predicate EdgeIsSettled(rs: map<Text, Row>, h: seq<Entry>) {
    |h| > 100 ==>
      (var e := |h| - 100;
       At(rs, h[e - 1].record) != At(rs, h[e].record)
       || forall i, j :: 0 <= i < |h| && 0 <= j < |h|
            && At(rs, h[i].record) == At(rs, h[e].record) && At(rs, h[j].record) == At(rs, h[e].record)
            ==> h[i].success == h[j].success)
  }

  function Stamped(rs: map<Text, Row>): Text -> int { id => At(rs, id) }
  function Failed(rs: map<Text, Row>): Text -> real { ByRow(rs, Missed()) }

  lemma FailedIs(rs: map<Text, Row>, cap: Text, h: seq<Entry>, strict: bool, i: nat)
    requires Mirrors(rs, cap, h, strict) && i < |h|
    ensures Failed(rs)(h[i].record) == One(!h[i].success) == Missed()(h[i])
  {
    EntryAgrees(rs, cap, h, strict, i);
  }

  lemma AllFailed(rs: map<Text, Row>, cap: Text, h: seq<Entry>, strict: bool)
    requires Mirrors(rs, cap, h, strict)
    ensures forall i :: 0 <= i < |h| ==> Failed(rs)(Records(h)[i]) == One(!h[i].success)
  {
    forall i | 0 <= i < |h| ensures Failed(rs)(Records(h)[i]) == One(!h[i].success) {
      FailedIs(rs, cap, h, strict, i);
    }
  }

  lemma EdgeIsSettledNames(rs: map<Text, Row>, h: seq<Entry>, names: seq<Text>)
    requires |h| > 100 && names == Records(h) && EdgeIsSettled(rs, h)
    requires forall i :: 0 <= i < |h| ==> Failed(rs)(names[i]) == One(!h[i].success)
    ensures W.Settled(names, Stamped(rs), Failed(rs), |h| - 100)
  {
    var e := |h| - 100;
    if At(rs, h[e - 1].record) == At(rs, h[e].record) {
      forall x, y | x in names && y in names && At(rs, x) == At(rs, names[e]) == At(rs, y) ensures Failed(rs)(x) == Failed(rs)(y) {
        var i :| 0 <= i < |names| && names[i] == x;
        var j :| 0 <= j < |names| && names[j] == y;
        assert h[i].success == h[j].success;
      }
    }
  }

  lemma NamesSettleTheEdge(rs: map<Text, Row>, h: seq<Entry>, names: seq<Text>)
    requires |h| > 100 && names == Records(h) && W.Settled(names, Stamped(rs), Failed(rs), |h| - 100)
    requires forall i :: 0 <= i < |h| ==> Failed(rs)(names[i]) == One(!h[i].success)
    ensures EdgeIsSettled(rs, h)
  {
    var e := |h| - 100;
    if At(rs, h[e - 1].record) == At(rs, h[e].record) {
      forall i, j | 0 <= i < |h| && 0 <= j < |h|
        && At(rs, h[i].record) == At(rs, h[e].record) && At(rs, h[j].record) == At(rs, h[e].record)
        ensures h[i].success == h[j].success
      {
        assert names[i] in names && names[j] in names;
        assert Failed(rs)(names[i]) == Failed(rs)(names[j]);
      }
    }
  }

  lemma EdgeMeansSettled(rs: map<Text, Row>, cap: Text, h: seq<Entry>, strict: bool)
    requires Mirrors(rs, cap, h, strict) && |h| > 100
    ensures EdgeIsSettled(rs, h) <==> W.Settled(Records(h), Stamped(rs), Failed(rs), |h| - 100)
  {
    AllFailed(rs, cap, h, strict);
    if EdgeIsSettled(rs, h) { EdgeIsSettledNames(rs, h, Records(h)); } else { EdgeIsNotSettled(rs, h, Records(h)); }
  }

  lemma EdgeIsNotSettled(rs: map<Text, Row>, h: seq<Entry>, names: seq<Text>)
    requires |h| > 100 && names == Records(h) && !EdgeIsSettled(rs, h)
    requires forall i :: 0 <= i < |h| ==> Failed(rs)(names[i]) == One(!h[i].success)
    ensures !W.Settled(names, Stamped(rs), Failed(rs), |h| - 100)
  {
    if W.Settled(names, Stamped(rs), Failed(rs), |h| - 100) { NamesSettleTheEdge(rs, h, names); }
  }

  // ---- the two windows ------------------------------------------------------------------------

  lemma LiveWindow(rs: map<Text, Row>, cap: Text, h: seq<Entry>, strict: bool)
    requires Mirrors(rs, cap, h, strict) && |h| > 100
    ensures Total(Recent(h), Missed()) == Total(Records(h)[|h| - 100..], Failed(rs))
  {
    var names, e := Records(h), |h| - 100;
    forall i | 0 <= i < 100 ensures Missed()(h[e..][i]) == Failed(rs)(names[e..][i]) {
      FailedIs(rs, cap, h, strict, e + i);
    }
    TotalPointwise(h[e..], names[e..], Missed(), Failed(rs));
  }

  lemma RebuiltWindow(rs: map<Text, Row>, ids: seq<Text>, cap: Text)
    requires |Filter(ids, About(rs, cap))| > 100
    ensures var l, mine := Loaded(rs, ids, cap), Filter(ids, About(rs, cap));
      |l| == |mine| && Total(Recent(l), Missed()) == Total(mine[|mine| - 100..], Failed(rs))
  {
    var l, mine := Loaded(rs, ids, cap), Filter(ids, About(rs, cap));
    var e := |mine| - 100;
    forall i | 0 <= i < 100 ensures Missed()(l[e..][i]) == Failed(rs)(mine[e..][i]) {
      assert mine[e + i] in mine && OfCap(rs, cap, mine[e + i]);
      assert l[e + i] == Stored(rs, mine[e + i]);
    }
    TotalPointwise(l[e..], mine[e..], Missed(), Failed(rs));
  }

  lemma NamesInOrder(rs: map<Text, Row>, now: int, cap: Text, h: seq<Entry>, ids: seq<Text>, strict: bool)
    requires Mirrors(rs, cap, h, strict) && Listing(rs, Lit(HistoryRecord), Null, ids) && RowsOk(rs, now)
    ensures W.SameElements(Records(h), Filter(ids, About(rs, cap)))
    ensures W.InOrder(Records(h), Stamped(rs)) && W.InOrder(Filter(ids, About(rs, cap)), Stamped(rs))
  {
    MirrorNames(rs, cap, h, ids, strict);
    LoadedInOrder(rs, now, ids, cap);
  }

  /** The failure rates agree exactly when the windows hold equally many failures. */
  lemma WindowDecides(rs: map<Text, Row>, now: int, cap: Text, h: seq<Entry>, ids: seq<Text>, strict: bool)
    requires Mirrors(rs, cap, h, strict) && Listing(rs, Lit(HistoryRecord), Null, ids) && RowsOk(rs, now) && h != []
    ensures var l := Loaded(rs, ids, cap);
      l != [] && |l| == |h|
      && (SameScores(LiveStats(h), RebuiltStats(l), true) <==> Total(Recent(h), Missed()) == Total(Recent(l), Missed()))
  {
    MirrorScores(rs, now, cap, h, ids, strict);
    SameSums(rs, cap, h, ids, strict);
    SameQuotient(Total(Recent(h), Missed()), Total(Recent(Loaded(rs, ids, cap)), Missed()), |Recent(h)| as real);
  }

  lemma SameQuotient(a: real, b: real, n: real)
    requires n > 0.0
    ensures a / n == b / n <==> a == b
  {
    assert a / n * n == a && b / n * n == b;
  }

  // ---- settled edges agree ------------------------------------------------------------------------

  lemma SettledWindow(rs: map<Text, Row>, now: int, cap: Text, h: seq<Entry>, ids: seq<Text>, strict: bool)
    requires Mirrors(rs, cap, h, strict) && Listing(rs, Lit(HistoryRecord), Null, ids) && RowsOk(rs, now)
    requires EdgeIsSettled(rs, h) && |h| > 100
    ensures var mine := Filter(ids, About(rs, cap));
      |mine| == |h| && Total(Records(h)[|h| - 100..], Failed(rs)) == Total(mine[|h| - 100..], Failed(rs))
  {
    EdgeMeansSettled(rs, cap, h, strict);
    NamesInOrder(rs, now, cap, h, ids, strict);
    W.SettledTotals(Records(h), Filter(ids, About(rs, cap)), Stamped(rs), Failed(rs), |h| - 100);
  }

  lemma SettledAgrees(rs: map<Text, Row>, now: int, cap: Text, h: seq<Entry>, ids: seq<Text>, strict: bool)
    requires Mirrors(rs, cap, h, strict) && Listing(rs, Lit(HistoryRecord), Null, ids) && RowsOk(rs, now)
    requires EdgeIsSettled(rs, h)
    ensures Total(Recent(h), Missed()) == Total(Recent(Loaded(rs, ids, cap)), Missed())
  {
    if |h| > 100 {
      SettledWindow(rs, now, cap, h, ids, strict);
      LiveWindow(rs, cap, h, strict);
      RebuiltWindow(rs, ids, cap);
    } else {
      SameSums(rs, cap, h, ids, strict);
    }
  }

  // ---- unsettled edges have two listings that differ ------------------------------------------------

  lemma {:induction false} SomeOrder(rs: map<Text, Row>, left: set<Text>) returns (ids: seq<Text>)
    ensures forall id :: id in ids <==> id in left
    ensures forall i, j :: 0 <= i < j < |ids| ==> ids[i] != ids[j] && NotAfter(rs, ids[i], ids[j])
  {
    if left == {} {
      ids := [];
    } else {
      OneIsOldest(rs, left);
      var id :| id in left && Oldest(rs, left, id);
      var rest := SomeOrder(rs, left - {id});
      ids := [id] + rest;
      forall i, j | 0 <= i < j < |ids| ensures ids[i] != ids[j] && NotAfter(rs, ids[i], ids[j]) {
        assert ids[j] in rest;
      }
    }
  }

  lemma SomeListing(rs: map<Text, Row>, rtype: Text, mission: Value) returns (ids: seq<Text>)
    ensures Listing(rs, rtype, mission, ids)
  {
    ids := SomeOrder(rs, set id | id in rs && ListedAt(rs, rtype, mission, id));
  }

  /** Two rows with the same timestamp may be listed the other way round. */
  lemma SwappedIsListed(rs: map<Text, Row>, now: int, ids: seq<Text>, p: nat, q: nat)
    requires Listing(rs, Lit(HistoryRecord), Null, ids) && RowsOk(rs, now) && p < q < |ids| && At(rs, ids[p]) == At(rs, ids[q])
    ensures Listing(rs, Lit(HistoryRecord), Null, W.Swapped(ids, p, q))
  {
    var swapped := W.Swapped(ids, p, q);
    forall id ensures id in swapped <==> id in ids {
      SwappedHolds(ids, p, q, id);
    }
    forall i | 0 <= i < |ids| ensures ids[i] in rs && rs[ids[i]].created.Stamp? && At(rs, ids[p]) == At(rs, ids[q]) {
      assert ids[i] in ids && IsOutcome(rs, ids[i]);
    }
    forall i, j | 0 <= i < j < |ids| ensures At(rs, ids[i]) <= At(rs, ids[j]) {
      assert NotAfter(rs, ids[i], ids[j]);
    }
    SwappedInOrder(rs, ids, p, q);
  }

  lemma SwappedHolds(ids: seq<Text>, p: nat, q: nat, id: Text)
    requires p < q < |ids|
    ensures id in W.Swapped(ids, p, q) <==> id in ids
  {
    var swapped := W.Swapped(ids, p, q);
    if id in ids {
      var i :| 0 <= i < |ids| && ids[i] == id;
      assert swapped[if i == p then q else if i == q then p else i] == id;
    }
  }

  lemma SwappedInOrder(rs: map<Text, Row>, ids: seq<Text>, p: nat, q: nat)
    requires p < q < |ids| && At(rs, ids[p]) == At(rs, ids[q])
    requires forall i, j :: 0 <= i < j < |ids| ==> ids[i] != ids[j] && At(rs, ids[i]) <= At(rs, ids[j])
    ensures var s := W.Swapped(ids, p, q);
      forall i, j :: 0 <= i < j < |s| ==> s[i] != s[j] && NotAfter(rs, s[i], s[j])
  {
    var s := W.Swapped(ids, p, q);
    assert forall i :: 0 <= i < |s| ==> s[i] == ids[if i == p then q else if i == q then p else i];
    assert forall i :: 0 <= i < |s| ==> At(rs, s[i]) == At(rs, ids[i]);
  }

  lemma {:induction false} PositionIn(s: seq<Text>, i: nat, j: nat)
    requires AllApart(s) && i < |s| && j < |s| && s[i] == s[j]
    ensures i == j
  {
  }

  /** The listing with two records of the capability the other way round. */
  lemma OtherListing(rs: map<Text, Row>, now: int, cap: Text, ids: seq<Text>, i: nat, j: nat) returns (ids': seq<Text>)
    requires Listing(rs, Lit(HistoryRecord), Null, ids) && RowsOk(rs, now)
    requires var mine := Filter(ids, About(rs, cap)); i < j < |mine| && At(rs, mine[i]) == At(rs, mine[j])
    ensures Listing(rs, Lit(HistoryRecord), Null, ids')
    ensures Filter(ids', About(rs, cap)) == W.Swapped(Filter(ids, About(rs, cap)), i, j)
  {
    var f := About(rs, cap);
    var mine := Filter(ids, f);
    FilterApart(ids, f);
    assert mine[i] in mine && mine[j] in mine;
    var p :| 0 <= p < |ids| && ids[p] == mine[i];
    var q :| 0 <= q < |ids| && ids[q] == mine[j];
    if p < q {
      var i', j' := W.FilterSwapped(ids, f, p, q);
      PositionIn(mine, i, i');
      PositionIn(mine, j, j');
      SwappedIsListed(rs, now, ids, p, q);
      ids' := W.Swapped(ids, p, q);
    } else {
      var j', i' := W.FilterSwapped(ids, f, q, p);
      PositionIn(mine, i, i');
      PositionIn(mine, j, j');
      assert false;
    }
  }

  /** Of a listing and the one with two tied records swapped, the windows differ. */
  lemma SwapDiffers(rs: map<Text, Row>, now: int, cap: Text, ids: seq<Text>, e: nat) returns (ids': seq<Text>)
    requires Listing(rs, Lit(HistoryRecord), Null, ids) && RowsOk(rs, now)
    requires var mine := Filter(ids, About(rs, cap)); 0 < e < |mine| && !W.Settled(mine, Stamped(rs), Failed(rs), e)
    ensures Listing(rs, Lit(HistoryRecord), Null, ids') && |Filter(ids', About(rs, cap))| == |Filter(ids, About(rs, cap))|
    ensures Total(Filter(ids', About(rs, cap))[e..], Failed(rs)) != Total(Filter(ids, About(rs, cap))[e..], Failed(rs))
  {
    var mine := Filter(ids, About(rs, cap));
    var i, j := W.SomeStraddle(mine, Stamped(rs), Failed(rs), e);
    ids' := OtherListing(rs, now, cap, ids, i, j);
    W.SwapChangesTotal(mine, Stamped(rs), Failed(rs), e, i, j);
  }

  lemma UnsettledDiffers(rs: map<Text, Row>, now: int, cap: Text, h: seq<Entry>, strict: bool) returns (ids: seq<Text>)
    requires Mirrors(rs, cap, h, strict) && RowsOk(rs, now) && !EdgeIsSettled(rs, h)
    ensures Listing(rs, Lit(HistoryRecord), Null, ids)
    ensures Total(Recent(h), Missed()) != Total(Recent(Loaded(rs, ids, cap)), Missed())
  {
    ids := SomeListing(rs, Lit(HistoryRecord), Null);
    UnsettledNames(rs, now, cap, h, ids, strict);
    RebuiltWindow(rs, ids, cap);
    if Total(Recent(h), Missed()) == Total(Recent(Loaded(rs, ids, cap)), Missed()) {
      var ids' := SwapDiffers(rs, now, cap, ids, |h| - 100);
      RebuiltWindow(rs, ids', cap);
      ids := ids';
    }
  }

  /** What is tied over the edge in memory is tied over the edge in every listing. */
  lemma UnsettledNames(rs: map<Text, Row>, now: int, cap: Text, h: seq<Entry>, ids: seq<Text>, strict: bool)
    requires Mirrors(rs, cap, h, strict) && RowsOk(rs, now) && !EdgeIsSettled(rs, h)
    requires Listing(rs, Lit(HistoryRecord), Null, ids)
    ensures var mine := Filter(ids, About(rs, cap));
      |mine| == |h| && !W.Settled(mine, Stamped(rs), Failed(rs), |h| - 100)
  {
    var names, mine, e := Records(h), Filter(ids, About(rs, cap)), |h| - 100;
    NamesInOrder(rs, now, cap, h, ids, strict);
    EdgeMeansSettled(rs, cap, h, strict);
    StillUnsettled(names, mine, Stamped(rs), Failed(rs), e);
  }

  lemma StillUnsettled(a: seq<Text>, b: seq<Text>, at: Text -> int, f: Text -> real, e: nat)
    requires W.SameElements(a, b) && W.InOrder(a, at) && W.InOrder(b, at) && 0 < e < |a| && !W.Settled(a, at, f, e)
    ensures |b| == |a| && !W.Settled(b, at, f, e)
  {
    var t := at(a[e]);
    var k := W.SomeBegin(a, at, t);
    var m := W.SomeBegin(a, at, t + 1);
    W.SameBegin(a, b, at, t, k);
    W.SameBegin(a, b, at, t + 1, m);
    assert k < e < m;
    assert at(b[e]) == t && at(b[e - 1]) == t;
  }

  // ---- the exact condition --------------------------------------------------------------------------

  ghost predicate AlwaysAgrees(s: State, cap: Text) {
    forall ids :: Listing(s.rs, Lit(HistoryRecord), Null, ids) ==> Agrees(s, ids, cap, true)
  }

  lemma AgreesExactlyWhen(s: Sys, cap: Text, strict: bool)
    requires Good(s, strict)
    ensures AlwaysAgrees(s.state, cap) <==> EdgeIsSettled(s.state.rs, HistoryOf(s.state.reg.history, cap))
  {
    var rs, h := s.state.rs, HistoryOf(s.state.reg.history, cap);
    assert Mirrors(rs, cap, h, strict) && ScoreOk(s.state.reg, cap);
    if EdgeIsSettled(rs, h) {
      forall ids | Listing(rs, Lit(HistoryRecord), Null, ids) ensures Agrees(s.state, ids, cap, true) {
        SettledListing(s, cap, ids, strict);
      }
    } else {
      var ids := UnsettledDiffers(rs, s.now, cap, h, strict);
      UnsettledListing(s, cap, ids, strict);
    }
  }

  lemma SettledListing(s: Sys, cap: Text, ids: seq<Text>, strict: bool)
    requires Good(s, strict) && Listing(s.state.rs, Lit(HistoryRecord), Null, ids)
    requires EdgeIsSettled(s.state.rs, HistoryOf(s.state.reg.history, cap))
    ensures Agrees(s.state, ids, cap, true)
  {
    var rs, h := s.state.rs, HistoryOf(s.state.reg.history, cap);
    assert Mirrors(rs, cap, h, strict) && ScoreOk(s.state.reg, cap);
    GoodAgrees(s, ids, cap, strict);
    RebuiltHistory(rs, s.now, ids, cap);
    if h != [] {
      SettledAgrees(rs, s.now, cap, h, ids, strict);
      WindowDecides(rs, s.now, cap, h, ids, strict);
    }
  }

  lemma UnsettledListing(s: Sys, cap: Text, ids: seq<Text>, strict: bool)
    requires Good(s, strict) && Listing(s.state.rs, Lit(HistoryRecord), Null, ids)
    requires var h := HistoryOf(s.state.reg.history, cap);
      h != [] && Total(Recent(h), Missed()) != Total(Recent(Loaded(s.state.rs, ids, cap)), Missed())
    ensures !Agrees(s.state, ids, cap, true)
  {
    var rs, h := s.state.rs, HistoryOf(s.state.reg.history, cap);
    assert Mirrors(rs, cap, h, strict) && ScoreOk(s.state.reg, cap);
    RebuiltHistory(rs, s.now, ids, cap);
    WindowDecides(rs, s.now, cap, h, ids, strict);
  }

  /** After any faithful run whose clock does not go back, a registry rebuilt from whatever order the
      store lists ties in has every live score exactly when no outcome of the window shares its
      timestamp with one before it, or those that share it succeeded alike. */
  lemma {:induction false} RestartAgreesExactlyWhen(moves: seq<Move>, cap: Text)
    requires FaithfulRun(moves, false)
    ensures AlwaysAgrees(Run(moves).state, cap)
            <==> EdgeIsSettled(Run(moves).state.rs, HistoryOf(Run(moves).state.reg.history, cap))
  {
    RunIsGood(moves, false);
    AgreesExactlyWhen(Run(moves), cap, false);
  }
}
