/** In every faithful run a restarted registry scores as the live one; and exactly which calls break it. */
module CapabilityRestart {
  import opened Ledger
  import opened StoreSpec
  import opened Lists
  import opened Capabilities
  import opened CapabilityRuns
  import opened CapabilityGuarantees

  // ---- updating -------------------------------------------------------------------------------

  /** Whatever is recorded, memory and store stay in step until the evidence is overwritten. */
  lemma RecordedMirrors(
    rs: map<Text, Row>, now: int, h: seq<Entry>, cap: Text, r: Report, gen: Fresh, strict: bool)
    requires RowsOk(rs, now) && Mirrors(rs, cap, h, strict) && cap != EMPTY
    requires gen.record !in rs && Later(now, gen.at, strict)
    ensures Mirrors(RowsAfter(rs, h, cap, r, gen), cap, Recorded(rs, h, r, gen), strict)
  {
    if !Known(rs, h, r.key) {
      SavedIsOneMore(rs, cap, r, gen);
      NewMatches(cap, r, gen);
      MoreMirrors(rs, RowsAfter(rs, h, cap, r, gen), cap, gen.record, now, gen.at, h, NewEntry(r, gen), strict);
    }
  }

  lemma OthersStayMirrored(
    rs: map<Text, Row>, h: seq<Entry>, cap: Text, r: Report, gen: Fresh, d: Text, other: seq<Entry>, strict: bool)
    requires Mirrors(rs, d, other, strict) && d != cap && cap != EMPTY && gen.record !in rs
    ensures Mirrors(RowsAfter(rs, h, cap, r, gen), d, other, strict)
  {
    if !Known(rs, h, r.key) {
      SavedIsOneMore(rs, cap, r, gen);
      OthersMirror(rs, RowsAfter(rs, h, cap, r, gen), cap, gen.record, gen.at, d, other, strict);
    }
  }

  lemma TargetOfNew(rs: map<Text, Row>, h: seq<Entry>, r: Report, gen: Fresh)
    requires !Known(rs, h, r.key)
    ensures Target(h + [NewEntry(r, gen)], r.key) == |h|
  {
    var h1 := h + [NewEntry(r, gen)];
    assert forall i :: 0 <= i < |h| ==> h1[i] == h[i];
  }

  /** A call is faithful exactly when it marks its entry as the entry is marked. */
  lemma FaithfulMeans(rs: map<Text, Row>, h: seq<Entry>, r: Report, gen: Fresh)
    ensures var h1 := Recorded(rs, h, r, gen);
      Faithful(rs, h, r) <==> (h1 == [] || (r.evidence == [] <==> h1[Target(h1, r.key)].evidence == []))
  {
    if !Known(rs, h, r.key) {
      TargetOfNew(rs, h, r, gen);
    } else if HasKey(h, r.key) {
      assert h != [];
    }
  }

  lemma KeysStayApart(rs: map<Text, Row>, now: int, h: seq<Entry>, cap: Text, r: Report, gen: Fresh)
    requires KeysOk(rs) && RowsOk(rs, now) && cap != EMPTY && gen.record !in rs && now <= gen.at
    ensures KeysOk(RowsAfter(rs, h, cap, r, gen)) && RowsOk(RowsAfter(rs, h, cap, r, gen), gen.at)
  {
    if !Known(rs, h, r.key) {
      var rs' := RowsAfter(rs, h, cap, r, gen);
      SavedIsOneMore(rs, cap, r, gen);
      OutcomeFacts(cap, r, gen);
      forall id | IsOutcome(rs', id) ensures OutcomeOk(id, rs'[id]) && At(rs', id) <= gen.at {
        if id != gen.record { assert IsOutcome(rs, id); }
      }
      forall key, a, b | key != EMPTY && Holds(rs', key, a) && Holds(rs', key, b) ensures a == b {
        assert a != gen.record ==> Holds(rs, key, a);
        assert b != gen.record ==> Holds(rs, key, b);
        assert !KeyStored(rs, r.key);
      }
    }
  }

  lemma AfterUpdate(s: State, cap: Text, r: Report, gen: Fresh)
    requires cap in s.reg.scores
    ensures var h, s' := HistoryOf(s.reg.history, cap), UpdateScore(s, cap, r, gen);
      var h' := HistoryAfter(s.rs, h, r, gen);
      s'.rs == RowsAfter(s.rs, h, cap, r, gen) && HistoryOf(s'.reg.history, cap) == h'
      && (forall d :: d != cap ==> HistoryOf(s'.reg.history, d) == HistoryOf(s.reg.history, d))
      && s'.reg.scores == s.reg.scores[cap := Rescored(s.reg.scores[cap], h')]
  {
    var h := HistoryOf(s.reg.history, cap);
    assert HistoryAfter(s.rs, h, r, gen) == [] ==> h == [];
  }

  lemma UpdateMirrors(s: Sys, cap: Text, r: Report, gen: Fresh, strict: bool, d: Text)
    requires Good(s, strict) && Allowed(s, Scored(cap, r, gen), strict) && cap in s.state.reg.scores
    ensures var s' := UpdateScore(s.state, cap, r, gen); Mirrors(s'.rs, d, HistoryOf(s'.reg.history, d), strict)
  {
    var rs, history, s' := s.state.rs, s.state.reg.history, UpdateScore(s.state, cap, r, gen);
    var h := HistoryOf(history, cap);
    AfterUpdate(s.state, cap, r, gen);
    assert Mirrors(rs, d, HistoryOf(history, d), strict);
    if d == cap {
      RecordedMirrors(rs, s.now, h, cap, r, gen, strict);
      FaithfulMeans(rs, h, r, gen);
      MarkedMirrors(s'.rs, cap, Recorded(rs, h, r, gen), r.key, r.evidence, strict);
    } else {
      OthersStayMirrored(rs, h, cap, r, gen, d, HistoryOf(history, d), strict);
    }
  }

  lemma UpdateScores(s: State, cap: Text, r: Report, gen: Fresh)
    requires ScoresOk(s.reg) && cap in s.reg.scores
    ensures ScoresOk(UpdateScore(s, cap, r, gen).reg)
  {
    AfterUpdate(s, cap, r, gen);
    var reg' := UpdateScore(s, cap, r, gen).reg;
    forall d ensures ScoreOk(reg', d) {
      assert ScoreOk(s.reg, d);
    }
  }

  lemma UpdateIsGood(s: Sys, cap: Text, r: Report, gen: Fresh, strict: bool)
    requires Good(s, strict) && Allowed(s, Scored(cap, r, gen), strict)
    ensures Good(Do(s, Scored(cap, r, gen)), strict)
  {
    var s' := UpdateScore(s.state, cap, r, gen);
    if cap in s.state.reg.scores {
      AfterUpdate(s.state, cap, r, gen);
      KeysStayApart(s.state.rs, s.now, HistoryOf(s.state.reg.history, cap), cap, r, gen);
      UpdateScores(s.state, cap, r, gen);
      forall d ensures Mirrors(s'.rs, d, HistoryOf(s'.reg.history, d), strict) {
        UpdateMirrors(s, cap, r, gen, strict, d);
      }
    }
  }

  // ---- the other moves ------------------------------------------------------------------------

  lemma RegisterIsGood(s: Sys, cap: Text, strict: bool)
    requires Good(s, strict) && Allowed(s, Registered(cap), strict)
    ensures Good(Do(s, Registered(cap)), strict)
  {
    var s' := Register(s.state, cap);
    forall d ensures Mirrors(s'.rs, d, HistoryOf(s'.reg.history, d), strict) {
      assert Mirrors(s.state.rs, d, HistoryOf(s.state.reg.history, d), strict);
    }
    forall d ensures ScoreOk(s'.reg, d) {
      assert ScoreOk(s.state.reg, d);
    }
  }

  lemma OnePieceEach(rs: map<Text, Row>, ids: seq<Text>, cap: Text)
    ensures Total(Loaded(rs, ids, cap), Marks()) == Total(Loaded(rs, ids, cap), Pieces())
  {
    var l, mine := Loaded(rs, ids, cap), Filter(ids, About(rs, cap));
    forall i | 0 <= i < |l| ensures Marks()(l[i]) == Pieces()(l[i]) {
      assert mine[i] in mine;
      OnePiece(rs[mine[i]].body.p);
    }
    TotalPointwise(l, l, Marks(), Pieces());
  }

  lemma RestartIsGood(s: Sys, ids: seq<Text>, strict: bool)
    requires Good(s, strict) && Allowed(s, Restarted(ids), strict)
    ensures Good(Do(s, Restarted(ids)), strict)
  {
    var rs, reg' := s.state.rs, Rebuilt(s.state.rs, ids);
    forall cap ensures Mirrors(rs, cap, HistoryOf(reg'.history, cap), strict) && ScoreOk(reg', cap) {
      assert Mirrors(rs, cap, HistoryOf(s.state.reg.history, cap), strict);
      RebuiltHistory(rs, s.now, ids, cap);
      LoadedMirrors(rs, s.now, ids, cap, HistoryOf(s.state.reg.history, cap), strict);
      OnePieceEach(rs, ids, cap);
    }
  }

  lemma ElsewhereIsGood(s: Sys, rs': map<Text, Row>, strict: bool)
    requires Good(s, strict) && Leaves(s.state.rs, rs')
    ensures Good(Do(s, Elsewhere(rs')), strict)
  {
    var rs := s.state.rs;
    forall cap ensures Mirrors(rs', cap, HistoryOf(s.state.reg.history, cap), strict) {
      var h := HistoryOf(s.state.reg.history, cap);
      assert Mirrors(rs, cap, h, strict);
      LeftMirrors(rs, rs', cap, h, strict);
    }
    forall id | IsOutcome(rs', id) ensures OutcomeOk(id, rs'[id]) && At(rs', id) <= s.now {
      assert IsOutcome(rs, id);
    }
    forall key, a, b | key != EMPTY && Holds(rs', key, a) && Holds(rs', key, b) ensures a == b {
      assert Holds(rs, key, a) && Holds(rs, key, b);
    }
  }

  lemma LeftOfCap(rs: map<Text, Row>, rs': map<Text, Row>, cap: Text, id: Text)
    requires Leaves(rs, rs')
    ensures OfCap(rs', cap, id) <==> OfCap(rs, cap, id)
    ensures OfCap(rs, cap, id) ==> id in rs' && rs'[id] == rs[id]
  {
    assert IsOutcome(rs, id) || IsOutcome(rs', id) ==> rs'[id] == rs[id];
  }

  lemma LeftMirrors(rs: map<Text, Row>, rs': map<Text, Row>, cap: Text, h: seq<Entry>, strict: bool)
    requires Mirrors(rs, cap, h, strict) && Leaves(rs, rs')
    ensures Mirrors(rs', cap, h, strict)
  {
    forall i | 0 <= i < |h| ensures OfCap(rs', cap, h[i].record) && Matches(rs'[h[i].record].body.p, h[i])
                                    && At(rs', h[i].record) == At(rs, h[i].record) {
      LeftOfCap(rs, rs', cap, h[i].record);
    }
    forall id | OfCap(rs', cap, id) ensures exists i :: 0 <= i < |h| && h[i].record == id {
      LeftOfCap(rs, rs', cap, id);
    }
  }

  lemma MoveIsGood(s: Sys, m: Move, strict: bool)
    requires Good(s, strict) && Allowed(s, m, strict)
    ensures Good(Do(s, m), strict)
  {
    match m
    case Registered(cap) => RegisterIsGood(s, cap, strict);
    case Scored(cap, r, gen) => UpdateIsGood(s, cap, r, gen, strict);
    case Restarted(ids) => RestartIsGood(s, ids, strict);
    case Elsewhere(rs) => ElsewhereIsGood(s, rs, strict);
  }

  lemma {:induction false} RunIsGood(moves: seq<Move>, strict: bool)
    requires FaithfulRun(moves, strict)
    ensures Good(Run(moves), strict)
  {
    if moves != [] {
      RunIsGood(moves[..|moves| - 1], strict);
      MoveIsGood(Run(moves[..|moves| - 1]), moves[|moves| - 1], strict);
    }
  }

  // ---- what every run guarantees ----------------------------------------------------------------

  /** A rebuilt registry has a score for the capability exactly when the live one has outcomes, and it
      is the live score. */
  ghost predicate Agrees(s: State, ids: seq<Text>, cap: Text, strict: bool) {
    var h, rebuilt := HistoryOf(s.reg.history, cap), Rebuilt(s.rs, ids);
    (cap in rebuilt.scores <==> h != [])
    && (h != [] ==>
          cap in s.reg.scores
          && SameScores(s.reg.scores[cap].stats, rebuilt.scores[cap].stats, strict || |h| <= 100))
  }

  lemma GoodAgrees(s: Sys, ids: seq<Text>, cap: Text, strict: bool)
    requires Good(s, strict) && Listing(s.state.rs, Lit(HistoryRecord), Null, ids)
    ensures Agrees(s.state, ids, cap, strict)
  {
    var rs, h := s.state.rs, HistoryOf(s.state.reg.history, cap);
    assert Mirrors(rs, cap, h, strict) && ScoreOk(s.state.reg, cap);
    RebuiltHistory(rs, s.now, ids, cap);
    SameSums(rs, cap, h, ids, strict);
    if h != [] { MirrorScores(rs, s.now, cap, h, ids, strict); }
  }

  /** After any faithful run, with restarts anywhere in it, a registry rebuilt from the store has the
      live success rate, averages, evidence count and confidence for every capability; and the same
      failure rate over the last hundred outcomes, if the clock moves between calls or there are no
      more than a hundred. */
  lemma {:induction false} RestartAgrees(moves: seq<Move>, ids: seq<Text>, cap: Text, strict: bool)
    requires FaithfulRun(moves, strict) && Listing(Run(moves).state.rs, Lit(HistoryRecord), Null, ids)
    ensures Agrees(Run(moves).state, ids, cap, strict)
  {
    RunIsGood(moves, strict);
    GoodAgrees(Run(moves), ids, cap, strict);
  }

  lemma MarkedTotal(h: seq<Entry>, key: Text, evidence: seq<Text>)
    requires h != []
    ensures Total(Marked(h, key, evidence), Marks())
            == Total(h, Marks()) - One(h[Target(h, key)].evidence != []) + One(evidence != [])
  {
    TotalReplaced(h, Marks(), Target(h, key), h[Target(h, key)].(evidence := evidence));
  }

  lemma UpdateAgreesExactlyWhen(s: Sys, cap: Text, r: Report, gen: Fresh, ids: seq<Text>, strict: bool)
    requires Good(s, strict) && Timely(s, gen, strict) && cap in s.state.reg.scores
    requires Listing(UpdateScore(s.state, cap, r, gen).rs, Lit(HistoryRecord), Null, ids)
    ensures Agrees(UpdateScore(s.state, cap, r, gen), ids, cap, strict)
            <==> Faithful(s.state.rs, HistoryOf(s.state.reg.history, cap), r)
  {
    var rs, reg, s' := s.state.rs, s.state.reg, UpdateScore(s.state, cap, r, gen);
    var h := HistoryOf(reg.history, cap);
    var h1 := Recorded(rs, h, r, gen);
    if Faithful(rs, h, r) {
      UpdateIsGood(s, cap, r, gen, strict);
      GoodAgrees(Do(s, Scored(cap, r, gen)), ids, cap, strict);
    } else {
      AfterUpdate(s.state, cap, r, gen);
      assert Mirrors(rs, cap, h, strict);
      RecordedMirrors(rs, s.now, h, cap, r, gen, strict);
      KeysStayApart(rs, s.now, h, cap, r, gen);
      FaithfulMeans(rs, h, r, gen);
      RebuiltHistory(s'.rs, gen.at, ids, cap);
      SameEvidence(s'.rs, cap, h1, ids, strict);
      MarkedTotal(h1, r.key, r.evidence);
    }
  }

  /** After a faithful run, one more `update_score`, whatever its arguments, leaves a rebuilt registry in
      agreement exactly when its evidence is empty just where the stored evidence id is. It fails for
      evidence that starts with an empty id, for a key replayed with evidence where there was none, or
      none where there was, and for a key of another capability, which marks this one's last entry. */
  lemma {:induction false} UpdateKeepsAgreementExactlyWhen(
    moves: seq<Move>, cap: Text, r: Report, gen: Fresh, ids: seq<Text>, strict: bool)
    requires FaithfulRun(moves, strict) && Timely(Run(moves), gen, strict) && cap in Run(moves).state.reg.scores
    requires Listing(UpdateScore(Run(moves).state, cap, r, gen).rs, Lit(HistoryRecord), Null, ids)
    ensures Agrees(UpdateScore(Run(moves).state, cap, r, gen), ids, cap, strict)
            <==> Faithful(Run(moves).state.rs, HistoryOf(Run(moves).state.reg.history, cap), r)
  {
    RunIsGood(moves, strict);
    UpdateAgreesExactlyWhen(Run(moves), cap, r, gen, ids, strict);
  }

  /** Registering a capability forgets its outcomes in memory alone: a rebuilt registry agrees exactly
      when none is stored. */
  lemma {:induction false} RegisterKeepsAgreementExactlyWhen(moves: seq<Move>, cap: Text, ids: seq<Text>, strict: bool)
    requires FaithfulRun(moves, strict) && cap != EMPTY && Listing(Run(moves).state.rs, Lit(HistoryRecord), Null, ids)
    ensures Agrees(Register(Run(moves).state, cap), ids, cap, strict) <==> !HasRecords(Run(moves).state.rs, cap)
  {
    RunIsGood(moves, strict);
    var s := Run(moves);
    var mine := Filter(ids, About(s.state.rs, cap));
    RebuiltHistory(s.state.rs, s.now, ids, cap);
    if HasRecords(s.state.rs, cap) {
      var id :| OfCap(s.state.rs, cap, id);
      assert ListedAt(s.state.rs, Lit(HistoryRecord), Null, id) && id in mine;
    } else {
      FilterEmpty(ids, About(s.state.rs, cap));
    }
  }

  /** At most one outcome is ever stored under a key, whatever the capability. */
  lemma {:induction false} OneOutcomePerKey(moves: seq<Move>, strict: bool, key: Text, a: Text, b: Text)
    requires FaithfulRun(moves, strict) && key != EMPTY
    requires Holds(Run(moves).state.rs, key, a) && Holds(Run(moves).state.rs, key, b)
    ensures a == b
  {
    RunIsGood(moves, strict);
  }

  // ---- replay ---------------------------------------------------------------------------------

  ghost predicate Covered(h: seq<Entry>, known: seq<Text>) {
    forall i, id :: 0 <= i < |h| && id in h[i].evidence && id != EMPTY ==> id in known
  }

  lemma {:induction false} SourceIsListed(h: seq<Entry>, known: seq<Text>, i: nat, id: Text)
    requires i < |h| && id in h[i].evidence && id != EMPTY && id !in known
    ensures id in NewSources(h, known)
  {
    if i < |h| - 1 {
      SourceIsListed(h[..|h| - 1], known, i, id);
    } else {
      assert id in Filter(h[|h| - 1].evidence, Unlisted(known));
    }
  }

  lemma NewSourcesCover(h: seq<Entry>, known: seq<Text>)
    ensures Covered(h, known + NewSources(h, known))
  {
    forall i, id | 0 <= i < |h| && id in h[i].evidence && id != EMPTY ensures id in known + NewSources(h, known) {
      if id !in known { SourceIsListed(h, known, i, id); }
    }
  }

  lemma {:induction false} NothingNew(h: seq<Entry>, known: seq<Text>)
    requires Covered(h, known)
    ensures NewSources(h, known) == []
  {
    if h != [] {
      assert forall i :: 0 <= i < |h| - 1 ==> h[..|h| - 1][i] == h[i];
      NothingNew(h[..|h| - 1], known);
      FilterEmpty(h[|h| - 1].evidence, Unlisted(known));
    }
  }

  lemma RescoredTwice(score: Score, h: seq<Entry>)
    ensures Rescored(Rescored(score, h), h) == Rescored(score, h)
  {
    NewSourcesCover(h, score.sources);
    NothingNew(h, score.sources + NewSources(h, score.sources));
  }

  lemma MarkedKeeps(h: seq<Entry>, key: Text, evidence: seq<Text>)
    ensures var h' := Marked(h, key, evidence);
      (HasKey(h', key) <==> HasKey(h, key)) && Marked(h', key, evidence) == h'
  {
    var h' := Marked(h, key, evidence);
    assert forall i :: 0 <= i < |h| ==> h'[i].key == h[i].key;
    if HasKey(h, key) {
      var i := FirstWith(h, key);
      assert h'[i].key == key && HasKey(h', key);
      var j := FirstWith(h', key);
      assert h'[j].key == h[j].key;
    }
  }

  lemma RepeatedHistory(rs: map<Text, Row>, h: seq<Entry>, cap: Text, r: Report, gen: Fresh, again: Fresh)
    requires r.key != EMPTY
    ensures var rs', h' := RowsAfter(rs, h, cap, r, gen), HistoryAfter(rs, h, r, gen);
      Known(rs', h', r.key) && HistoryAfter(rs', h', r, again) == h'
  {
    var h1 := Recorded(rs, h, r, gen);
    MarkedKeeps(h1, r.key, r.evidence);
    if !Known(rs, h, r.key) {
      assert h1[|h|].key == r.key && HasKey(h1, r.key);
    }
  }

  /** Repeating an `update_score` under its key changes nothing: no record, no entry, no score, no
      source. */
  lemma RepeatChangesNothing(s: State, cap: Text, r: Report, gen: Fresh, again: Fresh)
    requires r.key != EMPTY
    ensures var s' := UpdateScore(s, cap, r, gen); UpdateScore(s', cap, r, again) == s'
  {
    if cap in s.reg.scores {
      var h, s' := HistoryOf(s.reg.history, cap), UpdateScore(s, cap, r, gen);
      AfterUpdate(s, cap, r, gen);
      RepeatedHistory(s.rs, h, cap, r, gen, again);
      RescoredTwice(s.reg.scores[cap], HistoryAfter(s.rs, h, r, gen));
      SameAgain(s', cap, r, again, HistoryAfter(s.rs, h, r, gen));
    }
  }

  lemma SameAgain(s: State, cap: Text, r: Report, gen: Fresh, h: seq<Entry>)
    requires cap in s.reg.scores && HistoryOf(s.reg.history, cap) == h && Known(s.rs, h, r.key)
    requires HistoryAfter(s.rs, h, r, gen) == h && Rescored(s.reg.scores[cap], h) == s.reg.scores[cap]
    ensures UpdateScore(s, cap, r, gen) == s
  {
    assert h != [] ==> s.reg.history[cap := h] == s.reg.history;
    assert s.reg.scores[cap := s.reg.scores[cap]] == s.reg.scores;
  }
}
