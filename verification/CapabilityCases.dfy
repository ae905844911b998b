/** Runs that calls can really make after which a restarted registry scores differently, and exactly
    when recording an outcome without rescoring does. */
module CapabilityCases {
  import opened Ledger
  import opened StoreSpec
  import opened Lists
  import opened Capabilities
  import opened CapabilityRuns
  import opened CapabilityGuarantees
  import opened CapabilityRestart
  import opened CapabilityTies

  // ---- building runs ------------------------------------------------------------------------

  lemma {:induction false} OneMove(moves: seq<Move>, m: Move, strict: bool)
    requires FaithfulRun(moves, strict) && Allowed(Run(moves), m, strict)
    ensures FaithfulRun(moves + [m], strict) && Run(moves + [m]) == Do(Run(moves), m)
  {
    LastMove(moves + [m], moves, m, strict);
  }

  lemma {:induction false} LastMove(all: seq<Move>, moves: seq<Move>, m: Move, strict: bool)
    requires |all| > 0 && all[..|all| - 1] == moves && all[|all| - 1] == m
    requires FaithfulRun(moves, strict) && Allowed(Run(moves), m, strict)
    ensures FaithfulRun(all, strict) && Run(all) == Do(Run(moves), m)
  {
  }

  function RecordAt(k: int): Text { Key(HistoryRecord, Stamp(k)) }

  /** Only records made before the n-th outcome. */
  ghost predicate RecordsUpTo(rs: map<Text, Row>, n: int) {
    forall id :: id in rs ==> exists k :: k < n && id == RecordAt(k)
  }

  lemma NextRecordIsNew(rs: map<Text, Row>, n: int)
    requires RecordsUpTo(rs, n)
    ensures RecordAt(n) !in rs
  {
  }

  lemma RecordsGoOn(rs: map<Text, Row>, n: int, h: seq<Entry>, cap: Text, r: Report, gen: Fresh)
    requires RecordsUpTo(rs, n) && gen.record == RecordAt(n)
    ensures RecordsUpTo(RowsAfter(rs, h, cap, r, gen), n + 1)
  {
    var rs' := RowsAfter(rs, h, cap, r, gen);
    forall id | id in rs' ensures exists k :: k < n + 1 && id == RecordAt(k) {
      if id in rs {
        var k :| k < n && id == RecordAt(k);
        assert k < n + 1;
      } else {
        assert id == RecordAt(n);
      }
    }
  }

  /** A report without evidence and without a key. */
  function Plain(success: bool): Report {
    Report(Null, success, 0.0, 0.0, [], EMPTY, map[])
  }

  lemma PlainIsFaithful(rs: map<Text, Row>, h: seq<Entry>, success: bool)
    ensures Faithful(rs, h, Plain(success)) && !Known(rs, h, EMPTY)
  {
  }

  // ---- a hundred and one outcomes at one moment -------------------------------------------------

  ghost function TiedMoves(cap: Text, n: nat): seq<Move> {
    if n == 0 then [Registered(cap)] else TiedMoves(cap, n - 1) + [Scored(cap, Plain(n > 1), Fresh(RecordAt(n - 1), 1))]
  }

  /** The first failed, the others succeeded, all at the same time. */
  ghost predicate Tied(rs: map<Text, Row>, h: seq<Entry>, n: nat) {
    |h| == n
    && forall i :: 0 <= i < n ==> h[i].record == RecordAt(i) && h[i].success == (i > 0) && At(rs, h[i].record) == 1
                                  && h[i].record in rs
  }

  ghost predicate TiedState(s: Sys, cap: Text, n: nat) {
    cap in s.state.reg.scores && s.now <= 1 && RecordsUpTo(s.state.rs, n)
    && Tied(s.state.rs, HistoryOf(s.state.reg.history, cap), n)
  }

  lemma TiedNext(rs: map<Text, Row>, rs': map<Text, Row>, cap: Text, h: seq<Entry>, h': seq<Entry>, n: nat)
    requires Tied(rs, h, n) && OneMore(rs, rs', cap, RecordAt(n), 1)
    requires |h'| == n + 1 && h'[n].record == RecordAt(n) && h'[n].success == (n > 0)
    requires forall i :: 0 <= i < n ==> h'[i].record == h[i].record && h'[i].success == h[i].success
    ensures Tied(rs', h', n + 1)
  {
  }

  lemma TiedStep(s: Sys, cap: Text, n: nat)
    requires TiedState(s, cap, n) && cap != EMPTY
    ensures var m := Scored(cap, Plain(n > 0), Fresh(RecordAt(n), 1)); Allowed(s, m, false) && TiedState(Do(s, m), cap, n + 1)
  {
    var rs, h, r, gen := s.state.rs, HistoryOf(s.state.reg.history, cap), Plain(n > 0), Fresh(RecordAt(n), 1);
    NextRecordIsNew(rs, n);
    PlainIsFaithful(rs, h, n > 0);
    AfterUpdate(s.state, cap, r, gen);
    RecordsGoOn(rs, n, h, cap, r, gen);
    SavedIsOneMore(rs, cap, r, gen);
    TiedHistory(rs, h, cap, n);
    TiedNext(rs, RowsAfter(rs, h, cap, r, gen), cap, h, HistoryAfter(rs, h, r, gen), n);
  }

  lemma TiedHistory(rs: map<Text, Row>, h: seq<Entry>, cap: Text, n: nat)
    requires |h| == n
    ensures var r, gen := Plain(n > 0), Fresh(RecordAt(n), 1);
      var h' := HistoryAfter(rs, h, r, gen);
      |h'| == n + 1 && h'[n].record == RecordAt(n) && h'[n].success == (n > 0)
      && forall i :: 0 <= i < n ==> h'[i].record == h[i].record && h'[i].success == h[i].success
  {
    PlainIsFaithful(rs, h, n > 0);
  }

  lemma {:induction false} TiedRun(cap: Text, n: nat)
    requires cap != EMPTY
    ensures FaithfulRun(TiedMoves(cap, n), false) && TiedState(Run(TiedMoves(cap, n)), cap, n)
  {
    if n == 0 {
      OneMove([], Registered(cap), false);
      assert [] + [Registered(cap)] == [Registered(cap)];
    } else {
      TiedRun(cap, n - 1);
      TiedStep(Run(TiedMoves(cap, n - 1)), cap, n - 1);
      OneMove(TiedMoves(cap, n - 1), Scored(cap, Plain(n > 1), Fresh(RecordAt(n - 1), 1)), false);
    }
  }

  /** A capability registered and scored a hundred and one times at one moment, the first time as a
      failure: the store may list its outcomes so that a restart has another failure rate. */
  lemma {:induction false} TiedRunDisagrees(cap: Text) returns (moves: seq<Move>, ids: seq<Text>)
    requires cap != EMPTY
    ensures moves == TiedMoves(cap, 101) && FaithfulRun(moves, false)
    ensures Listing(Run(moves).state.rs, Lit(HistoryRecord), Null, ids) && !Agrees(Run(moves).state, ids, cap, true)
  {
    moves := TiedMoves(cap, 101);
    TiedRun(cap, 101);
    TiedIsUnsettled(Run(moves), cap);
    RestartAgreesExactlyWhen(moves, cap);
    ids :| Listing(Run(moves).state.rs, Lit(HistoryRecord), Null, ids) && !Agrees(Run(moves).state, ids, cap, true);
  }

  lemma TiedIsUnsettled(s: Sys, cap: Text)
    requires TiedState(s, cap, 101)
    ensures !EdgeIsSettled(s.state.rs, HistoryOf(s.state.reg.history, cap))
  {
    var h := HistoryOf(s.state.reg.history, cap);
    assert At(s.state.rs, h[0].record) == At(s.state.rs, h[1].record) && h[0].success != h[1].success;
  }

  // ---- three updates that restart differently ---------------------------------------------------------

  /** After the update a rebuilt registry disagrees, whatever order the store lists the outcomes in. */
  ghost predicate Departs(moves: seq<Move>, cap: Text, r: Report, gen: Fresh) {
    FaithfulRun(moves, true) && Timely(Run(moves), gen, true) && cap in Run(moves).state.reg.scores
    && forall ids :: Listing(UpdateScore(Run(moves).state, cap, r, gen).rs, Lit(HistoryRecord), Null, ids) ==>
         !Agrees(UpdateScore(Run(moves).state, cap, r, gen), ids, cap, true)
  }

  lemma {:induction false} UnfaithfulDeparts(moves: seq<Move>, cap: Text, r: Report, gen: Fresh)
    requires FaithfulRun(moves, true) && Timely(Run(moves), gen, true) && cap in Run(moves).state.reg.scores
    requires !Faithful(Run(moves).state.rs, HistoryOf(Run(moves).state.reg.history, cap), r)
    ensures Departs(moves, cap, r, gen)
  {
    forall ids | Listing(UpdateScore(Run(moves).state, cap, r, gen).rs, Lit(HistoryRecord), Null, ids)
      ensures !Agrees(UpdateScore(Run(moves).state, cap, r, gen), ids, cap, true)
    {
      UpdateKeepsAgreementExactlyWhen(moves, cap, r, gen, ids, true);
    }
  }

  function GenAt(k: int): Fresh { Fresh(RecordAt(k), k) }

  /** A faithful run with nothing recorded yet but outcomes before the n-th. */
  ghost predicate Ready(moves: seq<Move>, n: int) {
    FaithfulRun(moves, true) && RecordsUpTo(Run(moves).state.rs, n) && Run(moves).now < n
  }

  lemma {:induction false} RegisterNext(moves: seq<Move>, n: int, cap: Text)
    requires Ready(moves, n) && cap != EMPTY && !HasRecords(Run(moves).state.rs, cap)
    ensures var after := moves + [Registered(cap)];
      Ready(after, n) && Run(after).state == Register(Run(moves).state, cap)
  {
    OneMove(moves, Registered(cap), true);
  }

  lemma {:induction false} ScoreNext(moves: seq<Move>, n: int, cap: Text, r: Report)
    requires Ready(moves, n) && cap in Run(moves).state.reg.scores
    requires Faithful(Run(moves).state.rs, HistoryOf(Run(moves).state.reg.history, cap), r)
    ensures var after := moves + [Scored(cap, r, GenAt(n))];
      Ready(after, n + 1) && Run(after).state == UpdateScore(Run(moves).state, cap, r, GenAt(n))
  {
    NextRecordIsNew(Run(moves).state.rs, n);
    OneMove(moves, Scored(cap, r, GenAt(n)), true);
    AfterUpdate(Run(moves).state, cap, r, GenAt(n));
    RecordsGoOn(Run(moves).state.rs, n, HistoryOf(Run(moves).state.reg.history, cap), cap, r, GenAt(n));
  }

  /** A registered capability without outcomes. */
  lemma {:induction false} JustRegistered(cap: Text) returns (moves: seq<Move>)
    requires cap != EMPTY
    ensures moves == [Registered(cap)] && Ready(moves, 1) && Run(moves).state == Register(START.state, cap)
  {
    RegisterNext([], 1, cap);
    moves := [Registered(cap)];
    assert [] + moves == moves;
  }

  /** First: evidence that starts with an empty id counts live and is not kept. */
  lemma {:induction false} EmptyEvidenceDeparts(cap: Text, success: bool) returns (moves: seq<Move>)
    requires cap != EMPTY
    ensures moves == [Registered(cap)] && Departs(moves, cap, Plain(success).(evidence := [EMPTY]), GenAt(1))
  {
    moves := JustRegistered(cap);
    NextRecordIsNew(Run(moves).state.rs, 1);
    UnfaithfulDeparts(moves, cap, Plain(success).(evidence := [EMPTY]), GenAt(1));
  }

  lemma KeyedOnce(s: State, cap: Text, key: Text, success: bool, gen: Fresh)
    requires cap in s.reg.scores && HistoryOf(s.reg.history, cap) == [] && !KeyStored(s.rs, key) && key != EMPTY
    ensures var r := Plain(success).(key := key);
      var s' := UpdateScore(s, cap, r, gen);
      var h' := HistoryOf(s'.reg.history, cap);
      Faithful(s.rs, [], r) && |h'| == 1 && h'[0].key == key && h'[0].evidence == [] && cap in s'.reg.scores
      && s'.rs == SaveRecord(Tables(s.rs, map[]), OutcomeItem(cap, r, gen)).records
      && (forall d :: d != cap ==> HistoryOf(s'.reg.history, d) == HistoryOf(s.reg.history, d))
      && s'.reg.scores.Keys == s.reg.scores.Keys
  {
    AfterUpdate(s, cap, Plain(success).(key := key), gen);
  }

  /** Second: a key replayed with evidence where it was recorded without. */
  lemma {:induction false} LateEvidenceDeparts(cap: Text, key: Text, evidence: Text, success: bool) returns (moves: seq<Move>)
    requires cap != EMPTY && key != EMPTY
    ensures moves == [Registered(cap), Scored(cap, Plain(success).(key := key), GenAt(1))]
    ensures Departs(moves, cap, Plain(success).(key := key, evidence := [evidence]), GenAt(2))
  {
    var one := JustRegistered(cap);
    KeyedOnce(Run(one).state, cap, key, success, GenAt(1));
    ScoreNext(one, 1, cap, Plain(success).(key := key));
    moves := one + [Scored(cap, Plain(success).(key := key), GenAt(1))];
    NextRecordIsNew(Run(moves).state.rs, 2);
    ReplayedIsUnfaithful(Run(moves).state.rs, HistoryOf(Run(moves).state.reg.history, cap), key, evidence, success);
    UnfaithfulDeparts(moves, cap, Plain(success).(key := key, evidence := [evidence]), GenAt(2));
  }

  lemma ReplayedIsUnfaithful(rs: map<Text, Row>, h: seq<Entry>, key: Text, evidence: Text, success: bool)
    requires |h| == 1 && h[0].key == key && h[0].evidence == [] && key != EMPTY
    ensures !Faithful(rs, h, Plain(success).(key := key, evidence := [evidence]))
  {
    assert HasKey(h, key);
  }

  lemma {:induction false} TwoRegistered(cap: Text, other: Text) returns (moves: seq<Move>)
    requires cap != EMPTY && other != EMPTY && cap != other
    ensures moves == [Registered(cap), Registered(other)] && Ready(moves, 1)
    ensures Run(moves).state == Register(Register(START.state, cap), other)
  {
    var one := JustRegistered(cap);
    RegisterNext(one, 1, other);
    moves := one + [Registered(other)];
  }

  /** The key is on an outcome of one capability, and the other has none. */
  ghost predicate KeyElsewhere(s: State, other: Text, key: Text) {
    KeyStored(s.rs, key) && other in s.reg.scores && HistoryOf(s.reg.history, other) == []
  }

  lemma OutcomeHoldsKey(rs: map<Text, Row>, cap: Text, r: Report, gen: Fresh)
    requires gen.record !in rs && cap != EMPTY && r.key != EMPTY
    ensures KeyStored(SaveRecord(Tables(rs, map[]), OutcomeItem(cap, r, gen)).records, r.key)
  {
    SavedIsOneMore(rs, cap, r, gen);
    OutcomeFacts(cap, r, gen);
    assert IsOutcome(SaveRecord(Tables(rs, map[]), OutcomeItem(cap, r, gen)).records, gen.record);
  }

  lemma {:induction false} ScoredWithKey(moves: seq<Move>, cap: Text, other: Text, key: Text, success: bool)
    requires Ready(moves, 1) && Run(moves).state == Register(Register(START.state, cap), other)
    requires cap != EMPTY && other != EMPTY && cap != other && key != EMPTY
    ensures var after := moves + [Scored(cap, Plain(success).(key := key), GenAt(1))];
      Ready(after, 2) && KeyElsewhere(Run(after).state, other, key)
  {
    NextRecordIsNew(Run(moves).state.rs, 1);
    KeyedOnce(Run(moves).state, cap, key, success, GenAt(1));
    OutcomeHoldsKey(Run(moves).state.rs, cap, Plain(success).(key := key), GenAt(1));
    ScoreNext(moves, 1, cap, Plain(success).(key := key));
  }

  lemma {:induction false} KeyedElsewhere(cap: Text, other: Text, key: Text, success: bool) returns (moves: seq<Move>)
    requires cap != EMPTY && other != EMPTY && cap != other && key != EMPTY
    ensures moves == [Registered(cap), Registered(other), Scored(cap, Plain(success).(key := key), GenAt(1))]
    ensures Ready(moves, 2) && KeyElsewhere(Run(moves).state, other, key)
  {
    var two := TwoRegistered(cap, other);
    ScoredWithKey(two, cap, other, key, success);
    moves := two + [Scored(cap, Plain(success).(key := key), GenAt(1))];
  }

  lemma OneUnmarked(s: State, other: Text, key: Text, success: bool, gen: Fresh)
    requires KeyElsewhere(s, other, key) && gen.record !in s.rs
    ensures var s' := UpdateScore(s, other, Plain(success), gen);
      other in s'.reg.scores && KeyStored(s'.rs, key) && HistoryOf(s'.reg.history, other) == [NewEntry(Plain(success), gen)]
  {
    PlainIsFaithful(s.rs, [], success);
    AfterUpdate(s, other, Plain(success), gen);
    var s' := UpdateScore(s, other, Plain(success), gen);
    var id :| id in s.rs && s.rs[id].rtype == Lit(HistoryRecord) && s.rs[id].body.Obj?
              && Get(s.rs[id].body.p, IdempotencyKey) == Str(key);
    assert id in s'.rs && s'.rs[id] == s.rs[id];
  }

  lemma ForeignIsUnfaithful(rs: map<Text, Row>, h: seq<Entry>, key: Text, evidence: Text, success: bool)
    requires KeyStored(rs, key) && |h| == 1 && h[0].key == EMPTY && h[0].evidence == []
    ensures !Faithful(rs, h, Plain(success).(key := key, evidence := [evidence]))
  {
    assert !HasKey(h, key);
  }

  /** The key is on an outcome of one capability, and the other has one without key or evidence. */
  ghost predicate MarkedElsewhere(s: State, other: Text, key: Text) {
    var h := HistoryOf(s.reg.history, other);
    KeyStored(s.rs, key) && other in s.reg.scores && |h| == 1 && h[0].key == EMPTY && h[0].evidence == []
  }

  lemma {:induction false} ScoredWithoutKey(moves: seq<Move>, other: Text, key: Text, success: bool)
    requires Ready(moves, 2) && KeyElsewhere(Run(moves).state, other, key)
    ensures var after := moves + [Scored(other, Plain(success), GenAt(2))];
      Ready(after, 3) && MarkedElsewhere(Run(after).state, other, key)
  {
    NextRecordIsNew(Run(moves).state.rs, 2);
    PlainIsFaithful(Run(moves).state.rs, [], success);
    ScoreNext(moves, 2, other, Plain(success));
    OneUnmarked(Run(moves).state, other, key, success, GenAt(2));
  }

  lemma {:induction false} OneWithoutKey(cap: Text, other: Text, key: Text, success: bool) returns (moves: seq<Move>)
    requires cap != EMPTY && other != EMPTY && cap != other && key != EMPTY
    ensures moves == [Registered(cap), Registered(other), Scored(cap, Plain(success).(key := key), GenAt(1)),
                      Scored(other, Plain(success), GenAt(2))]
    ensures Ready(moves, 3) && MarkedElsewhere(Run(moves).state, other, key)
  {
    var three := KeyedElsewhere(cap, other, key, success);
    ScoredWithoutKey(three, other, key, success);
    moves := three + [Scored(other, Plain(success), GenAt(2))];
  }

  /** Third: a key of another capability, which marks this one's last outcome with the evidence. */
  lemma {:induction false} ForeignKeyDeparts(cap: Text, other: Text, key: Text, evidence: Text, success: bool) returns (moves: seq<Move>)
    requires cap != EMPTY && other != EMPTY && cap != other && key != EMPTY
    ensures moves == [Registered(cap), Registered(other), Scored(cap, Plain(success).(key := key), GenAt(1)),
                      Scored(other, Plain(success), GenAt(2))]
    ensures Departs(moves, other, Plain(success).(key := key, evidence := [evidence]), GenAt(3))
  {
    moves := OneWithoutKey(cap, other, key, success);
    ForeignIsUnfaithful(Run(moves).state.rs, HistoryOf(Run(moves).state.reg.history, other), key, evidence, success);
    NextRecordIsNew(Run(moves).state.rs, 3);
    UnfaithfulDeparts(moves, other, Plain(success).(key := key, evidence := [evidence]), GenAt(3));
  }

  // ---- registering again --------------------------------------------------------------------------

  /** Whatever order the store lists the outcomes in, a rebuilt registry disagrees. */
  ghost predicate Disagrees(s: State, cap: Text) {
    forall ids :: Listing(s.rs, Lit(HistoryRecord), Null, ids) ==> !Agrees(s, ids, cap, true)
  }

  lemma OneIsStored(s: Sys, cap: Text)
    requires Good(s, true) && HistoryOf(s.state.reg.history, cap) != []
    ensures HasRecords(s.state.rs, cap)
  {
    var h := HistoryOf(s.state.reg.history, cap);
    assert Mirrors(s.state.rs, cap, h, true);
    assert OfCap(s.state.rs, cap, h[0].record);
  }

  lemma {:induction false} ScoredOnce(cap: Text, success: bool) returns (moves: seq<Move>)
    requires cap != EMPTY
    ensures moves == [Registered(cap), Scored(cap, Plain(success), GenAt(1))]
    ensures Ready(moves, 2) && HistoryOf(Run(moves).state.reg.history, cap) != []
  {
    var one := JustRegistered(cap);
    PlainIsFaithful(Run(one).state.rs, [], success);
    ScoreNext(one, 1, cap, Plain(success));
    AfterUpdate(Run(one).state, cap, Plain(success), GenAt(1));
    moves := one + [Scored(cap, Plain(success), GenAt(1))];
  }

  /** A capability with an outcome is registered again: the registry forgets what a restart remembers. */
  lemma {:induction false} RegisteringAgainForgets(cap: Text, success: bool) returns (moves: seq<Move>)
    requires cap != EMPTY
    ensures moves == [Registered(cap), Scored(cap, Plain(success), GenAt(1))] && FaithfulRun(moves, true)
    ensures Disagrees(Register(Run(moves).state, cap), cap)
  {
    moves := ScoredOnce(cap, success);
    RunIsGood(moves, true);
    OneIsStored(Run(moves), cap);
    forall ids | Listing(Run(moves).state.rs, Lit(HistoryRecord), Null, ids) ensures !Agrees(Register(Run(moves).state, cap), ids, cap, true) {
      RegisterKeepsAgreementExactlyWhen(moves, cap, ids, true);
    }
  }

  // ---- recording without rescoring --------------------------------------------------------------------

  /** `record_history` called by itself. */
  function RecordOnly(s: State, cap: Text, r: Report, gen: Fresh): State {
    var h := HistoryOf(s.reg.history, cap);
    if Known(s.rs, h, r.key) then s
    else State(RowsAfter(s.rs, h, cap, r, gen), s.reg.(history := s.reg.history[cap := Recorded(s.rs, h, r, gen)]))
  }

  /** One more outcome moves no average: it succeeded as all before it, took and cost the average, and
      brought no evidence. */
  predicate MovesNothing(h: seq<Entry>, e: Entry) {
    h != [] && (forall i :: 0 <= i < |h| ==> h[i].success == e.success)
    && e.latency == Total(h, LatencyOf()) / |h| as real && e.cost == Total(h, CostOf()) / |h| as real && e.evidence == []
  }

  lemma AverageStays(t: real, n: real, x: real)
    requires n > 0.0
    ensures t / n == (t + x) / (n + 1.0) <==> x == t / n
  {
    var a := t / n;
    assert a * n == t;
    if t / n == (t + x) / (n + 1.0) {
      assert a * (n + 1.0) == t + x;
    }
    if x == a {
      assert t + x == a * (n + 1.0);
      assert (t + x) / (n + 1.0) == a;
    }
  }

  lemma TotalMore(h: seq<Entry>, e: Entry, f: Entry -> real)
    ensures Total(h + [e], f) == Total(h, f) + f(e)
  {
    assert (h + [e])[..|h + [e]| - 1] == h;
  }

  lemma {:induction false} WonBounds(h: seq<Entry>)
    ensures 0.0 <= Total(h, Won()) <= |h| as real
    ensures Total(h, Won()) == |h| as real <==> forall i :: 0 <= i < |h| ==> h[i].success
    ensures Total(h, Won()) == 0.0 <==> forall i :: 0 <= i < |h| ==> !h[i].success
  {
    if h != [] {
      var most := h[..|h| - 1];
      WonBounds(most);
      assert forall i :: 0 <= i < |most| ==> most[i] == h[i];
    }
  }

  lemma RateStays(h: seq<Entry>, e: Entry)
    requires h != []
    ensures Total(h, Won()) / |h| as real == Total(h + [e], Won()) / (|h| + 1) as real
            <==> forall i :: 0 <= i < |h| ==> h[i].success == e.success
  {
    TotalMore(h, e, Won());
    AverageStays(Total(h, Won()), |h| as real, Won()(e));
    WonBounds(h);
    OneQuotient(Total(h, Won()), |h| as real);
  }

  lemma OneQuotient(t: real, n: real)
    requires n > 0.0
    ensures (t / n == 1.0 <==> t == n) && (t / n == 0.0 <==> t == 0.0)
  {
    assert t / n * n == t;
  }

  lemma LikeRates(h: seq<Entry>, v: bool)
    requires h != [] && forall i :: 0 <= i < |h| ==> h[i].success == v
    ensures Total(Recent(h), Missed()) / |Recent(h)| as real == One(!v)
  {
    var recent := Recent(h);
    forall i | 0 <= i < |recent| ensures Missed()(recent[i]) == One(!v) {
      assert recent[i] == h[|h| - |recent| + i];
    }
    LikeTotal(recent, v);
    OneQuotient(Total(recent, Missed()), |recent| as real);
  }

  lemma {:induction false} LikeTotal(h: seq<Entry>, v: bool)
    requires forall i :: 0 <= i < |h| ==> Missed()(h[i]) == One(!v)
    ensures Total(h, Missed()) == if v then 0.0 else |h| as real
  {
    if h != [] {
      var most := h[..|h| - 1];
      assert forall i :: 0 <= i < |most| ==> most[i] == h[i];
      LikeTotal(most, v);
    }
  }

  lemma LikeMore(h: seq<Entry>, e: Entry)
    requires h != [] && forall i :: 0 <= i < |h| ==> h[i].success == e.success
    ensures LiveStats(h).recentFailures == LiveStats(h + [e]).recentFailures
  {
    LikeRates(h, e.success);
    LikeRates(h + [e], e.success);
  }

  lemma AverageMore(h: seq<Entry>, e: Entry, f: Entry -> real)
    requires h != []
    ensures Total(h, f) / |h| as real == Total(h + [e], f) / |h + [e]| as real <==> f(e) == Total(h, f) / |h| as real
  {
    TotalMore(h, e, f);
    assert |h + [e]| as real == |h| as real + 1.0;
    AverageStays(Total(h, f), |h| as real, f(e));
  }

  lemma WonStays(h: seq<Entry>, e: Entry)
    requires h != []
    ensures LiveStats(h).rate == LiveStats(h + [e]).rate <==> forall i :: 0 <= i < |h| ==> h[i].success == e.success
  {
    RateStays(h, e);
    assert |h + [e]| == |h| + 1;
  }

  lemma LatencyStays(h: seq<Entry>, e: Entry)
    requires h != []
    ensures LiveStats(h).latency == LiveStats(h + [e]).latency <==> e.latency == Total(h, LatencyOf()) / |h| as real
  {
    AverageMore(h, e, LatencyOf());
  }

  lemma CostStays(h: seq<Entry>, e: Entry)
    requires h != []
    ensures LiveStats(h).cost == LiveStats(h + [e]).cost <==> e.cost == Total(h, CostOf()) / |h| as real
  {
    AverageMore(h, e, CostOf());
  }

  lemma EvidenceStays(h: seq<Entry>, e: Entry)
    requires h != []
    ensures LiveStats(h).evidence == LiveStats(h + [e]).evidence <==> e.evidence == []
    ensures LiveStats(h).evidence == LiveStats(h + [e]).evidence ==> LiveStats(h).confidence == LiveStats(h + [e]).confidence
  {
    TotalMore(h, e, Marks());
  }

  lemma StatsStay(a: Stats, b: Stats, window: bool, alike: bool, latency: bool, cost: bool, bare: bool)
    requires (a.rate == b.rate <==> alike) && (a.latency == b.latency <==> latency) && (a.cost == b.cost <==> cost)
    requires (a.evidence == b.evidence <==> bare) && (bare ==> a.confidence == b.confidence)
    requires alike ==> a.recentFailures == b.recentFailures
    ensures SameScores(a, b, window) <==> alike && latency && cost && bare
  {
  }

  lemma ScoreStays(h: seq<Entry>, e: Entry, window: bool)
    requires h != []
    ensures SameScores(LiveStats(h), LiveStats(h + [e]), window) <==> MovesNothing(h, e)
  {
    var alike := forall i :: 0 <= i < |h| ==> h[i].success == e.success;
    WonStays(h, e);
    LatencyStays(h, e);
    CostStays(h, e);
    EvidenceStays(h, e);
    if alike { LikeMore(h, e); }
    StatsStay(LiveStats(h), LiveStats(h + [e]), window, alike, e.latency == Total(h, LatencyOf()) / |h| as real,
              e.cost == Total(h, CostOf()) / |h| as real, e.evidence == []);
  }

  /** A score that no outcome has touched. */
  ghost predicate AllUnscored(reg: Registry) {
    forall cap :: cap in reg.scores && HistoryOf(reg.history, cap) == [] ==> reg.scores[cap].stats == UNSCORED
  }

  lemma UpdateUnscored(s: State, cap: Text, r: Report, gen: Fresh)
    requires AllUnscored(s.reg)
    ensures AllUnscored(UpdateScore(s, cap, r, gen).reg)
  {
    if cap in s.reg.scores { AfterUpdate(s, cap, r, gen); }
  }

  lemma {:induction false} RunUnscored(moves: seq<Move>, strict: bool)
    requires FaithfulRun(moves, strict)
    ensures AllUnscored(Run(moves).state.reg)
  {
    if moves != [] {
      var most, m := moves[..|moves| - 1], moves[|moves| - 1];
      RunUnscored(most, strict);
      match m
      case Scored(cap, r, gen) => UpdateUnscored(Run(most).state, cap, r, gen);
      case Registered(_) =>
      case Restarted(_) =>
      case Elsewhere(_) =>
    }
  }

  lemma FirstMovesConfidence(e: Entry, stats: Stats, window: bool)
    requires stats == UNSCORED
    ensures !SameScores(stats, LiveStats([e]), window)
  {
    assert [e][..|[e]| - 1] == [];
    assert Total([e], Marks()) == Marks()(e);
  }

  lemma StaleExactlyWhen(s: Sys, cap: Text, h: seq<Entry>, e: Entry, window: bool)
    requires ScoreOk(s.state.reg, cap) && AllUnscored(s.state.reg) && h == HistoryOf(s.state.reg.history, cap)
    ensures cap in s.state.reg.scores && SameScores(s.state.reg.scores[cap].stats, LiveStats(h + [e]), window)
            <==> MovesNothing(h, e)
  {
    if cap in s.state.reg.scores && h == [] {
      assert h + [e] == [e];
      FirstMovesConfidence(e, s.state.reg.scores[cap].stats, window);
    }
    if h != [] { ScoreStays(h, e, window); }
  }

  lemma RecordedAgreesExactlyWhen(s: Sys, cap: Text, r: Report, gen: Fresh, ids: seq<Text>, strict: bool)
    requires Good(s, strict) && AllUnscored(s.state.reg) && Timely(s, gen, strict) && cap != EMPTY
    requires !Known(s.state.rs, HistoryOf(s.state.reg.history, cap), r.key)
    requires Listing(RecordOnly(s.state, cap, r, gen).rs, Lit(HistoryRecord), Null, ids)
    ensures Agrees(RecordOnly(s.state, cap, r, gen), ids, cap, strict)
            <==> MovesNothing(HistoryOf(s.state.reg.history, cap), NewEntry(r, gen))
  {
    var rs, h, e, s' := s.state.rs, HistoryOf(s.state.reg.history, cap), NewEntry(r, gen), RecordOnly(s.state, cap, r, gen);
    var h' := h + [e];
    assert Mirrors(rs, cap, h, strict) && ScoreOk(s.state.reg, cap);
    RecordedMirrors(rs, s.now, h, cap, r, gen, strict);
    KeysStayApart(rs, s.now, h, cap, r, gen);
    RebuiltHistory(s'.rs, gen.at, ids, cap);
    MirrorScores(s'.rs, gen.at, cap, h', ids, strict);
    StaleExactlyWhen(s, cap, h, e, strict || |h'| <= 100);
  }

  /** After a faithful run, recording an outcome by itself leaves the live score stale: a rebuilt registry
      agrees exactly when the key was known and nothing was recorded, or the outcome moves no average. */
  lemma {:induction false} RecordOnlyKeepsAgreementExactlyWhen(
    moves: seq<Move>, cap: Text, r: Report, gen: Fresh, ids: seq<Text>, strict: bool)
    requires FaithfulRun(moves, strict) && Timely(Run(moves), gen, strict) && cap != EMPTY
    requires Listing(RecordOnly(Run(moves).state, cap, r, gen).rs, Lit(HistoryRecord), Null, ids)
    ensures var h := HistoryOf(Run(moves).state.reg.history, cap);
      Agrees(RecordOnly(Run(moves).state, cap, r, gen), ids, cap, strict)
      <==> Known(Run(moves).state.rs, h, r.key) || MovesNothing(h, NewEntry(r, gen))
  {
    RunIsGood(moves, strict);
    RunUnscored(moves, strict);
    if Known(Run(moves).state.rs, HistoryOf(Run(moves).state.reg.history, cap), r.key) {
      GoodAgrees(Run(moves), ids, cap, strict);
    } else {
      RecordedAgreesExactlyWhen(Run(moves), cap, r, gen, ids, strict);
    }
  }

  /** The first outcome of a capability, recorded by itself. */
  lemma {:induction false} RecordedFirstDeparts(cap: Text, r: Report) returns (moves: seq<Move>)
    requires cap != EMPTY
    ensures moves == [Registered(cap)] && FaithfulRun(moves, true)
    ensures Disagrees(RecordOnly(Run(moves).state, cap, r, GenAt(1)), cap)
  {
    moves := JustRegistered(cap);
    NextRecordIsNew(Run(moves).state.rs, 1);
    assert !Known(Run(moves).state.rs, HistoryOf(Run(moves).state.reg.history, cap), r.key);
    forall ids | Listing(RecordOnly(Run(moves).state, cap, r, GenAt(1)).rs, Lit(HistoryRecord), Null, ids)
      ensures !Agrees(RecordOnly(Run(moves).state, cap, r, GenAt(1)), ids, cap, true)
    {
      RecordOnlyKeepsAgreementExactlyWhen(moves, cap, r, GenAt(1), ids, true);
    }
  }
}
