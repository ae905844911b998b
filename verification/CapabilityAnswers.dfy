/** What the scores of a capability are in numbers, and what an update leaves of its outcome. */
module CapabilityAnswers {
  import opened Ledger
  import opened StoreSpec
  import opened StoreAnswers
  import opened Lists
  import opened Windows
  import opened Capabilities

  // ---- scores in numbers ---------------------------------------------------------------------------------

  function Successes(h: seq<Entry>): set<nat> { set i: nat | i < |h| && h[i].success }

  /** The failures among the last hundred outcomes. */
  function LateFailures(h: seq<Entry>): set<nat> { set i: nat | i < |h| && |h| <= i + 100 && !h[i].success }

  function WithEvidence(h: seq<Entry>): set<nat> { set i: nat | i < |h| && h[i].evidence != [] }

  function LatencySum(h: seq<Entry>): real { if h == [] then 0.0 else h[0].latency + LatencySum(h[1..]) }

  function CostSum(h: seq<Entry>): real { if h == [] then 0.0 else h[0].cost + CostSum(h[1..]) }

  function EvidenceSum(h: seq<Entry>): nat { if h == [] then 0 else |h[0].evidence| + EvidenceSum(h[1..]) }

  /** Three tenths up to three pieces of evidence, then a tenth for each, up to one. */
  predicate ConfidenceSays(evidence: real, confidence: real) {
    (evidence <= 3.0 ==> confidence == 0.3) && (3.0 <= evidence <= 10.0 ==> confidence * 10.0 == evidence)
    && (10.0 <= evidence ==> confidence == 1.0)
  }

  /** The averages, the success rate over all outcomes and the failure rate over the last hundred. */
  predicate StatsSay(h: seq<Entry>, st: Stats)
    requires h != []
  {
    st.rate == |Successes(h)| as real / |h| as real
    && st.recentFailures == |LateFailures(h)| as real / (if |h| < 100 then |h| else 100) as real
    && st.latency == LatencySum(h) / |h| as real && st.cost == CostSum(h) / |h| as real
    && ConfidenceSays(st.evidence, st.confidence)
  }

  /** A live score counts outcomes with evidence. */
  predicate LiveSays(h: seq<Entry>, st: Stats)
    requires h != []
  {
    StatsSay(h, st) && st.evidence == |WithEvidence(h)| as real
  }

  /** A rebuilt score counts pieces of evidence. */
  predicate RebuiltSays(h: seq<Entry>, st: Stats)
    requires h != []
  {
    StatsSay(h, st) && st.evidence == EvidenceSum(h) as real
  }

  lemma {:induction false} TotalCounts(h: seq<Entry>, f: Entry -> real, those: set<nat>)
    requires forall i :: 0 <= i < |h| ==> f(h[i]) == One(i in those)
    requires forall i :: i in those ==> i < |h|
    ensures Total(h, f) == |those| as real
  {
    if h == [] {
      assert those == {};
    } else {
      var n := |h| - 1;
      TotalCounts(h[..n], f, those - {n});
      assert those == if n in those then those - {n} + {n} else those - {n};
    }
  }

  lemma {:induction false} MissedFrom(h: seq<Entry>, k: nat, those: set<nat>)
    requires k <= |h| && those == set i: nat | i < |h| && k <= i && !h[i].success
    ensures Total(h[k..], Missed()) == |those| as real
  {
    if k == |h| {
      assert those == {} && h[k..] == [];
    } else {
      var n := |h| - 1;
      var fewer := set i: nat | i < n && k <= i && !h[..n][i].success;
      MissedFrom(h[..n], k, fewer);
      assert h[k..][..|h[k..]| - 1] == h[..n][k..];
      assert those == if h[n].success then fewer else fewer + {n};
    }
  }

  lemma LateAre(h: seq<Entry>, recent: seq<Entry>, k: nat)
    requires k <= |h| && recent == h[k..] && (k == if |h| <= 100 then 0 else |h| - 100)
    ensures Total(recent, Missed()) == |LateFailures(h)| as real
  {
    MissedFrom(h, k, LateFailures(h));
  }

  lemma TotalFront(h: seq<Entry>, f: Entry -> real)
    requires h != []
    ensures Total(h, f) == f(h[0]) + Total(h[1..], f)
  {
    assert h == [h[0]] + h[1..];
    TotalAppend([h[0]], h[1..], f);
    assert [h[0]][..0] == [];
    assert Total([h[0]], f) == f(h[0]);
  }

  lemma {:induction false} SumsAre(h: seq<Entry>)
    ensures Total(h, LatencyOf()) == LatencySum(h) && Total(h, CostOf()) == CostSum(h) && Total(h, Pieces()) == EvidenceSum(h) as real
  {
    if h != [] {
      TotalFront(h, LatencyOf());
      TotalFront(h, CostOf());
      TotalFront(h, Pieces());
      SumsAre(h[1..]);
    }
  }

  lemma ConfidentSays(evidence: nat)
    ensures ConfidenceSays(evidence as real, Confident(evidence as real))
  {
  }

  lemma StatsMean(h: seq<Entry>, evidence: nat)
    requires h != []
    ensures StatsSay(h, StatsOf(h, evidence as real)) && StatsOf(h, evidence as real).evidence == evidence as real
  {
    TotalCounts(h, Won(), Successes(h));
    LateAre(h, Recent(h), if |h| <= 100 then 0 else |h| - 100);
    assert |Recent(h)| == if |h| < 100 then |h| else 100;
    SumsAre(h);
    ConfidentSays(evidence);
  }

  /** A live score says what its history says. */
  lemma LiveMeans(h: seq<Entry>)
    requires h != []
    ensures LiveSays(h, LiveStats(h))
  {
    TotalCounts(h, Marks(), WithEvidence(h));
    StatsMean(h, |WithEvidence(h)|);
  }

  lemma RebuiltMeans(h: seq<Entry>)
    requires h != []
    ensures RebuiltSays(h, RebuiltStats(h))
  {
    SumsAre(h);
    StatsMean(h, EvidenceSum(h));
  }

  // ---- an update -----------------------------------------------------------------------------------------

  /** The key is on an entry of this history or on any stored outcome. */
  predicate KeySeen(rs: map<Text, Row>, h: seq<Entry>, key: Text) {
    key != EMPTY
    && ((exists i :: 0 <= i < |h| && h[i].key == key)
        || exists id :: id in rs && rs[id].rtype == Lit(HistoryRecord) && rs[id].body.Obj?
                        && Get(rs[id].body.p, IdempotencyKey) == Str(key))
  }

  predicate EntryAsAsked(r: Report, gen: Fresh, e: Entry) {
    e.record == gen.record && e.mission == r.mission && e.success == r.success && e.latency == r.latency
    && e.cost == r.cost && e.stamp == Stamp(gen.at) && e.key == r.key
  }

  /** The stored outcome, with the first piece of its evidence. */
  predicate OutcomeAsAsked(cap: Text, r: Report, gen: Fresh, p: Payload) {
    Get(p, RecordId) == Str(gen.record) && Get(p, CapabilityId) == Str(cap) && Get(p, MissionId) == r.mission
    && Get(p, Success) == Flag(r.success) && Get(p, Latency) == Num(r.latency) && Get(p, Cost) == Num(r.cost)
    && Get(p, IdempotencyKey) == Str(r.key) && Get(p, Timestamp) == Str(Stamp(gen.at))
    && Get(p, EvidenceId) == (if r.evidence == [] then Null else Str(r.evidence[0]))
  }

  ghost predicate OutcomeStored(rs: map<Text, Row>, rs': map<Text, Row>, cap: Text, r: Report, gen: Fresh) {
    exists p :: OutcomeAsAsked(cap, r, gen, p) && OneRowAdded(rs, rs', gen.record, Lit(HistoryRecord), r.mission, Stamp(gen.at), p)
  }

  /** The entry that takes over the evidence: the first with the key, or else the last. */
  predicate Takes(h: seq<Entry>, key: Text, t: nat) {
    t < |h|
    && if key != EMPTY && exists i :: 0 <= i < |h| && h[i].key == key then
         h[t].key == key && forall j :: 0 <= j < t ==> h[j].key != key
       else t == |h| - 1
  }

  predicate SameButEvidence(e: Entry, e': Entry) {
    e' == e.(evidence := e'.evidence)
  }

  /** One entry more, as asked, unless the key was seen; and one entry has the evidence of the call. */
  ghost predicate HistoryGrows(rs: map<Text, Row>, h: seq<Entry>, r: Report, gen: Fresh, h': seq<Entry>) {
    |h'| == (if KeySeen(rs, h, r.key) then |h| else |h| + 1)
    && (forall i :: 0 <= i < |h| ==> SameButEvidence(h[i], h'[i]))
    && (!KeySeen(rs, h, r.key) ==> EntryAsAsked(r, gen, h'[|h|]))
    && (h' != [] ==> exists t: nat :: Takes(h', r.key, t) && h'[t].evidence == r.evidence
                       && forall i :: 0 <= i < |h| && i != t ==> h'[i].evidence == h[i].evidence)
  }

  /** Every piece of evidence in the history is a source, and no source is lost. */
  predicate SourcesSay(was: seq<Text>, h: seq<Entry>, now: seq<Text>) {
    was <= now && (forall id :: id in now ==> id in was || SomeEvidence(h, id))
    && forall i, j :: 0 <= i < |h| && 0 <= j < |h[i].evidence| && h[i].evidence[j] != EMPTY ==> h[i].evidence[j] in now
  }

  predicate SomeEvidence(h: seq<Entry>, id: Text) {
    id != EMPTY && exists i :: 0 <= i < |h| && id in h[i].evidence
  }

  ghost predicate OthersKept<V>(m: map<Text, V>, m': map<Text, V>, cap: Text) {
    forall d :: d != cap ==> (d in m' <==> d in m) && (d in m ==> m'[d] == m[d])
  }

  /** What an update leaves of the registry and the records. */
  ghost predicate UpdateAnswers(s: State, s': State, cap: Text, r: Report, gen: Fresh) {
    if cap !in s.reg.scores then s' == s
    else
      var h, h' := HistoryOf(s.reg.history, cap), HistoryOf(s'.reg.history, cap);
      HistoryGrows(s.rs, h, r, gen, h')
      && (if KeySeen(s.rs, h, r.key) then s'.rs == s.rs else OutcomeStored(s.rs, s'.rs, cap, r, gen))
      && cap in s'.reg.scores && ScoreFollows(s.reg.scores[cap], h', s'.reg.scores[cap])
      && OthersKept(s.reg.scores, s'.reg.scores, cap) && OthersKept(s.reg.history, s'.reg.history, cap)
  }

  predicate ScoreFollows(was: Score, h: seq<Entry>, now: Score) {
    if h == [] then now == was else LiveSays(h, now.stats) && SourcesSay(was.sources, h, now.sources)
  }

  // ---- the proof -----------------------------------------------------------------------------------------

  lemma SeenIsKnown(rs: map<Text, Row>, h: seq<Entry>, key: Text)
    ensures Known(rs, h, key) <==> KeySeen(rs, h, key)
  {
  }

  lemma OutcomeIsAsked(cap: Text, r: Report, gen: Fresh)
    ensures OutcomeAsAsked(cap, r, gen, Outcome(cap, r, gen))
  {
  }

  lemma RowIsStored(rs: map<Text, Row>, h: seq<Entry>, cap: Text, r: Report, gen: Fresh)
    requires gen.record !in rs
    ensures if KeySeen(rs, h, r.key) then RowsAfter(rs, h, cap, r, gen) == rs
            else OutcomeStored(rs, RowsAfter(rs, h, cap, r, gen), cap, r, gen)
  {
    SeenIsKnown(rs, h, r.key);
    OutcomeIsAsked(cap, r, gen);
    if !KeySeen(rs, h, r.key) {
      assert OneRowAdded(rs, RowsAfter(rs, h, cap, r, gen), gen.record, Lit(HistoryRecord), r.mission, Stamp(gen.at), Outcome(cap, r, gen));
    }
  }

  lemma TargetTakes(h: seq<Entry>, h': seq<Entry>, key: Text)
    requires h != [] && |h'| == |h| && forall i :: 0 <= i < |h| ==> h'[i].key == h[i].key
    ensures Takes(h', key, Target(h, key))
  {
    if HasKey(h, key) {
      assert h'[FirstWith(h, key)].key == key;
    } else if key != EMPTY {
      forall i | 0 <= i < |h'| ensures h'[i].key != key { assert h[i].key != key; }
    }
  }

  lemma HistoryMeans(rs: map<Text, Row>, h: seq<Entry>, r: Report, gen: Fresh)
    ensures HistoryGrows(rs, h, r, gen, HistoryAfter(rs, h, r, gen))
  {
    var more, h' := Recorded(rs, h, r, gen), HistoryAfter(rs, h, r, gen);
    SeenIsKnown(rs, h, r.key);
    if h' != [] {
      TargetTakes(more, h', r.key);
      assert h'[Target(more, r.key)].evidence == r.evidence;
    }
  }

  lemma SomeEvidenceMore(h: seq<Entry>, id: Text)
    requires h != []
    ensures SomeEvidence(h, id) <==> SomeEvidence(h[..|h| - 1], id) || (id != EMPTY && id in h[|h| - 1].evidence)
  {
    var most := h[..|h| - 1];
    assert forall i :: 0 <= i < |most| ==> most[i] == h[i];
    if SomeEvidence(h, id) {
      var i :| 0 <= i < |h| && id in h[i].evidence;
      assert i < |most| ==> id in most[i].evidence;
    }
  }

  lemma {:induction false} NewSourcesAre(h: seq<Entry>, known: seq<Text>, id: Text)
    ensures id in NewSources(h, known) <==> id !in known && SomeEvidence(h, id)
  {
    if h != [] {
      NewSourcesAre(h[..|h| - 1], known, id);
      SomeEvidenceMore(h, id);
    }
  }

  lemma NewSourcesCover(h: seq<Entry>, was: seq<Text>, now: seq<Text>)
    requires now == was + NewSources(h, was)
    ensures SourcesSay(was, h, now)
  {
    forall id | id in now ensures id in was || SomeEvidence(h, id) { NewSourcesAre(h, was, id); }
    forall i, j | 0 <= i < |h| && 0 <= j < |h[i].evidence| && h[i].evidence[j] != EMPTY ensures h[i].evidence[j] in now {
      assert SomeEvidence(h, h[i].evidence[j]);
      NewSourcesAre(h, was, h[i].evidence[j]);
    }
  }

  lemma RescoredFollows(score: Score, h: seq<Entry>)
    ensures ScoreFollows(score, h, Rescored(score, h))
  {
    if h != [] {
      LiveMeans(h);
      NewSourcesCover(h, score.sources, score.sources + NewSources(h, score.sources));
    }
  }

  lemma UpdatedParts(s: State, cap: Text, r: Report, gen: Fresh, h': seq<Entry>, s': State)
    requires cap in s.reg.scores && h' == HistoryAfter(s.rs, HistoryOf(s.reg.history, cap), r, gen)
    requires s' == Capabilities.UpdateScore(s, cap, r, gen)
    ensures HistoryOf(s'.reg.history, cap) == h' && s'.rs == RowsAfter(s.rs, HistoryOf(s.reg.history, cap), cap, r, gen)
    ensures cap in s'.reg.scores && s'.reg.scores[cap] == Rescored(s.reg.scores[cap], h')
    ensures OthersKept(s.reg.scores, s'.reg.scores, cap) && OthersKept(s.reg.history, s'.reg.history, cap)
  {
  }

  /** What an update of a capability's score leaves. */
  lemma UpdateMeans(s: State, cap: Text, r: Report, gen: Fresh)
    requires gen.record !in s.rs
    ensures UpdateAnswers(s, Capabilities.UpdateScore(s, cap, r, gen), cap, r, gen)
  {
    if cap in s.reg.scores {
      var h := HistoryOf(s.reg.history, cap);
      HistoryMeans(s.rs, h, r, gen);
      RowIsStored(s.rs, h, cap, r, gen);
      RescoredFollows(s.reg.scores[cap], HistoryAfter(s.rs, h, r, gen));
      UpdatedParts(s, cap, r, gen, HistoryAfter(s.rs, h, r, gen), Capabilities.UpdateScore(s, cap, r, gen));
    }
  }

  // ---- registering ----------------------------------------------------------------------------------------

  /** A capability starts without outcomes and sources, at a confidence of one half. */
  ghost predicate RegisterAnswers(s: State, s': State, cap: Text) {
    s'.rs == s.rs && OthersKept(s.reg.scores, s'.reg.scores, cap) && OthersKept(s.reg.history, s'.reg.history, cap)
    && cap in s'.reg.history && s'.reg.history[cap] == [] && cap in s'.reg.scores
    && (var st := s'.reg.scores[cap].stats;
        s'.reg.scores[cap].sources == [] && st.confidence == 0.5 && st.rate == 0.0 && st.recentFailures == 0.0
        && st.latency == 0.0 && st.cost == 0.0 && st.evidence == 0.0)
  }

  lemma RegisterMeans(s: State, cap: Text)
    ensures RegisterAnswers(s, Register(s, cap), cap)
  {
  }

  // ---- a restart ------------------------------------------------------------------------------------------

  predicate StoredFor(rs: map<Text, Row>, cap: Text, id: Text) {
    id in rs && rs[id].rtype == Lit(HistoryRecord) && rs[id].body.Obj? && cap != EMPTY && CapabilityId in rs[id].body.p
    && Show(rs[id].body.p[CapabilityId]) == cap
  }

  predicate EntryFrom(p: Payload, e: Entry) {
    e.mission == Get(p, MissionId) && (e.success <==> Truthy(Get(p, Success)))
    && (Get(p, RecordId).Str? ==> Str(e.record) == Get(p, RecordId)) && (Get(p, IdempotencyKey).Str? ==> Str(e.key) == Get(p, IdempotencyKey))
    && (Get(p, Latency).Num? ==> Num(e.latency) == Get(p, Latency)) && (Get(p, Cost).Num? ==> Num(e.cost) == Get(p, Cost))
    && e.evidence == if Truthy(Get(p, EvidenceId)) then [Show(Get(p, EvidenceId))] else []
  }

  /** The stored outcomes of the capability, each once, none before an older one. */
  ghost predicate RowsFor(rs: map<Text, Row>, cap: Text, rows: seq<Text>) {
    AllApart(rows) && (forall id :: id in rows <==> StoredFor(rs, cap, id))
    && forall i, j :: 0 <= i < j < |rows| ==> NotAfter(rs, rows[i], rows[j])
  }

  ghost predicate HistoryFrom(rs: map<Text, Row>, cap: Text, h: seq<Entry>) {
    exists rows :: RowsFor(rs, cap, rows) && |h| == |rows| && forall i :: 0 <= i < |rows| ==> EntryAt(rs, rows[i], h[i])
  }

  predicate EntryAt(rs: map<Text, Row>, id: Text, e: Entry) {
    id in rs && rs[id].body.Obj? && EntryFrom(rs[id].body.p, e)
  }

  /** A new registry has every capability with a stored outcome, and scores it by what is stored. */
  ghost predicate RestartAnswers(rs: map<Text, Row>, reg: Registry) {
    forall cap :: CapRestarts(rs, reg, cap)
  }

  ghost predicate CapRestarts(rs: map<Text, Row>, reg: Registry, cap: Text) {
    var h := HistoryOf(reg.history, cap);
    HistoryFrom(rs, cap, h) && (cap in reg.scores <==> h != [])
    && (h != [] ==> RebuiltSays(h, reg.scores[cap].stats) && reg.scores[cap].sources == [])
  }

  lemma {:induction false} FilterInOrder(rs: map<Text, Row>, ids: seq<Text>, f: Text -> bool)
    requires forall i, j :: 0 <= i < j < |ids| ==> NotAfter(rs, ids[i], ids[j])
    ensures forall i, j :: 0 <= i < j < |Filter(ids, f)| ==> NotAfter(rs, Filter(ids, f)[i], Filter(ids, f)[j])
  {
    if ids != [] {
      var most, last := ids[..|ids| - 1], ids[|ids| - 1];
      FilterInOrder(rs, most, f);
      assert ids == most + [last];
      FilterSnoc(most, last, f);
      forall i | 0 <= i < |Filter(most, f)| ensures NotAfter(rs, Filter(most, f)[i], last) {
        assert Filter(most, f)[i] in most;
        var k :| 0 <= k < |most| && most[k] == Filter(most, f)[i];
        assert ids[k] == most[k];
      }
    }
  }

  lemma ListedFor(rs: map<Text, Row>, ids: seq<Text>, cap: Text, id: Text)
    requires Listing(rs, Lit(HistoryRecord), Null, ids)
    ensures id in Filter(ids, About(rs, cap)) <==> StoredFor(rs, cap, id)
  {
    assert ListedAt(rs, Lit(HistoryRecord), Null, id) <==> IsOutcome(rs, id);
  }

  lemma LoadedFrom(rs: map<Text, Row>, ids: seq<Text>, cap: Text)
    requires Listing(rs, Lit(HistoryRecord), Null, ids) && Readable(rs, Lit(HistoryRecord))
    ensures HistoryFrom(rs, cap, Loaded(rs, ids, cap))
  {
    var rows, h := Filter(ids, About(rs, cap)), Loaded(rs, ids, cap);
    FilterApart(ids, About(rs, cap));
    FilterInOrder(rs, ids, About(rs, cap));
    forall id ensures id in rows <==> StoredFor(rs, cap, id) { ListedFor(rs, ids, cap, id); }
    forall i | 0 <= i < |rows| ensures EntryAt(rs, rows[i], h[i]) {
      assert rows[i] in rows;
    }
  }

  lemma LoadedIsFiled(rs: map<Text, Row>, ids: seq<Text>, cap: Text)
    ensures HistoryOf(AllLoaded(rs, ids), cap) == Loaded(rs, ids, cap)
  {
    if cap !in AllLoaded(rs, ids) {
      forall id | id in ids ensures !About(rs, cap)(id) {
        assert CapAt(rs, id) == EMPTY || CapAt(rs, id) in Caps(rs, ids);
      }
      FilterEmpty(ids, About(rs, cap));
    }
  }

  /** What a restart rebuilds, from any store of outcomes. */
  lemma RestartMeans(rs: map<Text, Row>, ids: seq<Text>)
    requires Listing(rs, Lit(HistoryRecord), Null, ids) && Readable(rs, Lit(HistoryRecord))
    ensures RestartAnswers(rs, Rebuilt(rs, ids))
  {
    forall cap ensures CapRestarts(rs, Rebuilt(rs, ids), cap) {
      var h := HistoryOf(AllLoaded(rs, ids), cap);
      LoadedIsFiled(rs, ids, cap);
      LoadedFrom(rs, ids, cap);
      if h != [] { RebuiltMeans(h); }
    }
  }
}
