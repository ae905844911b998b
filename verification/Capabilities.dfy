/** Capability scores: the outcomes a registry keeps in memory and in the store, and the scores it
    derives from either. */
module Capabilities {
  import opened Ledger
  import opened StoreSpec
  import opened Lists

  /** One outcome in memory. */
  datatype Entry = Entry(
    record: Text, mission: Value, success: bool, latency: real, cost: real, evidence: seq<Text>, stamp: Text, key: Text)

  /** The arguments of one `update_score`; `detail` holds what no score reads: provider, model, tokens. */
  datatype Report = Report(
    mission: Value, success: bool, latency: real, cost: real, evidence: seq<Text>, key: Text, detail: Payload)

  datatype Fresh = Fresh(record: Text, at: int)

  datatype Stats = Stats(
    rate: real, recentFailures: real, latency: real, cost: real, evidence: real, confidence: real)

  datatype Score = Score(stats: Stats, sources: seq<Text>)

  datatype Registry = Registry(history: map<Text, seq<Entry>>, scores: map<Text, Score>)

  const UNSCORED := Stats(0.0, 0.0, 0.0, 0.0, 0.0, 0.5)

  function HistoryOf(history: map<Text, seq<Entry>>, cap: Text): seq<Entry> {
    if cap in history then history[cap] else []
  }

  // ---- scores ---------------------------------------------------------------------------------

  function Won(): Entry -> real { (e: Entry) => One(e.success) }
  function Missed(): Entry -> real { (e: Entry) => One(!e.success) }
  function LatencyOf(): Entry -> real { (e: Entry) => e.latency }
  function CostOf(): Entry -> real { (e: Entry) => e.cost }

  /** What the live score counts: entries with evidence. */
  function Marks(): Entry -> real { (e: Entry) => One(e.evidence != []) }

  /** What a rebuilt score counts: pieces of evidence. */
  function Pieces(): Entry -> real { (e: Entry) => |e.evidence| as real }

  /** `history[-100:]`. */
  function Recent<T>(h: seq<T>): seq<T> {
    if |h| <= 100 then h else h[|h| - 100..]
  }

  function Confident(evidence: real): real {
    if evidence >= 3.0 then (if evidence / 10.0 <= 1.0 then evidence / 10.0 else 1.0)
    else if evidence * 0.1 >= 0.3 then evidence * 0.1 else 0.3
  }

  function StatsOf(h: seq<Entry>, evidence: real): Stats
    requires h != []
  {
    Stats(Total(h, Won()) / |h| as real, Total(Recent(h), Missed()) / |Recent(h)| as real,
          Total(h, LatencyOf()) / |h| as real, Total(h, CostOf()) / |h| as real, evidence, Confident(evidence))
  }

  /** `_recompute_single`. */
  function LiveStats(h: seq<Entry>): Stats
    requires h != []
  {
    StatsOf(h, Total(h, Marks()))
  }

  /** `_recompute_scores`. */
  function RebuiltStats(h: seq<Entry>): Stats
    requires h != []
  {
    StatsOf(h, Total(h, Pieces()))
  }

  function Unlisted(known: seq<Text>): Text -> bool {
    id => id != EMPTY && id !in known
  }

  /** The evidence ids not yet among the sources, entry by entry. */
  function NewSources(h: seq<Entry>, known: seq<Text>): seq<Text> {
    if h == [] then []
    else NewSources(h[..|h| - 1], known) + Filter(h[|h| - 1].evidence, Unlisted(known))
  }

  function Rescored(score: Score, h: seq<Entry>): Score {
    if h == [] then score else Score(LiveStats(h), score.sources + NewSources(h, score.sources))
  }

  // ---- records --------------------------------------------------------------------------------

  /** The evidence id a record keeps: the first, if there is any. */
  function Kept(evidence: seq<Text>): Value {
    if evidence == [] then Null else Str(evidence[0])
  }

  function Outcome(cap: Text, r: Report, gen: Fresh): Payload {
    r.detail + map[RecordId := Str(gen.record), CapabilityId := Str(cap), MissionId := r.mission, Success := Flag(r.success),
                   Latency := Num(r.latency), Cost := Num(r.cost), EvidenceId := Kept(r.evidence),
                   IdempotencyKey := Str(r.key), Timestamp := Str(Stamp(gen.at))]
  }

  function OutcomeItem(cap: Text, r: Report, gen: Fresh): Item {
    Item(gen.record, Lit(HistoryRecord), r.mission, Stamp(gen.at), Outcome(cap, r, gen))
  }

  function NewEntry(r: Report, gen: Fresh): Entry {
    Entry(gen.record, r.mission, r.success, r.latency, r.cost,
          if Truthy(Kept(r.evidence)) then [r.evidence[0]] else [], Stamp(gen.at), r.key)
  }

  function TextOf(v: Value): Text { if v.Str? then v.t else EMPTY }
  function RealOf(v: Value): real { if v.Num? then v.n else 0.0 }

  /** `_load_history` renames the cost and turns the evidence id into a list. */
  function LoadedEntry(p: Payload): Entry {
    Entry(TextOf(Get(p, RecordId)), Get(p, MissionId), Truthy(Get(p, Success)), RealOf(Get(p, Latency)), RealOf(Get(p, Cost)),
          if Truthy(Get(p, EvidenceId)) then [Show(Get(p, EvidenceId))] else [], TextOf(Get(p, Timestamp)),
          TextOf(Get(p, IdempotencyKey)))
  }

  // ---- updating -------------------------------------------------------------------------------

  predicate HasKey(h: seq<Entry>, key: Text) {
    key != EMPTY && exists i :: 0 <= i < |h| && h[i].key == key
  }

  /** The first entry with the key. */
  function FirstWith(h: seq<Entry>, key: Text): (i: nat)
    requires exists i :: 0 <= i < |h| && h[i].key == key
    ensures i < |h| && h[i].key == key && forall j :: 0 <= j < i ==> h[j].key != key
  {
    if h[0].key == key then 0
    else
      assert exists j :: 0 <= j < |h[1..]| && h[1..][j].key == key by {
        var k :| 0 <= k < |h| && h[k].key == key;
        assert h[1..][k - 1] == h[k];
      }
      var i := FirstWith(h[1..], key);
      assert h[1..][i] == h[i + 1];
      assert forall j :: 1 <= j < i + 1 ==> h[j] == h[1..][j - 1];
      i + 1
  }

  predicate KeyStored(rs: map<Text, Row>, key: Text) {
    key != EMPTY && exists id :: id in rs && rs[id].rtype == Lit(HistoryRecord) && rs[id].body.Obj?
                                 && Get(rs[id].body.p, IdempotencyKey) == Str(key)
  }

  /** `record_history` adds nothing: the key is in this history, or in any stored record. */
  predicate Known(rs: map<Text, Row>, h: seq<Entry>, key: Text) {
    HasKey(h, key) || KeyStored(rs, key)
  }

  function Recorded(rs: map<Text, Row>, h: seq<Entry>, r: Report, gen: Fresh): seq<Entry> {
    if Known(rs, h, r.key) then h else h + [NewEntry(r, gen)]
  }

  function Target(h: seq<Entry>, key: Text): (i: nat)
    requires h != []
    ensures i < |h|
  {
    if HasKey(h, key) then FirstWith(h, key) else |h| - 1
  }

  /** The entry found by key, or else the last one, takes over the evidence of the call. */
  function Marked(h: seq<Entry>, key: Text, evidence: seq<Text>): (r: seq<Entry>)
    ensures |r| == |h|
  {
    if h == [] then h else h[Target(h, key) := h[Target(h, key)].(evidence := evidence)]
  }

  function HistoryAfter(rs: map<Text, Row>, h: seq<Entry>, r: Report, gen: Fresh): seq<Entry> {
    Marked(Recorded(rs, h, r, gen), r.key, r.evidence)
  }

  /** A registry and the record table it writes to. */
  datatype State = State(rs: map<Text, Row>, reg: Registry)

  function RowsAfter(rs: map<Text, Row>, h: seq<Entry>, cap: Text, r: Report, gen: Fresh): map<Text, Row> {
    if Known(rs, h, r.key) then rs else SaveRecord(Tables(rs, map[]), OutcomeItem(cap, r, gen)).records
  }

  /** `update_score`. */
  function UpdateScore(s: State, cap: Text, r: Report, gen: Fresh): State {
    if cap !in s.reg.scores then s
    else
      var h := HistoryOf(s.reg.history, cap);
      var h' := HistoryAfter(s.rs, h, r, gen);
      State(
        RowsAfter(s.rs, h, cap, r, gen),
        Registry(if h' == [] then s.reg.history else s.reg.history[cap := h'],
                 s.reg.scores[cap := Rescored(s.reg.scores[cap], h')]))
  }

  /** `register_v2`. */
  function Register(s: State, cap: Text): State {
    s.(reg := Registry(s.reg.history[cap := []], s.reg.scores[cap := Score(UNSCORED, [])]))
  }

  // ---- restarting -----------------------------------------------------------------------------

  predicate IsOutcome(rs: map<Text, Row>, id: Text) {
    id in rs && rs[id].rtype == Lit(HistoryRecord)
  }

  function CapAt(rs: map<Text, Row>, id: Text): Text {
    if id in rs && rs[id].body.Obj? && CapabilityId in rs[id].body.p then Show(rs[id].body.p[CapabilityId]) else EMPTY
  }

  /** A stored outcome of the capability; records of the empty name are skipped. */
  predicate OfCap(rs: map<Text, Row>, cap: Text, id: Text) {
    IsOutcome(rs, id) && rs[id].body.Obj? && cap != EMPTY && CapAt(rs, id) == cap
  }

  function About(rs: map<Text, Row>, cap: Text): Text -> bool {
    id => OfCap(rs, cap, id)
  }

  function Entries(rs: map<Text, Row>, ids: seq<Text>): (h: seq<Entry>)
    requires forall id :: id in ids ==> id in rs && rs[id].body.Obj?
    ensures |h| == |ids| && forall i :: 0 <= i < |h| ==> ids[i] in ids && h[i] == LoadedEntry(rs[ids[i]].body.p)
  {
    seq(|ids|, i requires 0 <= i < |ids| => assert ids[i] in ids; LoadedEntry(rs[ids[i]].body.p))
  }

  /** What a new registry loads for the capability when the store lists its records in that order. */
  function Loaded(rs: map<Text, Row>, ids: seq<Text>, cap: Text): seq<Entry> {
    Entries(rs, Filter(ids, About(rs, cap)))
  }

  /** The capabilities that have records. */
  function Caps(rs: map<Text, Row>, ids: seq<Text>): set<Text> {
    set id | id in ids && CapAt(rs, id) != EMPTY :: CapAt(rs, id)
  }

  function AllLoaded(rs: map<Text, Row>, ids: seq<Text>): map<Text, seq<Entry>> {
    map cap | cap in Caps(rs, ids) :: Loaded(rs, ids, cap)
  }

  /** The scores of the capabilities gone through: all but those left. */
  function ScoresBut(history: map<Text, seq<Entry>>, left: set<Text>): map<Text, Score> {
    map cap | cap in history && cap !in left && history[cap] != [] :: Score(RebuiltStats(history[cap]), [])
  }

  /** The registry that a restart builds. */
  function Rebuilt(rs: map<Text, Row>, ids: seq<Text>): Registry {
    Registry(AllLoaded(rs, ids), ScoresBut(AllLoaded(rs, ids), {}))
  }
}
