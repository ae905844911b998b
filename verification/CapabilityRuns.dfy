/** Runs of a registry: registering, updating, restarting. A registry rebuilt from the store scores
    every capability as the live one does. */
module CapabilityRuns {
  import opened Ledger
  import opened StoreSpec
  import opened Capabilities

  datatype Move =
    | Registered(cap: Text)
    | Scored(cap: Text, r: Report, gen: Fresh)
    | Restarted(ids: seq<Text>)
    | Elsewhere(rs: map<Text, Row>)

  datatype Sys = Sys(state: State, now: int)

  predicate Later(a: int, b: int, strict: bool) {
    if strict then a < b else a <= b
  }

  ghost predicate Leaves(rs: map<Text, Row>, rs': map<Text, Row>) {
    forall id :: IsOutcome(rs, id) || IsOutcome(rs', id) ==> id in rs && id in rs' && rs'[id] == rs[id]
  }

  ghost predicate HasRecords(rs: map<Text, Row>, cap: Text) {
    exists id :: OfCap(rs, cap, id)
  }

  /** The evidence a call passes is empty exactly when the record that stands for the entry it marks
      has no evidence id. */
  predicate Faithful(rs: map<Text, Row>, h: seq<Entry>, r: Report) {
    if HasKey(h, r.key) then (r.evidence == []) == (h[FirstWith(h, r.key)].evidence == [])
    else if KeyStored(rs, r.key) then h != [] ==> (r.evidence == []) == (h[|h| - 1].evidence == [])
    else (r.evidence == []) == !Truthy(Kept(r.evidence))
  }

  ghost predicate Timely(s: Sys, gen: Fresh, strict: bool) {
    gen.record !in s.state.rs && Later(s.now, gen.at, strict)
  }

  ghost predicate Allowed(s: Sys, m: Move, strict: bool) {
    match m
    case Registered(cap) => cap != EMPTY && !HasRecords(s.state.rs, cap)
    case Scored(cap, r, gen) =>
      Timely(s, gen, strict) && (cap in s.state.reg.scores ==> Faithful(s.state.rs, HistoryOf(s.state.reg.history, cap), r))
    case Restarted(ids) => Listing(s.state.rs, Lit(HistoryRecord), Null, ids)
    case Elsewhere(rs) => Leaves(s.state.rs, rs)
  }

  ghost function Do(s: Sys, m: Move): Sys {
    match m
    case Registered(cap) => s.(state := Register(s.state, cap))
    case Scored(cap, r, gen) => Sys(UpdateScore(s.state, cap, r, gen), gen.at)
    case Restarted(ids) => s.(state := s.state.(reg := Rebuilt(s.state.rs, ids)))
    case Elsewhere(rs) => s.(state := s.state.(rs := rs))
  }

  const START := Sys(State(map[], Registry(map[], map[])), 0)

  ghost function Run(moves: seq<Move>): Sys {
    if moves == [] then START else Do(Run(moves[..|moves| - 1]), moves[|moves| - 1])
  }

  ghost predicate FaithfulRun(moves: seq<Move>, strict: bool) {
    moves == []
    || (FaithfulRun(moves[..|moves| - 1], strict) && Allowed(Run(moves[..|moves| - 1]), moves[|moves| - 1], strict))
  }

  // ---- the invariant --------------------------------------------------------------------------

  function At(rs: map<Text, Row>, id: Text): int {
    if id in rs && rs[id].created.Stamp? then rs[id].created.at else 0
  }

  /** An outcome row, as `record_history` writes it. */
  predicate OutcomeOk(id: Text, row: Row) {
    row.body.Obj? && row.created.Stamp? && Get(row.body.p, RecordId) == Str(id)
    && Get(row.body.p, CapabilityId).Str? && Get(row.body.p, CapabilityId) != Str(EMPTY) && Get(row.body.p, Success).Flag?
    && Get(row.body.p, Latency).Num? && Get(row.body.p, Cost).Num? && Get(row.body.p, IdempotencyKey).Str?
  }

  ghost predicate RowsOk(rs: map<Text, Row>, now: int) {
    forall id :: IsOutcome(rs, id) ==> OutcomeOk(id, rs[id]) && At(rs, id) <= now
  }

  /** An entry says of its record what the scores read. */
  predicate Matches(p: Payload, e: Entry) {
    var stored := LoadedEntry(p);
    e.record == stored.record && e.success == stored.success && e.latency == stored.latency && e.cost == stored.cost
    && e.key == stored.key && (e.evidence == [] <==> stored.evidence == [])
  }

  /** The entries in memory are the stored outcomes of the capability, once each, oldest first. */
  ghost predicate Mirrors(rs: map<Text, Row>, cap: Text, h: seq<Entry>, strict: bool) {
    (forall i :: 0 <= i < |h| ==> OfCap(rs, cap, h[i].record) && Matches(rs[h[i].record].body.p, h[i]))
    && (forall id :: OfCap(rs, cap, id) ==> exists i :: 0 <= i < |h| && h[i].record == id)
    && (forall i, j :: 0 <= i < j < |h| ==>
          h[i].record != h[j].record && Later(At(rs, h[i].record), At(rs, h[j].record), strict))
  }

  ghost predicate AllMirror(rs: map<Text, Row>, history: map<Text, seq<Entry>>, strict: bool) {
    forall cap :: Mirrors(rs, cap, HistoryOf(history, cap), strict)
  }

  predicate ScoreOk(reg: Registry, cap: Text) {
    var h := HistoryOf(reg.history, cap);
    if cap in reg.scores then h != [] ==> reg.scores[cap].stats == LiveStats(h) else h == []
  }

  ghost predicate ScoresOk(reg: Registry) {
    (forall cap :: ScoreOk(reg, cap)) && EMPTY !in reg.scores
  }

  predicate Holds(rs: map<Text, Row>, key: Text, id: Text) {
    IsOutcome(rs, id) && rs[id].body.Obj? && Get(rs[id].body.p, IdempotencyKey) == Str(key)
  }

  /** No idempotency key is on two records, of whatever capability. */
  ghost predicate KeysOk(rs: map<Text, Row>) {
    forall key, a, b :: key != EMPTY && Holds(rs, key, a) && Holds(rs, key, b) ==> a == b
  }

  ghost predicate Good(s: Sys, strict: bool) {
    RowsOk(s.state.rs, s.now) && AllMirror(s.state.rs, s.state.reg.history, strict) && ScoresOk(s.state.reg) && KeysOk(s.state.rs)
  }

  // ---- one more outcome -----------------------------------------------------------------------

  lemma OutcomeFacts(cap: Text, r: Report, gen: Fresh)
    ensures var p := Outcome(cap, r, gen);
      Get(p, RecordId) == Str(gen.record) && Get(p, CapabilityId) == Str(cap) && Get(p, Success) == Flag(r.success)
      && Get(p, Latency) == Num(r.latency) && Get(p, Cost) == Num(r.cost) && Get(p, EvidenceId) == Kept(r.evidence)
      && Get(p, IdempotencyKey) == Str(r.key)
  {
  }

  lemma NewMatches(cap: Text, r: Report, gen: Fresh)
    ensures Matches(Outcome(cap, r, gen), NewEntry(r, gen))
  {
    OutcomeFacts(cap, r, gen);
  }

  /** The rows after one more outcome has been saved. */
  ghost predicate OneMore(rs: map<Text, Row>, rs': map<Text, Row>, cap: Text, id: Text, now: int) {
    id !in rs && cap != EMPTY && id in rs' && rs'.Keys == rs.Keys + {id} && (forall x :: x in rs ==> rs'[x] == rs[x])
    && IsOutcome(rs', id) && OutcomeOk(id, rs'[id]) && CapAt(rs', id) == cap && At(rs', id) == now
  }

  lemma SavedIsOneMore(rs: map<Text, Row>, cap: Text, r: Report, gen: Fresh)
    requires gen.record !in rs && cap != EMPTY
    ensures var rs' := SaveRecord(Tables(rs, map[]), OutcomeItem(cap, r, gen)).records;
      OneMore(rs, rs', cap, gen.record, gen.at) && rs'[gen.record].body.p == Outcome(cap, r, gen)
  {
    OutcomeFacts(cap, r, gen);
  }

  lemma OneMoreOfCap(rs: map<Text, Row>, rs': map<Text, Row>, cap: Text, id: Text, now: int, d: Text, x: Text)
    requires OneMore(rs, rs', cap, id, now)
    ensures OfCap(rs', d, x) <==> (x == id && d == cap) || OfCap(rs, d, x)
    ensures OfCap(rs, d, x) ==> x != id && rs'[x] == rs[x] && At(rs', x) == At(rs, x)
  {
  }

  lemma OthersMirror(
    rs: map<Text, Row>, rs': map<Text, Row>, cap: Text, id: Text, now: int, d: Text, h: seq<Entry>, strict: bool)
    requires OneMore(rs, rs', cap, id, now) && d != cap && Mirrors(rs, d, h, strict)
    ensures Mirrors(rs', d, h, strict)
  {
    forall i | 0 <= i < |h| ensures OfCap(rs', d, h[i].record) && Matches(rs'[h[i].record].body.p, h[i])
                                    && At(rs', h[i].record) == At(rs, h[i].record) {
      OneMoreOfCap(rs, rs', cap, id, now, d, h[i].record);
    }
    forall x | OfCap(rs', d, x) ensures exists i :: 0 <= i < |h| && h[i].record == x {
      OneMoreOfCap(rs, rs', cap, id, now, d, x);
    }
  }

  lemma MoreMirrors(
    rs: map<Text, Row>, rs': map<Text, Row>, cap: Text, id: Text, was: int, now: int, h: seq<Entry>, e: Entry, strict: bool)
    requires OneMore(rs, rs', cap, id, now) && RowsOk(rs, was) && Later(was, now, strict) && Mirrors(rs, cap, h, strict)
    requires e.record == id && Matches(rs'[id].body.p, e)
    ensures Mirrors(rs', cap, h + [e], strict)
  {
    var h' := h + [e];
    OneMoreOfCap(rs, rs', cap, id, now, cap, id);
    forall i | 0 <= i < |h| ensures OfCap(rs', cap, h[i].record) && Matches(rs'[h[i].record].body.p, h[i])
                                    && h[i].record != id && At(rs', h[i].record) == At(rs, h[i].record) <= was {
      OneMoreOfCap(rs, rs', cap, id, now, cap, h[i].record);
    }
    forall x | OfCap(rs', cap, x) ensures exists i :: 0 <= i < |h'| && h'[i].record == x {
      OneMoreOfCap(rs, rs', cap, id, now, cap, x);
      if x == id {
        assert h'[|h|].record == x;
      } else {
        var i :| 0 <= i < |h| && h[i].record == x;
        assert h'[i].record == x;
      }
    }
  }

  /** Replacing an entry's evidence keeps the mirror as long as it stays empty or stays non-empty. */
  lemma MarkedMirrors(rs: map<Text, Row>, cap: Text, h: seq<Entry>, key: Text, evidence: seq<Text>, strict: bool)
    requires Mirrors(rs, cap, h, strict)
    requires h != [] ==> (evidence == [] <==> h[Target(h, key)].evidence == [])
    ensures Mirrors(rs, cap, Marked(h, key, evidence), strict)
  {
    var h' := Marked(h, key, evidence);
    assert forall i :: 0 <= i < |h| ==> h'[i].record == h[i].record;
    forall id | OfCap(rs, cap, id) ensures exists i :: 0 <= i < |h'| && h'[i].record == id {
      var i :| 0 <= i < |h| && h[i].record == id;
      assert h'[i].record == id;
    }
  }
}
