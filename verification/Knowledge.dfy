/** Knowledge over memory: predicting a supersession, and recalling only what still stands. */
module Knowledge {
  import opened Ledger
  import opened StoreSpec
  import opened Lists
  import opened MemoryRules
  import opened MemoryRuns
  import opened MemoryGuarantees

  // ---- detecting supersession ----------------------------------------------------------------

  datatype Detection = NewEntry | DuplicateOf(id: Value) | WillSupersede(ids: seq<Value>)

  function IdsOf(all: seq<Payload>): (ids: seq<Value>)
    ensures |ids| == |all| && forall i :: 0 <= i < |all| ==> ids[i] == Get(all[i], MemoryId)
  {
    seq(|all|, i requires 0 <= i < |all| => Get(all[i], MemoryId))
  }

  /** The filters that the two queries use. */
  function Under(key: Text): Payload -> bool { p => Holds(p, key) }
  function Saying(content: Text): Payload -> bool { p => !Differs(p, content) }
  function Keyed(key: Value): Payload -> bool { p => Get(p, MemoryKey) == key }
  function NotKeyed(key: Value): Payload -> bool { p => Get(p, MemoryKey) != key }

  /** `detect_supersession`, on the records of the scope. */
  function Detect(all: seq<Payload>, key: Text, content: Text): Detection {
    var canonical := Filter(all, Under(key));
    if canonical == [] then NewEntry
    else
      var duplicates := Filter(canonical, Saying(content));
      if duplicates != [] then DuplicateOf(Get(duplicates[0], MemoryId)) else WillSupersede(IdsOf(canonical))
  }

  /** The `supersedes` list of the report. */
  function Predicted(d: Detection): seq<Value> {
    if d.WillSupersede? then d.ids else []
  }

  ghost predicate PredictsExactly(d: Detection, ids: set<Text>) {
    AreExactly(Predicted(d), ids)
  }

  ghost predicate AreExactly(names: seq<Value>, ids: set<Text>) {
    forall v {:trigger v in names} :: v in names <==> v.Str? && v.t in ids
  }

  /** The scope holds both the new content and another one under the key. */
  ghost predicate Mixed(rs: map<Text, Row>, mission: Value, key: Text, content: Text) {
    Said(rs, mission, key, content) && Outdated(rs, mission, key, content) != {}
  }

  ghost predicate AllFiled(rs: map<Text, Row>) {
    forall id :: IsMemory(rs, id) ==> rs[id].body.Obj? && rs[id].created.Stamp? && Get(rs[id].body.p, MemoryId) == Str(id)
  }

  ghost predicate Inspects(rs: map<Text, Row>, mission: Value, ids: seq<Text>) {
    AllFiled(rs) && Listing(rs, Lit(MemoryRow), mission, ids)
  }

  lemma ListedPayload(rs: map<Text, Row>, mission: Value, ids: seq<Text>, p: Payload)
    requires Inspects(rs, mission, ids)
    ensures p in PayloadsOf(rs, ids) <==>
      Get(p, MemoryId).Str? && Get(p, MemoryId).t in ids && p == rs[Get(p, MemoryId).t].body.p
  {
    var all := PayloadsOf(rs, ids);
    if p in all {
      var i :| 0 <= i < |all| && all[i] == p;
      assert ids[i] in ids;
    }
    if Get(p, MemoryId).Str? && Get(p, MemoryId).t in ids && p == rs[Get(p, MemoryId).t].body.p {
      var i :| 0 <= i < |ids| && ids[i] == Get(p, MemoryId).t;
      assert all[i] == p;
    }
  }

  lemma CanonicalIsHeld(rs: map<Text, Row>, mission: Value, ids: seq<Text>, key: Text, v: Value)
    requires Inspects(rs, mission, ids) && v in IdsOf(Filter(PayloadsOf(rs, ids), Under(key)))
    ensures v.Str? && HoldsAt(rs, mission, key, v.t)
  {
    var canonical := Filter(PayloadsOf(rs, ids), Under(key));
    var i :| 0 <= i < |canonical| && IdsOf(canonical)[i] == v;
    assert canonical[i] in canonical;
    ListedPayload(rs, mission, ids, canonical[i]);
  }

  lemma HeldIsCanonical(rs: map<Text, Row>, mission: Value, ids: seq<Text>, key: Text, id: Text)
    requires Inspects(rs, mission, ids) && HoldsAt(rs, mission, key, id)
    ensures rs[id].body.p in Filter(PayloadsOf(rs, ids), Under(key))
    ensures Str(id) in IdsOf(Filter(PayloadsOf(rs, ids), Under(key)))
  {
    var canonical, p := Filter(PayloadsOf(rs, ids), Under(key)), rs[id].body.p;
    ListedPayload(rs, mission, ids, p);
    var i :| 0 <= i < |canonical| && canonical[i] == p;
    assert IdsOf(canonical)[i] == Str(id);
  }

  /** The scope already says this under the key. */
  ghost predicate Said(rs: map<Text, Row>, mission: Value, key: Text, content: Text) {
    exists a :: SaidBy(rs, mission, key, content, a)
  }

  predicate SaidBy(rs: map<Text, Row>, mission: Value, key: Text, content: Text, a: Text) {
    HoldsAt(rs, mission, key, a) && !Differs(rs[a].body.p, content)
  }

  lemma DuplicateIsSaid(rs: map<Text, Row>, mission: Value, ids: seq<Text>, key: Text, content: Text, p: Payload)
    requires Inspects(rs, mission, ids) && p in Filter(Filter(PayloadsOf(rs, ids), Under(key)), Saying(content))
    ensures Said(rs, mission, key, content)
  {
    ListedPayload(rs, mission, ids, p);
    assert SaidBy(rs, mission, key, content, Get(p, MemoryId).t);
  }

  lemma SaidIsDuplicate(rs: map<Text, Row>, mission: Value, ids: seq<Text>, key: Text, content: Text, a: Text)
    requires Inspects(rs, mission, ids) && SaidBy(rs, mission, key, content, a)
    ensures Filter(Filter(PayloadsOf(rs, ids), Under(key)), Saying(content)) != []
  {
    HeldIsCanonical(rs, mission, ids, key, a);
    assert rs[a].body.p in Filter(Filter(PayloadsOf(rs, ids), Under(key)), Saying(content));
  }

  lemma DuplicatesExist(rs: map<Text, Row>, mission: Value, ids: seq<Text>, key: Text, content: Text)
    requires Inspects(rs, mission, ids)
    ensures Filter(Filter(PayloadsOf(rs, ids), Under(key)), Saying(content)) != [] <==> Said(rs, mission, key, content)
  {
    var duplicates := Filter(Filter(PayloadsOf(rs, ids), Under(key)), Saying(content));
    if duplicates != [] {
      DuplicateIsSaid(rs, mission, ids, key, content, duplicates[0]);
    }
    if Said(rs, mission, key, content) {
      var a :| SaidBy(rs, mission, key, content, a);
      SaidIsDuplicate(rs, mission, ids, key, content, a);
    }
  }

  /** Exactly the committed records of the key. */
  ghost predicate NamesHeld(rs: map<Text, Row>, mission: Value, key: Text, names: seq<Value>) {
    forall v {:trigger v in names} :: v in names <==> v.Str? && HoldsAt(rs, mission, key, v.t)
  }

  lemma CanonicalAre(rs: map<Text, Row>, mission: Value, ids: seq<Text>, key: Text)
    requires Inspects(rs, mission, ids)
    ensures NamesHeld(rs, mission, key, IdsOf(Filter(PayloadsOf(rs, ids), Under(key))))
  {
    var names := IdsOf(Filter(PayloadsOf(rs, ids), Under(key)));
    forall v ensures v in names <==> v.Str? && HoldsAt(rs, mission, key, v.t) {
      if v in names { CanonicalIsHeld(rs, mission, ids, key, v); }
      if v.Str? && HoldsAt(rs, mission, key, v.t) { HeldIsCanonical(rs, mission, ids, key, v.t); }
    }
  }

  lemma PredictedIs(all: seq<Payload>, key: Text, content: Text)
    ensures var canonical := Filter(all, Under(key));
      Predicted(Detect(all, key, content)) == if Filter(canonical, Saying(content)) != [] then [] else IdsOf(canonical)
  {
  }

  lemma HeldIsOutdated(rs: map<Text, Row>, mission: Value, key: Text, content: Text, id: Text)
    requires !SaidBy(rs, mission, key, content, id)
    ensures id in Outdated(rs, mission, key, content) <==> HoldsAt(rs, mission, key, id)
  {
  }

  lemma HeldAreOutdated(rs: map<Text, Row>, mission: Value, key: Text, content: Text, names: seq<Value>, ids: set<Text>)
    requires NamesHeld(rs, mission, key, names) && !Said(rs, mission, key, content)
    requires ids == Outdated(rs, mission, key, content)
    ensures AreExactly(names, ids)
  {
    forall v ensures v in names <==> v.Str? && v.t in ids {
      if v.Str? { HeldIsOutdated(rs, mission, key, content, v.t); }
    }
  }

  lemma MixedIsMissed(rs: map<Text, Row>, mission: Value, key: Text, content: Text, ids: set<Text>)
    requires ids == Outdated(rs, mission, key, content) && Said(rs, mission, key, content)
    ensures AreExactly([], ids) <==> !Mixed(rs, mission, key, content)
  {
    if id :| id in ids { assert Str(id) !in []; }
  }

  /** The report names exactly the records the next write will retire, unless the scope holds both
      the new content and another one under the key: then it reports a duplicate, and the write
      retires the others all the same. */
  lemma PredictionExactlyWhen(rs: map<Text, Row>, mission: Value, ids: seq<Text>, key: Text, content: Text)
    requires Inspects(rs, mission, ids)
    ensures PredictsExactly(Detect(PayloadsOf(rs, ids), key, content), Outdated(rs, mission, key, content))
      <==> !Mixed(rs, mission, key, content)
  {
    var all, outdated := PayloadsOf(rs, ids), Outdated(rs, mission, key, content);
    DuplicatesExist(rs, mission, ids, key, content);
    PredictedIs(all, key, content);
    if Said(rs, mission, key, content) {
      MixedIsMissed(rs, mission, key, content, outdated);
    } else {
      CanonicalAre(rs, mission, ids, key);
      HeldAreOutdated(rs, mission, key, content, IdsOf(Filter(all, Under(key))), outdated);
    }
  }

  /** The oldest committed record of the scope that says this under the key. */
  ghost predicate FirstToSay(rs: map<Text, Row>, mission: Value, key: Text, content: Text, v: Value) {
    v.Str? && SaidBy(rs, mission, key, content, v.t)
    && forall other :: SaidBy(rs, mission, key, content, other) ==> NotAfter(rs, v.t, other)
  }

  lemma DuplicateIsFirst(rs: map<Text, Row>, mission: Value, ids: seq<Text>, key: Text, content: Text, p: Payload)
    requires Inspects(rs, mission, ids)
    requires var d := Filter(Filter(PayloadsOf(rs, ids), Under(key)), Saying(content)); d != [] && p == d[0]
    ensures FirstToSay(rs, mission, key, content, Get(p, MemoryId))
  {
    var all, says := PayloadsOf(rs, ids), Both(Under(key), Saying(content));
    FilterTwice(all, Under(key), Saying(content));
    var k := FilterFirst(all, says);
    ListedPayload(rs, mission, ids, p);
    assert ids[k] in ids && ids[k] == Get(p, MemoryId).t;
    forall other | SaidBy(rs, mission, key, content, other) ensures NotAfter(rs, ids[k], other) {
      assert other in ids;
      var j :| 0 <= j < |ids| && ids[j] == other;
      assert says(all[j]);
    }
  }

  /** What a report says: nothing is committed under the key, or the oldest record that says it, or all
      the committed records of the key, none of which says it. */
  ghost predicate Reports(rs: map<Text, Row>, mission: Value, key: Text, content: Text, d: Detection) {
    match d
    case NewEntry => forall id :: !HoldsAt(rs, mission, key, id)
    case DuplicateOf(v) => FirstToSay(rs, mission, key, content, v)
    case WillSupersede(names) => names != [] && NamesHeld(rs, mission, key, names) && !Said(rs, mission, key, content)
  }

  lemma DetectReports(rs: map<Text, Row>, mission: Value, ids: seq<Text>, key: Text, content: Text)
    requires Inspects(rs, mission, ids)
    ensures Reports(rs, mission, key, content, Detect(PayloadsOf(rs, ids), key, content))
  {
    var all := PayloadsOf(rs, ids);
    var canonical := Filter(all, Under(key));
    if canonical == [] {
      forall id ensures !HoldsAt(rs, mission, key, id) {
        if HoldsAt(rs, mission, key, id) { HeldIsCanonical(rs, mission, ids, key, id); }
      }
    } else {
      var duplicates := Filter(canonical, Saying(content));
      DuplicatesExist(rs, mission, ids, key, content);
      if duplicates != [] {
        DuplicateIsFirst(rs, mission, ids, key, content, duplicates[0]);
      } else {
        CanonicalAre(rs, mission, ids, key);
      }
    }
  }

  lemma InvFiles(rs: map<Text, Row>, order: seq<Text>)
    requires RecordsOk(rs, order)
    ensures AllFiled(rs)
  {
    forall id | IsMemory(rs, id) ensures rs[id].body.Obj? && rs[id].created.Stamp? && Get(rs[id].body.p, MemoryId) == Str(id) {
      assert Sound(id, rs[id]);
    }
  }

  lemma MissionAgrees(rs: map<Text, Row>, mission: Value, key: Text, a: Text, b: Text)
    requires Agree(rs) && Truthy(mission) && HoldsAt(rs, mission, key, a) && HoldsAt(rs, mission, key, b)
    ensures Get(rs[a].body.p, Content) == Get(rs[b].body.p, Content)
  {
    assert HoldsAt(rs, Null, key, a) && HoldsAt(rs, Null, key, b);
  }

  lemma MissionIsNotMixed(rs: map<Text, Row>, mission: Value, key: Text, content: Text)
    requires Agree(rs) && Truthy(mission)
    ensures !Mixed(rs, mission, key, content)
  {
    if Mixed(rs, mission, key, content) {
      var a :| SaidBy(rs, mission, key, content, a);
      var b :| b in Outdated(rs, mission, key, content);
      MissionAgrees(rs, mission, key, a, b);
    }
  }

  /** In every run, for a mission the prediction is right. */
  lemma {:induction false} PredictionMatchesTheKernel(moves: seq<Move>, mission: Value, ids: seq<Text>, key: Text, content: Text)
    requires EngineRun(moves) && Truthy(mission) && Listing(Run(moves).db.records, Lit(MemoryRow), mission, ids)
    ensures var rs := Run(moves).db.records;
      AllFiled(rs)
      && PredictsExactly(Detect(PayloadsOf(rs, ids), key, content), Outdated(rs, mission, key, content))
  {
    RunKeepsInv(moves);
    PredictionInState(Run(moves).db.records, Run(moves).order, mission, ids, key, content);
  }

  lemma PredictionInState(
    rs: map<Text, Row>, order: seq<Text>, mission: Value, ids: seq<Text>, key: Text, content: Text)
    requires RecordsOk(rs, order) && Truthy(mission) && Listing(rs, Lit(MemoryRow), mission, ids)
    ensures AllFiled(rs)
    ensures PredictsExactly(Detect(PayloadsOf(rs, ids), key, content), Outdated(rs, mission, key, content))
  {
    InvFiles(rs, order);
    PredictionExactlyWhen(rs, mission, ids, key, content);
    MissionIsNotMixed(rs, mission, key, content);
  }

  /** Without a mission it can be wrong: two missions hold different contents under one key. */
  lemma GlobalPredictionCanMiss(rs: map<Text, Row>, ids: seq<Text>, key: Text, a: Text, b: Text)
    requires Inspects(rs, Null, ids) && HoldsAt(rs, Null, key, a) && HoldsAt(rs, Null, key, b)
    requires Get(rs[a].body.p, Content).Str? && Get(rs[a].body.p, Content) != Get(rs[b].body.p, Content)
    ensures var content := Get(rs[a].body.p, Content).t;
      Predicted(Detect(PayloadsOf(rs, ids), key, content)) == [] && b in Outdated(rs, Null, key, content)
  {
    assert SaidBy(rs, Null, key, Get(rs[a].body.p, Content).t, a);
    DuplicatesExist(rs, Null, ids, key, Get(rs[a].body.p, Content).t);
  }

  // ---- recall ------------------------------------------------------------------------------

  predicate IsCommitted(p: Payload) {
    Get(p, Status) == Literal(CommittedStatus)
  }

  /** A newly listed record pushes out the earlier ones of its key. */
  function Replacing(standing: seq<Payload>, last: Payload): seq<Payload> {
    Filter(standing, NotKeyed(Get(last, MemoryKey))) + [last]
  }

  /** The committed records, oldest first, without those a later one of the same key replaces. */
  function Surviving(committed: seq<Payload>): seq<Payload> {
    if committed == [] then [] else Replacing(Surviving(committed[..|committed| - 1]), committed[|committed| - 1])
  }

  /** `query_non_superseded`, unfiltered. */
  function NonSuperseded(all: seq<Payload>): seq<Payload> {
    Surviving(Filter(all, IsCommitted))
  }

  function LastOf(committed: seq<Payload>, key: Value): (p: Option<Payload>) {
    var hits := Filter(committed, Keyed(key));
    if hits == [] then None else Some(hits[|hits| - 1])
  }

  lemma {:induction false} DroppedKey(s: seq<Payload>, key: Value)
    ensures Filter(Filter(s, NotKeyed(key)), Keyed(key)) == []
  {
    if s != [] {
      DroppedKey(s[..|s| - 1], key);
      if NotKeyed(key)(s[|s| - 1]) { FilterSnoc(Filter(s[..|s| - 1], NotKeyed(key)), s[|s| - 1], Keyed(key)); }
    }
  }

  lemma {:induction false} KeptKey(s: seq<Payload>, key: Value, other: Value)
    requires key != other
    ensures Filter(Filter(s, NotKeyed(other)), Keyed(key)) == Filter(s, Keyed(key))
  {
    if s != [] {
      KeptKey(s[..|s| - 1], key, other);
      if NotKeyed(other)(s[|s| - 1]) { FilterSnoc(Filter(s[..|s| - 1], NotKeyed(other)), s[|s| - 1], Keyed(key)); }
    }
  }

  lemma ReplacingKeyed(standing: seq<Payload>, last: Payload, key: Value)
    ensures Filter(Replacing(standing, last), Keyed(key))
      == if Get(last, MemoryKey) == key then [last] else Filter(standing, Keyed(key))
  {
    var other := Get(last, MemoryKey);
    FilterSnoc(Filter(standing, NotKeyed(other)), last, Keyed(key));
    if other == key { DroppedKey(standing, key); } else { KeptKey(standing, key, other); }
  }

  lemma LastOfMore(most: seq<Payload>, last: Payload, key: Value)
    ensures LastOf(most + [last], key) == if Get(last, MemoryKey) == key then Some(last) else LastOf(most, key)
  {
    FilterSnoc(most, last, Keyed(key));
  }

  function Either(p: Option<Payload>): seq<Payload> {
    if p.None? then [] else [p.value]
  }

  /** Under each key exactly one record stands, the last committed, if any was committed. */
  lemma {:induction false} OneStandsPerKey(committed: seq<Payload>, key: Value)
    ensures Filter(Surviving(committed), Keyed(key)) == Either(LastOf(committed, key))
  {
    if committed != [] {
      var most, last := committed[..|committed| - 1], committed[|committed| - 1];
      assert committed == most + [last];
      OneStandsPerKey(most, key);
      ReplacingKeyed(Surviving(most), last, key);
      LastOfMore(most, last, key);
    }
  }

  /** A committed record that a later one of the same key replaces. */
  ghost predicate Replaced(committed: seq<Payload>, p: Payload) {
    exists i, j :: 0 <= i < j < |committed| && committed[i] == p && Get(committed[j], MemoryKey) == Get(p, MemoryKey)
  }

  ghost function NotReplaced(committed: seq<Payload>): Payload -> bool {
    p => !Replaced(committed, p)
  }

  lemma ReplacedOneMore(most: seq<Payload>, last: Payload, p: Payload)
    requires p in most && AllApart(most + [last])
    ensures Replaced(most + [last], p) <==> Replaced(most, p) || Get(p, MemoryKey) == Get(last, MemoryKey)
  {
    var all := most + [last];
    var k :| 0 <= k < |most| && most[k] == p;
    if Replaced(most, p) {
      var i, j :| 0 <= i < j < |most| && most[i] == p && Get(most[j], MemoryKey) == Get(p, MemoryKey);
      assert all[i] == p && all[j] == most[j];
    }
    if Get(p, MemoryKey) == Get(last, MemoryKey) {
      assert all[k] == p && all[|most|] == last;
    }
    if Replaced(all, p) {
      var i, j :| 0 <= i < j < |all| && all[i] == p && Get(all[j], MemoryKey) == Get(p, MemoryKey);
      if j < |most| { assert most[i] == p && most[j] == all[j]; }
    }
  }

  lemma LastIsNotReplaced(most: seq<Payload>, last: Payload)
    requires AllApart(most + [last])
    ensures NotReplaced(most + [last])(last)
  {
    var all := most + [last];
    assert forall i :: 0 <= i < |most| ==> all[i] != all[|most|];
  }

  lemma OneMoreReplaces(most: seq<Payload>, last: Payload)
    requires AllApart(most + [last])
    ensures Filter(most + [last], NotReplaced(most + [last])) == Replacing(Filter(most, NotReplaced(most)), last)
  {
    var all, key := most + [last], Get(last, MemoryKey);
    forall p | p in most ensures NotReplaced(all)(p) == Both(NotReplaced(most), NotKeyed(key))(p) {
      ReplacedOneMore(most, last, p);
    }
    FilterSame(most, NotReplaced(all), Both(NotReplaced(most), NotKeyed(key)));
    FilterTwice(most, NotReplaced(most), NotKeyed(key));
    LastIsNotReplaced(most, last);
    FilterSnoc(most, last, NotReplaced(all));
  }

  /** The standing records are exactly those nothing later replaces. */
  lemma {:induction false} SurvivingAreNotReplaced(committed: seq<Payload>)
    requires AllApart(committed)
    ensures Surviving(committed) == Filter(committed, NotReplaced(committed))
  {
    if committed != [] {
      var most, last := committed[..|committed| - 1], committed[|committed| - 1];
      assert committed == most + [last];
      SurvivingAreNotReplaced(most);
      OneMoreReplaces(most, last);
    }
  }

  /** One hit, a committed record of the scope under the key. */
  ghost predicate OneHit(rs: map<Text, Row>, mission: Value, key: Text, hits: seq<Payload>) {
    |hits| == 1 && Get(hits[0], MemoryId).Str? && HoldsAt(rs, mission, key, Get(hits[0], MemoryId).t)
    && hits[0] == rs[Get(hits[0], MemoryId).t].body.p
  }

  lemma RecallInState(rs: map<Text, Row>, mission: Value, ids: seq<Text>, key: Text, id: Text)
    requires Inspects(rs, mission, ids) && HoldsAt(rs, mission, key, id)
    ensures OneHit(rs, mission, key, Filter(NonSuperseded(PayloadsOf(rs, ids)), Keyed(Str(key))))
  {
    var all := PayloadsOf(rs, ids);
    var committed := Filter(all, IsCommitted);
    var hits := Filter(committed, Keyed(Str(key)));
    OneStandsPerKey(committed, Str(key));
    ListedPayload(rs, mission, ids, rs[id].body.p);
    assert rs[id].body.p in hits;
    var p := hits[|hits| - 1];
    assert p in hits && p in all;
    ListedPayload(rs, mission, ids, p);
  }

  /** Recall in a scope returns exactly one record for a key that has a committed record there; in a
      mission it says what every committed record of the key says. */
  lemma {:induction false} RecallIsOnePerKey(moves: seq<Move>, mission: Value, ids: seq<Text>, key: Text, id: Text)
    requires EngineRun(moves) && Listing(Run(moves).db.records, Lit(MemoryRow), mission, ids)
    requires HoldsAt(Run(moves).db.records, mission, key, id)
    ensures var rs := Run(moves).db.records;
      AllFiled(rs)
      && (var hits := Filter(NonSuperseded(PayloadsOf(rs, ids)), Keyed(Str(key)));
          OneHit(rs, mission, key, hits)
          && (Truthy(mission) ==> Get(hits[0], Content) == Get(rs[id].body.p, Content)))
  {
    RunKeepsInv(moves);
    RecallAgrees(Run(moves).db.records, Run(moves).order, mission, ids, key, id);
  }

  lemma RecallAgrees(rs: map<Text, Row>, order: seq<Text>, mission: Value, ids: seq<Text>, key: Text, id: Text)
    requires RecordsOk(rs, order) && Listing(rs, Lit(MemoryRow), mission, ids) && HoldsAt(rs, mission, key, id)
    ensures AllFiled(rs)
    ensures var hits := Filter(NonSuperseded(PayloadsOf(rs, ids)), Keyed(Str(key)));
      OneHit(rs, mission, key, hits)
      && (Truthy(mission) ==> Get(hits[0], Content) == Get(rs[id].body.p, Content))
  {
    InvFiles(rs, order);
    RecallInState(rs, mission, ids, key, id);
    var hits := Filter(NonSuperseded(PayloadsOf(rs, ids)), Keyed(Str(key)));
    if Truthy(mission) {
      MissionAgrees(rs, mission, key, id, Get(hits[0], MemoryId).t);
    }
  }
}
