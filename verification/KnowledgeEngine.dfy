/** The knowledge service on the live store. */
module KnowledgeEngine {
  import opened Ledger
  import opened StoreSpec
  import opened Lists
  import opened MemoryRules
  import opened MemoryRuns
  import opened MemoryEngine
  import opened Knowledge

  /** The entries of each key seen so far, oldest first. */
  ghost predicate Grouped(seen: map<Value, seq<Payload>>, committed: seq<Payload>) {
    forall k :: GroupedAt(seen, committed, k)
  }

  ghost predicate GroupedAt(seen: map<Value, seq<Payload>>, committed: seq<Payload>, k: Value) {
    (k in seen <==> Filter(committed, Keyed(k)) != []) && (k in seen ==> seen[k] == Filter(committed, Keyed(k)))
  }

  lemma GroupOneMoreAt(seen: map<Value, seq<Payload>>, committed: seq<Payload>, p: Payload, k: Value)
    requires GroupedAt(seen, committed, k)
    ensures var own := Get(p, MemoryKey);
      GroupedAt(seen[own := (if own in seen then seen[own] else []) + [p]], committed + [p], k)
  {
    FilterSnoc(committed, p, Keyed(k));
  }

  lemma GroupOneMore(seen: map<Value, seq<Payload>>, committed: seq<Payload>, p: Payload)
    requires Grouped(seen, committed)
    ensures var k := Get(p, MemoryKey);
      Grouped(seen[k := (if k in seen then seen[k] else []) + [p]], committed + [p])
  {
    var own := Get(p, MemoryKey);
    var seen', committed' := seen[own := (if own in seen then seen[own] else []) + [p]], committed + [p];
    forall k ensures GroupedAt(seen', committed', k) {
      assert GroupedAt(seen, committed, k);
      GroupOneMoreAt(seen, committed, p, k);
    }
  }

  /** All entries of one key but the last. */
  function AllButLast(entries: seq<Payload>): seq<Payload> {
    if entries == [] then [] else entries[..|entries| - 1]
  }

  lemma AllButLastAreReplaced(committed: seq<Payload>, p: Payload)
    requires AllApart(committed) && p in committed
    ensures p in AllButLast(Filter(committed, Keyed(Get(p, MemoryKey)))) <==> Replaced(committed, p)
  {
    var i :| 0 <= i < |committed| && committed[i] == p;
    BeforeTheLast(committed, Keyed(Get(p, MemoryKey)), i);
    if Replaced(committed, p) {
      var a, b :| 0 <= a < b < |committed| && committed[a] == p && Get(committed[b], MemoryKey) == Get(p, MemoryKey);
      assert a == i;
      assert Keyed(Get(p, MemoryKey))(committed[b]);
    }
  }

  /** The ids gathered from the keys already visited. */
  ghost predicate Gathered(superseded: set<Value>, committed: seq<Payload>, left: set<Value>) {
    forall p :: p in committed ==>
      (Get(p, MemoryId) in superseded <==>
        Get(p, MemoryKey) !in left && p in AllButLast(Filter(committed, Keyed(Get(p, MemoryKey)))))
  }

  ghost predicate IdsTellApart(committed: seq<Payload>) {
    forall p, q :: p in committed && q in committed && Get(p, MemoryId) == Get(q, MemoryId) ==> p == q
  }

  lemma GatherOneMore(superseded: set<Value>, committed: seq<Payload>, left: set<Value>, k: Value, ids: set<Value>)
    requires Gathered(superseded, committed, left) && IdsTellApart(committed) && k in left
    requires ids == set p | p in AllButLast(Filter(committed, Keyed(k))) :: Get(p, MemoryId)
    ensures Gathered(superseded + ids, committed, left - {k})
  {
    var entries := Filter(committed, Keyed(k));
    forall p | p in committed
      ensures Get(p, MemoryId) in superseded + ids <==>
        Get(p, MemoryKey) !in left - {k} && p in AllButLast(Filter(committed, Keyed(Get(p, MemoryKey))))
    {
      if Get(p, MemoryId) in ids {
        var q :| q in AllButLast(entries) && Get(q, MemoryId) == Get(p, MemoryId);
        assert q in entries;
      }
    }
  }

  lemma GatheredAll(superseded: set<Value>, committed: seq<Payload>)
    requires Gathered(superseded, committed, {}) && AllApart(committed)
    ensures Filter(committed, NotIn(superseded)) == Surviving(committed)
  {
    forall p | p in committed ensures NotIn(superseded)(p) == NotReplaced(committed)(p) {
      AllButLastAreReplaced(committed, p);
    }
    FilterSame(committed, NotIn(superseded), NotReplaced(committed));
    SurvivingAreNotReplaced(committed);
  }

  function NotIn(superseded: set<Value>): Payload -> bool {
    p => Get(p, MemoryId) !in superseded
  }

  lemma ListedTellApart(rs: map<Text, Row>, mission: Value, ids: seq<Text>)
    requires Inspects(rs, mission, ids)
    ensures AllApart(PayloadsOf(rs, ids)) && IdsTellApart(PayloadsOf(rs, ids))
  {
    var all := PayloadsOf(rs, ids);
    forall i, j | 0 <= i < j < |all| ensures all[i] != all[j] {
      assert ids[i] in ids && ids[j] in ids && IsMemory(rs, ids[i]) && IsMemory(rs, ids[j]);
    }
    forall p, q | p in all && q in all && Get(p, MemoryId) == Get(q, MemoryId) ensures p == q {
      ListedPayload(rs, mission, ids, p);
      ListedPayload(rs, mission, ids, q);
    }
  }

  class KnowledgeService {
    const memory: MemoryKernel

    constructor (memory: MemoryKernel)
      ensures this.memory == memory
    {
      this.memory := memory;
    }

    /** The report is exact for the next write unless the scope is mixed. */
    method DetectSupersession(key: Text, content: Text, mission: Value) returns (d: Detection)
      requires Shelf(memory.store.records)
      ensures Reports(memory.store.records, mission, key, content, d)
      ensures PredictsExactly(d, Outdated(memory.store.records, mission, key, content))
              <==> !Mixed(memory.store.records, mission, key, content)
    {
      var all, ids := memory.Inspect(mission);
      DetectReports(memory.store.records, mission, ids, key, content);
      PredictionExactlyWhen(memory.store.records, mission, ids, key, content);
      d := Classify(all, key, content);
    }

    method Classify(all: seq<Payload>, key: Text, content: Text) returns (d: Detection)
      ensures d == Detect(all, key, content)
    {
      var canonical := Canonical(all, key);
      if canonical == [] {
        return NewEntry;
      }
      var duplicates := Duplicates(canonical, content);
      if duplicates != [] {
        return DuplicateOf(Get(duplicates[0], MemoryId));
      }
      var superseded := Names(canonical);
      return WillSupersede(superseded);
    }

    /** The committed records under the key. */
    method Canonical(all: seq<Payload>, key: Text) returns (canonical: seq<Payload>)
      ensures canonical == Filter(all, Under(key))
    {
      canonical := [];
      for i := 0 to |all|
        invariant canonical == Filter(all[..i], Under(key))
      {
        FilterNext(all, i, Under(key));
        if Get(all[i], MemoryKey) == Str(key) && Get(all[i], Status) == Literal(CommittedStatus) {
          canonical := canonical + [all[i]];
        }
      }
      FilterWhole(all, Under(key));
    }

    method Duplicates(canonical: seq<Payload>, content: Text) returns (duplicates: seq<Payload>)
      ensures duplicates == Filter(canonical, Saying(content))
    {
      duplicates := [];
      for i := 0 to |canonical|
        invariant duplicates == Filter(canonical[..i], Saying(content))
      {
        FilterNext(canonical, i, Saying(content));
        if Get(canonical[i], Content) == Str(content) {
          duplicates := duplicates + [canonical[i]];
        }
      }
      FilterWhole(canonical, Saying(content));
    }

    method Names(canonical: seq<Payload>) returns (names: seq<Value>)
      ensures names == IdsOf(canonical)
    {
      names := [];
      for i := 0 to |canonical|
        invariant names == IdsOf(canonical)[..i]
      {
        names := names + [Get(canonical[i], MemoryId)];
      }
    }

    /** Groups the committed records by key, then drops all but the last of each group; the listing
        is already in the order the groups are sorted by. */
    method QueryNonSuperseded(mission: Value) returns (results: seq<Payload>, ghost ids: seq<Text>)
      requires Shelf(memory.store.records)
      ensures Inspects(memory.store.records, mission, ids)
      ensures results == NonSuperseded(PayloadsOf(memory.store.records, ids))
    {
      var all, listed := memory.Inspect(mission);
      ids := listed;
      var committed := Filter(all, IsCommitted);
      ListedTellApart(memory.store.records, mission, ids);
      FilterApart(all, IsCommitted);
      var seen := Group(committed);
      var superseded := DropAllButLast(seen, committed);
      GatheredAll(superseded, committed);
      results := Filter(committed, NotIn(superseded));
    }

    method Group(committed: seq<Payload>) returns (seen: map<Value, seq<Payload>>)
      ensures Grouped(seen, committed)
    {
      seen := map[];
      var i := 0;
      while i < |committed|
        invariant 0 <= i <= |committed| && Grouped(seen, committed[..i])
      {
        var p := committed[i];
        var k := Get(p, MemoryKey);
        assert committed[..i + 1] == committed[..i] + [p];
        GroupOneMore(seen, committed[..i], p);
        seen := seen[k := (if k in seen then seen[k] else []) + [p]];
        i := i + 1;
      }
      assert committed[..i] == committed;
    }

    method DropAllButLast(seen: map<Value, seq<Payload>>, committed: seq<Payload>) returns (superseded: set<Value>)
      requires Grouped(seen, committed) && IdsTellApart(committed)
      ensures Gathered(superseded, committed, {})
    {
      superseded := {};
      var left := seen.Keys;
      AllKeysSeen(seen, committed);
      while left != {}
        invariant left <= seen.Keys && Gathered(superseded, committed, left)
        decreases |left|
      {
        var k :| k in left;
        assert GroupedAt(seen, committed, k);
        var older := AllButLast(seen[k]);
        var ids := set p | p in older :: Get(p, MemoryId);
        GatherOneMore(superseded, committed, left, k, ids);
        superseded, left := superseded + ids, left - {k};
      }
    }
  }

  lemma AllKeysSeen(seen: map<Value, seq<Payload>>, committed: seq<Payload>)
    requires Grouped(seen, committed)
    ensures Gathered({}, committed, seen.Keys)
  {
    forall p | p in committed ensures Get(p, MemoryKey) in seen {
      assert p in Filter(committed, Keyed(Get(p, MemoryKey)));
      assert GroupedAt(seen, committed, Get(p, MemoryKey));
    }
  }
}
