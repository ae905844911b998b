/** When interleaved memory calls leave one content per key, and what the chain of successors keeps
    while they are on their way. */
module MemoryAgreement {
  import opened Ledger
  import opened StoreSpec
  import opened Lists
  import opened MemoryRules
  import opened MemoryRuns
  import opened MemoryGuarantees
  import opened MemoryInterleaving
  import opened Knowledge
  import opened MemoryCases
  import S = MemorySteps

  // ---- a late save ----------------------------------------------------------------------------

  /** No committed record of the mission says something else under the key. */
  ghost predicate Undisputed(rs: map<Text, Row>, r: Entry) {
    forall id :: HoldsAt(rs, Null, r.key, id) && rs[id].mission == r.mission ==> !Differs(rs[id].body.p, r.content)
  }

  /** A committed row for the entry. */
  predicate RowFor(row: Row, r: Entry) {
    row.rtype == Lit(MemoryRow) && row.mission == r.mission && row.body.Obj? && Holds(row.body.p, r.key)
    && Get(row.body.p, Content) == Str(r.content)
  }

  /** A record saved long after its call looked keeps one content per key exactly when nothing that
      stands by then says something else. */
  lemma LateSaveAgreesExactlyWhen(rs: map<Text, Row>, r: Entry, id: Text, row: Row)
    requires Agree(rs) && id !in rs && RowFor(row, r)
    ensures Agree(rs[id := row]) <==> Undisputed(rs, r)
  {
    var rs' := rs[id := row];
    assert HoldsAt(rs', Null, r.key, id);
    assert forall x, k :: x in rs && HoldsAt(rs, Null, k, x) ==> HoldsAt(rs', Null, k, x) && rs'[x] == rs[x];
    if Undisputed(rs, r) {
      forall a, b, k | HoldsAt(rs', Null, k, a) && HoldsAt(rs', Null, k, b) && rs'[a].mission == rs'[b].mission
        ensures Get(rs'[a].body.p, Content) == Get(rs'[b].body.p, Content)
      {
        if a != id { assert HoldsAt(rs, Null, k, a); }
        if b != id { assert HoldsAt(rs, Null, k, b); }
      }
    } else {
      var x :| HoldsAt(rs, Null, r.key, x) && rs[x].mission == r.mission && Differs(rs[x].body.p, r.content);
      assert HoldsAt(rs', Null, r.key, x) && x != id;
    }
  }

  lemma CommitSavesRow(s: State, k: nat)
    requires StateOk(s) && k < |s.calls| && S.Commits(s.calls[k]) && SavesNew(s.db, s.calls[k])
    ensures var it := s.calls[k].stage.it;
      it.id !in s.db.records && RowFor(FirstWrite(it), s.calls[k].job.r)
      && S.Written(s.db, s.calls[k]).records == s.db.records[it.id := FirstWrite(it)]
  {
    assert CallOk(s.db.records, s.calls[k]);
  }

  // ---- every run ------------------------------------------------------------------------------

  /** Whoever saves a committed record does it while nothing that stands says something else. */
  ghost predicate InTime(s: State, t: Turn) {
    t.Step? && t.i < |s.calls| && S.Commits(s.calls[t.i]) ==> Undisputed(s.db.records, s.calls[t.i].job.r)
  }

  ghost predicate AllInTime(turns: seq<Turn>) {
    turns == [] || (AllInTime(turns[..|turns| - 1]) && InTime(Play(turns[..|turns| - 1]), turns[|turns| - 1]))
  }

  ghost predicate AlwaysAgrees(turns: seq<Turn>) {
    Agree(Play(turns).db.records) && (turns == [] || AlwaysAgrees(turns[..|turns| - 1]))
  }

  lemma SameRecordsAgree(rs: map<Text, Row>, rs': map<Text, Row>)
    requires Agree(rs) && SameRecords(rs, rs')
    ensures Agree(rs')
  {
    assert forall x, k :: HoldsAt(rs', Null, k, x) ==> HoldsAt(rs, Null, k, x) && rs'[x] == rs[x];
  }

  /** Nobody gains standing by another's retirement. */
  lemma RetiringAgrees(rs: map<Text, Row>, x: Text, successor: Text)
    requires Agree(rs) && IsMemory(rs, x) && Sound(x, rs[x])
    ensures Agree(rs[x := RetiredRow(rs, x, successor)])
  {
    var rs' := rs[x := RetiredRow(rs, x, successor)];
    RetiredRowFacts(rs, x, successor);
    assert forall y, k :: HoldsAt(rs', Null, k, y) ==> HoldsAt(rs, Null, k, y) && rs'[y] == rs[y];
  }

  lemma CandidateAgrees(rs: map<Text, Row>, id: Text, row: Row)
    requires Agree(rs) && id !in rs && row.rtype == Lit(CandidateRow)
    ensures Agree(rs[id := row])
  {
    var rs' := rs[id := row];
    assert forall y, k :: HoldsAt(rs', Null, k, y) ==> HoldsAt(rs, Null, k, y) && rs'[y] == rs[y];
  }

  lemma RetireTurn(s: State, k: nat)
    requires StateOk(s) && k < |s.calls| && s.calls[k].stage.Writing? && s.calls[k].stage.left != []
    ensures var rs, x := s.db.records, Get(s.calls[k].stage.left[0], MemoryId);
      x.Str? && IsMemory(rs, x.t) && Sound(x.t, rs[x.t])
      && S.Written(s.db, s.calls[k]).records == rs[x.t := RetiredRow(rs, x.t, s.calls[k].job.gen.memory)]
  {
    assert CallOk(s.db.records, s.calls[k]);
    NextLeft(s.db.records, s.calls[k]);
    RetireStep(s.db, s.calls[k].job.r, s.calls[k].stage.left[0], s.calls[k].job.gen.memory);
  }

  lemma WritingTurnAgrees(s: State, k: nat)
    requires StateOk(s) && k < |s.calls| && s.calls[k].stage.Writing? && SavesNew(s.db, s.calls[k]) && Agree(s.db.records)
    requires !S.Commits(s.calls[k])
    ensures Agree(S.Written(s.db, s.calls[k]).records)
  {
    assert CallOk(s.db.records, s.calls[k]);
    if s.calls[k].stage.left != [] {
      RetireTurn(s, k);
      RetiringAgrees(s.db.records, Get(s.calls[k].stage.left[0], MemoryId).t, s.calls[k].job.gen.memory);
    } else {
      CandidateAgrees(s.db.records, s.calls[k].stage.it.id, FirstWrite(s.calls[k].stage.it));
    }
  }

  lemma TurnAgrees(s: State, t: Turn)
    requires StateOk(s) && Permitted(s, t) && Agree(s.db.records)
    ensures Agree(Take(s, t).db.records) <==> InTime(s, t)
  {
    match t
    case Arrive(_) =>
    case Other(op) => SameRecordsAgree(s.db.records, Apply(s.db, op).records);
    case Step(k, ids, found) =>
      if S.Commits(s.calls[k]) {
        CommitSavesRow(s, k);
        LateSaveAgreesExactlyWhen(s.db.records, s.calls[k].job.r, s.calls[k].stage.it.id, FirstWrite(s.calls[k].stage.it));
      } else if s.calls[k].stage.Writing? {
        WritingTurnAgrees(s, k);
      } else {
        QuietTurn(s, k, ids, found);
        SameRecordsAgree(s.db.records, S.Written(s.db, s.calls[k]).records);
      }
  }

  lemma QuietTurn(s: State, k: nat, ids: seq<Text>, found: Option<Text>)
    requires StateOk(s) && k < |s.calls| && !s.calls[k].stage.Writing? && SavesNew(s.db, s.calls[k])
    ensures SameRecords(s.db.records, S.Written(s.db, s.calls[k]).records)
  {
    if s.calls[k].stage.Finishing? { FinishingStepOk(s, k, ids, found); }
  }

  /** In every interleaved run the committed records of a mission agree at all times exactly when every
      record is committed while nothing that stands says something else. */
  lemma {:induction false} AgreesExactlyWhen(turns: seq<Turn>)
    requires Interleaved(turns)
    ensures AlwaysAgrees(turns) <==> AllInTime(turns)
  {
    if turns != [] {
      var most := turns[..|turns| - 1];
      AgreesExactlyWhen(most);
      PlayIsOk(most);
      if AlwaysAgrees(most) {
        NowAgrees(most);
        TurnAgrees(Play(most), turns[|turns| - 1]);
      }
    }
  }

  lemma {:induction false} NowAgrees(turns: seq<Turn>)
    requires AlwaysAgrees(turns)
    ensures Agree(Play(turns).db.records)
  {
  }

  // ---- a lock per key would do ------------------------------------------------------------------

  /** The call has looked and not yet saved. */
  predicate Underway(c: S.Call) {
    c.stage.Writing? && c.stage.it.rtype == Lit(MemoryRow)
  }

  predicate Contends(c: S.Call, other: S.Call) {
    Underway(other) && other.job.r.key == c.job.r.key && other.job.r.mission == c.job.r.mission
    && other.job.r.content != c.job.r.content
  }

  /** Nobody commits while another call of the mission is under way with another content for the key. */
  ghost predicate Alone(s: State, t: Turn) {
    t.Step? && t.i < |s.calls| && S.Commits(s.calls[t.i]) ==>
      forall l :: 0 <= l < |s.calls| && l != t.i ==> !Contends(s.calls[t.i], s.calls[l])
  }

  ghost predicate AllAlone(turns: seq<Turn>) {
    turns == [] || (AllAlone(turns[..|turns| - 1]) && Alone(Play(turns[..|turns| - 1]), turns[|turns| - 1]))
  }

  predicate Disputes(rs: map<Text, Row>, r: Entry, id: Text) {
    HoldsAt(rs, Null, r.key, id) && rs[id].mission == r.mission && Differs(rs[id].body.p, r.content)
  }

  /** All that disputes the call's content it has seen, and has still to retire. */
  ghost predicate Current(rs: map<Text, Row>, c: S.Call) {
    Underway(c) ==> forall id :: Disputes(rs, c.job.r, id) ==> id in S.NamesOf(c.stage.left)
  }

  ghost predicate AllCurrent(rs: map<Text, Row>, calls: seq<S.Call>) {
    forall k :: 0 <= k < |calls| ==> Current(rs, calls[k])
  }

  lemma FewerDispute(rs: map<Text, Row>, rs': map<Text, Row>, calls: seq<S.Call>)
    requires AllCurrent(rs, calls) && forall r, id :: Disputes(rs', r, id) ==> Disputes(rs, r, id)
    ensures AllCurrent(rs', calls)
  {
    forall k | 0 <= k < |calls| ensures Current(rs', calls[k]) {
      assert Current(rs, calls[k]);
    }
  }

  lemma WriteLooks(rs: map<Text, Row>, job: S.Job, ids: seq<Text>)
    requires S.Surveys(rs, job.r.mission, ids)
    ensures Current(rs, S.Call(job, S.WritePlan(job, S.Seen(rs, ids, S.Outdates(job.r)))))
  {
    S.SeenAreOutdated(rs, job.r, ids);
    forall id | Disputes(rs, job.r, id) ensures id in Outdated(rs, job.r.mission, job.r.key, job.r.content) {
      assert HoldsAt(rs, job.r.mission, job.r.key, id);
    }
  }

  lemma ProposalLooks(rs: map<Text, Row>, job: S.Job, conflicts: seq<Value>)
    ensures Current(rs, S.Call(job, S.ProposalPlan(rs, job, conflicts)))
  {
    forall id | Disputes(rs, job.r, id) ensures id in Outdated(rs, job.r.mission, job.r.key, job.r.content) {
      assert HoldsAt(rs, job.r.mission, job.r.key, id);
    }
  }

  lemma ReadingIsCurrent(db: Tables, c: S.Call, ids: seq<Text>, found: Option<Text>)
    requires RowsSound(db.records) && !c.stage.Writing?
    requires c.stage.Looking? || c.stage.LookingAgain? ==> Listing(db.records, Lit(MemoryRow), c.job.r.mission, ids)
    ensures Current(db.records, S.Next(db, c, ids, found))
  {
    if c.stage.Looking? && c.job.kind.Writes? {
      WriteLooks(db.records, c.job, ids);
    } else if c.stage.LookingAgain? {
      ProposalLooks(db.records, c.job, IdsOf(S.Seen(db.records, ids, S.Outdates(c.job.r))));
    }
  }

  lemma RetiredDisputesNothing(rs: map<Text, Row>, x: Text, successor: Text, r: Entry, id: Text)
    requires IsMemory(rs, x) && Sound(x, rs[x]) && Disputes(rs[x := RetiredRow(rs, x, successor)], r, id)
    ensures id != x && Disputes(rs, r, id)
  {
    RetiredRowFacts(rs, x, successor);
  }

  lemma RetireIsCurrent(s: State, k: nat, c': S.Call)
    requires StateOk(s) && AllCurrent(s.db.records, s.calls) && k < |s.calls|
    requires s.calls[k].stage.Writing? && s.calls[k].stage.left != []
    requires c' == s.calls[k].(stage := s.calls[k].stage.(left := s.calls[k].stage.left[1..]))
    ensures AllCurrent(S.Written(s.db, s.calls[k]).records, s.calls[k := c'])
  {
    var rs, rs', c := s.db.records, S.Written(s.db, s.calls[k]).records, s.calls[k];
    RetireTurn(s, k);
    var x := Get(c.stage.left[0], MemoryId).t;
    forall r, id | Disputes(rs', r, id) ensures id != x && Disputes(rs, r, id) {
      RetiredDisputesNothing(rs, x, c.job.gen.memory, r, id);
    }
    FewerDispute(rs, rs', s.calls);
    S.NamesSplit(c.stage.left);
    assert Current(rs, c);
    assert Current(rs', c');
    CurrentReplaced(rs', s.calls, k, c');
  }

  lemma CurrentReplaced(rs: map<Text, Row>, calls: seq<S.Call>, k: nat, c': S.Call)
    requires AllCurrent(rs, calls) && k < |calls| && Current(rs, c')
    ensures AllCurrent(rs, calls[k := c'])
  {
  }

  lemma SavedIsCurrent(rs: map<Text, Row>, calls: seq<S.Call>, k: nat, id: Text, row: Row, l: nat)
    requires k < |calls| && l < |calls| && l != k && Current(rs, calls[l]) && id !in rs
    requires row.rtype == Lit(CandidateRow) || (RowFor(row, calls[k].job.r) && !Contends(calls[k], calls[l]))
    ensures Current(rs[id := row], calls[l])
  {
    var rs', r := rs[id := row], calls[l].job.r;
    if Underway(calls[l]) {
      forall x | Disputes(rs', r, x) ensures x in S.NamesOf(calls[l].stage.left) {
        if x != id { assert Disputes(rs, r, x); }
      }
    }
  }

  lemma SaveIsCurrent(s: State, k: nat, c': S.Call)
    requires StateOk(s) && AllCurrent(s.db.records, s.calls) && k < |s.calls| && SavesNew(s.db, s.calls[k])
    requires s.calls[k].stage.Writing? && s.calls[k].stage.left == [] && c'.stage.Finishing?
    requires S.Commits(s.calls[k]) ==> forall l :: 0 <= l < |s.calls| && l != k ==> !Contends(s.calls[k], s.calls[l])
    ensures AllCurrent(S.Written(s.db, s.calls[k]).records, s.calls[k := c'])
  {
    var rs, c := s.db.records, s.calls[k];
    var id, row := c.stage.it.id, FirstWrite(c.stage.it);
    assert CallOk(rs, c);
    if S.Commits(c) { CommitSavesRow(s, k); }
    assert S.Written(s.db, c).records == rs[id := row];
    var calls' := s.calls[k := c'];
    forall l | 0 <= l < |calls'| ensures Current(rs[id := row], calls'[l]) {
      if l != k {
        assert Current(rs, s.calls[l]);
        SavedIsCurrent(rs, s.calls, k, id, row, l);
      }
    }
  }

  lemma SameRecordsCurrent(rs: map<Text, Row>, rs': map<Text, Row>, calls: seq<S.Call>)
    requires AllCurrent(rs, calls) && SameRecords(rs, rs')
    ensures AllCurrent(rs', calls)
  {
    forall r, id | Disputes(rs', r, id) ensures Disputes(rs, r, id) {
      assert IsMemory(rs', id);
    }
    FewerDispute(rs, rs', calls);
  }

  lemma StepIsCurrent(s: State, k: nat, ids: seq<Text>, found: Option<Text>)
    requires StateOk(s) && AllCurrent(s.db.records, s.calls) && Permitted(s, Step(k, ids, found)) && Alone(s, Step(k, ids, found))
    ensures AllCurrent(Take(s, Step(k, ids, found)).db.records, Take(s, Step(k, ids, found)).calls)
  {
    var c, c' := s.calls[k], S.Next(s.db, s.calls[k], ids, found);
    if c.stage.Writing? {
      if c.stage.left == [] { SaveIsCurrent(s, k, c'); } else { RetireIsCurrent(s, k, c'); }
    } else {
      QuietTurn(s, k, ids, found);
      ReadingIsCurrent(s.db, c, ids, found);
      CurrentReplaced(s.db.records, s.calls, k, c');
      SameRecordsCurrent(s.db.records, S.Written(s.db, c).records, s.calls[k := c']);
    }
  }

  lemma TurnIsCurrent(s: State, t: Turn)
    requires StateOk(s) && AllCurrent(s.db.records, s.calls) && Permitted(s, t) && Alone(s, t)
    ensures AllCurrent(Take(s, t).db.records, Take(s, t).calls) && InTime(s, t)
  {
    match t
    case Arrive(_) =>
    case Other(op) => SameRecordsCurrent(s.db.records, Apply(s.db, op).records, s.calls);
    case Step(k, ids, found) =>
      StepIsCurrent(s, k, ids, found);
      if S.Commits(s.calls[k]) { CurrentIsInTime(s.db.records, s.calls[k]); }
  }

  lemma CurrentIsInTime(rs: map<Text, Row>, c: S.Call)
    requires Current(rs, c) && S.Commits(c)
    ensures Undisputed(rs, c.job.r)
  {
    assert S.NamesOf(c.stage.left) == {};
    forall id | HoldsAt(rs, Null, c.job.r.key, id) && rs[id].mission == c.job.r.mission
      ensures !Differs(rs[id].body.p, c.job.r.content)
    {
      assert !Disputes(rs, c.job.r, id);
    }
  }

  /** It is enough that nobody commits while a call of the mission with another content for the key is
      between its look and its save: a lock per key, which the kernel does not take. */
  lemma {:induction false} WithoutOverlapAgrees(turns: seq<Turn>)
    requires Interleaved(turns) && AllAlone(turns)
    ensures AllInTime(turns) && AllCurrent(Play(turns).db.records, Play(turns).calls) && AlwaysAgrees(turns)
  {
    if turns != [] {
      var most := turns[..|turns| - 1];
      WithoutOverlapAgrees(most);
      PlayIsOk(most);
      TurnIsCurrent(Play(most), turns[|turns| - 1]);
    }
    AgreesExactlyWhen(turns);
  }

  // ---- the chain of successors -----------------------------------------------------------------------

  /** Follows `superseded_by`, at most `steps` times, as far as there are records. */
  function Trace(rs: map<Text, Row>, id: Text, steps: nat): Text
    decreases steps
  {
    if steps == 0 || !IsMemory(rs, id) || !rs[id].body.Obj? || Get(rs[id].body.p, Status) != Literal(SupersededStatus) then id
    else Trace(rs, Show(Get(rs[id].body.p, SupersededBy)), steps - 1)
  }

  /** A call under way will save it, a committed record under the same key, of the same mission or of none. */
  ghost predicate OnItsWay(rs: map<Text, Row>, calls: seq<S.Call>, id: Text, last: Text) {
    IsMemory(rs, id) && rs[id].body.Obj? && !IsMemory(rs, last)
    && exists k :: 0 <= k < |calls| && Underway(calls[k]) && calls[k].stage.it.id == last
         && Get(rs[id].body.p, MemoryKey) == Str(calls[k].job.r.key)
         && (calls[k].job.r.mission == rs[id].mission || !Truthy(calls[k].job.r.mission))
  }

  ghost predicate Ends(rs: map<Text, Row>, calls: seq<S.Call>, id: Text, last: Text) {
    Heir(rs, id, last) || OnItsWay(rs, calls, id, last)
  }

  lemma EndsBack(rs: map<Text, Row>, calls: seq<S.Call>, was: Text, next: Text, last: Text)
    requires Succeeds(rs, was, next) && Ends(rs, calls, next, last)
    ensures Ends(rs, calls, was, last)
  {
  }

  lemma AwaitedEnds(rs: map<Text, Row>, calls: seq<S.Call>, id: Text)
    requires CallsOk(rs, calls) && Awaited(rs, calls, id)
    ensures OnItsWay(rs, calls, id, Show(Get(rs[id].body.p, SupersededBy)))
  {
    var k :| 0 <= k < |calls| && Awaits(rs, id, calls[k]);
    assert CallOk(rs, calls[k]);
  }

  lemma {:induction false} TraceEnds(rs: map<Text, Row>, order: seq<Text>, calls: seq<S.Call>, i: nat, steps: nat)
    requires Chained(rs, order, calls) && CallsOk(rs, calls) && i < |order| && steps >= |order| - i
    ensures Ends(rs, calls, order[i], Trace(rs, order[i], steps))
    decreases |order| - i
  {
    var id := order[i];
    assert Placed(rs, order, calls, i);
    if Get(rs[id].body.p, Status) == Literal(SupersededStatus) {
      if SucceededLater(rs, order, i) {
        var j :| i < j < |order| && Succeeds(rs, order[i], order[j]);
        TraceEnds(rs, order, calls, j, steps - 1);
        SucceededTrace(rs, calls, id, order[j], steps);
      } else {
        AwaitedTrace(rs, calls, id, steps);
      }
    }
  }

  lemma SucceededTrace(rs: map<Text, Row>, calls: seq<S.Call>, id: Text, next: Text, steps: nat)
    requires Succeeds(rs, id, next) && steps > 0 && Get(rs[id].body.p, Status) == Literal(SupersededStatus)
    requires Ends(rs, calls, next, Trace(rs, next, steps - 1))
    ensures Ends(rs, calls, id, Trace(rs, id, steps))
  {
    EndsBack(rs, calls, id, next, Trace(rs, next, steps - 1));
  }

  lemma AwaitedTrace(rs: map<Text, Row>, calls: seq<S.Call>, id: Text, steps: nat)
    requires CallsOk(rs, calls) && Awaited(rs, calls, id) && steps > 0
    requires Get(rs[id].body.p, Status) == Literal(SupersededStatus)
    ensures Ends(rs, calls, id, Trace(rs, id, steps))
  {
    AwaitedEnds(rs, calls, id);
    assert Trace(rs, id, steps) == Show(Get(rs[id].body.p, SupersededBy));
  }

  /** In every interleaved run, following `superseded_by` no more often than there are rows ends at a
      committed record with the same key, or at the id that a call under way is about to save. */
  lemma {:induction false} SupersessionEndsOrIsOnItsWay(turns: seq<Turn>, id: Text)
    requires Interleaved(turns) && IsMemory(Play(turns).db.records, id)
    ensures var s := Play(turns); Ends(s.db.records, s.calls, id, Trace(s.db.records, id, |s.db.records|))
  {
    PlayIsOk(turns);
    EndsInState(Play(turns), id);
  }

  lemma EndsInState(s: State, id: Text)
    requires StateOk(s) && IsMemory(s.db.records, id)
    ensures Ends(s.db.records, s.calls, id, Trace(s.db.records, id, |s.db.records|))
  {
    var rs, order := s.db.records, s.order;
    var i :| 0 <= i < |order| && order[i] == id;
    forall k | 0 <= k < |order| ensures order[k] in rs.Keys { assert Placed(rs, order, s.calls, k); }
    DistinctFit(order, rs.Keys);
    assert |rs.Keys| == |rs|;
    TraceEnds(rs, order, s.calls, i, |rs|);
  }

  /** Between the two, and for good if the call dies there, the retired record names one that is not
      stored: following it finds nothing. */
  lemma RetiredDangles(s: State, k: nat, steps: nat)
    requires StateOk(s) && k < |s.calls| && s.calls[k].stage.Writing? && s.calls[k].stage.left != []
    ensures var rs, x := S.Written(s.db, s.calls[k]).records, Get(s.calls[k].stage.left[0], MemoryId);
      x.Str? && IsMemory(rs, x.t) && Follow(rs, x.t, steps).None?
  {
    var rs, x, q := s.db.records, Get(s.calls[k].stage.left[0], MemoryId), s.calls[k].job.gen.memory;
    RetireTurn(s, k);
    NotYetSaved(s, k);
    RetiredRowFacts(rs, x.t, q);
    DanglingFollow(rs[x.t := RetiredRow(rs, x.t, q)], x.t, q, steps);
  }

  lemma NotYetSaved(s: State, k: nat)
    requires StateOk(s) && k < |s.calls| && s.calls[k].stage.Writing?
    ensures !IsMemory(s.db.records, s.calls[k].job.gen.memory)
  {
    assert CallOk(s.db.records, s.calls[k]);
  }

  lemma DanglingFollow(rs: map<Text, Row>, x: Text, q: Text, steps: nat)
    requires IsMemory(rs, x) && rs[x].body.Obj? && Get(rs[x].body.p, Status) == Literal(SupersededStatus)
    requires Get(rs[x].body.p, SupersededBy) == Str(q) && !IsMemory(rs, q)
    ensures Follow(rs, x, steps).None?
  {
  }

  // ---- two calls that did not see each other -----------------------------------------------------------

  lemma {:induction false} TakeTurn(turns: seq<Turn>, t: Turn)
    requires Interleaved(turns) && Permitted(Play(turns), t)
    ensures Interleaved(turns + [t]) && Play(turns + [t]) == Take(Play(turns), t)
  {
    assert (turns + [t])[..|turns + [t]| - 1] == turns;
  }

  function WriteJob(r: Entry, n: int): S.Job {
    S.Job(S.Writes, r, Null, FreshAt(n))
  }

  function Row0(r: Entry, n: int): Row {
    FirstWrite(WrittenItem(r, FreshAt(n), Null))
  }

  /** Where a write stands that found nothing to retire. */
  function Poised(r: Entry, n: int): S.Stage {
    S.Writing([], WrittenItem(r, FreshAt(n), Null), [DoSaveEvent(WrittenEvent(r, FreshAt(n)))],
              Returned(WrittenItem(r, FreshAt(n), Null).payload))
  }

  lemma PlanOfNothing(r: Entry, n: int)
    requires r.idem == Null
    ensures S.WritePlan(WriteJob(r, n), []) == Poised(r, n)
  {
    assert S.MapOps(r.idem, r.mission, FreshAt(n).memory, FreshAt(n), FreshAt(n).created) == [];
  }

  lemma LooksAtNothing(db: Tables, r: Entry, n: int)
    requires r.idem == Null
    ensures S.Next(db, S.Call(WriteJob(r, n), S.Looking), [], None) == S.Call(WriteJob(r, n), Poised(r, n))
  {
    PlanOfNothing(r, n);
    assert S.Seen(db.records, [], S.Outdates(r)) == [];
  }

  lemma LookTurn(s: State, r: Entry, n: int, k: nat)
    requires k < |s.calls| && s.calls[k] == S.Call(WriteJob(r, n), S.Looking) && r.idem == Null && s.db.records == map[]
    ensures Permitted(s, Step(k, [], None))
    ensures Take(s, Step(k, [], None)) == s.(calls := s.calls[k := S.Call(WriteJob(r, n), Poised(r, n))])
  {
    LooksAtNothing(s.db, r, n);
  }

  lemma StartsLooking(r: Entry, n: int)
    requires Plain(r)
    ensures S.Start(WriteJob(r, n)) == S.Call(WriteJob(r, n), S.Looking)
  {
  }

  lemma ArriveTurn(s: State, r: Entry, n: int)
    requires Plain(r) && FreshAt(n).memory !in s.db.records
    requires forall k :: 0 <= k < |s.calls| ==> s.calls[k].job.gen.memory != FreshAt(n).memory
    ensures Permitted(s, Arrive(WriteJob(r, n)))
    ensures Take(s, Arrive(WriteJob(r, n))) == s.(calls := s.calls + [S.Call(WriteJob(r, n), S.Looking)])
  {
    StartsLooking(r, n);
  }

  lemma {:induction false} OneArrives(r: Entry) returns (turns: seq<Turn>)
    requires Plain(r)
    ensures Interleaved(turns) && Play(turns) == State(Tables(map[], map[]), [], [S.Call(WriteJob(r, 0), S.Looking)])
  {
    ArriveTurn(Play([]), r, 0);
    TakeTurn([], Arrive(WriteJob(r, 0)));
    turns := [] + [Arrive(WriteJob(r, 0))];
  }

  lemma {:induction false} BothArrive(r: Entry, r': Entry) returns (turns: seq<Turn>)
    requires Plain(r) && Plain(r')
    ensures Interleaved(turns) && Play(turns) == State(
      Tables(map[], map[]), [], [S.Call(WriteJob(r, 0), S.Looking), S.Call(WriteJob(r', 1), S.Looking)])
  {
    turns := OneArrives(r);
    ArriveTurn(Play(turns), r', 1);
    TakeTurn(turns, Arrive(WriteJob(r', 1)));
    turns := turns + [Arrive(WriteJob(r', 1))];
  }

  /** Both calls have arrived and looked at an empty store. */
  lemma {:induction false} BothLook(r: Entry, r': Entry) returns (turns: seq<Turn>)
    requires Plain(r) && Plain(r') && r.idem == Null && r'.idem == Null
    ensures Interleaved(turns) && Play(turns) == State(
      Tables(map[], map[]), [], [S.Call(WriteJob(r, 0), Poised(r, 0)), S.Call(WriteJob(r', 1), Poised(r', 1))])
  {
    turns := BothArrive(r, r');
    LookTurn(Play(turns), r, 0, 0);
    TakeTurn(turns, Step(0, [], None));
    turns := turns + [Step(0, [], None)];
    LookTurn(Play(turns), r', 1, 1);
    TakeTurn(turns, Step(1, [], None));
    turns := turns + [Step(1, [], None)];
  }

  lemma SavesPoised(s: State, r: Entry, n: int, k: nat)
    requires k < |s.calls| && s.calls[k] == S.Call(WriteJob(r, n), Poised(r, n)) && FreshAt(n).memory !in s.db.records
    ensures Permitted(s, Step(k, [], None))
    ensures Take(s, Step(k, [], None)).db == s.db.(records := s.db.records[FreshAt(n).memory := Row0(r, n)])
    ensures Take(s, Step(k, [], None)).calls == s.calls[k := S.Call(WriteJob(r, n), S.Finishing(Poised(r, n).rest, Poised(r, n).answer))]
  {
  }

  lemma PoisedRow(r: Entry, n: int)
    requires Plain(r)
    ensures RowFor(Row0(r, n), r)
  {
    NewMemoryFacts(r, FreshAt(n), CommittedStatus, Truthy(r.evidence), Null, [], MemoryRow);
  }

  lemma TwoRowsDisagree(rs: map<Text, Row>, r: Entry, r': Entry, a: Text, b: Text)
    requires a in rs && b in rs && RowFor(rs[a], r) && RowFor(rs[b], r')
    requires r'.key == r.key && r'.mission == r.mission && r'.content != r.content
    ensures !Agree(rs)
  {
    assert HoldsAt(rs, Null, r.key, a) && HoldsAt(rs, Null, r.key, b);
  }

  /** Two writes of different contents under one key that both look before either saves both commit:
      the key is left with two contents. */
  lemma {:induction false} TwoWritesLeaveTwoContents(r: Entry, content: Text) returns (turns: seq<Turn>)
    requires Plain(r) && Plain(r.(content := content)) && r.idem == Null && content != r.content
    ensures Interleaved(turns) && |Play(turns).calls| == 2
    ensures Play(turns).calls[0].job == WriteJob(r, 0) && Play(turns).calls[0].stage.Finishing?
    ensures Play(turns).calls[1].job == WriteJob(r.(content := content), 1) && Play(turns).calls[1].stage.Finishing?
    ensures Play(turns).calls[0].stage.answer.Returned? && Play(turns).calls[1].stage.answer.Returned?
    ensures !Agree(Play(turns).db.records)
  {
    var r' := r.(content := content);
    turns := BothLook(r, r');
    SavesPoised(Play(turns), r, 0, 0);
    TakeTurn(turns, Step(0, [], None));
    turns := turns + [Step(0, [], None)];
    SavesPoised(Play(turns), r', 1, 1);
    TakeTurn(turns, Step(1, [], None));
    turns := turns + [Step(1, [], None)];
    PoisedRow(r, 0);
    PoisedRow(r', 1);
    TwoRowsDisagree(Play(turns).db.records, r, r', FreshAt(0).memory, FreshAt(1).memory);
  }

  // ---- a record that leads nowhere ------------------------------------------------------------------

  lemma PublishTurn(s: State, c: S.Call, ev: Event, answer: Outcome)
    requires s.calls == [c] && c.stage == S.Finishing([DoSaveEvent(ev)], answer)
    ensures Permitted(s, Step(0, [], None)) && Take(s, Step(0, [], None)).db.records == s.db.records
    ensures Take(s, Step(0, [], None)).calls == [c.(stage := S.Finishing([], answer))]
  {
    assert [c][0 := c.(stage := S.Finishing([], answer))] == [c.(stage := S.Finishing([], answer))];
  }

  function Finished(r: Entry, n: int): S.Call {
    S.Call(WriteJob(r, n), S.Finishing([], Returned(WrittenItem(r, FreshAt(n), Null).payload)))
  }

  lemma {:induction false} OneLooks(r: Entry) returns (turns: seq<Turn>)
    requires Plain(r) && r.idem == Null
    ensures Interleaved(turns) && Play(turns) == State(Tables(map[], map[]), [], [S.Call(WriteJob(r, 0), Poised(r, 0))])
  {
    turns := OneArrives(r);
    LookTurn(Play(turns), r, 0, 0);
    TakeTurn(turns, Step(0, [], None));
    turns := turns + [Step(0, [], None)];
  }

  /** A write that is alone on an empty store has arrived, looked and saved. */
  lemma {:induction false} OneSaves(r: Entry) returns (turns: seq<Turn>)
    requires Plain(r) && r.idem == Null
    ensures Interleaved(turns) && Play(turns).db.records == map[FreshAt(0).memory := Row0(r, 0)]
    ensures Play(turns).calls == [S.Call(WriteJob(r, 0), S.Finishing(Poised(r, 0).rest, Poised(r, 0).answer))]
  {
    turns := OneLooks(r);
    SavesPoised(Play(turns), r, 0, 0);
    TakeTurn(turns, Step(0, [], None));
    turns := turns + [Step(0, [], None)];
  }

  /** And announced. */
  lemma {:induction false} OneWrites(r: Entry) returns (turns: seq<Turn>)
    requires Plain(r) && r.idem == Null
    ensures Interleaved(turns) && Play(turns).db.records == map[FreshAt(0).memory := Row0(r, 0)]
    ensures Play(turns).calls == [Finished(r, 0)]
  {
    turns := OneSaves(r);
    PublishTurn(Play(turns), Play(turns).calls[0], WrittenEvent(r, FreshAt(0)), Poised(r, 0).answer);
    TakeTurn(turns, Step(0, [], None));
    turns := turns + [Step(0, [], None)];
  }

  lemma SeesOne(rs: map<Text, Row>, r: Entry, r': Entry)
    requires rs == map[FreshAt(0).memory := Row0(r, 0)] && RowFor(Row0(r, 0), r)
    requires r'.key == r.key && r'.mission == r.mission && r'.content != r.content
    ensures Listing(rs, Lit(MemoryRow), r'.mission, [FreshAt(0).memory])
    ensures S.Seen(rs, [FreshAt(0).memory], S.Outdates(r')) == [WrittenItem(r, FreshAt(0), Null).payload]
  {
    OnlyOneListed(rs, FreshAt(0).memory, r'.mission);
    FirstIsOutdated(Row0(r, 0), r, r');
    OnlyOneSeen(rs, FreshAt(0).memory, WrittenItem(r, FreshAt(0), Null).payload, S.Outdates(r'));
  }

  lemma OnlyOneListed(rs: map<Text, Row>, x: Text, mission: Value)
    requires rs.Keys == {x} && rs[x].rtype == Lit(MemoryRow) && rs[x].mission == mission
    ensures Listing(rs, Lit(MemoryRow), mission, [x])
  {
  }

  lemma FirstIsOutdated(row: Row, r: Entry, r': Entry)
    requires RowFor(row, r) && r'.key == r.key && r'.content != r.content
    ensures S.Outdates(r')(row.body.p)
  {
  }

  lemma OnlyOneSeen(rs: map<Text, Row>, x: Text, p: Payload, f: Payload -> bool)
    requires x in rs && rs[x].body == Obj(p) && f(p)
    ensures S.Seen(rs, [x], f) == [p]
  {
    OneLegible(rs, x, p);
    OneSeen(p, f);
  }

  lemma OneLegible(rs: map<Text, Row>, x: Text, p: Payload)
    requires x in rs && rs[x].body == Obj(p)
    ensures S.Legible(rs, [x]) && PayloadsOf(rs, [x]) == [p]
  {
  }

  lemma OneSeen(p: Payload, f: Payload -> bool)
    requires f(p)
    ensures Filter([p], f) == [p]
  {
    assert [p][..0] == [];
  }

  /** The second write has looked, and has the first one's record to retire. */
  lemma SecondLook(s: State, r: Entry, r': Entry)
    requires s.db.records == map[FreshAt(0).memory := Row0(r, 0)] && RowFor(Row0(r, 0), r)
    requires s.calls == [Finished(r, 0), S.Call(WriteJob(r', 1), S.Looking)]
    requires r'.key == r.key && r'.mission == r.mission && r'.content != r.content
    ensures Permitted(s, Step(1, [FreshAt(0).memory], None))
    ensures var p := WrittenItem(r, FreshAt(0), Null).payload;
      Take(s, Step(1, [FreshAt(0).memory], None))
        == s.(calls := [Finished(r, 0), S.Call(WriteJob(r', 1), S.WritePlan(WriteJob(r', 1), [p]))])
  {
    SeesOne(s.db.records, r, r');
  }

  /** One write goes through; another, of other content under the same key, arrives and looks. */
  lemma {:induction false} OneWritesOneLooks(r: Entry, r': Entry) returns (turns: seq<Turn>)
    requires Plain(r) && Plain(r') && r.idem == Null && r'.idem == Null
    requires r'.key == r.key && r'.mission == r.mission && r'.content != r.content
    ensures Interleaved(turns) && Play(turns).db.records == map[FreshAt(0).memory := Row0(r, 0)]
    ensures Play(turns).calls == [Finished(r, 0),
      S.Call(WriteJob(r', 1), S.WritePlan(WriteJob(r', 1), [WrittenItem(r, FreshAt(0), Null).payload]))]
  {
    turns := OneWrites(r);
    ArriveTurn(Play(turns), r', 1);
    TakeTurn(turns, Arrive(WriteJob(r', 1)));
    turns := turns + [Arrive(WriteJob(r', 1))];
    PoisedRow(r, 0);
    SecondLook(Play(turns), r, r');
    TakeTurn(turns, Step(1, [FreshAt(0).memory], None));
    turns := turns + [Step(1, [FreshAt(0).memory], None)];
  }

  /** The first call is done, the second is between retiring and saving, and the only row stored is a
      memory record that leads nowhere, however far it is followed. */
  ghost predicate LeadsNowhere(s: State, first: S.Call, second: S.Job, x: Text) {
    |s.calls| == 2 && s.calls[0] == first && s.calls[1].job == second && s.calls[1].stage.Writing?
    && s.db.records.Keys == {x} && Nowhere(s.db.records, x)
  }

  ghost predicate Nowhere(rs: map<Text, Row>, x: Text) {
    IsMemory(rs, x) && forall n: nat :: Follow(rs, x, n).None?
  }

  lemma RetiredNowhere(s: State, k: nat, x: Text)
    requires StateOk(s) && k < |s.calls| && s.calls[k].stage.Writing? && s.calls[k].stage.left != []
    requires Get(s.calls[k].stage.left[0], MemoryId) == Str(x)
    ensures var rs := S.Written(s.db, s.calls[k]).records; rs.Keys == s.db.records.Keys && Nowhere(rs, x)
  {
    RetireTurn(s, k);
    forall n: nat ensures Follow(S.Written(s.db, s.calls[k]).records, x, n).None? {
      RetiredDangles(s, k, n);
    }
  }

  lemma RetiringTurn(s: State, c: S.Call)
    requires |s.calls| == 2 && s.calls[1] == c && c.stage.Writing? && c.stage.left != []
    ensures Permitted(s, Step(1, [], None))
    ensures var s' := Take(s, Step(1, [], None));
      s'.db == S.Written(s.db, c) && |s'.calls| == 2 && s'.calls[0] == s.calls[0]
      && s'.calls[1].job == c.job && s'.calls[1].stage.Writing?
  {
  }

  lemma SecondRetires(s: State, first: S.Call, second: S.Job, x: Text)
    requires StateOk(s) && |s.calls| == 2 && s.calls[0] == first && s.calls[1].job == second && s.db.records.Keys == {x}
    requires s.calls[1].stage.Writing? && s.calls[1].stage.left != [] && Get(s.calls[1].stage.left[0], MemoryId) == Str(x)
    ensures Permitted(s, Step(1, [], None)) && LeadsNowhere(Take(s, Step(1, [], None)), first, second, x)
  {
    RetiringTurn(s, s.calls[1]);
    RetiredNowhere(s, 1, x);
  }

  /** Where the second write stands: it has the first one's record to retire. */
  lemma PlansToRetire(r: Entry, r': Entry)
    ensures var st := S.WritePlan(WriteJob(r', 1), [WrittenItem(r, FreshAt(0), Null).payload]);
      st.Writing? && st.left != [] && Get(st.left[0], MemoryId) == Str(FreshAt(0).memory)
  {
    NewMemoryStands(r, FreshAt(0), CommittedStatus, Truthy(r.evidence), Null, [], WrittenItem(r, FreshAt(0), Null).payload);
  }

  /** One write goes through; another retires its record and has not saved its own yet: the only
      record stored leads nowhere. */
  lemma {:induction false} RetiredLeadsNowhere(r: Entry, content: Text) returns (turns: seq<Turn>)
    requires Plain(r) && Plain(r.(content := content)) && r.idem == Null && content != r.content
    ensures Interleaved(turns)
    ensures LeadsNowhere(Play(turns), Finished(r, 0), WriteJob(r.(content := content), 1), FreshAt(0).memory)
  {
    var both := OneWritesOneLooks(r, r.(content := content));
    PlansToRetire(r, r.(content := content));
    turns := ThenRetires(both, Finished(r, 0), WriteJob(r.(content := content), 1), FreshAt(0).memory);
  }

  lemma {:induction false} ThenRetires(turns: seq<Turn>, first: S.Call, second: S.Job, x: Text) returns (more: seq<Turn>)
    requires Interleaved(turns)
    requires var s := Play(turns);
      |s.calls| == 2 && s.calls[0] == first && s.calls[1].job == second && s.db.records.Keys == {x}
      && s.calls[1].stage.Writing? && s.calls[1].stage.left != [] && Get(s.calls[1].stage.left[0], MemoryId) == Str(x)
    ensures Interleaved(more) && LeadsNowhere(Play(more), first, second, x)
  {
    PlayIsOk(turns);
    SecondRetires(Play(turns), first, second, x);
    TakeTurn(turns, Step(1, [], None));
    more := turns + [Step(1, [], None)];
  }
}
