/** Runs of any number of approval calls, interleaved with each other and with arbitrary store
    calls by anyone. What survives even that: one consumption per approval, of what was
    requested. */
module ApprovalRuns {
  import opened Ledger
  import opened StoreSpec
  import opened ApprovalRules
  import opened ApprovalSteps

  /** The tables, the first content written under each id, and every call so far. */
  datatype Sys = Sys(db: Tables, born: map<Text, Item>, calls: seq<Call>)

  datatype Move =
    | Spawn(c: Call)       // a caller arrives
    | Advance(i: nat)      // call number i takes its next atomic step
    | Foreign(op: Op)      // someone else calls the store

  function Births(born: map<Text, Item>, items: seq<Item>, records: map<Text, Row>): map<Text, Item> {
    born + map id | id in records && id !in born && Mentions(items, id) :: First(items, id)
  }

  ghost function AfterWrite(s: Sys, op: Op): Sys {
    var db := Apply(s.db, op);
    s.(db := db, born := Births(s.born, ItemsOf(op), db.records))
  }

  /** Only a request creates a record. */
  ghost function ItemsWritten(c: Call): seq<Item> {
    if c.Requesting? then [RequestItem(c.approval)] else []
  }

  ghost function Do(s: Sys, m: Move): Sys {
    match m
    case Spawn(c) => if Starts(c) then s.(calls := s.calls + [c]) else s
    case Foreign(op) => AfterWrite(s, op)
    case Advance(i) =>
      if i >= |s.calls| then s
      else
        var c := s.calls[i];
        Sys(Written(s.db, c), Births(s.born, ItemsWritten(c), Written(s.db, c).records),
            s.calls[i := StepCall(s.db, c)])
  }

  ghost function Run(moves: seq<Move>): Sys {
    if moves == [] then Sys(Tables(map[], map[]), map[], [])
    else Do(Run(moves[..|moves| - 1]), moves[|moves| - 1])
  }

  // ---- the raw invariant ----------------------------------------------------

  /** Every row is anchored to the first content written under its id. */
  ghost predicate Anchored(db: Tables, born: map<Text, Item>) {
    born.Keys == db.records.Keys
    && forall id :: id in born ==> born[id].id == id && db.records[id].origin == Some(ItemSeal(born[id]))
  }

  ghost predicate ReadAnchor(born: map<Text, Item>, env: Envelope) {
    env.id in born && env.origin == ItemSeal(born[env.id])
  }

  /** The consumed approval is, decision aside, the one first requested under that id. */
  ghost predicate AsRequested(born: map<Text, Item>, id: Text, a: Payload) {
    id in born && Complete(a) && born[id].rtype == Lit(ApprovalRecord) && born[id].mission == Get(a, MissionId)
    && born[id].payload == Original(a)
  }

  /** A consumption under way holds a validated, usable, anchored snapshot. */
  ghost predicate HoldsUsable(born: map<Text, Item>, args: ConsumeArgs, env: Envelope, a: Payload) {
    Complete(a) && Usable(args, env, a) && ReadAnchor(born, env) && env.rtype == Lit(ApprovalRecord)
  }

  ghost predicate RawCall(s: Sys, c: Call) {
    (c.ProvingDecision? || c.ProvingUnused? || c.CommittingUse? ==>
        HoldsUsable(s.born, c.args, c.env, c.approval))
    && (c.Done? && c.outcome.WasConsumed? ==>
        KeyTaken(s.db.events, Key(Consumed, c.outcome.id)) && AsRequested(s.born, c.outcome.id, c.outcome.approval))
  }

  predicate Consumes(c: Call, id: Text) {
    c.Done? && c.outcome.WasConsumed? && c.outcome.id == id
  }

  ghost predicate OneConsumer(calls: seq<Call>) {
    forall i, j, id :: 0 <= i < j < |calls| && Consumes(calls[i], id) ==> !Consumes(calls[j], id)
  }

  ghost predicate RawInv(s: Sys) {
    UniqueKeys(s.db.events) && Anchored(s.db, s.born)
    && (forall i :: 0 <= i < |s.calls| ==> RawCall(s, s.calls[i]))
    && OneConsumer(s.calls)
  }

  // ---- one move keeps it --------------------------------------------------------

  lemma FirstHasId(items: seq<Item>, id: Text)
    requires Mentions(items, id)
    ensures First(items, id).id == id
  {
    if items[0].id != id {
      var i :| 0 <= i < |items| && items[i].id == id;
      assert items[1..][i - 1].id == id;
      FirstHasId(items[1..], id);
    }
  }

  /** A store call keeps every row anchored to its first write. */
  lemma WriteKeepsAnchors(s: Sys, op: Op)
    requires UniqueKeys(s.db.events) && Anchored(s.db, s.born)
    ensures var s' := AfterWrite(s, op);
      UniqueKeys(s'.db.events) && Anchored(s'.db, s'.born) && EventsGrow(s.db.events, s'.db.events)
      && s.born.Keys <= s'.born.Keys && (forall id :: id in s.born ==> s'.born[id] == s.born[id])
  {
    ApplyGrows(s.db, op);
    var s' := AfterWrite(s, op);
    forall id | id in s'.db.records && id !in s.born
      ensures id in s'.born && s'.born[id].id == id
      ensures s'.db.records[id].origin == Some(ItemSeal(s'.born[id]))
    {
      FirstHasId(ItemsOf(op), id);
    }
  }

  lemma KeyStaysTaken(es: map<Text, EventRow>, es': map<Text, EventRow>, k: Text)
    requires EventsGrow(es, es') && KeyTaken(es, k)
    ensures KeyTaken(es', k)
  {
    var id :| id in es && es[id].key == Some(k);
    assert KeepsEvent(es[id], es'[id]);
  }

  lemma RawCallPersists(s: Sys, s': Sys, c: Call)
    requires RawCall(s, c) && EventsGrow(s.db.events, s'.db.events)
    requires forall id :: id in s.born ==> id in s'.born && s'.born[id] == s.born[id]
    ensures RawCall(s', c)
  {
    if c.Done? && c.outcome.WasConsumed? {
      KeyStaysTaken(s.db.events, s'.db.events, Key(Consumed, c.outcome.id));
    }
  }

  /** The call's own view after its step. */
  lemma StepKeepsRawCall(s: Sys, c: Call, s': Sys)
    requires UniqueKeys(s.db.events) && Anchored(s.db, s.born) && RawCall(s, c)
    requires EventsGrow(s.db.events, s'.db.events)
    requires c.CommittingUse? ==> s'.db == Written(s.db, c)
    requires forall id :: id in s.born ==> id in s'.born && s'.born[id] == s.born[id]
    ensures RawCall(s', StepCall(s.db, c))
  {
    if c.CommittingUse? {
      UseStepIsRaw(s, c, s');
    } else if c.Consuming? {
      ReadStepIsRaw(s, c, s');
    } else if c.ProvingDecision? || c.ProvingUnused? || c.Done? {
      ProofIsRaw(s, c, s');
    } else {
      OtherStepsConsumeNothing(s.db, c);
    }
  }

  lemma UseStepIsRaw(s: Sys, c: Call, s': Sys)
    requires UniqueKeys(s.db.events) && RawCall(s, c) && c.CommittingUse? && s'.db == Written(s.db, c)
    requires forall id :: id in s.born ==> id in s'.born && s'.born[id] == s.born[id]
    ensures RawCall(s', StepCall(s.db, c))
  {
    if StepCall(s.db, c).outcome.WasConsumed? { UseIsRaw(s, c, s'); }
  }

  lemma ReadStepIsRaw(s: Sys, c: Call, s': Sys)
    requires Anchored(s.db, s.born) && c.Consuming?
    requires forall id :: id in s.born ==> id in s'.born && s'.born[id] == s.born[id]
    ensures RawCall(s', StepCall(s.db, c))
  {
    if StepCall(s.db, c).ProvingDecision? { ReadIsRaw(s, c.args, s'); }
  }

  lemma ProofIsRaw(s: Sys, c: Call, s': Sys)
    requires RawCall(s, c) && EventsGrow(s.db.events, s'.db.events)
    requires c.ProvingDecision? || c.ProvingUnused? || c.Done?
    requires forall id :: id in s.born ==> id in s'.born && s'.born[id] == s.born[id]
    ensures RawCall(s', StepCall(s.db, c))
  {
    RawCallPersists(s, s', c);
  }

  lemma OtherStepsConsumeNothing(db: Tables, c: Call)
    requires (c.Requesting? || c.Reading? || c.Checking? || c.Committing?)
    ensures var d := StepCall(db, c);
      !d.ProvingDecision? && !d.ProvingUnused? && !d.CommittingUse? && (d.Done? ==> !d.outcome.WasConsumed?)
  {
  }

  lemma ReadIsRaw(s: Sys, args: ConsumeArgs, s': Sys)
    requires Anchored(s.db, s.born) && StepCall(s.db, Consuming(args)).ProvingDecision?
    requires forall id :: id in s.born ==> id in s'.born && s'.born[id] == s.born[id]
    ensures RawCall(s', StepCall(s.db, Consuming(args)))
  {
    assert EnvelopeOf(s.db.records, args.id).Some?;
    assert s.db.records[args.id].origin == Some(ItemSeal(s.born[args.id]));
  }

  lemma UseIsRaw(s: Sys, c: Call, s': Sys)
    requires UniqueKeys(s.db.events) && RawCall(s, c) && c.CommittingUse?
    requires s'.db == Written(s.db, c) && StepCall(s.db, c).outcome.WasConsumed?
    requires forall id :: id in s.born ==> id in s'.born && s'.born[id] == s.born[id]
    ensures RawCall(s', StepCall(s.db, c))
  {
    ConsumptionRecordsItself(s.db, c.args, c.env, c.approval);
    var env := c.env;
    assert ItemSeal(s.born[env.id]) == Seal(env.id, env.rtype, env.mission, env.created, Original(c.approval));
  }

  /** A successful use puts its event, under its own key, into the table. */
  lemma ConsumptionRecordsItself(db: Tables, args: ConsumeArgs, env: Envelope, a: Payload)
    requires UniqueKeys(db.events) && Committable(db, [UseUpdate(args, env)], [UseEvent(args, a)])
    ensures var es := CasFieldsAndEvents(db, [UseUpdate(args, env)], [UseEvent(args, a)]).events;
      KeyTaken(es, Key(Consumed, args.id)) && !KeyTaken(db.events, Key(Consumed, args.id))
      && UseEvent(args, a).id in es && es[UseEvent(args, a).id] == UseEvent(args, a).row
  {
    CommitIsAtomic(db, [UseUpdate(args, env)], [UseEvent(args, a)]);
    var es := CasFieldsAndEvents(db, [UseUpdate(args, env)], [UseEvent(args, a)]).events;
    assert [UseEvent(args, a)][0].id in es;
    assert es[UseEvent(args, a).id].key == Some(Key(Consumed, args.id));
    assert !Clashes(db.events, [UseEvent(args, a)][0]);
  }

  /** A call's own step is one of the store's calls. */
  lemma StepKeepsAnchors(s: Sys, c: Call)
    requires UniqueKeys(s.db.events) && Anchored(s.db, s.born)
    ensures var db' := Written(s.db, c);
      var born' := Births(s.born, ItemsWritten(c), db'.records);
      UniqueKeys(db'.events) && Anchored(db', born') && EventsGrow(s.db.events, db'.events)
      && (forall id :: id in s.born ==> id in born' && born'[id] == s.born[id])
  {
    if WriteOf(c).Some? {
      WriteKeepsAnchors(s, WriteOf(c).value);
      assert Written(s.db, c) == Apply(s.db, WriteOf(c).value);
      assert ItemsWritten(c) == ItemsOf(WriteOf(c).value);
    } else {
      assert Births(s.born, [], s.db.records) == s.born;
    }
  }

  lemma AdvanceKeepsRawInv(s: Sys, i: nat)
    requires RawInv(s) && i < |s.calls|
    ensures RawInv(Do(s, Advance(i)))
  {
    var c := s.calls[i];
    assert RawCall(s, c);
    var s' := Do(s, Advance(i));
    StepKeepsAnchors(s, c);
    StepKeepsRawCall(s, c, s');
    forall j | 0 <= j < |s'.calls| ensures RawCall(s', s'.calls[j]) {
      if j != i { RawCallPersists(s, s', s.calls[j]); }
    }
    OneConsumerAfterStep(s, i);
  }

  /** A call that now reports a consumption found the consumption key free: no other call had
      consumed that approval. */
  lemma OneConsumerAfterStep(s: Sys, i: nat)
    requires RawInv(s) && i < |s.calls|
    ensures OneConsumer(s.calls[i := StepCall(s.db, s.calls[i])])
  {
    var calls := s.calls[i := StepCall(s.db, s.calls[i])];
    forall j, k, id | 0 <= j < k < |calls| && Consumes(calls[j], id) ensures !Consumes(calls[k], id) {
      if j == i { NewConsumerIsAlone(s, i, k, id); }
      if k == i && Consumes(calls[k], id) { NewConsumerIsAlone(s, i, j, id); }
    }
  }

  lemma NewConsumerIsAlone(s: Sys, i: nat, j: nat, id: Text)
    requires RawInv(s) && i < |s.calls| && j < |s.calls| && i != j
    requires Consumes(StepCall(s.db, s.calls[i]), id)
    ensures !Consumes(s.calls[j], id)
  {
    var c := s.calls[i];
    assert RawCall(s, s.calls[j]);
    NewUseFoundKeyFree(s.db, c, id);
  }

  lemma NewUseFoundKeyFree(db: Tables, c: Call, id: Text)
    requires UniqueKeys(db.events) && Consumes(StepCall(db, c), id)
    ensures Consumes(c, id) || !KeyTaken(db.events, Key(Consumed, id))
  {
    if c.CommittingUse? {
      ConsumptionRecordsItself(db, c.args, c.env, c.approval);
    } else if c.Requesting? || c.Reading? || c.Checking? || c.Committing? {
      OtherStepsConsumeNothing(db, c);
    }
  }

  lemma MoveKeepsRawInv(s: Sys, m: Move)
    requires RawInv(s)
    ensures RawInv(Do(s, m))
  {
    match m
    case Spawn(c) =>
    case Advance(i) => if i < |s.calls| { AdvanceKeepsRawInv(s, i); }
    case Foreign(op) =>
      WriteKeepsAnchors(s, op);
      forall j | 0 <= j < |s.calls| ensures RawCall(Do(s, m), s.calls[j]) {
        RawCallPersists(s, Do(s, m), s.calls[j]);
      }
  }

  lemma {:induction false} RunKeepsRawInv(moves: seq<Move>)
    ensures RawInv(Run(moves))
  {
    if moves != [] {
      RunKeepsRawInv(moves[..|moves| - 1]);
      MoveKeepsRawInv(Run(moves[..|moves| - 1]), moves[|moves| - 1]);
    }
  }

  // ---- theorems over every raw run ------------------------------------------------

  /** Whatever else is written, including putting a status back to approved, an approval is
      consumed by at most one call. */
  lemma {:induction false} ConsumedAtMostOnce(moves: seq<Move>, i: nat, j: nat, id: Text)
    requires i < j < |Run(moves).calls| && Consumes(Run(moves).calls[i], id)
    ensures !Consumes(Run(moves).calls[j], id)
  {
    RunKeepsRawInv(moves);
  }

  /** Whatever else is written, a consumed approval agrees with the first content ever stored
      under its id in type, mission and every field but the status and the four decision fields;
      and that first content was itself pending and undecided. */
  lemma {:induction false} ConsumedAsRequested(moves: seq<Move>, i: nat)
    requires i < |Run(moves).calls|
    requires Run(moves).calls[i].Done? && Run(moves).calls[i].outcome.WasConsumed?
    ensures var s, out := Run(moves), Run(moves).calls[i].outcome;
      out.id in s.born && out.id in s.db.records && s.born[out.id].rtype == Lit(ApprovalRecord)
      && (forall f :: f in s.born[out.id].payload <==> f in out.approval)
      && (forall f :: f in out.approval && f !in DECISION_FIELDS ==>
          s.born[out.id].payload[f] == out.approval[f])
      && Original(s.born[out.id].payload) == s.born[out.id].payload
      && s.db.records[out.id].origin == Some(ItemSeal(s.born[out.id]))
  {
    RunKeepsRawInv(moves);
    var s := Run(moves);
    assert RawCall(s, s.calls[i]);
    RequestedFields(s, s.calls[i].outcome.id, s.calls[i].outcome.approval);
  }

  lemma RequestedFields(s: Sys, id: Text, a: Payload)
    requires Anchored(s.db, s.born) && AsRequested(s.born, id, a)
    ensures var first := s.born[id].payload;
      (forall f :: f in first <==> f in a)
      && (forall f :: f in a && f !in DECISION_FIELDS ==> first[f] == a[f])
      && Original(first) == first
  {
    OriginalFixes(a);
  }
}
