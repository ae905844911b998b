/** The receipt-chain audit: which tool records count, which receipts verify, and what the report
    adds up to. */
module Receipts {
  import opened Ledger
  import opened StoreSpec
  import opened Lists
  import opened EvidenceRules
  import opened EvidenceSteps
  import opened EvidenceForms

  // ---- scope -------------------------------------------------------------------------------

  /** `order` lists the rows of the table, each once, as a query hands them out. */
  ghost predicate Enumerates(order: seq<Text>, records: map<Text, Row>) {
    (forall id :: id in records <==> id in order)
    && forall i, j :: 0 <= i < j < |order| ==> order[i] != order[j]
  }

  /** By the mission column, or by the mission the payload claims. */
  predicate InScope(row: Row, rtype: Text, mission: Option<Text>) {
    row.rtype == rtype
    && (mission.None? || row.mission == Str(mission.value)
        || (row.body.Obj? && Get(row.body.p, MissionId) == Str(mission.value)))
  }

  datatype Audit = Audit(valid: seq<Text>, corrupt: seq<Text>)

  /** `audit_record_envelopes` over the first rows of the table. */
  function AuditOf(records: map<Text, Row>, rtype: Text, mission: Option<Text>, order: seq<Text>): Audit {
    if order == [] then Audit([], [])
    else
      var id, done := order[|order| - 1], AuditOf(records, rtype, mission, order[..|order| - 1]);
      if id !in records || !InScope(records[id], rtype, mission) then done
      else if EnvelopeOf(records, id).Some? then done.(valid := done.valid + [id])
      else done.(corrupt := done.corrupt + [id])
  }

  lemma {:induction false} CountedSoFar(records: map<Text, Row>, rtype: Text, mission: Option<Text>, order: seq<Text>)
    requires AllApart(order)
    ensures var audit := AuditOf(records, rtype, mission, order);
      AllApart(audit.valid) && AllApart(audit.corrupt)
      && (forall id :: id in audit.valid <==>
          id in order && id in records && InScope(records[id], rtype, mission) && EnvelopeOf(records, id).Some?)
      && (forall id :: id in audit.corrupt <==>
          id in order && id in records && InScope(records[id], rtype, mission) && EnvelopeOf(records, id).None?)
  {
    if order != [] {
      CountedSoFar(records, rtype, mission, order[..|order| - 1]);
    }
  }

  /** Every row in scope, by column or by payload, is counted exactly once, as valid when it is intact
      and anchored and as corrupt otherwise; and no other row is. */
  lemma EveryRowCountedOnce(records: map<Text, Row>, rtype: Text, mission: Option<Text>, order: seq<Text>)
    requires Enumerates(order, records)
    ensures var audit := AuditOf(records, rtype, mission, order);
      AllApart(audit.valid) && AllApart(audit.corrupt)
      && (forall id :: id in audit.valid <==>
          id in records && InScope(records[id], rtype, mission) && EnvelopeOf(records, id).Some?)
      && (forall id :: id in audit.corrupt <==>
          id in records && InScope(records[id], rtype, mission) && EnvelopeOf(records, id).None?)
  {
    CountedSoFar(records, rtype, mission, order);
  }

  // ---- links -------------------------------------------------------------------------------

  datatype Link = Link(
    invocation: Text, tool: Value, status: Text, failure: Value, reason: Value, receipt: Value,
    hasReceipt: bool, verifiable: bool)

  function StatusOf(inv: Payload): Text {
    if Status in inv then Show(inv[Status]) else Lit(CompletedInvocation)
  }

  /** The evidence names this invocation. */
  predicate Linked(ev: Payload, iid: Text) {
    Truthy(Get(ev, ToolInvocationId)) && Show(Get(ev, ToolInvocationId)) == iid
  }

  predicate HasReceipt(evidence: seq<Payload>, iid: Text, receipt: Value) {
    exists i :: 0 <= i < |evidence| && Linked(evidence[i], iid)
      && (Truthy(receipt) ==> Show(Get(evidence[i], EvidenceId)) == Show(receipt))
  }

  predicate Succeeded(outcome: Outcome) {
    outcome.VerifyReturned? && outcome.verified
  }

  ghost function LinkOf(db: Tables, inv: Payload, evidence: seq<Payload>, stamp: Text): Link {
    var iid, receipt := Show(Get(inv, InvocationId)), Get(inv, ReceiptEvidenceId);
    Link(iid, Get(inv, ToolName), StatusOf(inv), Get(inv, FailureCode), Get(inv, ReasonCode), receipt,
         HasReceipt(evidence, iid, receipt),
         Truthy(receipt) && Succeeded(VerifyAlone(db, Show(receipt), stamp).1))
  }

  /** The tables after one link: its receipt has been verified. */
  ghost function AfterLink(db: Tables, inv: Payload, stamp: Text): Tables {
    if Truthy(Get(inv, ReceiptEvidenceId)) then VerifyAlone(db, Show(Get(inv, ReceiptEvidenceId)), stamp).0 else db
  }

  ghost function AfterLinks(db: Tables, invs: seq<Payload>, stamp: Text): Tables {
    if invs == [] then db
    else AfterLink(AfterLinks(db, invs[..|invs| - 1], stamp), invs[|invs| - 1], stamp)
  }

  ghost function Chain(db: Tables, invs: seq<Payload>, evidence: seq<Payload>, stamp: Text): seq<Link> {
    if invs == [] then []
    else
      var before := invs[..|invs| - 1];
      Chain(db, before, evidence, stamp) + [LinkOf(AfterLinks(db, before, stamp), invs[|invs| - 1], evidence, stamp)]
  }

  // ---- the report ----------------------------------------------------------------------------

  predicate Gap(l: Link) { !l.hasReceipt }

  predicate Unverifiable(l: Link) { l.hasReceipt && !l.verifiable }

  predicate Sound(l: Link) { l.hasReceipt && l.verifiable }

  predicate Violation(l: Link) { l.status == Lit(FailedInvocation) && !Truthy(l.failure) }

  function Count(p: Link -> bool, chain: seq<Link>): nat {
    if chain == [] then 0
    else Count(p, chain[..|chain| - 1]) + if p(chain[|chain| - 1]) then 1 else 0
  }

  datatype Report = Report(
    chain: seq<Link>, total: nat, gaps: nat, unverifiable: nat, corrupt: seq<Text>, violations: nat, intact: bool)

  function ReportOf(chain: seq<Link>, corrupt: seq<Text>): Report {
    var gaps, unverifiable, violations := Count(Gap, chain), Count(Unverifiable, chain), Count(Violation, chain);
    Report(chain, |chain| + |corrupt|, gaps, unverifiable, corrupt, violations,
           gaps == 0 && unverifiable == 0 && violations == 0 && corrupt == [])
  }

  datatype Presence = Attested | Missing | InvalidChain

  predicate Relevant(l: Link, tools: seq<Value>) {
    l.tool in tools
  }

  function RelevantLinks(chain: seq<Link>, tools: seq<Value>): seq<Link> {
    if chain == [] then []
    else
      var rest, last := RelevantLinks(chain[..|chain| - 1], tools), chain[|chain| - 1];
      if Relevant(last, tools) then rest + [last] else rest
  }

  /** `receipt_status`, branch by branch. */
  function StatusOfReport(report: Report, tools: seq<Value>): Presence {
    var relevant := RelevantLinks(report.chain, tools);
    if |report.corrupt| > 0 || report.violations > 0 then InvalidChain
    else if relevant == [] || !report.intact || Count(Gap, relevant) > 0 then Missing
    else if forall i :: 0 <= i < |relevant| && relevant[i].hasReceipt ==> relevant[i].verifiable then Attested
    else Missing
  }

  /** Gaps, unverifiable receipts and verified receipts add up to the valid tool records. */
  lemma {:induction false} CountsAddUp(chain: seq<Link>)
    ensures Count(Gap, chain) + Count(Unverifiable, chain) + Count(Sound, chain) == |chain|
  {
    if chain != [] { CountsAddUp(chain[..|chain| - 1]); }
  }

  lemma {:induction false} CountIsZero(p: Link -> bool, chain: seq<Link>)
    ensures Count(p, chain) == 0 <==> forall i :: 0 <= i < |chain| ==> !p(chain[i])
  {
    if chain != [] {
      var rest := chain[..|chain| - 1];
      CountIsZero(p, rest);
      assert forall i :: 0 <= i < |rest| ==> rest[i] == chain[i];
    }
  }

  lemma {:induction false} RelevantAreLinks(chain: seq<Link>, tools: seq<Value>)
    ensures forall l :: l in RelevantLinks(chain, tools) <==> l in chain && Relevant(l, tools)
  {
    if chain != [] { RelevantAreLinks(chain[..|chain| - 1], tools); }
  }

  /** A chain is intact exactly when every invocation has a receipt that verifies, no failure lacks
      its code and no tool record is corrupt. */
  lemma IntactMeansEveryLink(chain: seq<Link>, corrupt: seq<Text>)
    ensures ReportOf(chain, corrupt).intact <==>
      corrupt == [] && forall i :: 0 <= i < |chain| ==> Sound(chain[i]) && !Violation(chain[i])
  {
    CountIsZero(Gap, chain);
    CountIsZero(Unverifiable, chain);
    CountIsZero(Violation, chain);
    if ReportOf(chain, corrupt).intact {
      forall i | 0 <= i < |chain| ensures Sound(chain[i]) && !Violation(chain[i]) {
        assert !Gap(chain[i]) && !Unverifiable(chain[i]);
      }
    }
    if forall i :: 0 <= i < |chain| ==> Sound(chain[i]) && !Violation(chain[i]) {
      forall i | 0 <= i < |chain| ensures !Gap(chain[i]) && !Unverifiable(chain[i]) && !Violation(chain[i]) {
        assert Sound(chain[i]);
      }
    }
  }

  /** A receipt is present exactly when the whole chain is intact and a relevant tool ran; the
      status is invalid exactly when a record is corrupt or a failure is unexplained. */
  lemma PresentMeansIntact(chain: seq<Link>, corrupt: seq<Text>, tools: seq<Value>)
    ensures var report := ReportOf(chain, corrupt);
      (StatusOfReport(report, tools) == Attested <==>
        report.intact && exists i :: 0 <= i < |chain| && Relevant(chain[i], tools))
      && (StatusOfReport(report, tools) == InvalidChain <==>
        corrupt != [] || exists i :: 0 <= i < |chain| && Violation(chain[i]))
  {
    var report, relevant := ReportOf(chain, corrupt), RelevantLinks(chain, tools);
    RelevantAreLinks(chain, tools);
    CountIsZero(Violation, chain);
    CountIsZero(Gap, relevant);
    IntactMeansEveryLink(chain, corrupt);
    if report.intact {
      forall i | 0 <= i < |relevant| ensures Sound(relevant[i]) && !Gap(relevant[i]) {
        assert relevant[i] in chain;
      }
    }
    if relevant != [] { assert relevant[0] in chain; }
    if exists i :: 0 <= i < |chain| && Relevant(chain[i], tools) {
      var i :| 0 <= i < |chain| && Relevant(chain[i], tools);
      assert chain[i] in relevant;
    }
  }

  // ---- verifying twice ------------------------------------------------------------------------

  /** Verifying that record now reports this outcome and changes nothing. */
  ghost predicate Settled(db: Tables, id: Text, outcome: Outcome) {
    forall stamp :: VerifyAlone(db, id, stamp).0 == db && VerifyAlone(db, id, stamp).1 == outcome
  }

  /** A verification settles its own record. */
  lemma VerifySettles(db: Tables, id: Text, stamp: Text, db': Tables, outcome: Outcome)
    requires UniqueKeys(db.events)
    requires db' == VerifyAlone(db, id, stamp).0 && outcome == VerifyAlone(db, id, stamp).1
    ensures Settled(db', id, outcome) && UniqueKeys(db'.events)
  {
    var st := AfterVerifyRead(id, stamp, EnvelopeOf(db.records, id));
    ReadIsPoised(db, id, stamp);
    if st.Verifying? && RepairOf(db, st).1.Repaired? {
      BindKeeps(db.events, st.ev);
      forall again ensures VerifyAlone(db', id, again).0 == db' && VerifyAlone(db', id, again).1 == outcome {
        VerifiedAgain(db, id, stamp, again, st, db');
      }
    } else {
      FailureSettles(db, id, stamp);
    }
  }

  lemma FailureSettles(db: Tables, id: Text, stamp: Text)
    requires var st := AfterVerifyRead(id, stamp, EnvelopeOf(db.records, id)); st.Verifying? ==> !RepairOf(db, st).1.Repaired?
    ensures VerifyAlone(db, id, stamp).0 == db && Settled(db, id, VerifyAlone(db, id, stamp).1)
  {
    var st := AfterVerifyRead(id, stamp, EnvelopeOf(db.records, id));
    forall again ensures VerifyAlone(db, id, again).0 == db && VerifyAlone(db, id, again).1 == VerifyAlone(db, id, stamp).1 {
      if st.Verifying? { StampIsIgnored(db, id, stamp, again, st); }
    }
  }

  lemma StampIsIgnored(db: Tables, id: Text, stamp: Text, again: Text, st: Stage)
    requires st == AfterVerifyRead(id, stamp, EnvelopeOf(db.records, id)) && st.Verifying?
    requires !RepairOf(db, st).1.Repaired?
    ensures VerifyAlone(db, id, again).0 == db && VerifyAlone(db, id, again).1 == VerifyAlone(db, id, stamp).1
  {
    var st' := AfterVerifyRead(id, again, EnvelopeOf(db.records, id));
    assert st'.Verifying? && st'.env == st.env && st'.next == st.next && st'.ev == Restamped(st.ev, again);
    RepairIgnoresStamp(db, st, again, st');
  }

  function Restamped(ev: Event, again: Text): Event {
    ev.(row := ev.row.(stamp := again))
  }

  lemma RepairIgnoresStamp(db: Tables, st: Stage, again: Text, st': Stage)
    requires st.Verifying? && st'.Verifying? && st'.env == st.env && st'.next == st.next
    requires st'.ev == Restamped(st.ev, again) && !RepairOf(db, st).1.Repaired?
    ensures RepairOf(db, st') == RepairOf(db, st) && RepairOf(db, st).0 == db
  {
  }

  /** What a verification about to commit holds. */
  ghost predicate Poised(id: Text, stamp: Text, st: Stage) {
    st.Verifying? && st.env.id == id && st.env.rtype == Lit(EvidenceRecord) && Get(st.env.payload, EvidenceId) == Str(id)
    && Get(st.env.payload, MissionId) == st.env.mission && st.next == VerifiedForm(st.env.payload, st.verified)
    && st.verified == ContentIntact(st.env.payload)
    && st.ev == VerifyEvent(id, ContentSha(st.env.payload), !st.verified, stamp)
  }

  lemma ReadIsPoised(db: Tables, id: Text, stamp: Text)
    ensures var st := AfterVerifyRead(id, stamp, EnvelopeOf(db.records, id));
      st.Verifying? ==> Poised(id, stamp, st) && EnvelopeOf(db.records, id) == Some(st.env)
  {
  }

  /** The row a verification leaves reads, and verifies, as before. */
  lemma VerifiedAgain(db: Tables, id: Text, stamp: Text, again: Text, st: Stage, db': Tables)
    requires Poised(id, stamp, st) && EnvelopeOf(db.records, id) == Some(st.env)
    requires RepairOf(db, st).1.Repaired? && db' == RepairOf(db, st).0
    ensures VerifyAlone(db', id, again).0 == db' && VerifyAlone(db', id, again).1 == VerifyReturned(id, st.verified)
  {
    var p, digest := st.env.payload, ContentSha(st.env.payload);
    ReadBack(db, st, db');
    VerifiedReadsBack(p, st.verified);
    AgainFromFacts(db', id, stamp, again, EnvelopeOf(db'.records, id).value, digest, st.verified);
  }

  lemma VerifiedReadsBack(p: Payload, ok: bool)
    requires ok == ContentIntact(p)
    ensures var v := VerifiedForm(p, ok);
      VerifiedForm(v, ok) == v && ContentSha(v) == ContentSha(p) && ContentIntact(v) == ok
      && Get(v, EnvelopeSha256) == Str(EnvelopeSha(v))
      && Get(v, EvidenceId) == Get(p, EvidenceId) && Get(v, MissionId) == Get(p, MissionId)
  {
    VerifiedKeepsFields(p, ok);
    VerifiedTwice(VerifiedForm(p, ok), ok);
    ContentOfAlike(VerifiedForm(p, ok), p);
  }

  lemma AgainFromFacts(db: Tables, id: Text, stamp: Text, again: Text, env: Envelope, digest: Text, ok: bool)
    requires EnvelopeOf(db.records, id) == Some(env) && env.rtype == Lit(EvidenceRecord)
    requires Get(env.payload, EvidenceId) == Str(id) && Get(env.payload, MissionId) == env.mission
    requires Get(env.payload, EnvelopeSha256) == Str(EnvelopeSha(env.payload)) && ContentIntact(env.payload) == ok
    requires VerifiedForm(env.payload, ok) == env.payload && ContentSha(env.payload) == digest
    requires OnTable(db.events, VerifyEvent(id, digest, !ok, stamp))
    ensures VerifyAlone(db, id, again).0 == db && VerifyAlone(db, id, again).1 == VerifyReturned(id, ok)
  {
    var st := Verifying(env, env.payload, VerifyEvent(id, digest, !ok, again), ok);
    ReadsTheSame(id, again, env, digest, ok);
    RepairAgain(db, id, st, VerifyEvent(id, digest, !ok, stamp));
    RepairedAlone(db, id, again, st);
  }

  lemma RepairedAlone(db: Tables, id: Text, again: Text, st: Stage)
    requires st == AfterVerifyRead(id, again, EnvelopeOf(db.records, id)) && st.Verifying? && st.env.id == id
    requires RepairOf(db, st).1.Repaired?
    ensures VerifyAlone(db, id, again).0 == RepairOf(db, st).0
    ensures VerifyAlone(db, id, again).1 == VerifyReturned(id, st.verified)
  {
  }

  lemma ReadsTheSame(id: Text, again: Text, env: Envelope, digest: Text, ok: bool)
    requires env.rtype == Lit(EvidenceRecord) && Get(env.payload, EvidenceId) == Str(id)
    requires Get(env.payload, MissionId) == env.mission && Get(env.payload, EnvelopeSha256) == Str(EnvelopeSha(env.payload))
    requires VerifiedForm(env.payload, ok) == env.payload && ContentSha(env.payload) == digest
    requires ContentIntact(env.payload) == ok
    ensures AfterVerifyRead(id, again, Some(env)) == Verifying(env, env.payload, VerifyEvent(id, digest, !ok, again), ok)
  {
  }

  lemma ContentOfAlike(v: Payload, p: Payload)
    requires Alike(v, p)
    ensures ContentSha(v) == ContentSha(p) && (ContentIntact(v) <==> ContentIntact(p))
  {
    assert Content in v <==> Content in p;
  }

  lemma ReadBack(db: Tables, st: Stage, db': Tables)
    requires st.Verifying? && EnvelopeOf(db.records, st.env.id) == Some(st.env) && st.env.rtype == Lit(EvidenceRecord)
    requires RepairOf(db, st).1.Repaired? && db' == RepairOf(db, st).0
    ensures EnvelopeOf(db'.records, st.env.id).Some?
    ensures var env' := EnvelopeOf(db'.records, st.env.id).value;
      env'.payload == st.next && env'.mission == st.env.mission && env'.rtype == Lit(EvidenceRecord)
    ensures OnTable(db'.events, st.ev)
  {
  }

  ghost predicate OnTable(events: map<Text, EventRow>, ev: Event) {
    ev.id in events && SameIdentity(events[ev.id], ev.row) && events[ev.id].key == ev.row.key
  }

  lemma RepairAgain(db: Tables, id: Text, st: Stage, ev: Event)
    requires st.Verifying? && st.env.id == id && EnvelopeOf(db.records, id) == Some(st.env)
    requires st.env.rtype == Lit(EvidenceRecord) && st.next == st.env.payload && OnTable(db.events, ev)
    requires st.ev.id == ev.id && SameIdentity(st.ev.row, ev.row) && st.ev.row.key == ev.row.key && Present(ev.row.key)
    ensures RepairOf(db, st).0 == db && RepairOf(db, st).1.Repaired?
  {
    assert Bind(db.events, st.ev) == Some(db.events[st.ev.id]);
    assert Reseal(id, db.records[id], st.next) == db.records[id];
    assert db.records[id := db.records[id]] == db.records;
    assert db.events[st.ev.id := db.events[st.ev.id]] == db.events;
  }

  /** Verifying one record does not disturb what was settled about another. */
  lemma OthersStaySettled(db: Tables, a: Text, outcome: Outcome, b: Text, stamp: Text, db': Tables)
    requires a != b && Settled(db, a, outcome) && db' == VerifyAlone(db, b, stamp).0
    ensures Settled(db', a, outcome)
  {
    forall again ensures VerifyAlone(db', a, again).0 == db' && VerifyAlone(db', a, again).1 == outcome {
      assert VerifyAlone(db, a, again).0 == db && VerifyAlone(db, a, again).1 == outcome;
      if db' != db { StaysSettled(db, a, again, b, stamp, db'); }
    }
  }

  lemma StaysSettled(db: Tables, a: Text, again: Text, b: Text, stamp: Text, db': Tables)
    requires a != b && VerifyAlone(db, a, again).0 == db && db' == VerifyAlone(db, b, stamp).0 && db' != db
    ensures VerifyAlone(db', a, again).0 == db' && VerifyAlone(db', a, again).1 == VerifyAlone(db, a, again).1
  {
    ReadIsPoised(db, b, stamp);
    var st := AfterVerifyRead(b, stamp, EnvelopeOf(db.records, b));
    RefusedWritesNothing(db, st);
    OtherUnmoved(db, a, again, b, stamp, st, db');
  }

  lemma RefusedWritesNothing(db: Tables, st: Stage)
    requires st.Verifying?
    ensures RepairOf(db, st).0 != db ==> RepairOf(db, st).1.Repaired?
  {
  }

  lemma OtherUnmoved(db: Tables, a: Text, again: Text, b: Text, stamp: Text, other: Stage, db': Tables)
    requires a != b && VerifyAlone(db, a, again).0 == db && Poised(b, stamp, other)
    requires RepairOf(db, other).1.Repaired? && db' == RepairOf(db, other).0
    ensures VerifyAlone(db', a, again).0 == db' && VerifyAlone(db', a, again).1 == VerifyAlone(db, a, again).1
  {
    OneEventApart(db, other, db');
    assert EnvelopeOf(db'.records, a) == EnvelopeOf(db.records, a);
    ReadIsPoised(db, a, again);
    var st := AfterVerifyRead(a, again, EnvelopeOf(db.records, a));
    if st.Verifying? { SameRepair(db, db', a, again, st, b, stamp, other); }
    AloneAgrees(db, db', a, again, st);
  }

  lemma AloneAgrees(db: Tables, db': Tables, a: Text, again: Text, st: Stage)
    requires EnvelopeOf(db'.records, a) == EnvelopeOf(db.records, a)
    requires st == AfterVerifyRead(a, again, EnvelopeOf(db.records, a))
    requires st.Verifying? ==> RepairOf(db', st).0 == db'
    requires st.Verifying? ==> (RepairOf(db', st).1.Repaired? <==> RepairOf(db, st).1.Repaired?)
    requires st.Verifying? ==> (RepairOf(db', st).1.Refused? <==> RepairOf(db, st).1.Refused?)
    ensures VerifyAlone(db', a, again).0 == db' && VerifyAlone(db', a, again).1 == VerifyAlone(db, a, again).1
  {
  }

  lemma SameRepair(
    db: Tables, db': Tables, a: Text, again: Text, st: Stage, b: Text, stamp: Text, other: Stage)
    requires a != b && Poised(a, again, st) && Poised(b, stamp, other) && EnvelopeOf(db.records, a) == Some(st.env)
    requires RepairOf(db, st).0 == db && RepairOf(db, other).1.Repaired? && db' == RepairOf(db, other).0
    ensures RepairOf(db', st).0 == db'
    ensures RepairOf(db', st).1.Repaired? <==> RepairOf(db, st).1.Repaired?
    ensures RepairOf(db', st).1.Refused? <==> RepairOf(db, st).1.Refused?
  {
    OneEventApart(db, other, db');
    KeysDiffer(a, again, st, b, stamp, other);
    ReadIsThere(db.records, a, st.env);
    BindIgnoresOthers(db.events, st.ev, other.ev, Bind(db.events, other.ev).value);
    OnlyThatEvent(db.events, other.ev.id, Bind(db.events, other.ev).value);
    StillNoChange(db, db', a, st, other.ev.id);
  }

  lemma ReadIsThere(rs: map<Text, Row>, a: Text, env: Envelope)
    requires EnvelopeOf(rs, a) == Some(env)
    ensures a in rs && env.id == a
  {
  }

  lemma OnlyThatEvent(es: map<Text, EventRow>, e: Text, row: EventRow)
    ensures forall id :: id != e ==> (id in es[e := row] <==> id in es) && (id in es ==> es[e := row][id] == es[id])
  {
  }

  lemma KeysDiffer(a: Text, again: Text, st: Stage, b: Text, stamp: Text, other: Stage)
    requires a != b && Poised(a, again, st) && Poised(b, stamp, other)
    ensures st.ev.id != other.ev.id && st.ev.row.key != other.ev.row.key
    ensures st.ev.row.key.Some? && other.ev.row.key.Some?
  {
  }

  lemma OneEventApart(db: Tables, other: Stage, db': Tables)
    requires other.Verifying? && RepairOf(db, other).1.Repaired? && db' == RepairOf(db, other).0
    ensures Bind(db.events, other.ev).Some? && db'.events == db.events[other.ev.id := Bind(db.events, other.ev).value]
    ensures Bind(db.events, other.ev).value.key == other.ev.row.key
    ensures other.ev.id in db.events ==> db.events[other.ev.id].key == None || db.events[other.ev.id].key == other.ev.row.key
    ensures forall id :: id != other.env.id ==> (id in db'.records <==> id in db.records) && (id in db.records ==> db'.records[id] == db.records[id])
  {
  }

  lemma BindIgnoresOthers(events: map<Text, EventRow>, ev: Event, other: Event, row: EventRow)
    requires ev.id != other.id && ev.row.key.Some? && other.row.key != ev.row.key && row.key == other.row.key
    requires other.id in events ==> events[other.id].key == None || events[other.id].key == other.row.key
    ensures Bind(events[other.id := row], ev) == Bind(events, ev)
  {
    var more := events[other.id := row];
    if KeyTaken(events, ev.row.key.value) {
      var id :| id in events && events[id].key == Some(ev.row.key.value);
      assert id in more && more[id].key == Some(ev.row.key.value);
    }
    if KeyTaken(more, ev.row.key.value) {
      var id :| id in more && more[id].key == Some(ev.row.key.value);
      assert id in events && events[id].key == Some(ev.row.key.value);
    }
  }

  lemma StillNoChange(db: Tables, db': Tables, a: Text, st: Stage, elsewhere: Text)
    requires st.Verifying? && st.env.id == a && a in db.records && a in db'.records && db'.records[a] == db.records[a]
    requires st.ev.row.key.Some? && RepairOf(db, st).0 == db && st.ev.id != elsewhere
    requires Bind(db'.events, st.ev) == Bind(db.events, st.ev)
    requires forall id :: id != elsewhere ==> (id in db'.events <==> id in db.events) && (id in db.events ==> db'.events[id] == db.events[id])
    ensures RepairOf(db', st).0 == db'
    ensures RepairOf(db', st).1.Repaired? <==> RepairOf(db, st).1.Repaired?
    ensures RepairOf(db', st).1.Refused? <==> RepairOf(db, st).1.Refused?
  {
    if RepairOf(db, st).1.Repaired? {
      assert db.records[a] == Reseal(a, db.records[a], st.next);
      assert db'.records[a := db'.records[a]] == db'.records;
      assert db.events[st.ev.id] == Bind(db.events, st.ev).value;
      assert db'.events[st.ev.id := db'.events[st.ev.id]] == db'.events;
    }
  }

  // ---- the whole audit -------------------------------------------------------------------------

  function PayloadAt(records: map<Text, Row>, id: Text): Payload {
    if id in records && records[id].body.Obj? then records[id].body.p else map[]
  }

  function Payloads(records: map<Text, Row>, ids: seq<Text>): seq<Payload> {
    seq(|ids|, i requires 0 <= i < |ids| => PayloadAt(records, ids[i]))
  }

  /** A row `list_records` hands out; an empty mission does not filter. */
  predicate Listed(row: Row, rtype: Text, mission: Text) {
    row.rtype == rtype && (mission == EMPTY || row.mission == Str(mission))
  }

  /** `list_records`, or None when a listed payload is not an object. */
  function ListOf(records: map<Text, Row>, rtype: Text, mission: Text, order: seq<Text>): Option<seq<Payload>> {
    if order == [] then Some([])
    else
      var id, done := order[|order| - 1], ListOf(records, rtype, mission, order[..|order| - 1]);
      if id !in records || !Listed(records[id], rtype, mission) then done
      else if done.None? || !records[id].body.Obj? then None
      else Some(done.value + [records[id].body.p])
  }

  function ToolAudit(records: map<Text, Row>, mission: Text, order: seq<Text>): Audit {
    AuditOf(records, Lit(ToolRecord), Some(mission), order)
  }

  function Invocations(records: map<Text, Row>, mission: Text, order: seq<Text>): seq<Payload> {
    Payloads(records, ToolAudit(records, mission, order).valid)
  }

  /** `verify_receipt_chain`: None when listing the evidence raises. */
  ghost function AuditReport(db: Tables, mission: Text, order: seq<Text>, stamp: Text): Option<Report> {
    var evidence := ListOf(db.records, Lit(EvidenceRecord), mission, order);
    if evidence.None? then None
    else Some(ReportOf(Chain(db, Invocations(db.records, mission, order), evidence.value, stamp),
                       ToolAudit(db.records, mission, order).corrupt))
  }

  ghost function AuditTables(db: Tables, mission: Text, order: seq<Text>, stamp: Text): Tables {
    if ListOf(db.records, Lit(EvidenceRecord), mission, order).None? then db
    else AfterLinks(db, Invocations(db.records, mission, order), stamp)
  }

  // ---- what verification leaves alone -------------------------------------------------------------

  /** Verification changes only the status and digest of evidence payloads. */
  predicate AlikeRow(row: Row, row': Row) {
    row' == row
    || (row.rtype == Lit(EvidenceRecord) && row'.rtype == row.rtype && row'.mission == row.mission
        && row.body.Obj? && row'.body.Obj? && SameLinks(row.body.p, row'.body.p))
  }

  predicate SameLinks(p: Payload, q: Payload) {
    Get(p, EvidenceId) == Get(q, EvidenceId) && Get(p, ToolInvocationId) == Get(q, ToolInvocationId)
  }

  ghost predicate AlikeRows(rs: map<Text, Row>, rs': map<Text, Row>) {
    rs'.Keys == rs.Keys && forall id :: id in rs ==> AlikeRow(rs[id], rs'[id])
  }

  lemma VerifyKeepsRows(db: Tables, id: Text, stamp: Text)
    ensures AlikeRows(db.records, VerifyAlone(db, id, stamp).0.records)
  {
    var st := AfterVerifyRead(id, stamp, EnvelopeOf(db.records, id));
    if st.Verifying? {
      ReadIsPoised(db, id, stamp);
      VerifiedKeepsLinks(st.env.payload, st.verified);
      RepairWrites(db, st);
      RepairKeepsRows(db.records, st, RepairOf(db, st).0.records);
    }
  }

  lemma VerifiedKeepsLinks(p: Payload, ok: bool)
    ensures SameLinks(p, VerifiedForm(p, ok))
  {
    VerifiedKeepsFields(p, ok);
  }

  lemma RepairWrites(db: Tables, st: Stage)
    requires st.Verifying? && st.env.id in db.records
    ensures var rs' := RepairOf(db, st).0.records;
      rs' == db.records || rs' == db.records[st.env.id := Reseal(st.env.id, db.records[st.env.id], st.next)]
    ensures RepairOf(db, st).0.records != db.records ==> db.records[st.env.id].rtype == Lit(EvidenceRecord)
  {
  }

  lemma RepairKeepsRows(rs: map<Text, Row>, st: Stage, rs': map<Text, Row>)
    requires st.Verifying? && EnvelopeOf(rs, st.env.id) == Some(st.env) && SameLinks(st.env.payload, st.next)
    requires rs' == rs || rs' == rs[st.env.id := Reseal(st.env.id, rs[st.env.id], st.next)]
    requires rs' != rs ==> rs[st.env.id].rtype == Lit(EvidenceRecord)
    ensures AlikeRows(rs, rs')
  {
  }

  lemma AlikeRowsCompose(a: map<Text, Row>, b: map<Text, Row>, c: map<Text, Row>)
    requires AlikeRows(a, b) && AlikeRows(b, c)
    ensures AlikeRows(a, c)
  {
    forall id | id in a ensures AlikeRow(a[id], c[id]) {
      assert AlikeRow(a[id], b[id]) && AlikeRow(b[id], c[id]);
    }
  }

  lemma {:induction false} LinksKeepRows(db: Tables, invs: seq<Payload>, stamp: Text)
    ensures AlikeRows(db.records, AfterLinks(db, invs, stamp).records)
  {
    if invs != [] {
      var before, last := AfterLinks(db, invs[..|invs| - 1], stamp), invs[|invs| - 1];
      LinksKeepRows(db, invs[..|invs| - 1], stamp);
      VerifyKeepsRows(before, Show(Get(last, ReceiptEvidenceId)), stamp);
      AlikeRowsCompose(db.records, before.records, AfterLink(before, last, stamp).records);
    }
  }

  lemma {:induction false} SameToolAudit(rs: map<Text, Row>, rs': map<Text, Row>, mission: Option<Text>, order: seq<Text>)
    requires AlikeRows(rs, rs')
    ensures AuditOf(rs', Lit(ToolRecord), mission, order) == AuditOf(rs, Lit(ToolRecord), mission, order)
    ensures forall id :: id in AuditOf(rs, Lit(ToolRecord), mission, order).valid ==>
      id in rs && id in rs' && rs'[id] == rs[id]
  {
    if order != [] {
      SameToolAudit(rs, rs', mission, order[..|order| - 1]);
      var id := order[|order| - 1];
      if id in rs { assert AlikeRow(rs[id], rs'[id]); }
    }
  }

  lemma SameInvocations(rs: map<Text, Row>, rs': map<Text, Row>, mission: Text, order: seq<Text>)
    requires AlikeRows(rs, rs')
    ensures Invocations(rs', mission, order) == Invocations(rs, mission, order)
  {
    SameToolAudit(rs, rs', Some(mission), order);
    var ids := ToolAudit(rs, mission, order).valid;
    forall i | 0 <= i < |ids| ensures PayloadAt(rs', ids[i]) == PayloadAt(rs, ids[i]) {
      assert ids[i] in ids;
    }
  }

  ghost predicate SameEvidence(evs: seq<Payload>, evs': seq<Payload>) {
    |evs'| == |evs| && forall i :: 0 <= i < |evs| ==> SameLinks(evs[i], evs'[i])
  }

  lemma {:induction false} SameListing(rs: map<Text, Row>, rs': map<Text, Row>, mission: Text, order: seq<Text>)
    requires AlikeRows(rs, rs')
    ensures var list, list' := ListOf(rs, Lit(EvidenceRecord), mission, order), ListOf(rs', Lit(EvidenceRecord), mission, order);
      (list.None? <==> list'.None?) && (list.Some? && list'.Some? ==> SameEvidence(list.value, list'.value))
  {
    if order != [] {
      SameListing(rs, rs', mission, order[..|order| - 1]);
      var id := order[|order| - 1];
      if id in rs { assert AlikeRow(rs[id], rs'[id]); }
    }
  }

  lemma SameReceipts(evs: seq<Payload>, evs': seq<Payload>, iid: Text, receipt: Value)
    requires SameEvidence(evs, evs')
    ensures HasReceipt(evs', iid, receipt) <==> HasReceipt(evs, iid, receipt)
  {
    if HasReceipt(evs, iid, receipt) {
      var i :| 0 <= i < |evs| && Linked(evs[i], iid) && (Truthy(receipt) ==> Show(Get(evs[i], EvidenceId)) == Show(receipt));
      assert SameLinks(evs[i], evs'[i]) && Linked(evs'[i], iid);
    }
    if HasReceipt(evs', iid, receipt) {
      var i :| 0 <= i < |evs'| && Linked(evs'[i], iid) && (Truthy(receipt) ==> Show(Get(evs'[i], EvidenceId)) == Show(receipt));
      assert SameLinks(evs[i], evs'[i]) && Linked(evs[i], iid);
    }
  }

  // ---- the second audit ---------------------------------------------------------------------------

  /** Every receipt checked so far would verify again with the same outcome. */
  ghost predicate ChainSettled(db: Tables, chain: seq<Link>) {
    forall i :: 0 <= i < |chain| && Truthy(chain[i].receipt) ==> LinkSettled(db, chain[i])
  }

  ghost predicate LinkSettled(db: Tables, l: Link) {
    exists outcome :: Settled(db, Show(l.receipt), outcome) && Succeeded(outcome) == l.verifiable
  }

  lemma LinkSettlesItself(db: Tables, inv: Payload, evidence: seq<Payload>, stamp: Text)
    requires UniqueKeys(db.events) && Truthy(Get(inv, ReceiptEvidenceId))
    ensures LinkSettled(AfterLink(db, inv, stamp), LinkOf(db, inv, evidence, stamp))
    ensures UniqueKeys(AfterLink(db, inv, stamp).events)
  {
    var id := Show(Get(inv, ReceiptEvidenceId));
    VerifySettles(db, id, stamp, VerifyAlone(db, id, stamp).0, VerifyAlone(db, id, stamp).1);
  }

  lemma SettledLinkStays(db: Tables, l: Link, id: Text, stamp: Text)
    requires LinkSettled(db, l)
    ensures LinkSettled(VerifyAlone(db, id, stamp).0, l)
  {
    var outcome :| Settled(db, Show(l.receipt), outcome) && Succeeded(outcome) == l.verifiable;
    if id == Show(l.receipt) {
      assert VerifyAlone(db, id, stamp).0 == db;
    } else {
      OthersStaySettled(db, Show(l.receipt), outcome, id, stamp, VerifyAlone(db, id, stamp).0);
    }
  }

  lemma {:induction false} ChainSettles(db: Tables, invs: seq<Payload>, evidence: seq<Payload>, stamp: Text)
    requires UniqueKeys(db.events)
    ensures ChainSettled(AfterLinks(db, invs, stamp), Chain(db, invs, evidence, stamp))
    ensures UniqueKeys(AfterLinks(db, invs, stamp).events) && |Chain(db, invs, evidence, stamp)| == |invs|
  {
    if invs != [] {
      var prefix, inv := invs[..|invs| - 1], invs[|invs| - 1];
      ChainSettles(db, prefix, evidence, stamp);
      OneMoreLinkSettles(AfterLinks(db, prefix, stamp), Chain(db, prefix, evidence, stamp), inv, evidence, stamp);
    }
  }

  lemma OneMoreLinkSettles(db: Tables, chain: seq<Link>, inv: Payload, evidence: seq<Payload>, stamp: Text)
    requires UniqueKeys(db.events) && ChainSettled(db, chain)
    ensures ChainSettled(AfterLink(db, inv, stamp), chain + [LinkOf(db, inv, evidence, stamp)])
    ensures UniqueKeys(AfterLink(db, inv, stamp).events)
  {
    if Truthy(Get(inv, ReceiptEvidenceId)) {
      LinkSettlesItself(db, inv, evidence, stamp);
      forall i | 0 <= i < |chain| && Truthy(chain[i].receipt) ensures LinkSettled(AfterLink(db, inv, stamp), chain[i]) {
        SettledLinkStays(db, chain[i], Show(Get(inv, ReceiptEvidenceId)), stamp);
      }
    }
  }

  /** On a settled chain the same audit yields the same links and writes nothing. */
  lemma {:induction false} SettledChainRepeats(
    db: Tables, db0: Tables, invs: seq<Payload>, evs: seq<Payload>, evs0: seq<Payload>, stamp: Text, stamp0: Text)
    requires ChainSettled(db, Chain(db0, invs, evs0, stamp0)) && SameEvidence(evs0, evs)
    requires |Chain(db0, invs, evs0, stamp0)| == |invs|
    ensures AfterLinks(db, invs, stamp) == db && Chain(db, invs, evs, stamp) == Chain(db0, invs, evs0, stamp0)
  {
    if invs != [] {
      var prefix, inv := invs[..|invs| - 1], invs[|invs| - 1];
      var whole, part := Chain(db0, invs, evs0, stamp0), Chain(db0, prefix, evs0, stamp0);
      assert whole == part + [LinkOf(AfterLinks(db0, prefix, stamp0), inv, evs0, stamp0)];
      assert forall i :: 0 <= i < |part| ==> part[i] == whole[i];
      SettledChainRepeats(db, db0, prefix, evs, evs0, stamp, stamp0);
      SameReceipts(evs0, evs, Show(Get(inv, InvocationId)), Get(inv, ReceiptEvidenceId));
      SettledLinkRepeats(db, whole[|whole| - 1], inv, evs, stamp);
    }
  }

  lemma SettledLinkRepeats(db: Tables, l: Link, inv: Payload, evs: seq<Payload>, stamp: Text)
    requires Truthy(l.receipt) ==> LinkSettled(db, l)
    requires l.invocation == Show(Get(inv, InvocationId)) && l.receipt == Get(inv, ReceiptEvidenceId)
    requires l.tool == Get(inv, ToolName) && l.status == StatusOf(inv) && l.failure == Get(inv, FailureCode)
    requires l.reason == Get(inv, ReasonCode) && l.hasReceipt == HasReceipt(evs, l.invocation, l.receipt)
    requires !Truthy(l.receipt) ==> !l.verifiable
    ensures AfterLink(db, inv, stamp) == db && LinkOf(db, inv, evs, stamp) == l
  {
    if Truthy(l.receipt) {
      var outcome :| Settled(db, Show(l.receipt), outcome) && Succeeded(outcome) == l.verifiable;
      assert VerifyAlone(db, Show(l.receipt), stamp).0 == db && VerifyAlone(db, Show(l.receipt), stamp).1 == outcome;
    }
  }

  /** A second audit, at any later time, reports the same and leaves the store as it is. */
  lemma SecondAuditRepeats(db: Tables, mission: Text, order: seq<Text>, stamp: Text, stamp': Text)
    requires UniqueKeys(db.events)
    ensures var db' := AuditTables(db, mission, order, stamp);
      AuditReport(db', mission, order, stamp') == AuditReport(db, mission, order, stamp)
      && AuditTables(db', mission, order, stamp') == db'
  {
    var db' := AuditTables(db, mission, order, stamp);
    var evidence := ListOf(db.records, Lit(EvidenceRecord), mission, order);
    if evidence.Some? {
      var invs := Invocations(db.records, mission, order);
      LinksKeepRows(db, invs, stamp);
      SameToolAudit(db.records, db'.records, Some(mission), order);
      SameInvocations(db.records, db'.records, mission, order);
      SameListing(db.records, db'.records, mission, order);
      ChainSettles(db, invs, evidence.value, stamp);
      var again := ListOf(db'.records, Lit(EvidenceRecord), mission, order);
      SettledChainRepeats(db', db, invs, again.value, evidence.value, stamp', stamp);
    }
  }
}
