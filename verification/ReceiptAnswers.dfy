/** What the receipt audit answers, in the fields of the tool and evidence rows as it finds them. */
module ReceiptAnswers {
  import opened Ledger
  import opened StoreSpec
  import opened StoreAnswers
  import opened Lists
  import opened EvidenceSteps
  import opened EvidenceAnswers
  import opened Receipts

  // ---- verifiable evidence -----------------------------------------------------------------------------

  /** A verification of this record now would return true. */
  predicate Verifiable(db: Tables, id: Text) {
    IntactRow(db.records, id) && db.records[id].rtype == Lit(EvidenceRecord)
    && (var p := db.records[id].body.p;
        Consistent(id, db.records[id].mission, p) && DigestFits(p) && Recordable(db.events, id, ContentDigest(TextOf(p)), true))
  }

  lemma VerifiesExactlyWhen(db: Tables, id: Text, stamp: Text)
    ensures Succeeded(VerifyAlone(db, id, stamp).1) <==> Verifiable(db, id)
  {
    VerifyMeans(id, stamp, db);
  }

  /** A verification of any record, true or not, takes verifiability from none and gives it to none. */
  lemma VerifiableStays(db: Tables, a: Text, b: Text, stamp: Text)
    ensures Verifiable(VerifyAlone(db, b, stamp).0, a) <==> Verifiable(db, a)
  {
    var db' := VerifyAlone(db, b, stamp).0;
    VerifyMeans(b, stamp, db);
    if db' != db {
      if a == b { OwnStays(db, db', a, DigestFits(db.records[a].body.p)); } else { OtherStays(db, db', a, b); }
    }
  }

  lemma OwnStays(db: Tables, db': Tables, a: Text, ok: bool)
    requires IntactRow(db.records, a) && Consistent(a, db.records[a].mission, db.records[a].body.p)
    requires ok == DigestFits(db.records[a].body.p) && Recordable(db.events, a, ContentDigest(TextOf(db.records[a].body.p)), ok)
    requires db.records[a].rtype == Lit(EvidenceRecord) && VerificationStands(a, db, db', db.records[a].body.p, ok)
    ensures Verifiable(db', a) <==> Verifiable(db, a)
  {
    var p, q := db.records[a].body.p, db'.records[a].body.p;
    SameText(p, q);
    RewrittenIsIntact(db.records, db'.records, a, q);
    if ok { OwnEventRecorded(db.events, db'.events, a, ContentDigest(TextOf(p))); }
  }

  lemma RewrittenIsIntact(rs: map<Text, Row>, rs': map<Text, Row>, a: Text, q: Payload)
    requires IntactRow(rs, a) && OneRowRewritten(rs, rs', a, q)
    ensures IntactRow(rs', a) && rs'[a].rtype == rs[a].rtype && rs'[a].mission == rs[a].mission && rs'[a].body == Obj(q)
  {
  }

  lemma OwnEventRecorded(es: map<Text, EventRow>, es': map<Text, EventRow>, a: Text, digest: Text)
    requires var k := VerifyKey(a, digest, false);
      OneEventStands(es, es', EvidenceEventId(k), Lit(EvidenceVerified), a, Lit(EvidenceAggregate), Lit(EvidenceStoreActor), k,
                     map[EvidenceId := Str(a), Sha256 := Str(digest), VerificationStatus := Str(Lit(Verified))])
    ensures Recordable(es', a, digest, true)
  {
  }

  lemma SameText(p: Payload, q: Payload)
    requires VerifiedAs(p, q, DigestFits(p))
    ensures TextOf(q) == TextOf(p) && (DigestFits(q) <==> DigestFits(p))
    ensures Get(q, EvidenceId) == Get(p, EvidenceId) && Get(q, MissionId) == Get(p, MissionId)
  {
    assert Get(q, Content) == Get(p, Content) && (Content in q <==> Content in p);
    assert TextOf(q) == TextOf(p);
    assert Get(q, Sha256) == Get(p, Sha256);
  }

  lemma OtherStays(db: Tables, db': Tables, a: Text, b: Text)
    requires a != b && IntactRow(db.records, b)
    requires var p := db.records[b].body.p;
      Recordable(db.events, b, ContentDigest(TextOf(p)), DigestFits(p)) && VerificationStands(b, db, db', p, DigestFits(p))
    ensures Verifiable(db', a) <==> Verifiable(db, a)
  {
    var p := db.records[b].body.p;
    EventOfStands(db, db', b, p, DigestFits(p));
    RowOfStands(db, db', b, p, DigestFits(p));
    OtherRowStays(db.records, db'.records, a, b, db'.records[b].body.p);
    if IntactRow(db.records, a) {
      RecordableStays(db.events, db'.events, a, ContentDigest(TextOf(db.records[a].body.p)), b, ContentDigest(TextOf(p)), DigestFits(p));
    }
    SameRowSame(db, db', a);
  }

  lemma EventOfStands(db: Tables, db': Tables, b: Text, p: Payload, ok: bool)
    requires VerificationStands(b, db, db', p, ok)
    ensures var k := VerifyKey(b, ContentDigest(TextOf(p)), !ok); var eid := EvidenceEventId(k);
      eid in db'.events && db'.events == db.events[eid := db'.events[eid]] && db'.events[eid].key == Some(k)
  {
  }

  lemma RowOfStands(db: Tables, db': Tables, b: Text, p: Payload, ok: bool)
    requires VerificationStands(b, db, db', p, ok)
    ensures b in db'.records && db'.records[b].body.Obj?
    ensures OneRowRewritten(db.records, db'.records, b, db'.records[b].body.p)
  {
  }

  lemma SameRowSame(db: Tables, db': Tables, a: Text)
    requires (a in db'.records <==> a in db.records) && (a in db.records ==> db'.records[a] == db.records[a])
    requires IntactRow(db.records, a) ==>
      var digest := ContentDigest(TextOf(db.records[a].body.p));
      Recordable(db'.events, a, digest, true) <==> Recordable(db.events, a, digest, true)
    ensures Verifiable(db', a) <==> Verifiable(db, a)
  {
  }

  lemma OtherRowStays(rs: map<Text, Row>, rs': map<Text, Row>, a: Text, b: Text, q: Payload)
    requires a != b && OneRowRewritten(rs, rs', b, q)
    ensures (a in rs' <==> a in rs) && (a in rs ==> rs'[a] == rs[a])
  {
  }

  lemma RecordableStays(es: map<Text, EventRow>, es': map<Text, EventRow>, a: Text, digest: Text, b: Text, other: Text, ok: bool)
    requires a != b && Recordable(es, b, other, ok)
    requires var k := VerifyKey(b, other, !ok); var eid := EvidenceEventId(k);
      eid in es' && es' == es[eid := es'[eid]] && es'[eid].key == Some(k)
    ensures Recordable(es', a, digest, true) <==> Recordable(es, a, digest, true)
  {
    var k, j := VerifyKey(b, other, !ok), VerifyKey(a, digest, false);
    assert k != j && (EvidenceEventId(k) in es ==> es[EvidenceEventId(k)].key != Some(j));
    FreeStays(es, es', EvidenceEventId(k), j);
  }

  predicate Free(es: map<Text, EventRow>, k: Text) {
    forall e :: e in es ==> es[e].key != Some(k)
  }

  lemma FreeStays(es: map<Text, EventRow>, es': map<Text, EventRow>, eid: Text, j: Text)
    requires eid in es' && es' == es[eid := es'[eid]] && es'[eid].key != Some(j)
    requires eid in es ==> es[eid].key != Some(j)
    ensures Free(es', j) <==> Free(es, j)
    ensures forall e :: e != eid ==> (e in es' <==> e in es) && (e in es ==> es'[e] == es[e])
  {
    if Free(es', j) {
      forall e | e in es ensures es[e].key != Some(j) { assert e in es'; }
    }
  }

  // ---- rows of the mission -----------------------------------------------------------------------------

  /** A tool row of the mission, by its column or by what its payload claims. */
  predicate ToolOf(rs: map<Text, Row>, mission: Text, id: Text) {
    id in rs && rs[id].rtype == Lit(ToolRecord)
    && (rs[id].mission == Str(mission) || (rs[id].body.Obj? && Get(rs[id].body.p, MissionId) == Str(mission)))
  }

  /** An evidence row that the mission's list has; no mission lists them all. */
  predicate EvidenceOf(rs: map<Text, Row>, mission: Text, id: Text) {
    id in rs && rs[id].rtype == Lit(EvidenceRecord) && (mission == EMPTY || rs[id].mission == Str(mission))
  }

  ghost predicate Unlistable(rs: map<Text, Row>, mission: Text) {
    exists id :: EvidenceOf(rs, mission, id) && !rs[id].body.Obj?
  }

  /** This evidence names the invocation. */
  predicate NamesInvocation(p: Payload, iid: Text) {
    Truthy(Get(p, ToolInvocationId)) && Show(Get(p, ToolInvocationId)) == iid
  }

  /** Some listed evidence names the invocation and, where a receipt is given, is that receipt. */
  ghost predicate ReceiptListed(rs: map<Text, Row>, mission: Text, iid: Text, receipt: Value) {
    exists id :: EvidenceOf(rs, mission, id) && rs[id].body.Obj? && IsReceipt(rs[id].body.p, iid, receipt)
  }

  predicate IsReceipt(p: Payload, iid: Text, receipt: Value) {
    NamesInvocation(p, iid) && (Truthy(receipt) ==> Show(Get(p, EvidenceId)) == Show(receipt))
  }

  /** The invocation's receipt is listed and verifies. */
  ghost predicate WellReceipted(db: Tables, mission: Text, p: Payload) {
    ReceiptListed(db.records, mission, Show(Get(p, InvocationId)), Get(p, ReceiptEvidenceId))
    && Truthy(Get(p, ReceiptEvidenceId)) && Verifiable(db, Show(Get(p, ReceiptEvidenceId)))
  }

  predicate Unexplained(p: Payload) {
    Status in p && Show(p[Status]) == Lit(FailedInvocation) && !Truthy(Get(p, FailureCode))
  }

  // ---- the answers -------------------------------------------------------------------------------------

  /** A link as the invocation's payload and the rows have it. */
  ghost predicate LinkSays(db: Tables, mission: Text, p: Payload, l: Link) {
    var receipt := Get(p, ReceiptEvidenceId);
    l.invocation == Show(Get(p, InvocationId)) && l.tool == Get(p, ToolName) && l.failure == Get(p, FailureCode)
    && l.status == (if Status in p then Show(p[Status]) else Lit(CompletedInvocation))
    && l.reason == Get(p, ReasonCode) && l.receipt == receipt
    && (l.hasReceipt <==> ReceiptListed(db.records, mission, l.invocation, receipt))
    && (l.verifiable <==> Truthy(receipt) && Verifiable(db, Show(receipt)))
  }

  /** The tool rows that can be read, each once, are those of the chain. */
  ghost predicate ChainOf(db: Tables, mission: Text, rows: seq<Text>, chain: seq<Link>) {
    AllApart(rows) && |rows| == |chain| && (forall id :: id in rows <==> ToolOf(db.records, mission, id) && IntactRow(db.records, id))
    && forall i :: 0 <= i < |rows| ==> LinkIs(db, mission, rows[i], chain[i])
  }

  ghost predicate LinkIs(db: Tables, mission: Text, id: Text, l: Link) {
    id in db.records && db.records[id].body.Obj? && LinkSays(db, mission, db.records[id].body.p, l)
  }

  function Gaps(chain: seq<Link>): set<nat> { set i: nat | i < |chain| && !chain[i].hasReceipt }

  function Failing(chain: seq<Link>): set<nat> { set i: nat | i < |chain| && chain[i].hasReceipt && !chain[i].verifiable }

  function Unaccounted(chain: seq<Link>): set<nat> {
    set i: nat | i < |chain| && chain[i].status == Lit(FailedInvocation) && !Truthy(chain[i].failure)
  }

  /** The report, on the tables as the audit finds them. */
  ghost predicate ChainAnswers(db: Tables, mission: Text, report: Option<Report>) {
    (report.None? <==> Unlistable(db.records, mission))
    && (report.Some? ==> ReportSays(db, mission, report.value))
  }

  ghost predicate ReportSays(db: Tables, mission: Text, report: Report) {
    AllApart(report.corrupt)
    && (forall id :: id in report.corrupt <==> ToolOf(db.records, mission, id) && !IntactRow(db.records, id))
    && (exists rows :: ChainOf(db, mission, rows, report.chain))
    && report.total == |report.chain| + |report.corrupt|
    && report.gaps == |Gaps(report.chain)| && report.unverifiable == |Failing(report.chain)|
    && report.violations == |Unaccounted(report.chain)|
    && (report.intact <==> Gaps(report.chain) == {} && Failing(report.chain) == {} && Unaccounted(report.chain) == {}
                           && report.corrupt == [])
  }

  /** Every tool row of the mission can be read, has its receipt, and no failure lacks its code. */
  ghost predicate EveryToolReceipted(db: Tables, mission: Text) {
    forall id :: ToolOf(db.records, mission, id) ==> Receipted(db, mission, id)
  }

  ghost predicate Receipted(db: Tables, mission: Text, id: Text) {
    IntactRow(db.records, id) && WellReceipted(db, mission, db.records[id].body.p) && !Unexplained(db.records[id].body.p)
  }

  ghost predicate SomeToolAmong(db: Tables, mission: Text, tools: seq<Value>) {
    exists id :: ToolOf(db.records, mission, id) && IntactRow(db.records, id) && Get(db.records[id].body.p, ToolName) in tools
  }

  ghost predicate SomeToolInvalid(db: Tables, mission: Text) {
    exists id :: ToolOf(db.records, mission, id) && (IntactRow(db.records, id) ==> Unexplained(db.records[id].body.p))
  }

  /** The status: present exactly when every tool row has its receipt and a tool asked about ran;
      invalid exactly when a row cannot be read or a failure is unexplained; missing otherwise. */
  ghost predicate StatusAnswers(db: Tables, mission: Text, tools: seq<Value>, presence: Option<Presence>) {
    (presence.None? <==> Unlistable(db.records, mission))
    && (presence.Some? ==>
          (presence.value == Attested <==> EveryToolReceipted(db, mission) && SomeToolAmong(db, mission, tools))
          && (presence.value == InvalidChain <==> SomeToolInvalid(db, mission)))
  }

  // ---- the proof: the lists -------------------------------------------------------------------------------

  lemma {:induction false} ListHolds(rs: map<Text, Row>, mission: Text, order: seq<Text>)
    ensures var list := ListOf(rs, Lit(EvidenceRecord), mission, order);
      (list.None? <==> exists id :: id in order && EvidenceOf(rs, mission, id) && !rs[id].body.Obj?)
      && (list.Some? ==> forall p :: p in list.value <==> exists id :: id in order && EvidenceOf(rs, mission, id) && rs[id].body == Obj(p))
  {
    if order != [] {
      var most, last := order[..|order| - 1], order[|order| - 1];
      ListHolds(rs, mission, most);
      assert order == most + [last];
    }
  }

  lemma ListedReceipt(rs: map<Text, Row>, mission: Text, list: seq<Payload>, iid: Text, receipt: Value)
    requires forall p :: p in list ==> exists id :: EvidenceOf(rs, mission, id) && rs[id].body == Obj(p)
    requires HasReceipt(list, iid, receipt)
    ensures ReceiptListed(rs, mission, iid, receipt)
  {
    var i :| 0 <= i < |list| && Linked(list[i], iid) && (Truthy(receipt) ==> Show(Get(list[i], EvidenceId)) == Show(receipt));
    assert list[i] in list && IsReceipt(list[i], iid, receipt);
    var id :| EvidenceOf(rs, mission, id) && rs[id].body == Obj(list[i]);
  }

  lemma ReceiptInList(rs: map<Text, Row>, mission: Text, list: seq<Payload>, iid: Text, receipt: Value)
    requires forall id :: EvidenceOf(rs, mission, id) && rs[id].body.Obj? ==> rs[id].body.p in list
    requires ReceiptListed(rs, mission, iid, receipt)
    ensures HasReceipt(list, iid, receipt)
  {
    var id :| EvidenceOf(rs, mission, id) && rs[id].body.Obj? && IsReceipt(rs[id].body.p, iid, receipt);
    var i :| 0 <= i < |list| && list[i] == rs[id].body.p;
    assert Linked(list[i], iid);
  }

  lemma ReceiptIsListed(rs: map<Text, Row>, mission: Text, order: seq<Text>, iid: Text, receipt: Value)
    requires Enumerates(order, rs) && ListOf(rs, Lit(EvidenceRecord), mission, order).Some?
    ensures HasReceipt(ListOf(rs, Lit(EvidenceRecord), mission, order).value, iid, receipt) <==> ReceiptListed(rs, mission, iid, receipt)
  {
    var list := ListOf(rs, Lit(EvidenceRecord), mission, order).value;
    ListHolds(rs, mission, order);
    if HasReceipt(list, iid, receipt) { ListedReceipt(rs, mission, list, iid, receipt); }
    if ReceiptListed(rs, mission, iid, receipt) { ReceiptInList(rs, mission, list, iid, receipt); }
  }

  // ---- the proof: the chain -------------------------------------------------------------------------------

  lemma {:induction false} LinksKeepVerifiable(db: Tables, invs: seq<Payload>, stamp: Text, a: Text)
    ensures Verifiable(AfterLinks(db, invs, stamp), a) <==> Verifiable(db, a)
  {
    if invs != [] {
      var before, last := AfterLinks(db, invs[..|invs| - 1], stamp), invs[|invs| - 1];
      LinksKeepVerifiable(db, invs[..|invs| - 1], stamp, a);
      VerifiableStays(before, a, Show(Get(last, ReceiptEvidenceId)), stamp);
    }
  }

  lemma LinkMeans(db: Tables, mid: Tables, mission: Text, evidence: seq<Payload>, p: Payload, stamp: Text)
    requires forall a :: Verifiable(mid, a) <==> Verifiable(db, a)
    requires forall iid, receipt :: HasReceipt(evidence, iid, receipt) <==> ReceiptListed(db.records, mission, iid, receipt)
    ensures LinkSays(db, mission, p, LinkOf(mid, p, evidence, stamp))
  {
    VerifiesExactlyWhen(mid, Show(Get(p, ReceiptEvidenceId)), stamp);
  }

  lemma {:induction false} ChainMeans(db: Tables, mission: Text, evidence: seq<Payload>, invs: seq<Payload>, stamp: Text)
    requires forall iid, receipt :: HasReceipt(evidence, iid, receipt) <==> ReceiptListed(db.records, mission, iid, receipt)
    ensures |Chain(db, invs, evidence, stamp)| == |invs|
    ensures forall i :: 0 <= i < |invs| ==> LinkSays(db, mission, invs[i], Chain(db, invs, evidence, stamp)[i])
  {
    if invs != [] {
      var most, last := invs[..|invs| - 1], invs[|invs| - 1];
      var mid := AfterLinks(db, most, stamp);
      ChainMeans(db, mission, evidence, most, stamp);
      forall a ensures Verifiable(mid, a) <==> Verifiable(db, a) { LinksKeepVerifiable(db, most, stamp, a); }
      LinkMeans(db, mid, mission, evidence, last, stamp);
    }
  }

  lemma AuditedRows(rs: map<Text, Row>, mission: Text, order: seq<Text>)
    requires Enumerates(order, rs)
    ensures var audit := ToolAudit(rs, mission, order);
      AllApart(audit.valid) && AllApart(audit.corrupt)
      && (forall id :: id in audit.valid <==> ToolOf(rs, mission, id) && IntactRow(rs, id))
      && (forall id :: id in audit.corrupt <==> ToolOf(rs, mission, id) && !IntactRow(rs, id))
  {
    EveryRowCountedOnce(rs, Lit(ToolRecord), Some(mission), order);
    forall id ensures EnvelopeOf(rs, id).Some? <==> IntactRow(rs, id) { IntactIsRead(rs, id); }
  }

  lemma {:induction false} CountIsSize(p: Link -> bool, chain: seq<Link>, those: set<nat>)
    requires those == set i: nat | i < |chain| && p(chain[i])
    ensures Count(p, chain) == |those|
  {
    if chain != [] {
      var n := |chain| - 1;
      var fewer := set i: nat | i < n && p(chain[..n][i]);
      CountIsSize(p, chain[..n], fewer);
      assert those == if p(chain[n]) then fewer + {n} else fewer;
    }
  }

  lemma CountsAre(chain: seq<Link>)
    ensures Count(Gap, chain) == |Gaps(chain)| && Count(Unverifiable, chain) == |Failing(chain)|
    ensures Count(Violation, chain) == |Unaccounted(chain)|
  {
    CountIsSize(Gap, chain, Gaps(chain));
    CountIsSize(Unverifiable, chain, Failing(chain));
    CountIsSize(Violation, chain, Unaccounted(chain));
  }

  /** What the audit reports, on any tables and in any order of the query. */
  lemma AuditMeans(db: Tables, mission: Text, order: seq<Text>, stamp: Text)
    requires Enumerates(order, db.records)
    ensures ChainAnswers(db, mission, AuditReport(db, mission, order, stamp))
  {
    var evidence := ListOf(db.records, Lit(EvidenceRecord), mission, order);
    ListHolds(db.records, mission, order);
    if evidence.Some? {
      forall iid, receipt
        ensures HasReceipt(evidence.value, iid, receipt) <==> ReceiptListed(db.records, mission, iid, receipt)
      {
        ReceiptIsListed(db.records, mission, order, iid, receipt);
      }
      ReportMeans(db, mission, order, evidence.value, stamp);
    }
  }

  lemma ReportMeans(db: Tables, mission: Text, order: seq<Text>, evidence: seq<Payload>, stamp: Text)
    requires Enumerates(order, db.records)
    requires forall iid, receipt :: HasReceipt(evidence, iid, receipt) <==> ReceiptListed(db.records, mission, iid, receipt)
    ensures ReportSays(db, mission, ReportOf(Chain(db, Invocations(db.records, mission, order), evidence, stamp),
                                             ToolAudit(db.records, mission, order).corrupt))
  {
    var rows, invs := ToolAudit(db.records, mission, order).valid, Invocations(db.records, mission, order);
    var chain := Chain(db, invs, evidence, stamp);
    AuditedRows(db.records, mission, order);
    ChainMeans(db, mission, evidence, invs, stamp);
    RowsMakeChain(db, mission, rows, invs, chain);
    CountsAre(chain);
  }

  lemma RowsMakeChain(db: Tables, mission: Text, rows: seq<Text>, invs: seq<Payload>, chain: seq<Link>)
    requires AllApart(rows) && (forall id :: id in rows <==> ToolOf(db.records, mission, id) && IntactRow(db.records, id))
    requires invs == Payloads(db.records, rows) && |chain| == |invs|
    requires forall i :: 0 <= i < |invs| ==> LinkSays(db, mission, invs[i], chain[i])
    ensures ChainOf(db, mission, rows, chain)
  {
    forall i | 0 <= i < |rows| ensures LinkIs(db, mission, rows[i], chain[i]) {
      assert rows[i] in rows && IntactRow(db.records, rows[i]) && LinkSays(db, mission, invs[i], chain[i]);
    }
  }

  // ---- the proof: the status -------------------------------------------------------------------------------

  /** A link of the chain is sound, and no violation, exactly if its row is receipted. */
  lemma LinkIsReceipted(db: Tables, mission: Text, id: Text, l: Link)
    requires LinkIs(db, mission, id, l) && IntactRow(db.records, id)
    ensures Sound(l) && !Violation(l) <==> Receipted(db, mission, id)
    ensures Violation(l) <==> Unexplained(db.records[id].body.p)
  {
  }

  lemma RowHasLink(db: Tables, mission: Text, rows: seq<Text>, chain: seq<Link>, id: Text) returns (i: nat)
    requires ChainOf(db, mission, rows, chain) && ToolOf(db.records, mission, id) && IntactRow(db.records, id)
    ensures i < |rows| && rows[i] == id && LinkIs(db, mission, id, chain[i])
  {
    assert id in rows;
    i :| 0 <= i < |rows| && rows[i] == id;
  }

  lemma LinkHasRow(db: Tables, mission: Text, rows: seq<Text>, chain: seq<Link>, i: nat)
    requires ChainOf(db, mission, rows, chain) && i < |chain|
    ensures ToolOf(db.records, mission, rows[i]) && IntactRow(db.records, rows[i]) && LinkIs(db, mission, rows[i], chain[i])
  {
    assert rows[i] in rows;
  }

  lemma AllSoundExactlyWhen(db: Tables, mission: Text, rows: seq<Text>, chain: seq<Link>, corrupt: seq<Text>)
    requires ChainOf(db, mission, rows, chain)
    requires forall id :: id in corrupt <==> ToolOf(db.records, mission, id) && !IntactRow(db.records, id)
    ensures (corrupt == [] && forall i :: 0 <= i < |chain| ==> Sound(chain[i]) && !Violation(chain[i])) <==> EveryToolReceipted(db, mission)
  {
    if corrupt != [] { assert corrupt[0] in corrupt && !Receipted(db, mission, corrupt[0]); }
    if corrupt == [] && forall i :: 0 <= i < |chain| ==> Sound(chain[i]) && !Violation(chain[i]) {
      forall id | ToolOf(db.records, mission, id) ensures Receipted(db, mission, id) {
        assert id !in corrupt;
        var i := RowHasLink(db, mission, rows, chain, id);
        LinkIsReceipted(db, mission, id, chain[i]);
      }
    }
    if EveryToolReceipted(db, mission) {
      forall i | 0 <= i < |chain| ensures Sound(chain[i]) && !Violation(chain[i]) {
        LinkHasRow(db, mission, rows, chain, i);
        LinkIsReceipted(db, mission, rows[i], chain[i]);
      }
    }
  }

  lemma SomeRelevantExactlyWhen(db: Tables, mission: Text, rows: seq<Text>, chain: seq<Link>, tools: seq<Value>)
    requires ChainOf(db, mission, rows, chain)
    ensures (exists i :: 0 <= i < |chain| && Relevant(chain[i], tools)) <==> SomeToolAmong(db, mission, tools)
  {
    if i :| 0 <= i < |chain| && Relevant(chain[i], tools) {
      LinkHasRow(db, mission, rows, chain, i);
    }
    if id :| ToolOf(db.records, mission, id) && IntactRow(db.records, id) && Get(db.records[id].body.p, ToolName) in tools {
      var i := RowHasLink(db, mission, rows, chain, id);
      assert Relevant(chain[i], tools);
    }
  }

  lemma SomeInvalidExactlyWhen(db: Tables, mission: Text, rows: seq<Text>, chain: seq<Link>, corrupt: seq<Text>)
    requires ChainOf(db, mission, rows, chain)
    requires forall id :: id in corrupt <==> ToolOf(db.records, mission, id) && !IntactRow(db.records, id)
    ensures (corrupt != [] || exists i :: 0 <= i < |chain| && Violation(chain[i])) <==> SomeToolInvalid(db, mission)
  {
    if corrupt != [] {
      assert corrupt[0] in corrupt;
    } else if i :| 0 <= i < |chain| && Violation(chain[i]) {
      LinkHasRow(db, mission, rows, chain, i);
      LinkIsReceipted(db, mission, rows[i], chain[i]);
    } else {
      forall id | ToolOf(db.records, mission, id) ensures IntactRow(db.records, id) && !Unexplained(db.records[id].body.p) {
        assert id !in corrupt;
        var i := RowHasLink(db, mission, rows, chain, id);
        LinkIsReceipted(db, mission, id, chain[i]);
      }
    }
  }

  /** What the status comes to, on any tables and in any order of the query. */
  lemma StatusMeans(db: Tables, mission: Text, order: seq<Text>, stamp: Text, tools: seq<Value>)
    requires Enumerates(order, db.records)
    ensures var report := AuditReport(db, mission, order, stamp);
      StatusAnswers(db, mission, tools, if report.None? then None else Some(StatusOfReport(report.value, tools)))
  {
    var report := AuditReport(db, mission, order, stamp);
    AuditMeans(db, mission, order, stamp);
    if report.Some? {
      var chain, corrupt := report.value.chain, report.value.corrupt;
      var rows :| ChainOf(db, mission, rows, chain);
      PresentMeansIntact(chain, corrupt, tools);
      IntactMeansEveryLink(chain, corrupt);
      AllSoundExactlyWhen(db, mission, rows, chain, corrupt);
      SomeRelevantExactlyWhen(db, mission, rows, chain, tools);
      SomeInvalidExactlyWhen(db, mission, rows, chain, corrupt);
    }
  }

  // ---- a run: evidence added for an invocation --------------------------------------------------------------

  /** A tool record that names this invocation and this evidence as its receipt. */
  predicate NamesReceipt(tool: Item, mission: Text, iid: Text, receipt: Text, tools: seq<Value>) {
    tool.rtype == Lit(ToolRecord) && tool.mission == Str(mission) && Get(tool.payload, InvocationId) == Str(iid)
    && Get(tool.payload, ReceiptEvidenceId) == Str(receipt) && Get(tool.payload, ToolName) in tools && !Unexplained(tool.payload)
  }

  /** The record that an add leaves is verifiable where the event of its verification is not taken. */
  lemma AddedIsVerifiable(db: Tables, args: AddArgs, db': Tables, q: Payload, key: Text)
    requires RecordSays(args, IdOf(args), EvidenceEventId(key), q)
    requires OneRowAdded(db.records, db'.records, IdOf(args), Lit(EvidenceRecord), Str(args.mission), args.created, q)
    requires Recordable(db'.events, IdOf(args), ContentDigest(args.content), true)
    ensures Verifiable(db', IdOf(args))
  {
    assert Content in q && TextOf(q) == args.content;
  }

  /** Where the mission has no tool record yet and its evidence can be listed, adding evidence for an
      invocation and then the tool record that names both makes the status present. */
  lemma AddedReceiptIsPresent(
    db: Tables, args: AddArgs, iid: Text, tool: Item, tools: seq<Value>, order: seq<Text>, stamp: Text, added: Tables, db': Tables)
    requires SaveWithEvent(db, AddItem(args), AddEvent(args)).1.Claimed? && added == SaveWithEvent(db, AddItem(args), AddEvent(args)).0
    requires args.tool == Str(iid) && iid != EMPTY && IdOf(args) != EMPTY
    requires NamesReceipt(tool, args.mission, iid, IdOf(args), tools)
    requires tool.id !in added.records && db' == SaveRecord(added, tool) && Enumerates(order, db'.records)
    requires (forall id :: !ToolOf(db.records, args.mission, id)) && !Unlistable(db.records, args.mission)
    requires Recordable(added.events, IdOf(args), ContentDigest(args.content), true)
    ensures AuditReport(db', args.mission, order, stamp).Some?
    ensures StatusOfReport(AuditReport(db', args.mission, order, stamp).value, tools) == Attested
  {
    StatusMeans(db', args.mission, order, stamp, tools);
    ClaimMeans(db, args);
    var key, q :| RecordSays(args, IdOf(args), EvidenceEventId(key), q)
      && OneRowAdded(db.records, added.records, IdOf(args), Lit(EvidenceRecord), Str(args.mission), args.created, q);
    AddedIsVerifiable(db, args, added, q, key);
    SaveRecordStands(added, tool);
    SameRowSame(added, db', IdOf(args));
    ToolIsReceipted(db, added, db', args.mission, iid, IdOf(args), tool, tools, q);
  }

  lemma ToolIsReceipted(
    db: Tables, added: Tables, db': Tables, mission: Text, iid: Text, id: Text, tool: Item, tools: seq<Value>, q: Payload)
    requires id in added.records
    requires OneRowAdded(db.records, added.records, id, Lit(EvidenceRecord), Str(mission), added.records[id].created, q)
    requires Get(q, ToolInvocationId) == Str(iid) && iid != EMPTY && Get(q, EvidenceId) == Str(id) && id != EMPTY
    requires NamesReceipt(tool, mission, iid, id, tools) && tool.id !in added.records && db' == SaveRecord(added, tool)
    requires (forall id :: !ToolOf(db.records, mission, id)) && !Unlistable(db.records, mission) && Verifiable(db', id)
    ensures EveryToolReceipted(db', mission) && SomeToolAmong(db', mission, tools) && !Unlistable(db'.records, mission)
  {
    assert forall x :: x in db'.records && x != tool.id && x != id ==> x in db.records && db'.records[x] == db.records[x];
    assert EvidenceOf(db'.records, mission, id) && IsReceipt(db'.records[id].body.p, iid, Str(id));
    assert ToolOf(db'.records, mission, tool.id) && IntactRow(db'.records, tool.id);
    assert Receipted(db', mission, tool.id);
    forall x | ToolOf(db'.records, mission, x) ensures x == tool.id {
      assert !ToolOf(db.records, mission, x);
    }
    forall x | EvidenceOf(db'.records, mission, x) ensures db'.records[x].body.Obj? {
      if x != id && x != tool.id { assert EvidenceOf(db.records, mission, x); }
    }
  }

  /** So the first evidence of a store and the tool record that names it make the status present. */
  lemma FirstReceiptIsPresent(
    none: Tables, args: AddArgs, iid: Text, tool: Item, tools: seq<Value>, order: seq<Text>, stamp: Text, added: Tables, db': Tables)
    requires none == Tables(map[], map[]) && added == SaveWithEvent(none, AddItem(args), AddEvent(args)).0
    requires args.tool == Str(iid) && iid != EMPTY && args.key == Null && args.newId != EMPTY
    requires NamesReceipt(tool, args.mission, iid, args.newId, tools) && tool.id != args.newId
    requires db' == SaveRecord(added, tool) && Enumerates(order, db'.records)
    ensures NextAdd(none, args, Creating) == Done(Added(args.newId, Artifact(args)))
    ensures AuditReport(db', args.mission, order, stamp).Some?
    ensures StatusOfReport(AuditReport(db', args.mission, order, stamp).value, tools) == Attested
  {
    FirstAdd(none, args, added);
    FirstAnswer(none, args);
    AddedReceiptIsPresent(none, args, iid, tool, tools, order, stamp, added, db');
  }

  lemma FirstAdd(none: Tables, args: AddArgs, added: Tables)
    requires none == Tables(map[], map[]) && added == SaveWithEvent(none, AddItem(args), AddEvent(args)).0 && args.key == Null
    ensures SaveWithEvent(none, AddItem(args), AddEvent(args)).1.Claimed? && IdOf(args) == args.newId
    ensures added.records.Keys == {args.newId} && Recordable(added.events, args.newId, ContentDigest(args.content), true)
  {
    FirstClaimed(none, AddItem(args), AddEvent(args), added);
    OneEventIsOther(args, added.events);
  }

  lemma FirstClaimed(none: Tables, it: Item, ev: Event, added: Tables)
    requires none == Tables(map[], map[]) && added == SaveWithEvent(none, it, ev).0
    ensures SaveWithEvent(none, it, ev).1.Claimed?
    ensures added.records.Keys == {it.id} && added.events == map[ev.id := ev.row]
  {
    ClaimStands(none, it, ev);
  }

  lemma FirstAnswer(none: Tables, args: AddArgs)
    requires SaveWithEvent(none, AddItem(args), AddEvent(args)).1.Claimed? && args.key == Null
    ensures NextAdd(none, args, Creating) == Done(Added(args.newId, Artifact(args)))
  {
  }

  lemma OneEventIsOther(args: AddArgs, es: map<Text, EventRow>)
    requires args.key == Null && forall e :: e in es ==> e == AddEvent(args).id && es[e] == AddEvent(args).row
    ensures Recordable(es, args.newId, ContentDigest(args.content), true)
  {
  }
}
