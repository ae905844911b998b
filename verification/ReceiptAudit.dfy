/** The receipt audit on the live store: the loops of `audit_record_envelopes`,
    `verify_receipt_chain` and `receipt_status`. */
module ReceiptAudit {
  import opened Ledger
  import opened EvidenceEngine
  import opened Receipts
  import A = ReceiptAnswers

  class ReceiptAuditor {
    const evidence: EvidenceStore

    ghost predicate Valid()
      reads this, evidence, evidence.bus, evidence.store
    {
      evidence.Valid()
    }

    constructor (evidence: EvidenceStore)
      requires evidence.Valid()
      ensures Valid() && this.evidence == evidence
    {
      this.evidence := evidence;
    }

    /** Sorts the rows in scope into valid and corrupt; `order` is the order of the query. */
    method AuditRecordEnvelopes(rtype: Text, mission: Option<Text>, order: seq<Text>) returns (audit: Audit)
      ensures audit == AuditOf(evidence.store.records, rtype, mission, order)
    {
      var valid, corrupt: seq<Text> := [], [];
      var i := 0;
      while i < |order|
        invariant 0 <= i <= |order|
        invariant Audit(valid, corrupt) == AuditOf(evidence.store.records, rtype, mission, order[..i])
      {
        var id := order[i];
        assert order[..i + 1][..i] == order[..i] && order[..i + 1][i] == id;
        i := i + 1;
        if id !in evidence.store.records || !InScope(evidence.store.records[id], rtype, mission) {
          continue;
        }
        var env := evidence.store.GetRecordEnvelope(id);
        if env.None? {
          corrupt := corrupt + [id];
        } else {
          valid := valid + [id];
        }
      }
      assert order[..i] == order;
      return Audit(valid, corrupt);
    }

    method ListRecords(rtype: Text, mission: Text, order: seq<Text>) returns (list: Option<seq<Payload>>)
      ensures list == ListOf(evidence.store.records, rtype, mission, order)
    {
      var rows := evidence.store.records;
      list := Some([]);
      var i := 0;
      while i < |order|
        invariant 0 <= i <= |order|
        invariant list == ListOf(rows, rtype, mission, order[..i])
      {
        var id := order[i];
        assert order[..i + 1][..i] == order[..i] && order[..i + 1][i] == id;
        i := i + 1;
        if id !in rows || !Listed(rows[id], rtype, mission) {
          continue;
        }
        if list.None? || !rows[id].body.Obj? {
          list := None;
        } else {
          list := Some(list.value + [rows[id].body.p]);
        }
      }
      assert order[..i] == order;
    }

    /** One link: its receipt is verified now, whatever the verification raises. */
    method CheckLink(inv: Payload, receipts: seq<Payload>, stamp: Text) returns (link: Link)
      requires Valid()
      modifies evidence.store, evidence.bus
      ensures Valid() && evidence.store.Now() == AfterLink(old(evidence.store.Now()), inv, stamp)
      ensures link == LinkOf(old(evidence.store.Now()), inv, receipts, stamp)
    {
      var iid, receipt := Show(Get(inv, InvocationId)), Get(inv, ReceiptEvidenceId);
      var verifiable := false;
      if Truthy(receipt) {
        var outcome := evidence.Verify(Show(receipt), stamp);
        verifiable := Succeeded(outcome);
      }
      return Link(iid, Get(inv, ToolName), StatusOf(inv), Get(inv, FailureCode), Get(inv, ReasonCode), receipt,
                  HasReceipt(receipts, iid, receipt), verifiable);
    }

    method VerifyReceiptChain(mission: Text, order: seq<Text>, stamp: Text) returns (report: Option<Report>)
      requires Valid()
      modifies evidence.store, evidence.bus
      ensures Valid() && evidence.store.Now() == AuditTables(old(evidence.store.Now()), mission, order, stamp)
      ensures report == AuditReport(old(evidence.store.Now()), mission, order, stamp)
      ensures Enumerates(order, old(evidence.store.records)) ==> A.ChainAnswers(old(evidence.store.Now()), mission, report)
    {
      report := BuildReport(mission, order, stamp);
      if Enumerates(order, old(evidence.store.records)) { A.AuditMeans(old(evidence.store.Now()), mission, order, stamp); }
    }

    method BuildReport(mission: Text, order: seq<Text>, stamp: Text) returns (report: Option<Report>)
      requires Valid()
      modifies evidence.store, evidence.bus
      ensures Valid() && evidence.store.Now() == AuditTables(old(evidence.store.Now()), mission, order, stamp)
      ensures report == AuditReport(old(evidence.store.Now()), mission, order, stamp)
    {
      ghost var db := evidence.store.Now();
      var tools := AuditRecordEnvelopes(Lit(ToolRecord), Some(mission), order);
      var invs := Payloads(evidence.store.records, tools.valid);
      var receipts := ListRecords(Lit(EvidenceRecord), mission, order);
      if receipts.None? {
        return None;
      }
      var chain, gaps, unverifiable, violations := WalkChain(invs, receipts.value, stamp);
      return Some(Report(chain, |chain| + |tools.corrupt|, gaps, unverifiable, tools.corrupt, violations,
                         gaps == 0 && unverifiable == 0 && violations == 0 && tools.corrupt == []));
    }

    /** The loop over the invocations, with its three counters. */
    method WalkChain(invs: seq<Payload>, receipts: seq<Payload>, stamp: Text)
      returns (chain: seq<Link>, gaps: nat, unverifiable: nat, violations: nat)
      requires Valid()
      modifies evidence.store, evidence.bus
      ensures Valid() && evidence.store.Now() == AfterLinks(old(evidence.store.Now()), invs, stamp)
      ensures chain == Chain(old(evidence.store.Now()), invs, receipts, stamp)
      ensures gaps == Count(Gap, chain) && unverifiable == Count(Unverifiable, chain)
      ensures violations == Count(Violation, chain)
    {
      ghost var db := evidence.store.Now();
      chain, gaps, unverifiable, violations := [], 0, 0, 0;
      var i := 0;
      while i < |invs|
        invariant 0 <= i <= |invs| && Valid()
        invariant evidence.store.Now() == AfterLinks(db, invs[..i], stamp)
        invariant chain == Chain(db, invs[..i], receipts, stamp)
        invariant gaps == Count(Gap, chain) && unverifiable == Count(Unverifiable, chain)
        invariant violations == Count(Violation, chain)
      {
        ChainOneMore(db, invs, i, receipts, stamp);
        var link := CheckLink(invs[i], receipts, stamp);
        if link.status == Lit(FailedInvocation) && !Truthy(link.failure) {
          violations := violations + 1;
        }
        if !link.hasReceipt {
          gaps := gaps + 1;
        } else if !link.verifiable {
          unverifiable := unverifiable + 1;
        }
        TallyOneMore(chain, link);
        chain := chain + [link];
        i := i + 1;
      }
      assert invs[..i] == invs;
    }

    /** `receipt_status`; None when the chain itself could not be listed. */
    method ReceiptStatus(mission: Text, tools: seq<Value>, order: seq<Text>, stamp: Text)
      returns (presence: Option<Presence>)
      requires Valid()
      modifies evidence.store, evidence.bus
      ensures Valid() && evidence.store.Now() == AuditTables(old(evidence.store.Now()), mission, order, stamp)
      ensures var report := AuditReport(old(evidence.store.Now()), mission, order, stamp);
        presence == if report.None? then None else Some(StatusOfReport(report.value, tools))
      ensures Enumerates(order, old(evidence.store.records)) ==> A.StatusAnswers(old(evidence.store.Now()), mission, tools, presence)
    {
      presence := JudgeReceipts(mission, tools, order, stamp);
      if Enumerates(order, old(evidence.store.records)) { A.StatusMeans(old(evidence.store.Now()), mission, order, stamp, tools); }
    }

    method JudgeReceipts(mission: Text, tools: seq<Value>, order: seq<Text>, stamp: Text)
      returns (presence: Option<Presence>)
      requires Valid()
      modifies evidence.store, evidence.bus
      ensures Valid() && evidence.store.Now() == AuditTables(old(evidence.store.Now()), mission, order, stamp)
      ensures var report := AuditReport(old(evidence.store.Now()), mission, order, stamp);
        presence == if report.None? then None else Some(StatusOfReport(report.value, tools))
    {
      var chain := VerifyReceiptChain(mission, order, stamp);
      if chain.None? {
        return None;
      }
      var report := chain.value;
      var relevant := RelevantLinks(report.chain, tools);
      var gaps := 0;
      var i := 0;
      while i < |relevant|
        invariant 0 <= i <= |relevant| && gaps == Count(Gap, relevant[..i])
      {
        assert relevant[..i + 1][..i] == relevant[..i] && relevant[..i + 1][i] == relevant[i];
        if !relevant[i].hasReceipt {
          gaps := gaps + 1;
        }
        i := i + 1;
      }
      assert relevant[..i] == relevant;
      if |report.corrupt| > 0 || report.violations > 0 {
        return Some(InvalidChain);
      }
      if relevant == [] || !report.intact || gaps > 0 {
        return Some(Missing);
      }
      if forall i :: 0 <= i < |relevant| && relevant[i].hasReceipt ==> relevant[i].verifiable {
        return Some(Attested);
      }
      return Some(Missing);
    }
  }

  lemma ChainOneMore(db: Tables, invs: seq<Payload>, i: nat, receipts: seq<Payload>, stamp: Text)
    requires i < |invs|
    ensures var mid := AfterLinks(db, invs[..i], stamp);
      AfterLinks(db, invs[..i + 1], stamp) == AfterLink(mid, invs[i], stamp)
      && Chain(db, invs[..i + 1], receipts, stamp)
         == Chain(db, invs[..i], receipts, stamp) + [LinkOf(mid, invs[i], receipts, stamp)]
  {
    assert invs[..i + 1][..i] == invs[..i] && invs[..i + 1][i] == invs[i];
  }

  lemma CountOneMore(p: Link -> bool, chain: seq<Link>, link: Link)
    ensures Count(p, chain + [link]) == Count(p, chain) + if p(link) then 1 else 0
  {
    var more := chain + [link];
    assert more[..|more| - 1] == chain && more[|more| - 1] == link;
  }

  lemma TallyOneMore(chain: seq<Link>, link: Link)
    ensures Count(Gap, chain + [link]) == Count(Gap, chain) + if !link.hasReceipt then 1 else 0
    ensures Count(Unverifiable, chain + [link])
            == Count(Unverifiable, chain) + if link.hasReceipt && !link.verifiable then 1 else 0
    ensures Count(Violation, chain + [link])
            == Count(Violation, chain) + if link.status == Lit(FailedInvocation) && !Truthy(link.failure) then 1 else 0
  {
    CountOneMore(Gap, chain, link);
    CountOneMore(Unverifiable, chain, link);
    CountOneMore(Violation, chain, link);
  }
}
