/** The schema upgrade makes readable what the approval and evidence calls of older versions left, and
    nothing that their events do not vouch for. */
module MigrationLiveness {
  import opened Ledger
  import opened StoreSpec
  import opened StoreAnswers
  import opened MigrationAnswers
  import ApprovalRules
  import A = ApprovalSteps
  import E = EvidenceSteps
  import EvidenceAnswers
  import Migration

  // ---- reading an upgraded row ------------------------------------------------------------------------

  lemma MigratedRowStands(db: Tables, preexisted: bool, id: Text)
    requires id in db.records
    ensures id in Migration.Migrated(db, preexisted).records
    ensures MigratedAs(db.events, id, db.records[id], Migration.Migrated(db, preexisted).records[id], preexisted)
  {
    Migration.MigrationMeans(db, preexisted);
  }

  /** An unanchored row is readable afterwards exactly if its seal can be trusted and a first form of
      it is vouched for. */
  lemma ReadableExactlyWhen(rs: map<Text, Row>, es: map<Text, EventRow>, id: Text, row: Row, preexisted: bool)
    requires id in rs && MigratedAs(es, id, row, rs[id], preexisted) && row.origin.None?
    ensures EnvelopeOf(rs, id).Some? <==> Trusted(id, row, preexisted) && exists p :: FirstForm(es, id, rs[id], p)
  {
  }

  lemma ReadsColumns(rs: map<Text, Row>, id: Text)
    requires id in rs && SealFits(id, rs[id]) && rs[id].origin.Some? && rs[id].origin != Some(EMPTY)
    ensures EnvelopeOf(rs, id).Some? && EnvelopeOf(rs, id).value.payload == rs[id].body.p
    ensures EnvelopeOf(rs, id).value.mission == rs[id].mission && EnvelopeOf(rs, id).value.origin == rs[id].origin.value
  {
  }

  // ---- approvals ------------------------------------------------------------------------------------

  /** The event that `request` writes is the one event there has to be. */
  lemma RequestVouches(es: map<Text, EventRow>, id: Text, mission: Value, a: Payload, trace: Text, stamp: Text)
    requires Get(a, ApprovalId) == Str(id) && id != EMPTY && Get(a, MissionId) == mission && mission.Str?
    requires var ev := A.RequestEvent(a, trace, stamp);
      ev.id in es && es[ev.id] == ev.row && forall e :: e in es && e != ev.id ==> !OfRequest(es[e], id)
    ensures RequestedAs(es, id, mission, a)
  {
  }

  lemma SoleRequestIsOne(es: map<Text, EventRow>, id: Text, q: Payload, q': Payload)
    requires SoleRequest(es, id, q) && SoleRequest(es, id, q')
    ensures q == q'
  {
  }

  /** A pending form is told apart by the fields outside the decision. */
  lemma PendingForms(p: Payload, q: Payload, a: Payload)
    requires Pending(p) && Pending(q) && SameBut(DECISION_FIELDS, a, q)
    ensures p == q <==> SameBut(DECISION_FIELDS, a, p)
  {
    if SameBut(DECISION_FIELDS, a, p) {
      forall f ensures f in p <==> f in q { InPending(p, q, a, f); }
      forall f | f in p ensures p[f] == q[f] { InPending(p, q, a, f); }
    }
  }

  lemma InPending(p: Payload, q: Payload, a: Payload, f: Field)
    requires Pending(p) && Pending(q) && SameBut(DECISION_FIELDS, a, q) && SameBut(DECISION_FIELDS, a, p)
    ensures (f in p <==> f in q) && Get(p, f) == Get(q, f)
  {
  }

  lemma WithoutMark(a: Payload, q: Payload, mark: Field)
    requires mark !in a && mark !in q && SameBut(DECISION_FIELDS + {mark}, a, q)
    ensures SameBut(DECISION_FIELDS, a, q)
  {
  }

  /** An approval from before the upgrade, with its request event and no other: it is readable
      afterwards, and passes the origin check exactly if nothing but its decision differs from what
      was requested. */
  lemma RequestedIsReadable(db: Tables, preexisted: bool, id: Text, a: Payload, trace: Text, stamp: Text, p: Payload)
    requires id in db.records && db.records[id].rtype == Lit(ApprovalRecord) && db.records[id].origin.None?
    requires Trusted(id, db.records[id], preexisted) && id != EMPTY
    requires A.NewRequest(a) && Get(a, ApprovalId) == Str(id) && Get(a, MissionId) == db.records[id].mission
    requires db.records[id].mission.Str?
    requires var ev := A.RequestEvent(a, trace, stamp);
      ev.id in db.events && db.events[ev.id] == ev.row && forall e :: e in db.events && e != ev.id ==> !OfRequest(db.events[e], id)
    requires Pending(p)
    ensures var read := EnvelopeOf(Migration.Migrated(db, preexisted).records, id);
      read.Some? && read.value.payload == db.records[id].body.p && read.value.mission == db.records[id].mission
      && (read.value.origin == Seal(id, Lit(ApprovalRecord), db.records[id].mission, db.records[id].created, p)
          <==> SameBut(DECISION_FIELDS, a, p))
  {
    var row, row' := db.records[id], Migration.Migrated(db, preexisted).records[id];
    MigratedRowStands(db, preexisted, id);
    RequestVouches(db.events, id, row.mission, a, trace, stamp);
    NewRequestIsPending(a);
    AnchoredToRequest(db.events, id, row, row', a, p);
    ReadsColumns(Migration.Migrated(db, preexisted).records, id);
  }

  lemma NewRequestIsPending(a: Payload)
    requires A.NewRequest(a)
    ensures Pending(a) && Other("_mission_id") !in a
  {
    assert !ApprovalRules.Modelled(Other("_mission_id"));
  }

  lemma AnchoredToRequest(es: map<Text, EventRow>, id: Text, row: Row, row': Row, a: Payload, p: Payload)
    requires row.rtype == Lit(ApprovalRecord) && row.origin.None? && SealedAnew(id, row, row') && AnchoredAs(es, id, row, row')
    requires RequestedAs(es, id, row.mission, a) && Pending(a) && Other("_mission_id") !in a && Pending(p)
    ensures row'.body == row.body && row'.origin.Some? && row'.origin != Some(EMPTY)
    ensures row'.origin == Some(Seal(id, row.rtype, row.mission, row.created, p)) <==> SameBut(DECISION_FIELDS, a, p)
  {
    assert FirstForm(es, id, row', a);
    var q :| FirstForm(es, id, row', q) && row'.origin == Some(Seal(id, row.rtype, row.mission, row.created, q));
    var b :| RequestedAs(es, id, row'.mission, b) && SameBut(DECISION_FIELDS + {Other("_mission_id")}, b, q);
    SoleRequestIsOne(es, id, a, b);
    WithoutMark(a, q, Other("_mission_id"));
    PendingForms(p, q, a);
  }

  /** Nothing else anchors an approval: where one is readable that was unanchored, there is the one
      event of governance under the id and the key of its request, about its mission, with the record
      in it. */
  lemma ReadableWasRequested(db: Tables, preexisted: bool, id: Text)
    requires id in db.records && db.records[id].rtype == Lit(ApprovalRecord) && db.records[id].origin.None?
    ensures EnvelopeOf(Migration.Migrated(db, preexisted).records, id).Some?
      <==> Trusted(id, db.records[id], preexisted) && exists q :: RequestedAs(db.events, id, db.records[id].mission, q)
  {
    var rs := Migration.Migrated(db, preexisted).records;
    MigratedRowStands(db, preexisted, id);
    ReadableExactlyWhen(rs, db.events, id, db.records[id], preexisted);
    if Trusted(id, db.records[id], preexisted) { FormIfRequested(db.events, id, rs[id]); }
  }

  lemma FormIfRequested(es: map<Text, EventRow>, id: Text, row: Row)
    requires row.rtype == Lit(ApprovalRecord)
    ensures (exists p :: FirstForm(es, id, row, p)) <==> exists q :: RequestedAs(es, id, row.mission, q)
  {
    if exists q :: RequestedAs(es, id, row.mission, q) {
      var q :| RequestedAs(es, id, row.mission, q);
      Migration.RequestedForm(q);
      assert FirstForm(es, id, row, ApprovalRules.Original(Migration.Unmarked(q)));
    }
  }

  // ---- evidence ---------------------------------------------------------------------------------------

  lemma AddVouches(es: map<Text, EventRow>, args: E.AddArgs, id: Text)
    requires id == E.IdOf(args) && id != EMPTY && (args.key.Str? || args.key == Null)
    requires var ev := E.AddEvent(args);
      ev.id in es && es[ev.id] == ev.row && forall e :: e in es && e != ev.id ==> !OfCreation(es[e], id)
    ensures CreatedAs(es, id, Str(args.mission), E.Filing(args))
  {
    EvidenceAnswers.FilingSays(args);
    EvidenceAnswers.AddEventSays(args);
  }

  lemma FilingUnmarked(args: E.AddArgs)
    ensures Other("_mission_id") !in E.Filing(args)
  {
  }

  /** Evidence from before the upgrade, with the creation event of its `add` and no other: it is
      readable afterwards, and anchored to the record that was made of what was asked for. */
  lemma AddedIsReadable(db: Tables, preexisted: bool, args: E.AddArgs, id: Text, key: Text)
    requires id in db.records && db.records[id].rtype == Lit(EvidenceRecord) && db.records[id].origin.None?
    requires Trusted(id, db.records[id], preexisted) && db.records[id].mission == Str(args.mission)
    requires id == E.IdOf(args) && id != EMPTY && (args.key.Str? || args.key == Null)
    requires EvidenceAnswers.NamedAsAsked(args, id, key)
    requires var ev := E.AddEvent(args);
      ev.id in db.events && db.events[ev.id] == ev.row && forall e :: e in db.events && e != ev.id ==> !OfCreation(db.events[e], id)
    ensures var read := EnvelopeOf(Migration.Migrated(db, preexisted).records, id);
      read.Some? && read.value.mission == Str(args.mission)
      && exists q :: EvidenceAnswers.RecordSays(args, id, EvidenceEventId(key), q)
                     && read.value.origin == Seal(id, Lit(EvidenceRecord), Str(args.mission), db.records[id].created, q)
  {
    var row, row' := db.records[id], Migration.Migrated(db, preexisted).records[id];
    MigratedRowStands(db, preexisted, id);
    AddVouches(db.events, args, id);
    FilingUnmarked(args);
    EventKeyIs(args, id, key);
    EvidenceAnswers.FilingSays(args);
    AnchoredToCreation(db.events, id, row, row', E.Filing(args));
    ReadsColumns(Migration.Migrated(db, preexisted).records, id);
  }

  lemma EventKeyIs(args: E.AddArgs, id: Text, key: Text)
    requires EvidenceAnswers.NamedAsAsked(args, id, key) && (args.key.Str? || args.key == Null)
    ensures key == E.EventKey(args)
  {
  }

  lemma AnchoredToCreation(es: map<Text, EventRow>, id: Text, row: Row, row': Row, a: Payload)
    requires row.rtype == Lit(EvidenceRecord) && row.origin.None? && SealedAnew(id, row, row') && AnchoredAs(es, id, row, row')
    requires CreatedAs(es, id, row.mission, a) && Other("_mission_id") !in a
    ensures row'.origin == Some(Seal(id, row.rtype, row.mission, row.created, a))
  {
    assert SameBut({Other("_mission_id")}, a, a);
    assert FirstForm(es, id, row', a);
    var q :| FirstForm(es, id, row', q) && row'.origin == Some(Seal(id, row.rtype, row.mission, row.created, q));
    var b :| CreatedAs(es, id, row'.mission, b) && SameBut({Other("_mission_id")}, b, q);
    Migration.SoleIsSole(es, id, a, b);
    SameWithoutMark(a, q, Other("_mission_id"));
  }

  lemma SameWithoutMark(a: Payload, q: Payload, mark: Field)
    requires mark !in a && mark !in q && SameBut({mark}, a, q)
    ensures a == q
  {
    forall f ensures f in a <==> f in q {}
    forall f | f in a ensures a[f] == q[f] { assert Get(a, f) == Get(q, f); }
  }

  lemma ReadableWasCreated(db: Tables, preexisted: bool, id: Text)
    requires id in db.records && db.records[id].rtype == Lit(EvidenceRecord) && db.records[id].origin.None?
    ensures EnvelopeOf(Migration.Migrated(db, preexisted).records, id).Some?
      <==> Trusted(id, db.records[id], preexisted) && exists q :: CreatedAs(db.events, id, db.records[id].mission, q)
  {
    var rs := Migration.Migrated(db, preexisted).records;
    MigratedRowStands(db, preexisted, id);
    ReadableExactlyWhen(rs, db.events, id, db.records[id], preexisted);
    if Trusted(id, db.records[id], preexisted) { FormIfCreated(db.events, id, rs[id]); }
  }

  lemma FormIfCreated(es: map<Text, EventRow>, id: Text, row: Row)
    requires row.rtype == Lit(EvidenceRecord)
    ensures (exists p :: FirstForm(es, id, row, p)) <==> exists q :: CreatedAs(es, id, row.mission, q)
  {
    if exists q :: CreatedAs(es, id, row.mission, q) {
      var q :| CreatedAs(es, id, row.mission, q);
      Migration.CreatedForm(q);
      assert FirstForm(es, id, row, Migration.Unmarked(q));
    }
  }
}
