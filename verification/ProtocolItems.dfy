/**
 * Pipeline items, read without the lock by two queries: exactly when an item is one submission, and exactly when it may
 * be sent. A PUT between the two reads, by the chain's new owner or by the old one, tears it. And what can still be
 * sent on a payload once it has been archived.
 */
module ProtocolItems {
  import opened Wrappers
  import opened ArkTypes
  import opened ArkRow
  import opened Lifecycle
  import opened Verdicts
  import opened Protocol
  import opened ProtocolInvariant
  import opened ProtocolPreservation
  import opened ProtocolTheorems

  predicate PutsOn(step: Step, ark: Ark) {
    step.Request? && step.request.CommitPut? && step.request.req.origin.ark == ark
  }

  // ---------- without a PUT the payload stays ----------

  /** The row has left AVAILABILITY, and its payload, if it still has one, is that of `m`. */
  predicate Carries(row: Row, m: Meta) {
    && row.stage !in {Metadata, Availability}
    && (row.meta.Some? ==>
          && row.meta.value.origin == m.origin
          && row.meta.value.level1Cid == m.level1Cid && row.meta.value.level2Cid == m.level2Cid)
  }

  lemma ApplyCarries(row: Row, v: Verdict, now: Time, m: Meta)
    requires Carries(row, m)
    ensures Carries(Apply(row, v, now), m)
  {
  }

  lemma WorkCarries(c: Config, st: Sys, sid: SessionId, step: WorkStep, m: Meta)
    requires Inv(c, st) && CanWork(c, st, sid, step) && Carries(st.rows[ArkOf(st, sid)], m)
    ensures Carries(WorkRow(c, st, sid, step), m)
  {
    var row := st.rows[ArkOf(st, sid)];
    PersistsAtMetadata(c, st, sid);
    hide Inv;
    if step.CommitPersisted? {
      assert false;
    } else if step.CommitSent? {
      ApplyCarries(row, SentVerdict(st, sid, step.raised, step.ev, step.read, step.evAgain), step.now, m);
    } else if step.SettleItem? {
      ApplyCarries(row, ItemVerdict(st, step.item, step.result, step.ev, step.read, step.evAgain), step.now, m);
    } else {
      hide Apply, Pipeline, Single;
    }
  }

  lemma PersistsAtMetadata(c: Config, st: Sys, sid: SessionId)
    requires Inv(c, st)
    ensures CanWork(c, st, sid, CommitPersisted) ==> st.rows[ArkOf(st, sid)].stage == Metadata
  {
    if CanWork(c, st, sid, CommitPersisted) {
      HolderSeesItsRow(c, st, sid, Persist);
    }
  }

  lemma DeleteCarries(row: Row, caller: Authority, ev: Evidence, evAgain: Evidence, m: Meta)
    requires Carries(row, m) && Delete(Some(row), caller, ev, evAgain).Ok?
    ensures Carries(Delete(Some(row), caller, ev, evAgain).value.row, m)
  {
    hide RequireCurrentOwner;
  }

  lemma RetryCarries(row: Row, caller: Authority, ev: Evidence, m: Meta)
    requires Carries(row, m) && Retry(Some(row), caller, ev).Ok?
    ensures Carries(Retry(Some(row), caller, ev).value, m)
  {
    hide RequireCurrentOwner;
  }

  /** A request that is no PUT keeps the payload or, taking the record over, deletes it. */
  lemma RequestCarries(c: Config, st: Sys, sid: SessionId, step: ApiStep, m: Meta)
    requires Inv(c, st) && CanRequest(st, sid, step) && !step.CommitPut?
    requires ArkOf(st, sid) in st.rows && Carries(st.rows[ArkOf(st, sid)], m)
    ensures var after := DoRequest(st, sid, step).rows; ArkOf(st, sid) in after && Carries(after[ArkOf(st, sid)], m)
  {
    BaseOk(c, st, sid);
    hide Inv, Delete, Retry, Carries;
    var row := st.rows[ArkOf(st, sid)];
    match step
    case CommitDelete(caller, ev, evAgain) => DeleteCarries(row, caller, ev, evAgain, m);
    case CommitRetry(caller, ev) => RetryCarries(row, caller, ev, m);
  }

  /** Only the session's own row moves, and only by its commits. */
  lemma OtherRowsStay(c: Config, st: Sys, step: Step, ark: Ark)
    requires Enabled(c, st, step) && ark in st.rows
    requires step.Work? || step.Request? ==> ArkOf(st, step.sid) != ark
    ensures ark in Do(c, st, step).rows && Do(c, st, step).rows[ark] == st.rows[ark]
  {
    hide WorkRow, WorkLogs, Put, Delete, Retry;
  }

  lemma StepCarries(c: Config, st: Sys, step: Step, ark: Ark, m: Meta)
    requires Inv(c, st) && Enabled(c, st, step) && ark in st.rows && Carries(st.rows[ark], m) && !PutsOn(step, ark)
    ensures ark in Do(c, st, step).rows && Carries(Do(c, st, step).rows[ark], m)
  {
    hide Inv, Carries, WorkRow, WorkLogs, Put, Delete, Retry;
    if step.Work? && ArkOf(st, step.sid) == ark {
      WorkCarries(c, st, step.sid, step.work, m);
    } else if step.Request? && ArkOf(st, step.sid) == ark {
      RequestCarries(c, st, step.sid, step.request, m);
    } else {
      OtherRowsStay(c, st, step, ark);
    }
  }

  // ---------- after a PUT it is another one ----------

  /** The row does not carry the submission `o`. */
  predicate CarriesNot(row: Row, o: Origin) { row.meta.Some? ==> row.meta.value.origin != o }

  lemma WorkKeepsOrigin(c: Config, st: Sys, sid: SessionId, step: WorkStep)
    requires CanWork(c, st, sid, step)
    ensures var row, after := st.rows[ArkOf(st, sid)], WorkRow(c, st, sid, step);
            after.meta.Some? ==> row.meta.Some? && after.meta.value.origin == row.meta.value.origin
  {
    hide Pipeline, Single, Apply, IsInfrastructureError;
  }

  lemma RequestCarriesNot(c: Config, st: Sys, sid: SessionId, step: ApiStep, o: Origin)
    requires Inv(c, st) && CanRequest(st, sid, step) && o in st.logs.puts && ArkOf(st, sid) in st.rows
    requires step.CommitPut? || CarriesNot(st.rows[ArkOf(st, sid)], o)
    ensures var after := DoRequest(st, sid, step).rows; ArkOf(st, sid) in after && CarriesNot(after[ArkOf(st, sid)], o)
  {
    BaseOk(c, st, sid);
    hide Inv, Put, Delete, Retry;
    match step
    case CommitPut(req, known, ev, now) => PutTakesOver(Base(st, sid), req, known, ev, now);
    case CommitDelete(caller, ev, evAgain) => DeleteStays(st.rows[ArkOf(st, sid)], caller, ev, evAgain);
    case CommitRetry(caller, ev) => RetryStays(st.rows[ArkOf(st, sid)], caller, ev);
  }

  lemma StepCarriesNot(c: Config, st: Sys, step: Step, ark: Ark, o: Origin)
    requires Inv(c, st) && Enabled(c, st, step) && ark in st.rows && o in st.logs.puts
    requires CarriesNot(st.rows[ark], o) || PutsOn(step, ark)
    ensures ark in Do(c, st, step).rows && CarriesNot(Do(c, st, step).rows[ark], o)
  {
    hide Inv, WorkRow, WorkLogs, Put, Delete, Retry;
    if step.Work? && ArkOf(st, step.sid) == ark {
      WorkKeepsOrigin(c, st, step.sid, step.work);
    } else if step.Request? && ArkOf(st, step.sid) == ark {
      RequestCarriesNot(c, st, step.sid, step.request, o);
    } else {
      OtherRowsStay(c, st, step, ark);
    }
  }

  lemma {:induction false} RunCarries(c: Config, st: Sys, steps: seq<Step>, ark: Ark, m: Meta)
    requires Inv(c, st) && Runs(c, st, steps) && ark in st.rows && Carries(st.rows[ark], m)
    requires forall i :: 0 <= i < |steps| ==> !PutsOn(steps[i], ark)
    ensures ark in After(c, st, steps).rows && Carries(After(c, st, steps).rows[ark], m)
    decreases |steps|
  {
    hide Inv, Enabled, Do, Carries, PutsOn;
    if steps != [] {
      StepCarries(c, st, steps[0], ark, m);
      StepKeepsInv(c, st, steps[0]);
      RunCarries(c, Do(c, st, steps[0]), steps[1..], ark, m);
    }
  }

  lemma {:induction false} RunCarriesNot(c: Config, st: Sys, steps: seq<Step>, ark: Ark, o: Origin)
    requires Inv(c, st) && Runs(c, st, steps) && ark in st.rows && o in st.logs.puts
    requires CarriesNot(st.rows[ark], o) || exists i :: 0 <= i < |steps| && PutsOn(steps[i], ark)
    ensures ark in After(c, st, steps).rows && CarriesNot(After(c, st, steps).rows[ark], o)
    decreases |steps|
  {
    hide Inv, Enabled, Do, CarriesNot, PutsOn;
    if steps != [] {
      StepKeepsInv(c, st, steps[0]);
      RowsAndPutsStay(c, st, steps[0], ark, o);
      if CarriesNot(st.rows[ark], o) || PutsOn(steps[0], ark) {
        StepCarriesNot(c, st, steps[0], ark, o);
      } else {
        var i :| 0 <= i < |steps| && PutsOn(steps[i], ark);
        assert steps[1..][i - 1] == steps[i];
      }
      RunCarriesNot(c, Do(c, st, steps[0]), steps[1..], ark, o);
    }
  }

  lemma RowsAndPutsStay(c: Config, st: Sys, step: Step, ark: Ark, o: Origin)
    requires Enabled(c, st, step) && ark in st.rows && o in st.logs.puts
    ensures ark in Do(c, st, step).rows && o in Do(c, st, step).logs.puts
  {
    HistoryGrows(c, st, [step]);
    assert [step][1..] == [];
    assert After(c, st, [step]) == Do(c, st, step);
  }

  // ---------- the two reads of an item ----------

  /**
   * A record is selected after `before`, anything happens in `between`, then its metadata is read. At any later time,
   * the item's operation is justified (its submitter's own, stored, counted) if and only if nobody PUT to the ARK
   * between the two reads.
   */
  lemma ItemJustifiedExactly(c: Config, before: seq<Step>, ark: Ark, now: Time, between: seq<Step>, later: Logs)
    requires Runs(c, Initial(), before) && CanWorld(After(c, Initial(), before), SelectRecord(ark, now))
    requires Runs(c, DoWorld(After(c, Initial(), before), SelectRecord(ark, now)), between)
    requires CanWorld(After(c, DoWorld(After(c, Initial(), before), SelectRecord(ark, now)), between),
                      ReadMetadata(Selected(ark, After(c, Initial(), before).rows[ark])))
    requires Extends(After(c, DoWorld(After(c, Initial(), before), SelectRecord(ark, now)), between).logs, later)
    ensures var st0 := After(c, Initial(), before);
            var st2 := After(c, DoWorld(st0, SelectRecord(ark, now)), between);
            var item := ItemRead(st2, Selected(ark, st0.rows[ark]));
            && ItemSendable(item)
            && (Justified(c, later, ItemOperation(item))
                <==> forall i :: 0 <= i < |between| ==> !PutsOn(between[i], ark))
  {
    var st0 := After(c, Initial(), before);
    var st1 := DoWorld(st0, SelectRecord(ark, now));
    var st2 := After(c, st1, between);
    Reachable(c, before);
    StepKeepsInv(c, st0, World(SelectRecord(ark, now)));
    RunKeepsInv(c, st1, between);
    hide Runs, After;
    var record := st0.rows[ark];
    assert RowOk(c, st0.logs, ark, record);
    ItemReads(c, st0, ark, now, st2);
    var m := record.meta.value;
    if forall i :: 0 <= i < |between| ==> !PutsOn(between[i], ark) {
      RunCarries(c, st1, between, ark, m);
      InvExtends(c, st2, later);
      ItemOwn(c, st2, later, Selected(ark, record));
    } else {
      RunCarriesNot(c, st1, between, ark, m.origin);
    }
  }

  lemma ItemReads(c: Config, st0: Sys, ark: Ark, now: Time, st2: Sys)
    requires Inv(c, st0) && Inv(c, st2) && CanWorld(st0, SelectRecord(ark, now))
    requires CanWorld(st2, ReadMetadata(Selected(ark, st0.rows[ark])))
    ensures ItemSendable(ItemRead(st2, Selected(ark, st0.rows[ark])))
    ensures st0.rows[ark].meta.Some? && Carries(st0.rows[ark], st0.rows[ark].meta.value)
    ensures st0.rows[ark].meta.value.origin in st0.logs.puts
  {
    assert RowOk(c, st0.logs, ark, st0.rows[ark]);
  }

  lemma ItemOwn(c: Config, st: Sys, later: Logs, selected: Selected)
    requires Inv(c, st) && Extends(st.logs, later) && CanWorld(st, ReadMetadata(selected))
             && ItemSendable(ItemRead(st, selected))
    requires selected.record.meta.Some? && Carries(st.rows[selected.ark], selected.record.meta.value)
    ensures Justified(c, later, ItemOperation(ItemRead(st, selected)))
  {
    var item := ItemRead(st, selected);
    StepKeepsInv(c, st, World(ReadMetadata(selected)));
    assert SelectedOk(c, st.logs, item.ark, item.record) && RowOk(c, st.logs, item.ark, st.rows[item.ark]);
    RowOkExtends(c, st.logs, later, item.ark, item.record);
    OwnIsJustified(c, later, ItemOperation(item));
  }

  // ---------- what the row must look like when the metadata is read ----------

  /** Qualifications are of accepted submissions, and never of one whose row has not left AVAILABILITY. */
  ghost predicate QualifiedOk(st: Sys) {
    && (forall q :: q in st.logs.qualified ==> q.origin in st.logs.puts && q.origin.ark == q.ark)
    && (forall ark, q :: ark in st.rows && q in st.logs.qualified ==>
          st.rows[ark].stage in {Metadata, Availability} && st.rows[ark].meta.Some? ==>
          q.origin != st.rows[ark].meta.value.origin)
  }

  /** Which qualification a worker commit can add: that of a row which leaves, or has left, AVAILABILITY. */
  lemma WorkQualifies(c: Config, st: Sys, sid: SessionId, step: WorkStep, q: Qualification)
    requires Inv(c, st) && CanWork(c, st, sid, step)
    requires q in WorkLogs(c, st, sid, step).qualified && q !in st.logs.qualified
    ensures var row, after := st.rows[ArkOf(st, sid)], WorkRow(c, st, sid, step);
            && row.meta.Some? && q.ark == ArkOf(st, sid) && q.origin == row.meta.value.origin
            && row.meta.value.origin in st.logs.puts && row.meta.value.origin.ark == q.ark
            && after.stage !in {Metadata, Availability}
  {
    HolderSeesItsRow(c, st, sid, Audit);
    assert RowOk(c, st.logs, ArkOf(st, sid), st.rows[ArkOf(st, sid)]);
  }

  lemma WorkStage(c: Config, st: Sys, sid: SessionId, step: WorkStep)
    requires Inv(c, st) && CanWork(c, st, sid, step)
    ensures WorkRow(c, st, sid, step).stage in {Metadata, Availability} ==>
              st.rows[ArkOf(st, sid)].stage in {Metadata, Availability}
  {
    if step.CommitPersisted? {
      HolderSeesItsRow(c, st, sid, Persist);
    }
    hide Inv, Pipeline, Single;
  }

  lemma WorkKeepsQualified(c: Config, st: Sys, sid: SessionId, step: WorkStep)
    requires Inv(c, st) && QualifiedOk(st) && CanWork(c, st, sid, step)
    ensures QualifiedOk(DoWork(c, st, sid, step))
  {
    var st' := DoWork(c, st, sid, step);
    WorkKeepsOrigin(c, st, sid, step);
    WorkStage(c, st, sid, step);
    NewQualifications(c, st, sid, step);
    OriginsOfArks(c, st);
    hide Inv, CanWork, WorkRow, WorkLogs, MetaOk;
  }

  lemma NewQualifications(c: Config, st: Sys, sid: SessionId, step: WorkStep)
    requires Inv(c, st) && CanWork(c, st, sid, step)
    ensures forall q :: q in WorkLogs(c, st, sid, step).qualified && q !in st.logs.qualified ==>
              && q.ark == ArkOf(st, sid) && q.origin.ark == q.ark && q.origin in st.logs.puts
              && WorkRow(c, st, sid, step).stage !in {Metadata, Availability}
    ensures WorkLogs(c, st, sid, step).puts == st.logs.puts
  {
    forall q | q in WorkLogs(c, st, sid, step).qualified && q !in st.logs.qualified
      ensures q.ark == ArkOf(st, sid) && q.origin.ark == q.ark && q.origin in st.logs.puts
      ensures WorkRow(c, st, sid, step).stage !in {Metadata, Availability}
    {
      WorkQualifies(c, st, sid, step, q);
    }
  }

  lemma OriginsOfArks(c: Config, st: Sys)
    requires Inv(c, st)
    ensures forall ark :: ark in st.rows && st.rows[ark].meta.Some? ==> st.rows[ark].meta.value.origin.ark == ark
  {
    forall ark | ark in st.rows && st.rows[ark].meta.Some? ensures st.rows[ark].meta.value.origin.ark == ark {
      assert RowOk(c, st.logs, ark, st.rows[ark]);
    }
  }

  lemma DeleteStays(row: Row, caller: Authority, ev: Evidence, evAgain: Evidence)
    requires Delete(Some(row), caller, ev, evAgain).Ok?
    ensures var after := Delete(Some(row), caller, ev, evAgain).value.row;
            after.meta.Some? ==> after.meta == row.meta && after.stage == row.stage
  {
    hide RequireCurrentOwner;
  }

  lemma RetryStays(row: Row, caller: Authority, ev: Evidence)
    requires Retry(Some(row), caller, ev).Ok?
    ensures Retry(Some(row), caller, ev).value.meta == row.meta && Retry(Some(row), caller, ev).value.stage == row.stage
  {
    hide RequireCurrentOwner;
  }

  lemma RequestKeepsQualified(c: Config, st: Sys, sid: SessionId, step: ApiStep)
    requires Inv(c, st) && QualifiedOk(st) && CanRequest(st, sid, step)
    ensures QualifiedOk(DoRequest(st, sid, step))
  {
    BaseOk(c, st, sid);
    hide Inv, Put, Delete, Retry, MetaOk, Superseding;
    match step
    case CommitPut(req, known, ev, now) => PutTakesOver(Base(st, sid), req, known, ev, now);
    case CommitDelete(caller, ev, evAgain) => DeleteStays(st.rows[ArkOf(st, sid)], caller, ev, evAgain);
    case CommitRetry(caller, ev) => RetryStays(st.rows[ArkOf(st, sid)], caller, ev);
  }

  lemma StepKeepsQualified(c: Config, st: Sys, step: Step)
    requires Inv(c, st) && QualifiedOk(st) && Enabled(c, st, step)
    ensures QualifiedOk(Do(c, st, step))
  {
    match step
    case World(_) =>
    case Lock(_, _) =>
    case Call(_, _) =>
    case Work(sid, s) => WorkKeepsQualified(c, st, sid, s);
    case Request(sid, s) => RequestKeepsQualified(c, st, sid, s);
  }

  lemma {:induction false} RunKeepsQualified(c: Config, st: Sys, steps: seq<Step>)
    requires Inv(c, st) && QualifiedOk(st) && Runs(c, st, steps)
    ensures QualifiedOk(After(c, st, steps))
    decreases |steps|
  {
    hide Inv, QualifiedOk, Enabled, Do;
    if steps != [] {
      StepKeepsInv(c, st, steps[0]);
      StepKeepsQualified(c, st, steps[0]);
      RunKeepsQualified(c, Do(c, st, steps[0]), steps[1..]);
    }
  }

  /** Under its submitter's name and target, and counted as that very submission. */
  predicate SignedAndQualified(logs: Logs, s: Submission)
    requires s.metadata.level2Cid.Some?
  {
    RightlySigned(s) && Qualification(s.ark, s.metadata.origin, s.cid, s.metadata.level2Cid.value) in logs.qualified
  }

  /**
   * The check that would be enough, and no more than enough, after the second read: the record still has the authority
   * and target it was selected with, and has not gone back to AVAILABILITY.
   */
  lemma ItemSignedExactly(c: Config, steps: seq<Step>, selected: Selected)
    requires Runs(c, Initial(), steps) && CanWorld(After(c, Initial(), steps), ReadMetadata(selected))
    ensures var st := After(c, Initial(), steps);
            var row := st.rows[selected.ark];
            && ItemSendable(ItemRead(st, selected))
            && (SignedAndQualified(st.logs, ItemOperation(ItemRead(st, selected)))
                <==> && row.authority == selected.record.authority && row.target == selected.record.target
                     && row.stage != Availability)
  {
    var st := After(c, Initial(), steps);
    Reachable(c, steps);
    RunKeepsQualified(c, Initial(), steps);
    hide Runs, After;
    assert SelectedOk(c, st.logs, selected.ark, selected.record);
    assert RowOk(c, st.logs, selected.ark, st.rows[selected.ark]);
  }

  // ---------- after a take-over ----------

  /** No row carries a payload that has been archived. */
  ghost predicate ArchiveOk(st: Sys) {
    forall a :: a in st.archive && a.row.meta.Some? ==>
      a.ark in st.rows && CarriesNot(st.rows[a.ark], a.row.meta.value.origin)
  }

  /** What a commit archives is not in the row it leaves. */
  lemma RequestArchives(c: Config, st: Sys, sid: SessionId, step: ApiStep, a: Superseded)
    requires Inv(c, st) && CanRequest(st, sid, step)
    requires a in DoRequest(st, sid, step).archive && a !in st.archive && a.row.meta.Some?
    ensures var after := DoRequest(st, sid, step).rows;
            a.ark in after && CarriesNot(after[a.ark], a.row.meta.value.origin)
  {
    BaseOk(c, st, sid);
    hide Inv, Put, Delete, Retry;
    match step
    case CommitPut(req, known, ev, now) => PutTakesOver(Base(st, sid), req, known, ev, now);
    case CommitDelete(caller, ev, evAgain) => DeleteTakesOver(Base(st, sid), caller, ev, evAgain);
    case CommitRetry(caller, ev) =>
  }

  lemma StepKeepsArchive(c: Config, st: Sys, step: Step)
    requires Inv(c, st) && ArchiveOk(st) && Enabled(c, st, step)
    ensures ArchiveOk(Do(c, st, step))
  {
    forall a | a in Do(c, st, step).archive && a.row.meta.Some?
      ensures a.ark in Do(c, st, step).rows && CarriesNot(Do(c, st, step).rows[a.ark], a.row.meta.value.origin)
    {
      if a in st.archive {
        ArchivedIsKnown(c, st, a);
        hide Inv, CarriesNot, Enabled, Do;
        StepCarriesNot(c, st, step, a.ark, a.row.meta.value.origin);
      } else {
        OnlyRequestsArchive(c, st, step);
        hide Inv, CanRequest, DoRequest, CarriesNot;
        RequestArchives(c, st, step.sid, step.request, a);
      }
    }
  }

  lemma OnlyRequestsArchive(c: Config, st: Sys, step: Step)
    requires Enabled(c, st, step)
    ensures Do(c, st, step).archive == st.archive || step.Request?
  {
    hide WorkRow, WorkLogs, DoRequest;
  }

  lemma ArchivedIsKnown(c: Config, st: Sys, a: Superseded)
    requires Inv(c, st) && a in st.archive && a.row.meta.Some?
    ensures var o := a.row.meta.value.origin; o in st.logs.puts && o.ark == a.ark && o.authority == a.original
  {
    assert SupersededOk(c, st.logs, a);
  }

  lemma {:induction false} RunKeepsArchive(c: Config, st: Sys, steps: seq<Step>)
    requires Inv(c, st) && ArchiveOk(st) && Runs(c, st, steps)
    ensures ArchiveOk(After(c, st, steps))
    decreases |steps|
  {
    hide Inv, ArchiveOk, Enabled, Do;
    if steps != [] {
      StepKeepsInv(c, st, steps[0]);
      StepKeepsArchive(c, st, steps[0]);
      RunKeepsArchive(c, Do(c, st, steps[0]), steps[1..]);
    }
  }

  /** Built from an item of `st0`. */
  predicate BuiltIn(st0: Sys, s: Submission) {
    exists item :: item in st0.items && ItemSendable(item) && s == ItemOperation(item)
  }

  /**
   * Since `st0` nobody has read the submission `o`, and only its submitter signs operations on it, or items of `st0`.
   */
  ghost predicate ReadNoMore(st0: Sys, st: Sys, o: Origin) {
    && (forall item :: item in st.items && item.metadata.origin == o ==> item in st0.items)
    && (forall s :: s in st.submitted && s.metadata.origin == o ==>
          s.signer == o.authority || s in st0.submitted || BuiltIn(st0, s))
  }

  lemma WorldReadsNoMore(c: Config, st0: Sys, st: Sys, step: WorldStep, ark: Ark, o: Origin)
    requires Inv(c, st) && CanWorld(st, step) && ReadNoMore(st0, st, o)
    requires ark in st.rows && o.ark == ark && CarriesNot(st.rows[ark], o)
    ensures ReadNoMore(st0, DoWorld(st, step), o)
  {
    OriginsOfArks(c, st);
    hide Inv;
    if step.SubmitItem? && step.item.metadata.origin == o {
      assert step.item in st0.items && BuiltIn(st0, ItemOperation(step.item));
    }
  }

  lemma SingleIsSubmitters(c: Config, st: Sys, sid: SessionId)
    requires CanCall(c, st, sid, SendOperation) && Inv(c, DoCall(c, st, sid, SendOperation))
    ensures var s := SubmissionOf(ArkOf(st, sid), SnapOf(st, sid).row); s.signer == s.metadata.origin.authority
  {
    var st' := DoCall(c, st, sid, SendOperation);
    var s := SubmissionOf(ArkOf(st, sid), SnapOf(st, sid).row);
    assert s in st'.submitted && SubmissionOk(c, st'.logs, s);
    hide Inv;
    OwnIsJustified(c, st'.logs, s);
  }

  lemma CallReadsNoMore(c: Config, st0: Sys, st: Sys, sid: SessionId, step: CallStep, o: Origin)
    requires Inv(c, st) && CanCall(c, st, sid, step) && ReadNoMore(st0, st, o)
    ensures ReadNoMore(st0, DoCall(c, st, sid, step), o)
  {
    StepKeepsInv(c, st, Call(sid, step));
    if step.SendOperation? {
      SingleIsSubmitters(c, st, sid);
    }
    hide Inv, SubmissionOf;
  }

  lemma StepReadsNoMore(c: Config, st0: Sys, st: Sys, step: Step, ark: Ark, o: Origin)
    requires Inv(c, st) && Enabled(c, st, step) && ReadNoMore(st0, st, o)
    requires ark in st.rows && o.ark == ark && CarriesNot(st.rows[ark], o)
    ensures ReadNoMore(st0, Do(c, st, step), o)
  {
    hide Inv, CarriesNot, WorkRow, WorkLogs, Put, Delete, Retry, DoWorld, DoCall;
    match step
    case World(s) => WorldReadsNoMore(c, st0, st, s, ark, o);
    case Lock(_, _) =>
    case Call(sid, s) => CallReadsNoMore(c, st0, st, sid, s, o);
    case Work(_, _) =>
    case Request(_, _) =>
  }

  lemma {:induction false} RunReadsNoMore(c: Config, st0: Sys, st: Sys, steps: seq<Step>, ark: Ark, o: Origin)
    requires Inv(c, st) && Runs(c, st, steps) && ReadNoMore(st0, st, o)
    requires ark in st.rows && o.ark == ark && o in st.logs.puts && CarriesNot(st.rows[ark], o)
    ensures ReadNoMore(st0, After(c, st, steps), o)
    decreases |steps|
  {
    hide Inv, Enabled, Do, CarriesNot, ReadNoMore;
    if steps != [] {
      StepKeepsInv(c, st, steps[0]);
      StepReadsNoMore(c, st0, st, steps[0], ark, o);
      StepCarriesNot(c, st, steps[0], ark, o);
      RowsAndPutsStay(c, st, steps[0], ark, o);
      RunReadsNoMore(c, st0, Do(c, st, steps[0]), steps[1..], ark, o);
    }
  }

  /**
   * Once a payload is archived no row carries it and no metadata read finds it again. An operation on it that carries
   * its record's own payload is never signed by anybody but its submitter, whenever it was sent; and of those sent
   * later none at all is, unless it was built from an item read before the archiving.
   */
  lemma SupersededNeverResigned(c: Config, before: seq<Step>, a: Superseded, later: seq<Step>)
    requires Runs(c, Initial(), before) && Runs(c, After(c, Initial(), before), later)
    requires a in After(c, Initial(), before).archive
    ensures a.original == a.row.authority && a.original != a.replacement
    ensures a.row.meta.Some? ==>
              var o := a.row.meta.value.origin;
              var st0 := After(c, Initial(), before);
              var st := After(c, st0, later);
              && o.authority == a.original
              && (forall ark :: ark in st.rows ==> CarriesNot(st.rows[ark], o))
              && (forall item :: item in st.items && item.metadata.origin == o ==> item in st0.items)
              && (forall s :: s in st.submitted && s.metadata.origin == o ==>
                    s.signer == a.original || (!OwnPayload(s) && (s in st0.submitted || BuiltIn(st0, s))))
  {
    var st0 := After(c, Initial(), before);
    var st := After(c, st0, later);
    Reachable(c, before);
    assert SupersededOk(c, st0.logs, a);
    if a.row.meta.Some? {
      var o := a.row.meta.value.origin;
      RunKeepsArchive(c, Initial(), before);
      ArchivedIsKnown(c, st0, a);
      RunKeepsInv(c, st0, later);
      OriginsOfArks(c, st);
      OwnIsSubmitters(c, st);
      hide Inv, Runs, After;
      RunReadsNoMore(c, st0, st0, later, a.ark, o);
      RunCarriesNot(c, st0, later, a.ark, o);
    }
  }

  lemma OwnIsSubmitters(c: Config, st: Sys)
    requires Inv(c, st)
    ensures forall s :: s in st.submitted && OwnPayload(s) ==> s.signer == s.metadata.origin.authority
  {
    forall s | s in st.submitted && OwnPayload(s) ensures s.signer == s.metadata.origin.authority {
      assert SubmissionOk(c, st.logs, s);
      OwnIsJustified(c, st.logs, s);
    }
  }

  /** What is sent on the submission `o` from `st0` on, whatever happens, is sent under its submitter's name. */
  ghost predicate OnlySubmitterSends(c: Config, st0: Sys, o: Origin) {
    forall later, s :: Runs(c, st0, later) && s in After(c, st0, later).submitted && s.metadata.origin == o ==>
      s.signer == o.authority || s in st0.submitted
  }

  /** Every item of `o` that was read with a record of another authority has been sent. */
  ghost predicate TornItemsSent(st0: Sys, o: Origin) {
    forall item :: item in st0.items && item.metadata.origin == o && item.record.authority != o.authority ==>
      ItemSendable(item) && ItemOperation(item) in st0.submitted
  }

  /**
   * When an archived payload can still go out under another name: if and only if, at the archiving, there is an unsent
   * item that was read with a record of another authority.
   */
  lemma ResignedExactly(c: Config, before: seq<Step>, a: Superseded)
    requires Runs(c, Initial(), before) && a in After(c, Initial(), before).archive && a.row.meta.Some?
    ensures var st0, o := After(c, Initial(), before), a.row.meta.value.origin;
            OnlySubmitterSends(c, st0, o) <==> TornItemsSent(st0, o)
  {
    var st0, o := After(c, Initial(), before), a.row.meta.value.origin;
    Reachable(c, before);
    ItemsAreSendable(c, st0);
    hide Inv, Runs, After;
    if OnlySubmitterSends(c, st0, o) {
      forall item | item in st0.items && item.metadata.origin == o && item.record.authority != o.authority
        ensures ItemOperation(item) in st0.submitted
      {
        SendNow(c, st0, item);
      }
    }
    if TornItemsSent(st0, o) {
      forall later, s | Runs(c, st0, later) && s in After(c, st0, later).submitted && s.metadata.origin == o
        ensures s.signer == o.authority || s in st0.submitted
      {
        SupersededNeverResigned(c, before, a, later);
        TornIsSent(st0, o, s);
      }
    }
  }

  lemma TornIsSent(st0: Sys, o: Origin, s: Submission)
    requires TornItemsSent(st0, o) && s.metadata.origin == o
    ensures BuiltIn(st0, s) ==> s.signer == o.authority || s in st0.submitted
  {
  }

  lemma ItemsAreSendable(c: Config, st: Sys)
    requires Inv(c, st)
    ensures forall item :: item in st.items ==> ItemSendable(item)
  {
  }

  lemma SendNow(c: Config, st: Sys, item: Item)
    requires item in st.items && ItemSendable(item)
    ensures Runs(c, st, [World(SubmitItem(item))])
    ensures ItemOperation(item) in After(c, st, [World(SubmitItem(item))]).submitted
  {
    assert [World(SubmitItem(item))][1..] == [];
  }
}
