/** Every step of the publication protocol keeps the invariant. */
module ProtocolPreservation {
  import opened Wrappers
  import opened ArkTypes
  import opened ArkRow
  import opened Lifecycle
  import opened Verdicts
  import opened Protocol
  import opened ProtocolInvariant

  // ---------- rows ----------

  lemma PersistedOk(c: Config, logs: Logs, ark: Ark, snap: Snap)
    requires SnapOk(c, logs, ark, snap) && snap.kind == Persist && snap.level1Cid.Some? && snap.level2Cid.Some?
    ensures RowOk(c, logs, ark, Persisted(snap.row, snap.level1Cid.value, snap.level2Cid.value))
  {
  }

  /** A reconciliation advances, waits or purges; what it records is what the next stage relies on. */
  lemma AuditedOk(c: Config, logs: Logs, ark: Ark, row: Row, o1: Pin, o2: Pin, repaired: bool, now: Time, later: Time)
    requires ValidConfig(c) && RowOk(c, logs, ark, row) && HasUsableCids(row)
    requires row.state in {Draft, Update, Published} && row.stage in {Availability, Replication}
    ensures var after := Audited(c, row, o1, o2, repaired, now, later);
            RowOk(c, logs.(qualified := logs.qualified + Qualifies(c, ark, after)), ark, after)
  {
    var m := ObservedMeta(row.meta.value, o1, o2, repaired, now);
    var after := Audited(c, row, o1, o2, repaired, now, later);
    if row.stage == Availability {
      assert after == FirstPinRow(c, row, m, o1, o2, later);
    } else {
      assert after == DurabilityRow(c, row, m, o1, o2, repaired, later);
    }
  }

  lemma FailureOk(c: Config, logs: Logs, ark: Ark, row: Row, code: ErrorCode, now: Time)
    requires RowOk(c, logs, ark, row) && row.state != Reserved
    requires row.state == Tombstone || row.stage == Complete ==> !Retryable(code)
    ensures RowOk(c, logs, ark, MarkFailed(row, code, now))
  {
  }

  lemma DeferredOk(c: Config, logs: Logs, ark: Ark, row: Row, code: ErrorCode, delay: Time, now: Time)
    requires RowOk(c, logs, ark, row) && row.state in {Draft, Update, Published}
    ensures RowOk(c, logs, ark, Deferred(row, code, delay, now))
  {
  }

  lemma PublishedOk(c: Config, logs: Logs, ark: Ark, row: Row)
    requires RowOk(c, logs, ark, row) && Sending(row)
    requires (ark, row.target.value, row.meta.value.level1Cid.value) in logs.held
    ensures RowOk(c, logs, ark, PublishedRow(row))
  {
  }

  lemma VerdictOk(c: Config, logs: Logs, ark: Ark, row: Row, v: Verdict, now: Time)
    requires RowOk(c, logs, ark, row) && Sending(row)
    requires v.Publish? ==> (ark, row.target.value, row.meta.value.level1Cid.value) in logs.held
    ensures RowOk(c, logs, ark, Apply(row, v, now))
  {
    match v
    case Untouched =>
    case Publish => PublishedOk(c, logs, ark, row);
    case Fail(code) => FailureOk(c, logs, ark, row, code, now);
    case Postpone(code) => DeferredOk(c, logs, ark, row, code, MINUTE, now);
  }

  /** A staged payload carries its own submitter: a row taken over has lost the old one. */
  lemma PutOk(c: Config, logs: Logs, ark: Ark, base: Option<Row>, req: PutRequest, known: Reply<bool>, ev: Evidence,
              now: Time)
    requires base.Some? ==> RowOk(c, logs, ark, base.value)
    requires req.origin.ark == ark && req.origin in logs.puts
    requires Put(base, req, known, ev, now).Ok?
    ensures var effect := Put(base, req, known, ev, now).value;
            && RowOk(c, logs, ark, effect.row) && effect.row.state in {Draft, Update}
            && (effect.archived.Some? ==>
                  base == effect.archived && base.value.authority != req.origin.authority)
  {
  }

  lemma DeleteOk(c: Config, logs: Logs, ark: Ark, base: Option<Row>, caller: Authority, ev: Evidence, evAgain: Evidence)
    requires base.Some? && RowOk(c, logs, ark, base.value)
    requires Delete(base, caller, ev, evAgain).Ok?
    ensures var effect := Delete(base, caller, ev, evAgain).value;
            && RowOk(c, logs, ark, effect.row) && effect.row.state == Tombstone
            && (effect.archived.Some? ==> base == effect.archived && base.value.authority != caller)
  {
  }

  lemma RetriedOk(c: Config, logs: Logs, ark: Ark, row: Row, caller: Authority, ev: Evidence)
    requires RowOk(c, logs, ark, row) && Retry(Some(row), caller, ev).Ok?
    ensures RowOk(c, logs, ark, Retried(row)) && Retry(Some(row), caller, ev).value == Retried(row)
    ensures row.state !in {Reserved, Tombstone}
  {
  }

  // ---------- the world and the locks ----------

  lemma SubmittedKeepsInv(c: Config, st: Sys, s: Submission)
    requires Inv(c, st) && SubmissionOk(c, st.logs, s)
    ensures Inv(c, st.(submitted := st.submitted + {s}))
  {
    var st' := st.(submitted := st.submitted + {s});
    assert forall s :: Live(st', s) == Live(st, s);
  }

  lemma WorldKeepsInv(c: Config, st: Sys, step: WorldStep)
    requires Inv(c, st) && CanWorld(st, step)
    ensures Inv(c, DoWorld(st, step))
  {
    var st' := DoWorld(st, step);
    match step
    case Reserve(_, _, _) => assert forall s :: Live(st', s) == Live(st, s);
    case ChainHolds(_, _, _) => InvExtends(c, st, st'.logs);
    case SelectRecord(ark, now) =>
      assert RowOk(c, st.logs, ark, st.rows[ark]);
      assert forall s :: Live(st', s) == Live(st, s);
    case ReadMetadata(selected) =>
      assert RowOk(c, st.logs, selected.ark, st.rows[selected.ark]);
      assert forall s :: Live(st', s) == Live(st, s);
    case SubmitItem(item) =>
      assert SelectedOk(c, st.logs, item.ark, item.record);
      SubmittedKeepsInv(c, st, ItemOperation(item));
  }

  lemma AcquireKeepsInv(c: Config, st: Sys, sid: SessionId, ark: Ark)
    requires Inv(c, st) && CanLock(c, st, sid, Acquire(ark))
    ensures Inv(c, DoLock(c, st, sid, Acquire(ark)))
  {
    var st' := DoLock(c, st, sid, Acquire(ark));
    assert forall s :: s in st.sessions ==> s != sid && st'.sessions[s] == st.sessions[s];
    assert forall s :: Live(st', s) <==> s == sid || Live(st, s);
    assert forall s :: s in st.sessions ==> ArkOf(st', s) == ArkOf(st, s);
  }

  lemma UnlockKeepsInv(c: Config, st: Sys, sid: SessionId, step: SessionStep)
    requires step.LoseConnection? || step.Release?
    requires Inv(c, st) && CanLock(c, st, sid, step)
    ensures Inv(c, DoLock(c, st, sid, step))
  {
    var st' := DoLock(c, st, sid, step);
    assert forall s :: s in st'.sessions ==>
             ArkOf(st', s) == ArkOf(st, s) && st'.sessions[s].snap == st.sessions[s].snap;
    assert forall s :: Live(st', s) <==> s != sid && Live(st, s);
  }

  lemma LockKeepsInv(c: Config, st: Sys, sid: SessionId, step: SessionStep)
    requires Inv(c, st) && CanLock(c, st, sid, step)
    ensures Inv(c, DoLock(c, st, sid, step))
  {
    match step
    case Acquire(ark) => AcquireKeepsInv(c, st, sid, ark);
    case LoseConnection => UnlockKeepsInv(c, st, sid, step);
    case Release => UnlockKeepsInv(c, st, sid, step);
    case ReadRow(kind, now) =>
      assert RowOk(c, st.logs, ArkOf(st, sid), st.rows[ArkOf(st, sid)]);
      EditKeepsInv(c, st, sid, SnapFresh(kind, st.rows[ArkOf(st, sid)]));
  }

  // ---------- external calls ----------

  /** A document the store took, with whatever CID it answered. */
  lemma AcceptKeepsInv(c: Config, st: Sys, sid: SessionId, document: Document, cid: Cid, snap: Snap)
    requires Inv(c, st) && sid in st.sessions && st.sessions[sid].snap.Some? && snap.row == SnapOf(st, sid).row
    requires SnapOk(c, Accept(st, document, cid).logs, ArkOf(st, sid), snap)
    ensures Inv(c, EditSnap(Accept(st, document, cid), sid, snap))
  {
    InvExtends(c, st, Accept(st, document, cid).logs);
    EditKeepsInv(c, Accept(st, document, cid), sid, snap);
  }

  lemma StoreKeepsInv(c: Config, st: Sys, sid: SessionId, step: CallStep)
    requires step.StoreLevel2? || step.StoreLevel1?
    requires Inv(c, st) && CanCall(c, st, sid, step)
    ensures Inv(c, DoCall(c, st, sid, step))
  {
    var snap := SnapOf(st, sid);
    var m := snap.row.meta.value;
    assert SnapOk(c, st.logs, ArkOf(st, sid), snap);
    if step.StoreLevel2? {
      AcceptKeepsInv(c, st, sid, Level2Of(m), step.cid, snap.(level2Cid := Some(step.cid)));
    } else {
      AcceptKeepsInv(c, st, sid, Level1Of(m, snap.level2Cid.value), step.cid, snap.(level1Cid := Some(step.cid)));
    }
  }

  lemma RepairKeepsInv(c: Config, st: Sys, sid: SessionId, levelTwo: bool, cid: Cid, now: Time)
    requires Inv(c, st) && CanRepair(c, st, sid, levelTwo, now)
    ensures Inv(c, DoRepair(c, st, sid, levelTwo, cid, now))
  {
    var snap := SnapOf(st, sid);
    var m := snap.row.meta.value;
    assert SnapOk(c, st.logs, ArkOf(st, sid), snap);
    var document := if levelTwo then Level2Of(m) else Level1Of(m, m.level2Cid.value);
    SnapOkExtends(c, st.logs, Accept(st, document, cid).logs, ArkOf(st, sid), snap);
    AcceptKeepsInv(c, st, sid, document, cid, snap.(repaired := true));
    AcceptKeepsInv(c, st, sid, document, cid, snap.(abandoned := true));
  }

  lemma CallKeepsInv(c: Config, st: Sys, sid: SessionId, step: CallStep)
    requires Inv(c, st) && CanCall(c, st, sid, step)
    ensures Inv(c, DoCall(c, st, sid, step))
  {
    var snap := SnapOf(st, sid);
    assert SnapOk(c, st.logs, ArkOf(st, sid), snap);
    match step
    case StoreLevel2(_) => StoreKeepsInv(c, st, sid, step);
    case StoreLevel1(_) => StoreKeepsInv(c, st, sid, step);
    case Observe(o1, o2) => EditKeepsInv(c, st, sid, snap.(pins := Some((o1, o2))));
    case Repair(levelTwo, cid, now) => RepairKeepsInv(c, st, sid, levelTwo, cid, now);
    case SendOperation =>
      EditKeepsInv(c, st, sid, snap.(sent := true));
      SubmittedKeepsInv(c, EditSnap(st, sid, snap.(sent := true)), SubmissionOf(ArkOf(st, sid), snap.row));
  }

  // ---------- worker commits ----------

  /** What a lock holder compares after its I/O has not moved. */
  lemma HolderSeesItsRow(c: Config, st: Sys, sid: SessionId, kind: Kind)
    requires Inv(c, st) && Committing(st, sid, kind)
    ensures st.rows[ArkOf(st, sid)] == SnapOf(st, sid).row
    ensures SnapOk(c, st.logs, ArkOf(st, sid), SnapOf(st, sid))
  {
  }

  lemma SettledOk(c: Config, st: Sys, item: Item, result: PipelineResult, ev: Evidence,
                  read: Reply<Option<ChainRecord>>, evAgain: Evidence, now: Time)
    requires Inv(c, st) && item in st.items
    requires ResultHonest(st, item, result) && Honest(st, item.ark, read)
    ensures RowOk(c, st.logs, item.ark, Apply(st.rows[item.ark], ItemVerdict(st, item, result, ev, read, evAgain), now))
  {
    var row := st.rows[item.ark];
    assert RowOk(c, st.logs, item.ark, row);
    if ItemIsCurrent(row, item) {
      VerdictOk(c, st.logs, item.ark, row, ItemVerdict(st, item, result, ev, read, evAgain), now);
    }
  }

  lemma SentOk(c: Config, st: Sys, sid: SessionId, raised: Option<Exn>, ev: Evidence,
               read: Reply<Option<ChainRecord>>, evAgain: Evidence, now: Time)
    requires Inv(c, st) && CanCommitSent(st, sid, raised, read)
    ensures RowOk(c, st.logs, ArkOf(st, sid),
                  Apply(st.rows[ArkOf(st, sid)], SentVerdict(st, sid, raised, ev, read, evAgain), now))
  {
    HolderSeesItsRow(c, st, sid, Send);
    VerdictOk(c, st.logs, ArkOf(st, sid), st.rows[ArkOf(st, sid)], SentVerdict(st, sid, raised, ev, read, evAgain),
              now);
  }

  lemma WorkRowOk(c: Config, st: Sys, sid: SessionId, step: WorkStep)
    requires Inv(c, st) && CanWork(c, st, sid, step)
    ensures RowOk(c, WorkLogs(c, st, sid, step), ArkOf(st, sid), WorkRow(c, st, sid, step))
  {
    var ark := ArkOf(st, sid);
    var row := st.rows[ark];
    match step
    case CommitPersisted =>
      HolderSeesItsRow(c, st, sid, Persist);
      PersistedOk(c, st.logs, ark, SnapOf(st, sid));
    case PersistRaised(exn, now) =>
      HolderSeesItsRow(c, st, sid, Persist);
      DeferredOk(c, st.logs, ark, row, StorageUnavailable, MINUTE, now);
      FailureOk(c, st.logs, ark, row, StorageInvalidResponse, now);
    case CommitAudited(now, later) =>
      HolderSeesItsRow(c, st, sid, Audit);
      var snap := SnapOf(st, sid);
      AuditedOk(c, st.logs, ark, row, snap.pins.value.0, snap.pins.value.1, snap.repaired, now, later);
    case AuditRaised(now) =>
      HolderSeesItsRow(c, st, sid, Audit);
      DeferredOk(c, st.logs, ark, row, ReplicationUnavailable, c.firstPin[0], now);
    case FailUnassigned(now) =>
      HolderSeesItsRow(c, st, sid, SnapOf(st, sid).kind);
      FailureOk(c, st.logs, ark, row, AuthorityNotFound, now);
    case CommitSent(raised, ev, read, evAgain, now) => SentOk(c, st, sid, raised, ev, read, evAgain, now);
    case SettleItem(item, result, ev, read, evAgain, now) => SettledOk(c, st, item, result, ev, read, evAgain, now);
    case DropUnassigned(item, now) => FailureOk(c, st.logs, ark, row, AuthorityNotFound, now);
  }

  lemma WorkKeepsInv(c: Config, st: Sys, sid: SessionId, step: WorkStep)
    requires Inv(c, st) && CanWork(c, st, sid, step)
    ensures Inv(c, DoWork(c, st, sid, step))
  {
    var logs := WorkLogs(c, st, sid, step);
    var row := WorkRow(c, st, sid, step);
    InvExtends(c, st, logs);
    WorkRowOk(c, st, sid, step);
    WriteKeepsInv(c, st.(logs := logs), sid, row);
  }

  // ---------- API commits ----------

  lemma ArchiveKeepsInv(c: Config, st: Sys, more: set<Superseded>)
    requires Inv(c, st) && forall a :: a in more ==> SupersededOk(c, st.logs, a)
    ensures Inv(c, st.(archive := st.archive + more))
  {
    var st' := st.(archive := st.archive + more);
    assert forall s :: Live(st', s) == Live(st, s);
  }

  lemma BaseOk(c: Config, st: Sys, sid: SessionId)
    requires Inv(c, st) && Live(st, sid)
    ensures Base(st, sid).Some? ==> RowOk(c, st.logs, ArkOf(st, sid), Base(st, sid).value)
    ensures Base(st, sid) == if ArkOf(st, sid) in st.rows then Some(st.rows[ArkOf(st, sid)]) else None
  {
  }

  lemma PutKeepsInv(c: Config, st: Sys, sid: SessionId, req: PutRequest, known: Reply<bool>, ev: Evidence, now: Time)
    requires Inv(c, st) && CanPut(st, sid, req, known, ev, now)
    ensures Inv(c, DoPut(st, sid, req, known, ev, now))
  {
    var more := st.logs.(puts := st.logs.puts + {req.origin});
    var st1 := st.(logs := more);
    InvExtends(c, st, more);
    BaseOk(c, st1, sid);
    PutOk(c, more, ArkOf(st, sid), Base(st, sid), req, known, ev, now);
    var effect := PutOutcome(st, sid, req, known, ev, now).value;
    var superseded := Superseding(ArkOf(st, sid), req.origin.authority, effect.archived);
    ArchiveKeepsInv(c, st1, superseded);
    WriteKeepsInv(c, st1.(archive := st.archive + superseded), sid, effect.row);
  }

  lemma DeleteKeepsInv(c: Config, st: Sys, sid: SessionId, caller: Authority, ev: Evidence, evAgain: Evidence)
    requires Inv(c, st) && CanDelete(st, sid, caller, ev, evAgain)
    ensures Inv(c, DoDelete(st, sid, caller, ev, evAgain))
  {
    BaseOk(c, st, sid);
    DeleteOk(c, st.logs, ArkOf(st, sid), Base(st, sid), caller, ev, evAgain);
    var effect := Delete(Base(st, sid), caller, ev, evAgain).value;
    var superseded := Superseding(ArkOf(st, sid), caller, effect.archived);
    ArchiveKeepsInv(c, st, superseded);
    WriteKeepsInv(c, st.(archive := st.archive + superseded), sid, effect.row);
  }

  lemma RequestKeepsInv(c: Config, st: Sys, sid: SessionId, step: ApiStep)
    requires Inv(c, st) && CanRequest(st, sid, step)
    ensures Inv(c, DoRequest(st, sid, step))
  {
    match step
    case CommitPut(req, known, ev, now) => PutKeepsInv(c, st, sid, req, known, ev, now);
    case CommitDelete(caller, ev, evAgain) => DeleteKeepsInv(c, st, sid, caller, ev, evAgain);
    case CommitRetry(caller, ev) =>
      BaseOk(c, st, sid);
      RetriedOk(c, st.logs, ArkOf(st, sid), Base(st, sid).value, caller, ev);
      WriteKeepsInv(c, st, sid, Retried(Base(st, sid).value));
  }

  // ---------- every step, every run ----------

  lemma StepKeepsInv(c: Config, st: Sys, step: Step)
    requires Inv(c, st) && Enabled(c, st, step)
    ensures Inv(c, Do(c, st, step))
  {
    match step
    case World(s) => WorldKeepsInv(c, st, s);
    case Lock(sid, s) => LockKeepsInv(c, st, sid, s);
    case Call(sid, s) => CallKeepsInv(c, st, sid, s);
    case Work(sid, s) => WorkKeepsInv(c, st, sid, s);
    case Request(sid, s) => RequestKeepsInv(c, st, sid, s);
  }

  lemma {:induction false} RunKeepsInv(c: Config, st: Sys, steps: seq<Step>)
    requires Inv(c, st) && Runs(c, st, steps)
    ensures Inv(c, After(c, st, steps))
    decreases |steps|
  {
    if steps != [] {
      StepKeepsInv(c, st, steps[0]);
      RunKeepsInv(c, Do(c, st, steps[0]), steps[1..]);
    }
  }

  /** Every state of every run, under any interleaving, crash and lost connection. */
  lemma Reachable(c: Config, steps: seq<Step>)
    requires Runs(c, Initial(), steps)
    ensures Inv(c, After(c, Initial(), steps))
  {
    RunKeepsInv(c, Initial(), steps);
  }
}
