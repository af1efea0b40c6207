/** What the invariant gives: the guarantees of the publication protocol over all runs. */
module ProtocolTheorems {
  import opened Wrappers
  import opened ArkTypes
  import opened ArkRow
  import opened Lifecycle
  import opened Verdicts
  import opened Protocol
  import opened ProtocolInvariant
  import opened ProtocolPreservation

  // ---------- locks ----------

  /** Two live sessions never hold the same lock key, so never the same ARK, even when keys collide. */
  lemma MutualExclusion(c: Config, steps: seq<Step>, a: SessionId, b: SessionId)
    requires Runs(c, Initial(), steps)
    requires var st := After(c, Initial(), steps);
             Live(st, a) && Live(st, b) && c.lockKey(ArkOf(st, a)) == c.lockKey(ArkOf(st, b))
    ensures a == b
  {
    Reachable(c, steps);
  }

  /** Only the live holder of an ARK's lock ever changes its row; rows are never removed. */
  lemma OnlyTheHolderWrites(c: Config, steps: seq<Step>, step: Step, ark: Ark)
    requires Runs(c, Initial(), steps) && Enabled(c, After(c, Initial(), steps), step)
    requires ark in After(c, Initial(), steps).rows
    ensures var st := After(c, Initial(), steps);
            && ark in Do(c, st, step).rows
            && (Do(c, st, step).rows[ark] != st.rows[ark] ==>
                  && (step.Work? || step.Request?)
                  && Live(st, step.sid) && ArkOf(st, step.sid) == ark
                  && c.lockKey(ark) in st.locks && st.locks[c.lockKey(ark)] == step.sid)
  {
    hide Runs, After;
    var st := After(c, Initial(), steps);
    Reachable(c, steps);
    match step
    case World(s) =>
    case Lock(sid, s) =>
    case Call(sid, s) =>
    case Work(sid, s) => assert Live(st, sid);
    case Request(sid, s) => assert Live(st, sid);
  }

  /** The comparisons made after the external calls always succeed, in every run. */
  lemma ComparisonsSucceed(c: Config, steps: seq<Step>, sid: SessionId, kind: Kind)
    requires Runs(c, Initial(), steps) && Committing(After(c, Initial(), steps), sid, kind)
    ensures var st := After(c, Initial(), steps);
            var row := st.rows[ArkOf(st, sid)];
            && row == SnapOf(st, sid).row
            && (kind == Audit ==> CidsAgree(row, SnapOf(st, sid).row))
            && (kind == Send ==> StillSending(row, SnapOf(st, sid).row))
  {
    Reachable(c, steps);
    HolderSeesItsRow(c, After(c, Initial(), steps), sid, kind);
  }

  // ---------- publication ----------

  /** The metadata an operation was built from is the payload its record was selected, or read, with. */
  predicate OwnPayload(s: Submission) {
    && s.record.meta.Some? && s.metadata.origin == s.record.meta.value.origin
    && s.metadata.level1Cid == s.record.meta.value.level1Cid && s.metadata.level2Cid == s.record.meta.value.level2Cid
  }

  /** It goes out under the name of its submitter, to the target that was submitted with it. */
  predicate RightlySigned(s: Submission) {
    s.metadata.origin.authority == s.signer && s.metadata.origin.target == s.target
  }

  /**
   * The store took the Level-1 document and the Level-2 document it embeds, the record's counts for exactly these two
   * CIDs were both at least publish_after, and the operation is the submitter's own.
   */
  ghost predicate Justified(c: Config, logs: Logs, s: Submission) {
    && OwnPayload(s) && RightlySigned(s)
    && var m := s.record.meta.value;
       && m.level1Cid == Some(s.cid) && CountsReach(m, c.publishAfter)
       && Stored(logs, m.origin, m.level1Cid, m.level2Cid)
       && Qualification(s.ark, m.origin, s.cid, m.level2Cid.value) in logs.qualified
  }

  lemma OwnIsJustified(c: Config, logs: Logs, s: Submission)
    requires SubmissionOk(c, logs, s) && OwnPayload(s)
    ensures Justified(c, logs, s)
  {
  }

  /**
   * Publication integrity: at the moment an operation is handed to the chain client the evidence already exists,
   * always for a single-ARK attempt, by a session that still holds its lock or has lost it, and for a pipeline item
   * whenever its two reads saw the same payload. Module ProtocolItems says exactly when they do.
   */
  lemma PublicationIntegrity(c: Config, steps: seq<Step>, step: Step, s: Submission)
    requires Runs(c, Initial(), steps) && Enabled(c, After(c, Initial(), steps), step)
    requires var st := After(c, Initial(), steps); s in Do(c, st, step).submitted && s !in st.submitted
    ensures step.Call? || step.World?
    ensures step.Call? || OwnPayload(s) ==> Justified(c, After(c, Initial(), steps).logs, s)
  {
    hide Runs, After;
    var st := After(c, Initial(), steps);
    Reachable(c, steps);
    if step.World? {
      assert SelectedOk(c, st.logs, step.world.item.ark, step.world.item.record);
    } else {
      assert step.Call? && step.call.SendOperation?;
      assert SnapOk(c, st.logs, ArkOf(st, step.sid), SnapOf(st, step.sid));
    }
    assert SubmissionOk(c, st.logs, s);
    if OwnPayload(s) {
      OwnIsJustified(c, st.logs, s);
    }
  }

  /** A qualification is only ever written with the row that records both counts for exactly those CIDs. */
  lemma QualifiedWhenRecorded(c: Config, steps: seq<Step>, step: Step, q: Qualification)
    requires Runs(c, Initial(), steps) && Enabled(c, After(c, Initial(), steps), step)
    requires var st := After(c, Initial(), steps); q in Do(c, st, step).logs.qualified && q !in st.logs.qualified
    ensures var st := After(c, Initial(), steps);
            && step.Work? && step.work.CommitAudited? && Live(st, step.sid) && q.ark == ArkOf(st, step.sid)
            && PinsShow(st, step.sid, c.publishAfter)
            && var after := Do(c, st, step);
               && q.ark in after.rows && after.rows[q.ark].meta.Some?
               && var m := after.rows[q.ark].meta.value;
                  && CountsReach(m, c.publishAfter)
                  && m.origin == q.origin && m.level1Cid == Some(q.level1Cid) && m.level2Cid == Some(q.level2Cid)
  {
    hide Runs, After;
    var st := After(c, Initial(), steps);
    Reachable(c, steps);
    match step
    case World(s) =>
    case Lock(sid, s) =>
    case Call(sid, s) =>
    case Work(sid, s) =>
    case Request(sid, s) =>
  }

  /** The two pins this session observed show at least `n` replicas each. */
  predicate PinsShow(st: Sys, sid: SessionId, n: nat) {
    && Busy(st, sid, Audit) && SnapOf(st, sid).pins.Some?
    && SnapOf(st, sid).pins.value.0.total >= n && SnapOf(st, sid).pins.value.1.total >= n
  }

  /**
   * The rest of the evidence: a payload is purged only by a commit of a session that observed the target on both pins.
   */
  lemma PurgedWhenObserved(c: Config, steps: seq<Step>, step: Step, ark: Ark)
    requires Runs(c, Initial(), steps) && Enabled(c, After(c, Initial(), steps), step)
    requires var st := After(c, Initial(), steps);
             && ark in st.rows && st.rows[ark].meta.Some? && st.rows[ark].meta.value.level1Json.Some?
             && ark in Do(c, st, step).rows && Do(c, st, step).rows[ark].meta.Some?
             && Do(c, st, step).rows[ark].meta.value.level1Json.None?
    ensures var st := After(c, Initial(), steps);
            && step.Work? && step.work.CommitAudited? && Live(st, step.sid) && ark == ArkOf(st, step.sid)
            && PinsShow(st, step.sid, c.targetReplicas)
            && st.rows[ark].state == Published && st.rows[ark].stage == Replication
            && Do(c, st, step).rows[ark].stage == Complete
            && Do(c, st, step).rows[ark].meta.value.origin == st.rows[ark].meta.value.origin
  {
    var st := After(c, Initial(), steps);
    Reachable(c, steps);
    hide Runs, After, Inv, WorkRow, WorkLogs, Put, Delete, Retry, DoRequest;
    if step.Work? && ark == ArkOf(st, step.sid) {
      WorkPurges(c, st, step.sid, step.work);
    } else if step.Request? && ark == ArkOf(st, step.sid) {
      RequestKeepsPayload(c, st, step.sid, step.request);
    } else {
      ElsewhereStays(c, st, step, ark);
    }
  }

  lemma ElsewhereStays(c: Config, st: Sys, step: Step, ark: Ark)
    requires Enabled(c, st, step) && ark in st.rows
    requires step.Work? || step.Request? ==> ArkOf(st, step.sid) != ark
    ensures Do(c, st, step).rows[ark] == st.rows[ark]
  {
    hide WorkRow, WorkLogs, Put, Delete, Retry;
  }

  lemma RequestKeepsPayload(c: Config, st: Sys, sid: SessionId, step: ApiStep)
    requires Inv(c, st) && CanRequest(st, sid, step) && ArkOf(st, sid) in st.rows
    requires st.rows[ArkOf(st, sid)].meta.Some? && st.rows[ArkOf(st, sid)].meta.value.level1Json.Some?
    ensures var after := DoRequest(st, sid, step).rows[ArkOf(st, sid)];
            after.meta.Some? ==> after.meta.value.level1Json.Some?
  {
    BaseOk(c, st, sid);
    hide Inv, RequireCurrentOwner;
  }

  lemma WorkPurges(c: Config, st: Sys, sid: SessionId, step: WorkStep)
    requires Inv(c, st) && CanWork(c, st, sid, step)
    requires st.rows[ArkOf(st, sid)].meta.Some? && st.rows[ArkOf(st, sid)].meta.value.level1Json.Some?
    requires WorkRow(c, st, sid, step).meta.Some? && WorkRow(c, st, sid, step).meta.value.level1Json.None?
    ensures step.CommitAudited? && PinsShow(st, sid, c.targetReplicas)
    ensures st.rows[ArkOf(st, sid)].state == Published && st.rows[ArkOf(st, sid)].stage == Replication
    ensures WorkRow(c, st, sid, step).stage == Complete
    ensures WorkRow(c, st, sid, step).meta.value.origin == st.rows[ArkOf(st, sid)].meta.value.origin
  {
    hide Pipeline, Single, ScheduledDelay, PinReason;
    if step.CommitAudited? {
      HolderSeesItsRow(c, st, sid, Audit);
      assert RowOk(c, st.logs, ArkOf(st, sid), st.rows[ArkOf(st, sid)]);
    }
    hide Inv;
  }

  /** No false PUBLISHED: the chain once held exactly the row's target and Level-1 CID. */
  lemma NoFalsePublished(c: Config, steps: seq<Step>, ark: Ark)
    requires Runs(c, Initial(), steps) && ark in After(c, Initial(), steps).rows
    ensures var st := After(c, Initial(), steps);
            var row := st.rows[ark];
            row.state == Published ==>
              && row.stage in {Replication, Complete} && row.target.Some? && HasBothCids(row)
              && (ark, row.target.value, row.meta.value.level1Cid.value) in st.logs.held
  {
    Reachable(c, steps);
    var st := After(c, Initial(), steps);
    assert RowOk(c, st.logs, ark, st.rows[ark]);
  }

  /** Purge safety: a payload is gone only when both levels are, after publication and full replication. */
  lemma PurgeSafety(c: Config, steps: seq<Step>, ark: Ark)
    requires Runs(c, Initial(), steps) && ark in After(c, Initial(), steps).rows
    requires After(c, Initial(), steps).rows[ark].meta.Some?
    ensures var st := After(c, Initial(), steps);
            var row := st.rows[ark];
            var m := row.meta.value;
            && (m.level1Json.None? <==> m.content.None?)
            && (m.level1Json.None? <==> row.stage == Complete)
            && (m.level1Json.None? ==>
                  && row.state in {Published, Tombstone}
                  && CountsReach(m, c.targetReplicas)
                  && Stored(st.logs, m.origin, m.level1Cid, m.level2Cid)
                  && row.target.Some? && (ark, row.target.value, m.level1Cid.value) in st.logs.held)
  {
    Reachable(c, steps);
    var st := After(c, Initial(), steps);
    assert RowOk(c, st.logs, ark, st.rows[ark]);
  }

  // ---------- stages ----------

  function NextStage(s: Stage): Stage {
    match s
    case NoStage => Metadata
    case Metadata => Availability
    case Availability => Chain
    case Chain => Replication
    case Replication => Complete
    case Complete => Complete
  }

  /** One worker commit: at most one stage forward, and PUBLISHED exactly when CHAIN is left. */
  predicate OneStage(row: Row, after: Row) {
    && (after.stage == row.stage || after.stage == NextStage(row.stage))
    && (after.stage != row.stage ==> after.status == if after.stage == Complete then Done else Ready)
    && (after.state != row.state <==> row.stage == Chain && after.stage == Replication)
    && (after.state != row.state ==> row.state in {Draft, Update} && after.state == Published)
  }

  lemma VerdictOneStage(row: Row, v: Verdict, now: Time)
    requires v.Publish? ==> Sending(row)
    ensures OneStage(row, Apply(row, v, now))
  {
  }

  lemma SettlementOneStage(c: Config, st: Sys, item: Item, result: PipelineResult, ev: Evidence,
                           read: Reply<Option<ChainRecord>>, evAgain: Evidence, now: Time)
    requires Inv(c, st) && item in st.items
    ensures OneStage(st.rows[item.ark], Apply(st.rows[item.ark], ItemVerdict(st, item, result, ev, read, evAgain), now))
  {
    assert SelectedOk(c, st.logs, item.ark, item.record);
    VerdictOneStage(st.rows[item.ark], ItemVerdict(st, item, result, ev, read, evAgain), now);
  }

  lemma SentOneStage(c: Config, st: Sys, sid: SessionId, raised: Option<Exn>, ev: Evidence,
                     read: Reply<Option<ChainRecord>>, evAgain: Evidence, now: Time)
    requires Inv(c, st) && CanCommitSent(st, sid, raised, read)
    ensures var row := st.rows[ArkOf(st, sid)];
            OneStage(row, Apply(row, SentVerdict(st, sid, raised, ev, read, evAgain), now))
  {
    HolderSeesItsRow(c, st, sid, Send);
    VerdictOneStage(st.rows[ArkOf(st, sid)], SentVerdict(st, sid, raised, ev, read, evAgain), now);
  }

  lemma WorkersAdvanceOneStage(c: Config, steps: seq<Step>, sid: SessionId, step: WorkStep)
    requires Runs(c, Initial(), steps) && CanWork(c, After(c, Initial(), steps), sid, step)
    ensures var st := After(c, Initial(), steps);
            OneStage(st.rows[ArkOf(st, sid)], DoWork(c, st, sid, step).rows[ArkOf(st, sid)])
  {
    hide Runs, After;
    var st := After(c, Initial(), steps);
    Reachable(c, steps);
    if step.SettleItem? {
      SettlementOneStage(c, st, step.item, step.result, step.ev, step.read, step.evAgain, step.now);
    } else if step.CommitSent? {
      SentOneStage(c, st, sid, step.raised, step.ev, step.read, step.evAgain, step.now);
    } else if step.CommitPersisted? {
      HolderSeesItsRow(c, st, sid, Persist);
    } else if step.CommitAudited? {
      HolderSeesItsRow(c, st, sid, Audit);
    }
  }

  /** Which public states, stages and statuses can be seen together, in every reachable state. */
  lemma StatesAndStages(c: Config, steps: seq<Step>, ark: Ark)
    requires Runs(c, Initial(), steps) && ark in After(c, Initial(), steps).rows
    ensures var row := After(c, Initial(), steps).rows[ark];
            && (row.stage in {Metadata, Availability, Chain} ==> row.state in {Draft, Update, Tombstone})
            && (row.stage in {Replication, Complete} ==> row.state in {Published, Tombstone})
            && (row.state == Tombstone ==> row.status != Ready && row.status != Waiting)
            && (row.state in {Draft, Update} ==>
                  row.status == Ready || row.status == Failed || (row.status == Waiting && row.nextAt.Some?))
            && (row.status == Failed ==> row.error.Some? && !Retryable(row.error.value))
  {
    Reachable(c, steps);
    var st := After(c, Initial(), steps);
    assert RowOk(c, st.logs, ark, st.rows[ark]);
  }

  datatype Queue = PersistQueue | FirstPinQueue | DurabilityQueue | ChainQueue

  predicate Selects(q: Queue, row: Row, now: Time) {
    match q
    case PersistQueue => PersistSelects(row, now)
    case FirstPinQueue => AuditSelects(row, Availability, now)
    case DurabilityQueue => AuditSelects(row, Replication, now)
    case ChainQueue => ChainSelects(row, now)
  }

  predicate Admits(q: Queue, row: Row, now: Time) {
    match q
    case PersistQueue => PersistGuard(row, now)
    case FirstPinQueue => AuditGuard(row, now)
    case DurabilityQueue => AuditGuard(row, now)
    case ChainQueue => SendGuard(row, now)
  }

  /**
   * No lost work: a queue selects a row exactly when it is due and at the queue's stage, and what it selects passes
   * that worker's check under the lock. So a due row is selected by exactly one queue if and only if its stage is not
   * COMPLETE. Rows of state D or U are never COMPLETE.
   */
  lemma EveryDueRowHasOneQueue(c: Config, steps: seq<Step>, ark: Ark, now: Time)
    requires Runs(c, Initial(), steps) && ark in After(c, Initial(), steps).rows
    ensures var row := After(c, Initial(), steps).rows[ark];
            var due := row.status == Ready || (row.status == Waiting && row.nextAt.Some? && row.nextAt.value <= now);
            && (Selects(PersistQueue, row, now) <==> due && row.stage == Metadata)
            && (Selects(FirstPinQueue, row, now) <==> due && row.stage == Availability)
            && (Selects(ChainQueue, row, now) <==> due && row.stage == Chain)
            && (Selects(DurabilityQueue, row, now) <==> due && row.stage == Replication)
            && (forall q :: Selects(q, row, now) ==> Admits(q, row, now))
            && (due ==> row.stage in {Metadata, Availability, Chain, Replication, Complete})
            && (row.state in {Draft, Update} ==> row.stage != Complete)
  {
    Reachable(c, steps);
    var st := After(c, Initial(), steps);
    assert RowOk(c, st.logs, ark, st.rows[ark]);
  }

  // ---------- authority provenance ----------

  /**
   * Every payload is in the hands of the authority that submitted it, and an operation that carries its record's own
   * payload is sent under that authority's name.
   */
  lemma Provenance(c: Config, steps: seq<Step>)
    requires Runs(c, Initial(), steps)
    ensures var st := After(c, Initial(), steps);
            && (forall ark :: ark in st.rows && st.rows[ark].meta.Some? ==>
                  var o := st.rows[ark].meta.value.origin;
                  o in st.logs.puts && o.ark == ark && o.authority == st.rows[ark].authority)
            && (forall s :: s in st.submitted ==>
                  && s.metadata.origin in st.logs.puts && s.metadata.origin.ark == s.ark
                  && (OwnPayload(s) ==> RightlySigned(s)))
  {
    Reachable(c, steps);
    var st := After(c, Initial(), steps);
    forall ark | ark in st.rows && st.rows[ark].meta.Some?
      ensures var o := st.rows[ark].meta.value.origin;
              o in st.logs.puts && o.ark == ark && o.authority == st.rows[ark].authority
    {
      assert RowOk(c, st.logs, ark, st.rows[ark]);
    }
    forall s | s in st.submitted
      ensures s.metadata.origin in st.logs.puts && s.metadata.origin.ark == s.ark
              && (OwnPayload(s) ==> RightlySigned(s))
    {
      assert SubmissionOk(c, st.logs, s);
    }
  }

  /** The new row of a take-over: archived predecessor, and no payload but the one just submitted. */
  lemma PutTakesOver(base: Option<Row>, req: PutRequest, known: Reply<bool>, ev: Evidence, now: Time)
    requires Put(base, req, known, ev, now).Ok?
    ensures var effect := Put(base, req, known, ev, now).value;
            && effect.row.authority == req.origin.authority
            && effect.row.meta.Some? && effect.row.meta.value.origin == req.origin
            && (base.Some? && base.value.authority != req.origin.authority ==> effect.archived == base)
  {
  }

  lemma DeleteTakesOver(base: Option<Row>, caller: Authority, ev: Evidence, evAgain: Evidence)
    requires Delete(base, caller, ev, evAgain).Ok?
    ensures var effect := Delete(base, caller, ev, evAgain).value;
            && base.Some? && effect.row.authority == caller
            && (base.value.authority != caller ==> effect.archived == base && effect.row.meta.None?)
  {
  }

  /** A commit that changes a row's authority archives the old row and keeps nothing of its payload. */
  lemma TakeOverArchives(c: Config, steps: seq<Step>, step: Step, ark: Ark)
    requires Runs(c, Initial(), steps) && Enabled(c, After(c, Initial(), steps), step)
    requires var st := After(c, Initial(), steps);
             && ark in st.rows && ark in Do(c, st, step).rows
             && Do(c, st, step).rows[ark].authority != st.rows[ark].authority
    ensures var st := After(c, Initial(), steps);
            var st' := Do(c, st, step);
            && Superseded(ark, st.rows[ark].authority, st'.rows[ark].authority, st.rows[ark]) in st'.archive
            && (st'.rows[ark].meta.Some? ==>
                  && step.Request? && step.request.CommitPut?
                  && st'.rows[ark].meta.value.origin == step.request.req.origin
                  && step.request.req.origin.authority == st'.rows[ark].authority)
  {
    hide Runs, After;
    var st := After(c, Initial(), steps);
    Reachable(c, steps);
    OnlyTheHolderWrites(c, steps, step, ark);
    assert step.Request?;
    var sid := step.sid;
    BaseOk(c, st, sid);
    match step.request
    case CommitPut(req, known, ev, now) => PutTakesOver(Base(st, sid), req, known, ev, now);
    case CommitDelete(caller, ev, evAgain) => DeleteTakesOver(Base(st, sid), caller, ev, evAgain);
    case CommitRetry(caller, ev) =>
  }

  // ---------- content addressing and repair ----------

  /** The store is deterministic: the CID it answers is a function of the document. */
  ghost predicate Deterministic(logs: Logs, hash: Document -> Cid) {
    forall d, cid :: (d, cid) in logs.accepted ==> cid == hash(d)
  }

  /** From AVAILABILITY to REPLICATION the retained payload regenerates exactly the row's two CIDs. */
  lemma PayloadRegeneratesCids(c: Config, steps: seq<Step>, ark: Ark, hash: Document -> Cid)
    requires Runs(c, Initial(), steps) && ark in After(c, Initial(), steps).rows
    requires Deterministic(After(c, Initial(), steps).logs, hash)
    ensures var row := After(c, Initial(), steps).rows[ark];
            && (row.meta.Some? <==> row.stage != NoStage)
            && (row.stage == Metadata ==> row.meta.value.level1Cid.None? && row.meta.value.level2Cid.None?)
            && (row.stage in {Availability, Chain, Replication} ==>
                  var m := row.meta.value;
                  && m.content.Some? && m.level1Json.Some? && HasBothCids(row)
                  && hash(Level2Of(m)) == m.level2Cid.value
                  && hash(Level1Of(m, m.level2Cid.value)) == m.level1Cid.value)
  {
    Reachable(c, steps);
    var st := After(c, Initial(), steps);
    assert RowOk(c, st.logs, ark, st.rows[ark]);
  }

  /** So a repair never reports a different CID. */
  lemma RepairReturnsTheSameCid(c: Config, steps: seq<Step>, sid: SessionId, levelTwo: bool, cid: Cid, now: Time,
                                hash: Document -> Cid)
    requires Runs(c, Initial(), steps)
    requires CanRepair(c, After(c, Initial(), steps), sid, levelTwo, now)
    requires Deterministic(DoRepair(c, After(c, Initial(), steps), sid, levelTwo, cid, now).logs, hash)
    ensures var st' := DoRepair(c, After(c, Initial(), steps), sid, levelTwo, cid, now);
            SnapOf(st', sid).repaired && !SnapOf(st', sid).abandoned
  {
    Reachable(c, steps);
    var st := After(c, Initial(), steps);
    var snap := SnapOf(st, sid);
    var m := snap.row.meta.value;
    assert SnapOk(c, st.logs, ArkOf(st, sid), snap);
    var document := if levelTwo then Level2Of(m) else Level1Of(m, m.level2Cid.value);
    var st' := DoRepair(c, st, sid, levelTwo, cid, now);
    assert (document, cid) in st'.logs.accepted;
    assert (Level2Of(m), m.level2Cid.value) in st'.logs.accepted;
    assert (Level1Of(m, m.level2Cid.value), m.level1Cid.value) in st'.logs.accepted;
  }

  /**
   * Both documents of one submission as the store may have taken them, whoever stored them and whatever became of it.
   */
  ghost predicate StoredFor(logs: Logs, o: Origin, level1Cid: Cid, level2Cid: Cid) {
    && (Level2Document(o.content, o.mediaType, o.schema), level2Cid) in logs.accepted
    && (Level1Document(o.fields, level2Cid), level1Cid) in logs.accepted
  }

  /**
   * A crash between store and commit is harmless: whatever any attempt on a submission had stored, alive, dead or long
   * forgotten, the CIDs a row or a later attempt has for that submission are the same.
   */
  lemma RetriedPersistenceAgrees(c: Config, steps: seq<Step>, o: Origin, level1Cid: Cid, level2Cid: Cid,
                                 hash: Document -> Cid)
    requires Runs(c, Initial(), steps) && Deterministic(After(c, Initial(), steps).logs, hash)
    requires StoredFor(After(c, Initial(), steps).logs, o, level1Cid, level2Cid)
    ensures var st := After(c, Initial(), steps);
            && (forall ark :: ark in st.rows && st.rows[ark].meta.Some? && st.rows[ark].meta.value.origin == o ==>
                  st.rows[ark].stage == Metadata
                  || (&& st.rows[ark].meta.value.level1Cid == Some(level1Cid)
                      && st.rows[ark].meta.value.level2Cid == Some(level2Cid)))
            && (forall sid ::
                  && Busy(st, sid, Persist) && SnapOf(st, sid).row.meta.Some?
                  && SnapOf(st, sid).row.meta.value.origin == o ==>
                  && (SnapOf(st, sid).level2Cid.Some? ==> SnapOf(st, sid).level2Cid.value == level2Cid)
                  && (SnapOf(st, sid).level1Cid.Some? ==> SnapOf(st, sid).level1Cid.value == level1Cid))
  {
    Reachable(c, steps);
    var st := After(c, Initial(), steps);
    hide Runs, After;
    forall ark | ark in st.rows && st.rows[ark].meta.Some? && st.rows[ark].meta.value.origin == o
      && st.rows[ark].stage != Metadata
      ensures st.rows[ark].meta.value.level1Cid == Some(level1Cid)
              && st.rows[ark].meta.value.level2Cid == Some(level2Cid)
    {
      assert RowOk(c, st.logs, ark, st.rows[ark]);
    }
    forall sid | Busy(st, sid, Persist) && SnapOf(st, sid).row.meta.Some? && SnapOf(st, sid).row.meta.value.origin == o
      ensures SnapOf(st, sid).level2Cid.Some? ==> SnapOf(st, sid).level2Cid.value == level2Cid
      ensures SnapOf(st, sid).level1Cid.Some? ==> SnapOf(st, sid).level1Cid.value == level1Cid
    {
      assert SnapOk(c, st.logs, ArkOf(st, sid), SnapOf(st, sid));
    }
  }

  // ---------- verdicts in the protocol ----------

  lemma SettledRow(row: Row, current: bool, target: string, cid: Cid, result: PipelineResult, ev: Evidence,
                   read: Reply<Option<ChainRecord>>, evAgain: Evidence, now: Time)
    ensures var after := Apply(row, Pipeline(current, result, target, cid, ev, read, evAgain), now);
            if !current then after == row
            else
              && after.status in {Ready, Waiting, Failed}
              && (result.status == Confirmed ==> after == PublishedRow(row))
              && (after.status == Failed ==> Conclusive(ev) || result.status == Reverted)
              && (after.status == Waiting ==> after.attempts == row.attempts)
              && (after.status == Ready ==>
                    after.state == Published
                    && (result.status == Confirmed || (read.Returned? && Matches(read.value, target, cid))))
  {
    if result.status == Reverted {
      RevertedVerdict(row, result, target, cid, ev, read, evAgain, now);
    } else if result.status != Confirmed {
      UnresolvedVerdict(row, result, target, cid, ev, read, evAgain, now);
    }
  }

  /**
   * A settled pipeline item fails a row only on conclusive evidence or a revert; anything else unresolved
   * leaves the attempt count alone. An item leaves the row alone unless authority, state, target and Level-1 CID are
   * still those it was selected with, and the row is still at CHAIN.
   */
  lemma SettlementIsSound(c: Config, steps: seq<Step>, sid: SessionId, step: WorkStep)
    requires Runs(c, Initial(), steps) && step.SettleItem? && CanWork(c, After(c, Initial(), steps), sid, step)
    ensures var st := After(c, Initial(), steps);
            var row := st.rows[ArkOf(st, sid)];
            var after := DoWork(c, st, sid, step).rows[ArkOf(st, sid)];
            var item := step.item.record;
            var current := row.authority == item.authority && row.state == item.state && row.target == item.target
                           && row.stage == Chain && row.meta.Some?
                           && row.meta.value.level1Cid == step.item.metadata.level1Cid;
            && (!current ==> after == row)
            && (current ==>
                  && after.status in {Ready, Waiting, Failed}
                  && (step.result.status == Confirmed ==> after == PublishedRow(row))
                  && (after.status == Failed ==> Conclusive(step.ev) || step.result.status == Reverted)
                  && (after.status == Waiting ==> after.attempts == row.attempts)
                  && (after.status == Ready ==>
                        && after.state == Published && row.target.Some? && HasBothCids(row)
                        && (step.item.ark, row.target.value, row.meta.value.level1Cid.value) in st.logs.held))
  {
    hide Runs, After, Pipeline, Apply, Conclusive;
    var st := After(c, Initial(), steps);
    Reachable(c, steps);
    var item := step.item;
    var row := st.rows[item.ark];
    assert SelectedOk(c, st.logs, item.ark, item.record) && RowOk(c, st.logs, item.ark, row);
    SettledRow(row, ItemIsCurrent(row, item), item.record.target.value, item.metadata.level1Cid.value,
               step.result, step.ev, step.read, step.evAgain, step.now);
  }

  // ---------- history ----------

  lemma {:induction false} HistoryGrows(c: Config, st: Sys, steps: seq<Step>)
    requires Runs(c, st, steps)
    ensures var end := After(c, st, steps);
            && Extends(st.logs, end.logs) && st.submitted <= end.submitted && st.archive <= end.archive
            && st.rows.Keys <= end.rows.Keys
    decreases |steps|
  {
    if steps != [] {
      HistoryGrows(c, Do(c, st, steps[0]), steps[1..]);
    }
  }
}
