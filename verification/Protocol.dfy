/**
 * The publication protocol as a transition system: API calls, three workers, lost connections, a store
 * that may answer with any CID, and a chain that anybody may write. Every database commit is one step
 * and every external call is another, so all interleavings and crashes between them are runs.
 */
module Protocol {
  import opened Wrappers
  import opened ArkTypes
  import opened ArkRow
  import opened Lifecycle
  import opened Verdicts

  type SessionId = nat

  /** A commit recorded replica counts of at least publish_after for exactly these two CIDs of this submission. */
  datatype Qualification = Qualification(ark: Ark, origin: Origin, level1Cid: Cid, level2Cid: Cid)

  /**
   * What has happened so far; entries are never removed. `accepted`: documents the store took, with the CID
   * it answered. `held`: every (ARK, target, CID) the chain has ever held. `puts`: accepted submissions.
   */
  datatype Logs = Logs(
    accepted: set<(Document, Cid)>,
    held: set<(Ark, string, Cid)>,
    puts: set<Origin>,
    qualified: set<Qualification>)

  datatype Kind = Persist | Audit | Send | Api

  /** What a session remembers between reading its row and committing. */
  datatype Snap = Snap(
    kind: Kind,
    row: Row,
    level2Cid: Option<Cid>,      // Persist: CIDs obtained so far
    level1Cid: Option<Cid>,
    pins: Option<(Pin, Pin)>,    // Audit: Level-1 and Level-2 observation
    repaired: bool,
    abandoned: bool,             // Audit: a repair answered with another CID
    sent: bool)                  // Send: the chain call was made

  /** A database session bound to one connection; it dies with the connection, its thread may not notice. */
  datatype Session = Session(ark: Ark, alive: bool, snap: Option<Snap>)

  /** A record on the page of a chain cycle, as the selecting query saw it. */
  datatype Selected = Selected(ark: Ark, record: Row)

  /**
   * A pipeline item of the chain worker, read without the lock by two queries: authority, state and target come from
   * the selected record, the CID from the metadata row as a later query found it.
   */
  datatype Item = Item(ark: Ark, record: Row, metadata: Meta)

  /** One operation handed to the chain client, with the record and the metadata it was built from. */
  datatype Submission = Submission(signer: Authority, create: bool, ark: Ark, target: string, cid: Cid,
                                   record: Row, metadata: Meta)

  datatype Superseded = Superseded(ark: Ark, original: Authority, replacement: Authority, row: Row)

  datatype Sys = Sys(
    rows: map<Ark, Row>,
    locks: map<int, SessionId>,
    sessions: map<SessionId, Session>,
    page: set<Selected>,
    items: set<Item>,
    submitted: set<Submission>,
    archive: set<Superseded>,
    logs: Logs)

  /** What happens outside any ARK procedure. */
  datatype WorldStep =
    | Reserve(ark: Ark, authority: Authority, clientItem: Option<string>)
    | ChainHolds(ark: Ark, target: string, cid: Cid)
    | SelectRecord(ark: Ark, now: Time)
    | ReadMetadata(selected: Selected)
    | SubmitItem(item: Item)

  /** The life of a session. */
  datatype SessionStep =
    | Acquire(ark: Ark)
    | LoseConnection
    | Release
    | ReadRow(kind: Kind, now: Time)

  /** External calls by a session that is, or believes it is, holding its lock. */
  datatype CallStep =
    | StoreLevel2(cid: Cid)
    | StoreLevel1(cid: Cid)
    | Observe(o1: Pin, o2: Pin)
    | Repair(levelTwo: bool, cid: Cid, now: Time)
    | SendOperation

  /** Commits of the three workers. */
  datatype WorkStep =
    | CommitPersisted
    | PersistRaised(exn: Exn, now: Time)
    | CommitAudited(now: Time, later: Time)
    | AuditRaised(now: Time)
    | FailUnassigned(now: Time)
    | CommitSent(raised: Option<Exn>, ev: Evidence, read: Reply<Option<ChainRecord>>, evAgain: Evidence, now: Time)
    | SettleItem(item: Item, result: PipelineResult, ev: Evidence, read: Reply<Option<ChainRecord>>,
                 evAgain: Evidence, now: Time)
    | DropUnassigned(item: Item, now: Time)

  /** Commits of the API. */
  datatype ApiStep =
    | CommitPut(req: PutRequest, known: Reply<bool>, ev: Evidence, now: Time)
    | CommitDelete(caller: Authority, ev: Evidence, evAgain: Evidence)
    | CommitRetry(caller: Authority, ev: Evidence)

  datatype Step =
    | World(world: WorldStep)
    | Lock(sid: SessionId, lock: SessionStep)
    | Call(sid: SessionId, call: CallStep)
    | Work(sid: SessionId, work: WorkStep)
    | Request(sid: SessionId, request: ApiStep)

  function Initial(): Sys {
    Sys(map[], map[], map[], {}, {}, {}, {}, Logs({}, {}, {}, {}))
  }

  // ---------- helpers ----------

  predicate Live(st: Sys, sid: SessionId) {
    sid in st.sessions && st.sessions[sid].alive
  }

  /** A session, dead or alive, in the middle of a procedure of this kind. */
  predicate Busy(st: Sys, sid: SessionId, kind: Kind) {
    sid in st.sessions && st.sessions[sid].snap.Some? && st.sessions[sid].snap.value.kind == kind
  }

  function SnapOf(st: Sys, sid: SessionId): Snap
    requires sid in st.sessions && st.sessions[sid].snap.Some?
  {
    st.sessions[sid].snap.value
  }

  function ArkOf(st: Sys, sid: SessionId): Ark
    requires sid in st.sessions
  {
    st.sessions[sid].ark
  }

  /** A row about to be committed by a live session that has read it. */
  predicate Committing(st: Sys, sid: SessionId, kind: Kind) {
    Live(st, sid) && Busy(st, sid, kind) && ArkOf(st, sid) in st.rows
  }

  predicate Honest(st: Sys, ark: Ark, read: Reply<Option<ChainRecord>>) {
    read.Returned? && read.value.Some? ==> (ark, read.value.value.url, read.value.value.cid) in st.logs.held
  }

  predicate CidsAgree(row: Row, snap: Row) {
    && row.meta.Some? && snap.meta.Some?
    && row.meta.value.level1Cid == snap.meta.value.level1Cid
    && row.meta.value.level2Cid == snap.meta.value.level2Cid
  }

  /** The comparison publish_single_ark makes after the chain call. */
  predicate StillSending(row: Row, snap: Row) {
    && row.state == snap.state && row.stage == Chain
    && row.meta.Some? && snap.meta.Some? && row.meta.value.level1Cid == snap.meta.value.level1Cid
  }

  /** _pipeline_item_is_current. */
  predicate ItemIsCurrent(row: Row, item: Item) {
    && row.authority == item.record.authority && row.state == item.record.state && row.target == item.record.target
    && row.stage == Chain
    && row.meta.Some? && row.meta.value.level1Cid == item.metadata.level1Cid
  }

  /** What an operation is built from: a target and usable CIDs. */
  predicate Usable(record: Row, metadata: Meta) { record.target.Some? && CidsUsable(metadata) }

  predicate Sendable(row: Row) { row.meta.Some? && Usable(row, row.meta.value) }

  predicate ItemSendable(item: Item) { Usable(item.record, item.metadata) }

  function Operation(ark: Ark, record: Row, metadata: Meta): Submission
    requires Usable(record, metadata)
  {
    Submission(record.authority, record.state == Draft, ark, record.target.value, metadata.level1Cid.value, record,
               metadata)
  }

  /** A single-ARK attempt reads record and metadata under the lock. */
  function SubmissionOf(ark: Ark, row: Row): Submission
    requires Sendable(row)
  {
    Operation(ark, row, row.meta.value)
  }

  function ItemOperation(item: Item): Submission
    requires ItemSendable(item)
  {
    Operation(item.ark, item.record, item.metadata)
  }

  function SnapFresh(kind: Kind, row: Row): Snap {
    Snap(kind, row, None, None, None, false, false, false)
  }

  predicate GuardOf(kind: Kind, row: Row, now: Time) {
    match kind
    case Persist => PersistGuard(row, now) && row.meta.Some?
    case Audit => AuditGuard(row, now)
    case Send => SendGuard(row, now)
    case Api => true
  }

  /** What an API call decides on: the row it read, or the row that appeared since it found none. */
  function Base(st: Sys, sid: SessionId): Option<Row>
    requires sid in st.sessions
  {
    if st.sessions[sid].snap.Some? then Some(SnapOf(st, sid).row)
    else if ArkOf(st, sid) in st.rows then Some(st.rows[ArkOf(st, sid)])
    else None
  }

  function EditSnap(st: Sys, sid: SessionId, snap: Snap): Sys
    requires sid in st.sessions
  {
    st.(sessions := st.sessions[sid := st.sessions[sid].(snap := Some(snap))])
  }

  /** Commit one row and forget what was read. */
  function WriteRow(st: Sys, sid: SessionId, row: Row): Sys
    requires sid in st.sessions
  {
    st.(rows := st.rows[ArkOf(st, sid) := row],
        sessions := st.sessions[sid := st.sessions[sid].(snap := None)])
  }

  function Accept(st: Sys, d: Document, cid: Cid): Sys {
    st.(logs := st.logs.(accepted := st.logs.accepted + {(d, cid)}))
  }

  function Superseding(ark: Ark, caller: Authority, archived: Option<Row>): set<Superseded> {
    if archived.Some? then {Superseded(ark, archived.value.authority, caller, archived.value)} else {}
  }

  // ---------- the metadata worker ----------

  predicate CanStore2(st: Sys, sid: SessionId) {
    && Busy(st, sid, Persist) && SnapOf(st, sid).level2Cid.None? && SnapOf(st, sid).row.meta.Some?
    && var m := SnapOf(st, sid).row.meta.value;
       m.level2Cid.Some? || CanStoreLevel2(m)
  }

  /** A CID the row already has is used again; otherwise the document is stored. */
  function DoStore2(st: Sys, sid: SessionId, cid: Cid): Sys
    requires CanStore2(st, sid)
  {
    var snap := SnapOf(st, sid);
    var m := snap.row.meta.value;
    if m.level2Cid.Some? then EditSnap(st, sid, snap.(level2Cid := m.level2Cid))
    else EditSnap(Accept(st, Level2Of(m), cid), sid, snap.(level2Cid := Some(cid)))
  }

  predicate CanStore1(st: Sys, sid: SessionId) {
    && Busy(st, sid, Persist) && SnapOf(st, sid).level2Cid.Some? && SnapOf(st, sid).level1Cid.None?
    && SnapOf(st, sid).row.meta.Some?
    && var m := SnapOf(st, sid).row.meta.value;
       m.level1Cid.Some? || m.level1Json.Some?
  }

  function DoStore1(st: Sys, sid: SessionId, cid: Cid): Sys
    requires CanStore1(st, sid)
  {
    var snap := SnapOf(st, sid);
    var m := snap.row.meta.value;
    if m.level1Cid.Some? then EditSnap(st, sid, snap.(level1Cid := m.level1Cid))
    else EditSnap(Accept(st, Level1Of(m, snap.level2Cid.value), cid), sid, snap.(level1Cid := Some(cid)))
  }

  predicate CanCommitPersisted(st: Sys, sid: SessionId) {
    && Committing(st, sid, Persist)
    && SnapOf(st, sid).level2Cid.Some? && SnapOf(st, sid).level1Cid.Some?
    && st.rows[ArkOf(st, sid)].meta.Some?
  }

  function PersistFailure(row: Row, exn: Exn, now: Time): Row {
    if IsInfrastructureError(exn) then Deferred(row, StorageUnavailable, MINUTE, now)
    else MarkFailed(row, StorageInvalidResponse, now)
  }

  // ---------- the replication worker ----------

  predicate CanRepair(c: Config, st: Sys, sid: SessionId, levelTwo: bool, now: Time) {
    && Busy(st, sid, Audit) && SnapOf(st, sid).pins.Some? && !SnapOf(st, sid).abandoned
    && HasUsableCids(SnapOf(st, sid).row)
    && var m := SnapOf(st, sid).row.meta.value;
       var pins := SnapOf(st, sid).pins.value;
       && NeedsRepair(if levelTwo then pins.1 else pins.0, RepairAllowed(c, m, now))
       && (if levelTwo then CanStoreLevel2(m) else m.level1Json.Some?)
  }

  function DoRepair(c: Config, st: Sys, sid: SessionId, levelTwo: bool, cid: Cid, now: Time): Sys
    requires CanRepair(c, st, sid, levelTwo, now)
  {
    var snap := SnapOf(st, sid);
    var m := snap.row.meta.value;
    var document := if levelTwo then Level2Of(m) else Level1Of(m, m.level2Cid.value);
    var expected := if levelTwo then m.level2Cid.value else m.level1Cid.value;
    EditSnap(Accept(st, document, cid), sid,
             if cid == expected then snap.(repaired := true) else snap.(abandoned := true))
  }

  predicate CanCommitAudited(c: Config, st: Sys, sid: SessionId) {
    && ValidConfig(c)
    && Committing(st, sid, Audit) && SnapOf(st, sid).pins.Some? && !SnapOf(st, sid).abandoned
    && HasUsableCids(SnapOf(st, sid).row)
    && CidsAgree(st.rows[ArkOf(st, sid)], SnapOf(st, sid).row)
  }

  function Qualifies(c: Config, ark: Ark, row: Row): set<Qualification> {
    if HasBothCids(row)
       && row.meta.value.level1Count.Some? && row.meta.value.level1Count.value >= c.publishAfter
       && row.meta.value.level2Count.Some? && row.meta.value.level2Count.value >= c.publishAfter
    then {Qualification(ark, row.meta.value.origin, row.meta.value.level1Cid.value, row.meta.value.level2Cid.value)}
    else {}
  }

  function AuditedRow(c: Config, st: Sys, sid: SessionId, now: Time, later: Time): Row
    requires CanCommitAudited(c, st, sid)
  {
    var snap := SnapOf(st, sid);
    Audited(c, st.rows[ArkOf(st, sid)], snap.pins.value.0, snap.pins.value.1, snap.repaired, now, later)
  }

  // ---------- the chain worker ----------

  /** A call that returned took effect. */
  predicate SendHonest(st: Sys, ark: Ark, row: Row, raised: Option<Exn>) {
    raised.None? && Sendable(row) ==> (ark, row.target.value, row.meta.value.level1Cid.value) in st.logs.held
  }

  predicate CanCommitSent(st: Sys, sid: SessionId, raised: Option<Exn>, read: Reply<Option<ChainRecord>>) {
    && Committing(st, sid, Send) && SnapOf(st, sid).sent && Sendable(SnapOf(st, sid).row)
    && SendHonest(st, ArkOf(st, sid), SnapOf(st, sid).row, raised)
    && Honest(st, ArkOf(st, sid), read)
  }

  function SentVerdict(st: Sys, sid: SessionId, raised: Option<Exn>, ev: Evidence,
                       read: Reply<Option<ChainRecord>>, evAgain: Evidence): Verdict
    requires CanCommitSent(st, sid, raised, read)
  {
    var snap := SnapOf(st, sid).row;
    var v := Single(raised, snap.target.value, snap.meta.value.level1Cid.value, ev, read, evAgain);
    if v.Publish? && !StillSending(st.rows[ArkOf(st, sid)], snap) then Untouched else v
  }

  /** A confirmed result means the submitted write took effect. */
  predicate ResultHonest(st: Sys, item: Item, result: PipelineResult) {
    result.status == Confirmed && ItemSendable(item) ==>
      (item.ark, item.record.target.value, item.metadata.level1Cid.value) in st.logs.held
  }

  predicate CanSettle(st: Sys, sid: SessionId, item: Item, result: PipelineResult, read: Reply<Option<ChainRecord>>) {
    && Live(st, sid) && st.sessions[sid].snap.None? && ArkOf(st, sid) == item.ark
    && item in st.items && item.ark in st.rows && ItemSendable(item)
    && ResultHonest(st, item, result) && Honest(st, item.ark, read)
  }

  function ItemVerdict(st: Sys, item: Item, result: PipelineResult, ev: Evidence,
                       read: Reply<Option<ChainRecord>>, evAgain: Evidence): Verdict
    requires item.ark in st.rows && ItemSendable(item)
  {
    Pipeline(ItemIsCurrent(st.rows[item.ark], item), result,
             item.record.target.value, item.metadata.level1Cid.value, ev, read, evAgain)
  }

  // ---------- API calls ----------

  function PutOutcome(st: Sys, sid: SessionId, req: PutRequest, known: Reply<bool>, ev: Evidence,
                      now: Time): Result<Effect, ApiError>
    requires sid in st.sessions
  {
    Put(Base(st, sid), req, known, ev, now)
  }

  predicate CanPut(st: Sys, sid: SessionId, req: PutRequest, known: Reply<bool>, ev: Evidence, now: Time) {
    && Live(st, sid) && (st.sessions[sid].snap.None? || Busy(st, sid, Api))
    && req.origin.ark == ArkOf(st, sid) && req.origin !in st.logs.puts
    && PutOutcome(st, sid, req, known, ev, now).Ok?
  }

  function DoPut(st: Sys, sid: SessionId, req: PutRequest, known: Reply<bool>, ev: Evidence, now: Time): Sys
    requires CanPut(st, sid, req, known, ev, now)
  {
    var effect := PutOutcome(st, sid, req, known, ev, now).value;
    WriteRow(st, sid, effect.row).(
      logs := st.logs.(puts := st.logs.puts + {req.origin}),
      archive := st.archive + Superseding(ArkOf(st, sid), req.origin.authority, effect.archived))
  }

  predicate CanDelete(st: Sys, sid: SessionId, caller: Authority, ev: Evidence, evAgain: Evidence) {
    && Committing(st, sid, Api)
    && Delete(Base(st, sid), caller, ev, evAgain).Ok?
  }

  function DoDelete(st: Sys, sid: SessionId, caller: Authority, ev: Evidence, evAgain: Evidence): Sys
    requires CanDelete(st, sid, caller, ev, evAgain)
  {
    var effect := Delete(Base(st, sid), caller, ev, evAgain).value;
    WriteRow(st, sid, effect.row).(archive := st.archive + Superseding(ArkOf(st, sid), caller, effect.archived))
  }

  predicate CanRetry(st: Sys, sid: SessionId, caller: Authority, ev: Evidence) {
    Committing(st, sid, Api) && Retry(Base(st, sid), caller, ev).Ok?
  }

  // ---------- steps and runs ----------

  /** The item built when the metadata row of a selected record is read. */
  function ItemRead(st: Sys, selected: Selected): Item
    requires selected.ark in st.rows && st.rows[selected.ark].meta.Some?
  {
    Item(selected.ark, selected.record, st.rows[selected.ark].meta.value)
  }

  predicate CanWorld(st: Sys, step: WorldStep) {
    match step
    case Reserve(ark, authority, clientItem) => ark !in st.rows
    case ChainHolds(ark, target, cid) => true
    case SelectRecord(ark, now) => ark in st.rows && ChainSelects(st.rows[ark], now)
    case ReadMetadata(selected) =>
      selected in st.page && selected.ark in st.rows && HasUsableCids(st.rows[selected.ark])
    case SubmitItem(item) => item in st.items && ItemSendable(item)
  }

  function DoWorld(st: Sys, step: WorldStep): Sys
    requires CanWorld(st, step)
  {
    match step
    case Reserve(ark, authority, clientItem) => st.(rows := st.rows[ark := NewReserved(authority, clientItem)])
    case ChainHolds(ark, target, cid) => st.(logs := st.logs.(held := st.logs.held + {(ark, target, cid)}))
    case SelectRecord(ark, now) => st.(page := st.page + {Selected(ark, st.rows[ark])})
    case ReadMetadata(selected) => st.(items := st.items + {ItemRead(st, selected)})
    case SubmitItem(item) => st.(submitted := st.submitted + {ItemOperation(item)})
  }

  predicate CanLock(c: Config, st: Sys, sid: SessionId, step: SessionStep) {
    match step
    case Acquire(ark) => sid !in st.sessions && c.lockKey(ark) !in st.locks
    case LoseConnection => Live(st, sid)
    case Release => sid in st.sessions
    case ReadRow(kind, now) =>
      && Live(st, sid) && st.sessions[sid].snap.None? && ArkOf(st, sid) in st.rows
      && GuardOf(kind, st.rows[ArkOf(st, sid)], now)
  }

  function Unlock(c: Config, st: Sys, sid: SessionId): map<int, SessionId>
    requires sid in st.sessions
  {
    if st.sessions[sid].alive then st.locks - {c.lockKey(ArkOf(st, sid))} else st.locks
  }

  function DoLock(c: Config, st: Sys, sid: SessionId, step: SessionStep): (after: Sys)
    requires CanLock(c, st, sid, step)
    ensures after.rows == st.rows && after.logs == st.logs
    ensures after.submitted == st.submitted && after.archive == st.archive
  {
    match step
    case Acquire(ark) =>
      st.(locks := st.locks[c.lockKey(ark) := sid], sessions := st.sessions[sid := Session(ark, true, None)])
    case LoseConnection =>
      st.(locks := Unlock(c, st, sid), sessions := st.sessions[sid := st.sessions[sid].(alive := false)])
    case Release => st.(locks := Unlock(c, st, sid), sessions := st.sessions - {sid})
    case ReadRow(kind, now) => EditSnap(st, sid, SnapFresh(kind, st.rows[ArkOf(st, sid)]))
  }

  predicate CanCall(c: Config, st: Sys, sid: SessionId, step: CallStep) {
    match step
    case StoreLevel2(cid) => CanStore2(st, sid)
    case StoreLevel1(cid) => CanStore1(st, sid)
    case Observe(o1, o2) => Busy(st, sid, Audit) && SnapOf(st, sid).pins.None?
    case Repair(levelTwo, cid, now) => CanRepair(c, st, sid, levelTwo, now)
    case SendOperation => Busy(st, sid, Send) && !SnapOf(st, sid).sent && Sendable(SnapOf(st, sid).row)
  }

  function DoCall(c: Config, st: Sys, sid: SessionId, step: CallStep): (after: Sys)
    requires CanCall(c, st, sid, step)
    ensures after.rows == st.rows && after.locks == st.locks && after.archive == st.archive
    ensures after.logs == st.logs.(accepted := after.logs.accepted) && st.logs.accepted <= after.logs.accepted
    ensures step.SendOperation? || after.submitted == st.submitted
  {
    match step
    case StoreLevel2(cid) => DoStore2(st, sid, cid)
    case StoreLevel1(cid) => DoStore1(st, sid, cid)
    case Observe(o1, o2) => EditSnap(st, sid, SnapOf(st, sid).(pins := Some((o1, o2))))
    case Repair(levelTwo, cid, now) => DoRepair(c, st, sid, levelTwo, cid, now)
    case SendOperation =>
      EditSnap(st, sid, SnapOf(st, sid).(sent := true)).(
        submitted := st.submitted + {SubmissionOf(ArkOf(st, sid), SnapOf(st, sid).row)})
  }

  predicate CanWork(c: Config, st: Sys, sid: SessionId, step: WorkStep) {
    match step
    case CommitPersisted => CanCommitPersisted(st, sid)
    case PersistRaised(exn, now) => Committing(st, sid, Persist)
    case CommitAudited(now, later) => CanCommitAudited(c, st, sid)
    case AuditRaised(now) => Committing(st, sid, Audit) && ValidConfig(c)
    case FailUnassigned(now) => Committing(st, sid, Audit) || Committing(st, sid, Send)
    case CommitSent(raised, ev, read, evAgain, now) => CanCommitSent(st, sid, raised, read)
    case SettleItem(item, result, ev, read, evAgain, now) => CanSettle(st, sid, item, result, read)
    case DropUnassigned(item, now) =>
      && Live(st, sid) && st.sessions[sid].snap.None? && ArkOf(st, sid) == item.ark
      && item in st.items && item.ark in st.rows && st.rows[item.ark].authority == item.record.authority
  }

  /** The row a worker's commit leaves for its ARK. */
  function WorkRow(c: Config, st: Sys, sid: SessionId, step: WorkStep): (after: Row)
    requires CanWork(c, st, sid, step)
    ensures after.authority == st.rows[ArkOf(st, sid)].authority
    ensures after.state == st.rows[ArkOf(st, sid)].state || after.state == Published
  {
    var row := st.rows[ArkOf(st, sid)];
    match step
    case CommitPersisted => Persisted(row, SnapOf(st, sid).level1Cid.value, SnapOf(st, sid).level2Cid.value)
    case PersistRaised(exn, now) => PersistFailure(row, exn, now)
    case CommitAudited(now, later) => AuditedRow(c, st, sid, now, later)
    case AuditRaised(now) => Deferred(row, ReplicationUnavailable, c.firstPin[0], now)
    case FailUnassigned(now) => MarkFailed(row, AuthorityNotFound, now)
    case CommitSent(raised, ev, read, evAgain, now) =>
      Apply(row, SentVerdict(st, sid, raised, ev, read, evAgain), now)
    case SettleItem(item, result, ev, read, evAgain, now) =>
      Apply(row, ItemVerdict(st, item, result, ev, read, evAgain), now)
    case DropUnassigned(item, now) => MarkFailed(row, AuthorityNotFound, now)
  }

  function WorkLogs(c: Config, st: Sys, sid: SessionId, step: WorkStep): Logs
    requires CanWork(c, st, sid, step)
  {
    if step.CommitAudited? then
      st.logs.(qualified :=
               st.logs.qualified + Qualifies(c, ArkOf(st, sid), AuditedRow(c, st, sid, step.now, step.later)))
    else st.logs
  }

  function DoWork(c: Config, st: Sys, sid: SessionId, step: WorkStep): (after: Sys)
    requires CanWork(c, st, sid, step)
    ensures after.locks == st.locks && after.submitted == st.submitted && after.archive == st.archive
  {
    WriteRow(st.(logs := WorkLogs(c, st, sid, step)), sid, WorkRow(c, st, sid, step))
  }

  predicate CanRequest(st: Sys, sid: SessionId, step: ApiStep) {
    match step
    case CommitPut(req, known, ev, now) => CanPut(st, sid, req, known, ev, now)
    case CommitDelete(caller, ev, evAgain) => CanDelete(st, sid, caller, ev, evAgain)
    case CommitRetry(caller, ev) => CanRetry(st, sid, caller, ev)
  }

  function DoRequest(st: Sys, sid: SessionId, step: ApiStep): (after: Sys)
    requires CanRequest(st, sid, step)
    ensures after.locks == st.locks && after.submitted == st.submitted && st.archive <= after.archive
    ensures after.logs == st.logs.(puts := after.logs.puts) && st.logs.puts <= after.logs.puts
  {
    match step
    case CommitPut(req, known, ev, now) => DoPut(st, sid, req, known, ev, now)
    case CommitDelete(caller, ev, evAgain) => DoDelete(st, sid, caller, ev, evAgain)
    case CommitRetry(caller, ev) => WriteRow(st, sid, Retry(Base(st, sid), caller, ev).value)
  }

  predicate Enabled(c: Config, st: Sys, step: Step) {
    match step
    case World(s) => CanWorld(st, s)
    case Lock(sid, s) => CanLock(c, st, sid, s)
    case Call(sid, s) => CanCall(c, st, sid, s)
    case Work(sid, s) => CanWork(c, st, sid, s)
    case Request(sid, s) => CanRequest(st, sid, s)
  }

  function Do(c: Config, st: Sys, step: Step): Sys
    requires Enabled(c, st, step)
  {
    match step
    case World(s) => DoWorld(st, s)
    case Lock(sid, s) => DoLock(c, st, sid, s)
    case Call(sid, s) => DoCall(c, st, sid, s)
    case Work(sid, s) => DoWork(c, st, sid, s)
    case Request(sid, s) => DoRequest(st, sid, s)
  }

  /** `steps` can be taken one after the other from `st`. */
  predicate Runs(c: Config, st: Sys, steps: seq<Step>)
    decreases |steps|
  {
    steps == [] || (Enabled(c, st, steps[0]) && Runs(c, Do(c, st, steps[0]), steps[1..]))
  }

  function After(c: Config, st: Sys, steps: seq<Step>): Sys
    requires Runs(c, st, steps)
    decreases |steps|
  {
    if steps == [] then st else After(c, Do(c, st, steps[0]), steps[1..])
  }
}
