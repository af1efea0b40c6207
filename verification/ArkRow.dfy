/**
 * What each operation does to one ARK row: the specification functions that the repository,
 * the workers and the transition system of module Protocol share.
 */
module ArkRow {
  import opened Wrappers
  import opened ArkTypes

  // ---------- readiness and selection ----------

  predicate ReadyForProcessing(row: Row, now: Time) {
    match row.status
    case Ready => true
    case Waiting => row.nextAt.Some? && row.nextAt.value <= now
    case _ => false
  }

  predicate HasBothCids(row: Row) {
    row.meta.Some? && row.meta.value.level1Cid.Some? && row.meta.value.level2Cid.Some?
  }

  /** What the workers ask before they use the CIDs: present, and not the empty string. */
  predicate CidsUsable(m: Meta) {
    && m.level1Cid.Some? && m.level2Cid.Some?
    && m.level1Cid.value != "" && m.level2Cid.value != ""
  }

  predicate HasUsableCids(row: Row) { row.meta.Some? && CidsUsable(row.meta.value) }

  /** SQL selector of the metadata worker. */
  predicate PersistSelects(row: Row, now: Time) {
    && row.state in {Draft, Update} && row.stage == Metadata
    && row.meta.Some? && !HasBothCids(row)
    && ReadyForProcessing(row, now)
  }

  /** SQL selector of the replication worker for one of its two stages; it does not look at the state. */
  predicate AuditSelects(row: Row, stage: Stage, now: Time) {
    row.stage == stage && HasBothCids(row) && ReadyForProcessing(row, now)
  }

  /** SQL selector of the chain worker. */
  predicate ChainSelects(row: Row, now: Time) {
    && row.state in {Draft, Update} && row.stage == Chain
    && HasBothCids(row)
    && ReadyForProcessing(row, now)
  }

  /** Checks repeated after the lock is taken. */
  predicate PersistGuard(row: Row, now: Time) {
    row.state in {Draft, Update} && row.stage == Metadata && ReadyForProcessing(row, now)
  }

  predicate AuditGuard(row: Row, now: Time) {
    && row.state in {Draft, Update, Published}
    && row.stage in {Availability, Replication}
    && ReadyForProcessing(row, now)
  }

  predicate SendGuard(row: Row, now: Time) {
    row.state in {Draft, Update} && row.stage == Chain && ReadyForProcessing(row, now)
  }

  // ---------- creation ----------

  function NewReserved(authority: Authority, clientItem: Option<string>): Row {
    Row(Reserved, authority, None, NoStage, Done, 0, None, NoReason, None, clientItem, None)
  }

  function ImportedPublished(authority: Authority, url: string): Row {
    Row(Published, authority, Some(url), NoStage, Done, 0, None, NoReason, None, None, None)
  }

  // ---------- staging, tombstone, retry, ownership ----------

  function FreshMeta(prior: Option<Meta>, o: Origin, now: Time): Meta {
    match prior
    case Some(m) =>
      m.(level1Json := Some(o.fields), content := Some(o.content), schema := o.schema, mediaType := o.mediaType,
         level1Cid := None, level2Cid := None, level1Count := None, level2Count := None, origin := o)
    case None =>
      Meta(Some(o.fields), None, Some(o.content), o.mediaType, o.schema, None, None, None, 0, None, now, o)
  }

  /** create_or_update_metadata: new content restarts the workflow at METADATA. */
  function StageMetadata(row: Row, o: Origin, now: Time): Row {
    row.(meta := Some(FreshMeta(row.meta, o, now)), stage := Metadata, status := Ready, attempts := 0,
         nextAt := None, reason := NoReason, error := None)
  }

  function Tombstoned(row: Row): Row {
    if row.state == Tombstone then row
    else row.(state := Tombstone, status := Cancelled, nextAt := None, reason := NoReason)
  }

  function Retried(row: Row): Row {
    row.(status := Ready, nextAt := None, reason := NoReason, attempts := 0)
  }

  /** The record as the new owner gets it: published, at rest, without the old owner's payload. */
  function Reconciled(row: Row, authority: Authority, url: string): Row {
    row.(authority := authority, state := Published, target := Some(url), clientItem := None, stage := NoStage,
         status := Done, reason := NoReason, attempts := 0, error := None, nextAt := None, meta := None)
  }

  // ---------- failures ----------

  /** mark_processing_failed: the catalogue, not the caller, decides whether the failure is permanent. */
  function MarkFailed(row: Row, code: ErrorCode, now: Time): Row {
    if Retryable(code) then
      row.(attempts := row.attempts + 1, error := Some(code), status := Waiting,
           nextAt := Some(now + MINUTE), reason := StorageBackoff)
    else
      row.(attempts := row.attempts + 1, error := Some(code), status := Failed,
           nextAt := None, reason := NoReason)
  }

  /**
   * A failure that the catalogue calls final leaves the row FAILED; any other lets it wait a minute for another try.
   */
  lemma MarkFailedMeans(row: Row, code: ErrorCode, now: Time)
    ensures var final := {CidMismatch, ChainReverted, AuthorityNotFound, AuthorizationFailed, ChainStateConflict};
            MarkFailed(row, code, now)
            == if code in final
               then row.(status := Failed, error := Some(code), attempts := row.attempts + 1, nextAt := None,
                         reason := NoReason)
               else row.(status := Waiting, error := Some(code), attempts := row.attempts + 1,
                         nextAt := Some(now + 60_000_000), reason := StorageBackoff)
  {
  }

  /** defer_processing_retry: wait without consuming an attempt. */
  function Deferred(row: Row, code: ErrorCode, delay: Time, now: Time): Row {
    row.(status := Waiting, nextAt := Some(now + if delay < 0 then 0 else delay),
         reason := StorageBackoff, error := Some(code))
  }

  // ---------- worker advances ----------

  function Persisted(row: Row, level1Cid: Cid, level2Cid: Cid): Row
    requires row.meta.Some?
  {
    var m := row.meta.value.(level1Cid := Some(level1Cid), level2Cid := Some(level2Cid),
                             level1Count := None, level2Count := None, observations := 0);
    row.(meta := Some(m), stage := Availability, status := Ready, attempts := 0,
         nextAt := None, reason := NoReason, error := None)
  }

  function PublishedRow(row: Row): Row {
    row.(state := Published, stage := Replication, status := Ready, attempts := 0,
         nextAt := None, reason := NoReason, error := None)
  }

  function Min(a: nat, b: nat): nat { if a <= b then a else b }

  function CountOf(p: Pin): nat { if p.total < 0 then 0 else p.total }

  function KnownCount(n: Option<nat>): nat { if n.Some? then n.value else 0 }

  function ScheduledDelay(observations: nat, steps: seq<Time>): Time
    requires |steps| == 3
  {
    if observations <= 1 then steps[0] else if observations == 2 then steps[1] else steps[2]
  }

  function PinReason(o1: Pin, o2: Pin): WaitReason {
    if o1.status == Queued || o2.status == Queued then ClusterQueued
    else if o1.status == Pinning || o2.status == Pinning then ClusterPinning
    else InitialVisibility
  }

  /** The metadata columns every reconciliation writes: what was just observed. */
  function ObservedMeta(m: Meta, o1: Pin, o2: Pin, repaired: bool, now: Time): Meta {
    m.(level1Count := Some(CountOf(o1)), level2Count := Some(CountOf(o2)),
       lastRepairAt := if repaired then Some(now) else m.lastRepairAt)
  }

  function FirstPinRow(c: Config, row: Row, m: Meta, o1: Pin, o2: Pin, later: Time): Row
    requires ValidConfig(c) && row.meta.Some?
  {
    var replicas := Min(CountOf(o1), CountOf(o2));
    if replicas >= c.publishAfter then
      row.(meta := Some(m.(observations := 0)), stage := Chain, status := Ready, nextAt := None, reason := NoReason)
    else
      var before := row.meta.value;
      var reason := PinReason(o1, o2);
      var changed := row.reason != reason
                     || replicas > Min(KnownCount(before.level1Count), KnownCount(before.level2Count));
      var observations := if changed then 1 else m.observations + 1;
      row.(meta := Some(m.(observations := observations)), status := Waiting, reason := reason,
           nextAt := Some(later + ScheduledDelay(observations, c.firstPin)))
  }

  function DurabilityRow(c: Config, row: Row, m: Meta, o1: Pin, o2: Pin, repaired: bool, later: Time): Row
    requires ValidConfig(c)
  {
    if Min(CountOf(o1), CountOf(o2)) >= c.targetReplicas then
      row.(meta := Some(m.(level1Json := None, content := None)), stage := Complete, status := Done,
           nextAt := None, reason := NoReason)
    else if repaired then
      row.(meta := Some(m.(observations := 0)), status := Ready, nextAt := None, reason := NoReason)
    else
      row.(meta := Some(m.(observations := m.observations + 1)), status := Waiting, reason := ReplicaTarget,
           nextAt := Some(later + ScheduledDelay(m.observations + 1, c.durability)))
  }

  /** The row a reconciliation commits after observing (and perhaps repairing) both CIDs. */
  function Audited(c: Config, row: Row, o1: Pin, o2: Pin, repaired: bool, now: Time, later: Time): (after: Row)
    requires ValidConfig(c) && row.meta.Some?
    ensures after.authority == row.authority && after.state == row.state && after.target == row.target
  {
    var m := ObservedMeta(row.meta.value, o1, o2, repaired, now);
    if row.stage == Availability then FirstPinRow(c, row, m, o1, o2, later)
    else DurabilityRow(c, row, m, o1, o2, repaired, later)
  }

  // ---------- repair ----------

  predicate HasClusterAssignment(p: Pin) {
    if p.pinsAssigned.Some? then p.pinsAssigned.value > 0 else p.status in {Pinned, Pinning, Queued}
  }

  predicate RepairAllowed(c: Config, m: Meta, now: Time) {
    && now - m.createdAt >= c.repairGrace
    && (m.lastRepairAt.None? || now - m.lastRepairAt.value >= c.repairCooldown)
  }

  predicate NeedsRepair(p: Pin, allowed: bool) {
    && p.total == 0 && p.status in {Unpinned, PinError}
    && (p.status == PinError || !HasClusterAssignment(p))
    && allowed
  }

  // ---------- documents ----------

  predicate CanStoreLevel2(m: Meta) { m.content.Some? && m.mediaType != "" }

  function Level2Of(m: Meta): Document
    requires m.content.Some?
  {
    Level2Document(m.content.value, m.mediaType, m.schema)
  }

  function Level1Of(m: Meta, level2Cid: Cid): Document
    requires m.level1Json.Some?
  {
    Level1Document(m.level1Json.value, level2Cid)
  }
}
