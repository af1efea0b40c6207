/** MetadataPersistenceWorker._persist: store Level 2, then Level 1 with its reference, then advance. */
module MetadataWorker {
  import opened Wrappers
  import opened ArkTypes
  import opened ArkRow
  import opened ArkRepositories
  import opened Protocol

  /** What one attempt does to the row, and which documents it hands to the store, in order. */
  datatype Attempt = Attempt(row: Row, stored: seq<Document>, ok: bool)

  /** The attempt's own complaints. */
  function RowMissing(): Exn { OtherError("metadata record is missing") }

  function PayloadMissing(): Exn { OtherError("Level 2 payload and media type are required") }

  function FieldsMissing(): Exn { OtherError("Level 1 metadata JSON is required") }

  function Failing(row: Row, stored: seq<Document>, exn: Exn, now: Time): Attempt {
    Attempt(PersistFailure(row, exn, now), stored, false)
  }

  function PersistLevel1(row: Row, m: Meta, level2Cid: Cid, stored: seq<Document>, reply1: Reply<Cid>,
                         now: Time): Attempt
    requires row.meta == Some(m)
  {
    if m.level1Cid.Some? then Attempt(Persisted(row, m.level1Cid.value, level2Cid), stored, true)
    else if m.level1Json.None? then Failing(row, stored, FieldsMissing(), now)
    else
      match reply1
      case Raised(e) => Failing(row, stored + [Level1Of(m, level2Cid)], e, now)
      case Returned(cid) => Attempt(Persisted(row, cid, level2Cid), stored + [Level1Of(m, level2Cid)], true)
  }

  /** `reply2` and `reply1` are what the store answers if it is asked. */
  function PersistAttempt(row: Row, reply2: Reply<Cid>, reply1: Reply<Cid>, now: Time): Attempt {
    if !PersistGuard(row, now) then Attempt(row, [], false)
    else if row.meta.None? then Failing(row, [], RowMissing(), now)
    else
      var m := row.meta.value;
      if m.level2Cid.Some? then PersistLevel1(row, m, m.level2Cid.value, [], reply1, now)
      else if !CanStoreLevel2(m) then Failing(row, [], PayloadMissing(), now)
      else
        match reply2
        case Raised(e) => Failing(row, [Level2Of(m)], e, now)
        case Returned(cid) => PersistLevel1(row, m, cid, [Level2Of(m)], reply1, now)
  }

  // ---------- what an attempt does, field by field ----------

  /** Work for the metadata worker, now. */
  predicate Due(row: Row, now: Time) {
    && row.state in {Draft, Update} && row.stage == Metadata
    && (row.status == Ready || (row.status == Waiting && row.nextAt.Some? && row.nextAt.value <= now))
  }

  /** The Level-2 CID of an attempt: the row's, or what the store answers for a complete payload. */
  function Level2Answer(m: Meta, reply2: Reply<Cid>): Option<Reply<Cid>> {
    if m.level2Cid.Some? then Some(Returned(m.level2Cid.value))
    else if m.content.Some? && m.mediaType != "" then Some(reply2)
    else None
  }

  function Level1Answer(m: Meta, reply1: Reply<Cid>): Option<Reply<Cid>> {
    if m.level1Cid.Some? then Some(Returned(m.level1Cid.value)) else if m.level1Json.Some? then Some(reply1) else None
  }

  predicate Answered(answer: Option<Reply<Cid>>) { answer.Some? && answer.value.Returned? }

  /**
   * An attempt succeeds if and only if the row is due and both CIDs are there or given by the store. It then leaves
   * both CIDs with no counts, the row ready at AVAILABILITY, and everything else as it was.
   */
  lemma PersistSucceeds(row: Row, reply2: Reply<Cid>, reply1: Reply<Cid>, now: Time)
    ensures var a := PersistAttempt(row, reply2, reply1, now);
            a.ok <==> && Due(row, now) && row.meta.Some?
                      && Answered(Level2Answer(row.meta.value, reply2))
                      && Answered(Level1Answer(row.meta.value, reply1))
    ensures var a := PersistAttempt(row, reply2, reply1, now);
            a.ok ==>
              var cid2 := Level2Answer(row.meta.value, reply2).value.value;
              var cid1 := Level1Answer(row.meta.value, reply1).value.value;
              var stored := row.meta.value.(level2Cid := Some(cid2), level1Cid := Some(cid1), level1Count := None,
                                            level2Count := None, observations := 0);
              a.row == row.(stage := Availability, status := Ready, attempts := 0, nextAt := None, reason := NoReason,
                            error := None, meta := Some(stored))
  {
    hide IsInfrastructureError, RowMissing, PayloadMissing, FieldsMissing;
  }

  /**
   * The store is asked for Level 2 unless its CID is known, and for Level 1, with that CID, once Level 2 is settled.
   */
  lemma PersistStores(row: Row, reply2: Reply<Cid>, reply1: Reply<Cid>, now: Time)
    ensures var a := PersistAttempt(row, reply2, reply1, now);
            if !Due(row, now) || row.meta.None? then a.stored == []
            else
              var m := row.meta.value;
              var two := Level2Answer(m, reply2);
              a.stored == (if m.level2Cid.None? && m.content.Some? && m.mediaType != ""
                           then [Level2Document(m.content.value, m.mediaType, m.schema)] else [])
                          + (if Answered(two) && m.level1Cid.None? && m.level1Json.Some?
                             then [Level1Document(m.level1Json.value, two.value.value)] else [])
  {
    hide IsInfrastructureError, RowMissing, PayloadMissing, FieldsMissing;
  }

  /** What stopped an attempt: the exception of the store call that raised, or the complaint about what is missing. */
  function Stopped(m: Option<Meta>, reply2: Reply<Cid>, reply1: Reply<Cid>): Exn {
    if m.None? then RowMissing()
    else
      match Level2Answer(m.value, reply2)
      case None => PayloadMissing()
      case Some(Raised(e)) => e
      case Some(Returned(_)) =>
        match Level1Answer(m.value, reply1)
        case Some(Raised(e)) => e
        case _ => FieldsMissing()
  }

  /**
   * A failed attempt never fails the row: it waits a minute where it stood. If an infrastructure problem stopped the
   * attempt, the row keeps its attempt count and says that the store is unavailable; anything else costs an attempt and
   * is recorded as an invalid response. `ArkTypes.InfrastructureMeans` says which exceptions are such problems.
   */
  lemma PersistWaits(row: Row, reply2: Reply<Cid>, reply1: Reply<Cid>, now: Time)
    ensures var a := PersistAttempt(row, reply2, reply1, now);
            && (!Due(row, now) ==> a.row == row)
            && (Due(row, now) && !a.ok ==>
                  var outage := IsInfrastructureError(Stopped(row.meta, reply2, reply1));
                  a.row == row.(status := Waiting, nextAt := Some(now + 60_000_000), reason := StorageBackoff,
                                error := Some(if outage then StorageUnavailable else StorageInvalidResponse),
                                attempts := if outage then row.attempts else row.attempts + 1))
  {
    hide IsInfrastructureError, RowMissing, PayloadMissing, FieldsMissing;
  }

  class MetadataPersistenceWorker {
    var totalDeferred: nat
    var totalPermanentFailures: nat

    constructor ()
      ensures totalDeferred == 0 && totalPermanentFailures == 0
    {
      totalDeferred, totalPermanentFailures := 0, 0;
    }

    /** The exception path: infrastructure problems wait, anything else is recorded as a failure. */
    method Record(repo: ArkRepository, ark: Ark, exn: Exn, now: Time)
      requires ark in repo.rows
      modifies repo, this
      ensures repo.rows == old(repo.rows)[ark := PersistFailure(old(repo.rows)[ark], exn, now)]
      ensures totalDeferred == old(totalDeferred) + (if IsInfrastructureError(exn) then 1 else 0)
      ensures totalPermanentFailures == old(totalPermanentFailures) + (if IsInfrastructureError(exn) then 0 else 1)
    {
      if IsInfrastructureError(exn) {
        repo.DeferProcessingRetry(ark, StorageUnavailable, MINUTE, now);
        totalDeferred := totalDeferred + 1;
      } else {
        repo.MarkProcessingFailed(ark, StorageInvalidResponse, true, now);
        totalPermanentFailures := totalPermanentFailures + 1;
      }
    }

    /** Both CIDs and the new stage are written in one commit. */
    method Advance(repo: ArkRepository, ark: Ark, level1Cid: Cid, level2Cid: Cid)
      requires ark in repo.rows && repo.rows[ark].meta.Some?
      modifies repo
      ensures repo.rows == old(repo.rows)[ark := Persisted(old(repo.rows)[ark], level1Cid, level2Cid)]
    {
      var current := repo.rows[ark];
      var metadata := current.meta.value.(level1Cid := Some(level1Cid), level2Cid := Some(level2Cid));
      metadata := metadata.(level1Count := None, level2Count := None, observations := 0);
      current := current.(meta := Some(metadata), stage := Availability, status := Ready, attempts := 0);
      current := current.(nextAt := None, reason := NoReason, error := None);
      repo.rows := repo.rows[ark := current];
    }

    /**
     * One attempt on one ARK; nothing happens when another session holds its lock. A failure moves one of the two
     * counters: that of deferrals if the row keeps its attempt count, else the other.
     */
    method Persist(repo: ArkRepository, ark: Ark, locked: bool, reply2: Reply<Cid>, reply1: Reply<Cid>, now: Time)
      returns (ok: bool, stored: seq<Document>)
      modifies repo, this
      ensures !locked || ark !in old(repo.rows) ==> repo.rows == old(repo.rows) && !ok && stored == []
      ensures locked && ark in old(repo.rows) ==>
                var attempt := PersistAttempt(old(repo.rows)[ark], reply2, reply1, now);
                repo.rows == old(repo.rows)[ark := attempt.row] && ok == attempt.ok && stored == attempt.stored
      ensures !locked || ark !in old(repo.rows) || ok || !Due(old(repo.rows)[ark], now) ==>
                totalDeferred == old(totalDeferred) && totalPermanentFailures == old(totalPermanentFailures)
      ensures locked && ark in old(repo.rows) && !ok && Due(old(repo.rows)[ark], now) ==>
                var waited := repo.rows[ark].attempts == old(repo.rows)[ark].attempts;
                && totalDeferred == old(totalDeferred) + (if waited then 1 else 0)
                && totalPermanentFailures == old(totalPermanentFailures) + (if waited then 0 else 1)
    {
      hide IsInfrastructureError, Persisted, RowMissing, PayloadMissing, FieldsMissing;
      ok, stored := false, [];
      if !locked || ark !in repo.rows { return; }
      var record := repo.rows[ark];
      if record.state !in {Draft, Update} || record.stage != Metadata || !ReadyForProcessing(record, now) { return; }
      if record.meta.None? {
        Record(repo, ark, RowMissing(), now);
        return;
      }
      var metadata := record.meta.value;
      var level2Cid := metadata.level2Cid;
      if level2Cid.None? {
        if metadata.content.None? || metadata.mediaType == "" {
          Record(repo, ark, PayloadMissing(), now);
          return;
        }
        stored := stored + [Level2Document(metadata.content.value, metadata.mediaType, metadata.schema)];
        if reply2.Raised? {
          Record(repo, ark, reply2.exn, now);
          return;
        }
        level2Cid := Some(reply2.value);
      }
      var level1Cid := metadata.level1Cid;
      if level1Cid.None? {
        if metadata.level1Json.None? {
          Record(repo, ark, FieldsMissing(), now);
          return;
        }
        stored := stored + [Level1Document(metadata.level1Json.value, level2Cid.value)];
        if reply1.Raised? {
          Record(repo, ark, reply1.exn, now);
          return;
        }
        level1Cid := Some(reply1.value);
      }
      Advance(repo, ark, level1Cid.value, level2Cid.value);
      ok := true;
    }
  }
}
