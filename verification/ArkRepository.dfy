/** The repository's compare-and-set writes on the ARK table, one row at a time. */
module ArkRepositories {
  import opened Wrappers
  import opened ArkTypes
  import opened ArkRow

  datatype WriteError = NoSuchArk | WrongState(current: State) | TargetRequired

  class ArkRepository {
    var rows: map<Ark, Row>

    constructor (rows: map<Ark, Row>)
      ensures this.rows == rows
    {
      this.rows := rows;
    }

    /** RESERVED to DRAFT, and nothing else. */
    method UpdateToDraft(ark: Ark, target: string) returns (done: Result<(), WriteError>)
      modifies this
      ensures done.Ok? <==> target != "" && ark in old(rows) && old(rows)[ark].state == Reserved
      ensures rows == if done.Ok? then old(rows)[ark := old(rows)[ark].(state := Draft, target := Some(target))]
              else old(rows)
    {
      if target == "" { return Err(TargetRequired); }
      if ark !in rows { return Err(NoSuchArk); }
      var row := rows[ark];
      if row.state != Reserved { return Err(WrongState(row.state)); }
      rows := rows[ark := row.(state := Draft, target := Some(target))];
      return Ok(());
    }

    /** PUBLISHED to UPDATE, and nothing else. */
    method UpdateToUpdate(ark: Ark, target: string) returns (done: Result<(), WriteError>)
      modifies this
      ensures done.Ok? <==> target != "" && ark in old(rows) && old(rows)[ark].state == Published
      ensures rows == if done.Ok? then old(rows)[ark := old(rows)[ark].(state := Update, target := Some(target))]
              else old(rows)
    {
      if target == "" { return Err(TargetRequired); }
      if ark !in rows { return Err(NoSuchArk); }
      var row := rows[ark];
      if row.state != Published { return Err(WrongState(row.state)); }
      rows := rows[ark := row.(state := Update, target := Some(target))];
      return Ok(());
    }

    /** To PUBLISHED at stage REPLICATION, only from an expected state. */
    method UpdateToPublished(ark: Ark, expected: set<State>) returns (done: Result<(), WriteError>)
      modifies this
      ensures done.Ok? <==> ark in old(rows) && old(rows)[ark].state in expected
      ensures rows == if done.Ok? then old(rows)[ark := PublishedRow(old(rows)[ark])] else old(rows)
    {
      if ark !in rows { return Err(NoSuchArk); }
      var row := rows[ark];
      if row.state !in expected { return Err(WrongState(row.state)); }
      row := row.(state := Published, stage := Replication, status := Ready, attempts := 0);
      row := row.(nextAt := None, reason := NoReason, error := None);
      rows := rows[ark := row];
      return Ok(());
    }

    /** Idempotent: a tombstone stays as it is. */
    method UpdateToTombstone(ark: Ark) returns (done: Result<(), WriteError>)
      modifies this
      ensures done.Ok? <==> ark in old(rows)
      ensures rows == if done.Ok? then old(rows)[ark := Tombstoned(old(rows)[ark])] else old(rows)
    {
      if ark !in rows { return Err(NoSuchArk); }
      if rows[ark].state != Tombstone {
        rows := rows[ark := rows[ark].(state := Tombstone, status := Cancelled, nextAt := None, reason := NoReason)];
      }
      return Ok(());
    }

    /** Writes the payload, clears both CIDs and counts, and restarts the workflow. */
    method CreateOrUpdateMetadata(ark: Ark, o: Origin, now: Time)
      requires ark in rows
      modifies this
      ensures rows == old(rows)[ark := StageMetadata(old(rows)[ark], o, now)]
    {
      var row := rows[ark];
      if row.meta.Some? {
        var m := row.meta.value;
        m := m.(level1Json := Some(o.fields), content := Some(o.content), schema := o.schema, mediaType := o.mediaType);
        m := m.(level1Cid := None, level2Cid := None, level1Count := None, level2Count := None, origin := o);
        row := row.(meta := Some(m));
      } else {
        row := row.(meta := Some(Meta(Some(o.fields), None, Some(o.content), o.mediaType, o.schema,
                                      None, None, None, 0, None, now, o)));
      }
      row := row.(stage := Metadata, status := Ready, attempts := 0, nextAt := None, reason := NoReason, error := None);
      rows := rows[ark := row];
    }

    /** The caller's opinion on permanence is overridden by the catalogue. */
    method MarkProcessingFailed(ark: Ark, code: ErrorCode, callerSaysPermanent: bool, now: Time)
      requires ark in rows
      modifies this
      ensures rows == old(rows)[ark := MarkFailed(old(rows)[ark], code, now)]
    {
      var row := rows[ark].(attempts := rows[ark].attempts + 1, error := Some(code));
      var permanent := callerSaysPermanent;
      permanent := !Retryable(code);
      if permanent {
        row := row.(status := Failed, nextAt := None, reason := NoReason);
      } else {
        row := row.(status := Waiting, nextAt := Some(now + MINUTE), reason := StorageBackoff);
      }
      rows := rows[ark := row];
    }

    method DeferProcessingRetry(ark: Ark, code: ErrorCode, delay: Time, now: Time)
      requires ark in rows
      modifies this
      ensures rows == old(rows)[ark := Deferred(old(rows)[ark], code, delay, now)]
    {
      var wait := if delay < 0 then 0 else delay;
      rows := rows[ark := rows[ark].(status := Waiting, nextAt := Some(now + wait), reason := StorageBackoff,
                                     error := Some(code))];
    }
  }
}
