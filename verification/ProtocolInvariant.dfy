/** The inductive invariant of the publication protocol, and its preservation by every step. */
module ProtocolInvariant {
  import opened Wrappers
  import opened ArkTypes
  import opened ArkRow
  import opened Lifecycle
  import opened Verdicts
  import opened Protocol

  /** Which states, stages and statuses go together. */
  ghost predicate Shape(row: Row) {
    && (row.state == Reserved ==> row.stage == NoStage && row.status == Done)
    && (row.state in {Draft, Update} ==>
          row.stage in {Metadata, Availability, Chain} && row.status in {Ready, Waiting, Failed})
    && (row.state == Published ==>
          row.stage in {Replication, Complete} && row.status != Cancelled
          && (row.status == Done ==> row.stage == Complete))
    && (row.state == Tombstone ==> row.status in {Cancelled, Failed})
    && (row.status == Waiting ==> row.nextAt.Some?)
    && (row.status == Failed ==> row.error.Some? && !Retryable(row.error.value))
    && (row.stage == NoStage <==> row.meta.None?)
  }

  /** The CIDs name documents the store accepted, built from the submitted payload. */
  ghost predicate Stored(logs: Logs, o: Origin, level1Cid: Option<Cid>, level2Cid: Option<Cid>) {
    && level1Cid.Some? && level2Cid.Some?
    && (Level2Document(o.content, o.mediaType, o.schema), level2Cid.value) in logs.accepted
    && (Level1Document(o.fields, level2Cid.value), level1Cid.value) in logs.accepted
  }

  ghost predicate CountsReach(m: Meta, n: nat) {
    m.level1Count.Some? && m.level2Count.Some? && m.level1Count.value >= n && m.level2Count.value >= n
  }

  /** What the metadata row of an ARK at a given stage is evidence of. */
  ghost predicate MetaOk(c: Config, logs: Logs, ark: Ark, row: Row, m: Meta) {
    && m.origin in logs.puts && m.origin.ark == ark
    && m.origin.authority == row.authority && row.target == Some(m.origin.target)
    && m.mediaType == m.origin.mediaType && m.schema == m.origin.schema
    && (if row.stage == Complete then m.level1Json.None? && m.content.None?
        else m.level1Json == Some(m.origin.fields) && m.content == Some(m.origin.content))
    && (row.stage == Metadata ==> m.level1Cid.None? && m.level2Cid.None?)
    && (row.stage != Metadata ==> Stored(logs, m.origin, m.level1Cid, m.level2Cid))
    && (row.stage in {Chain, Replication, Complete} ==>
          CidsUsable(m) && Qualification(ark, m.origin, m.level1Cid.value, m.level2Cid.value) in logs.qualified)
    && (row.stage == Chain ==> CountsReach(m, c.publishAfter))
    && (row.stage in {Replication, Complete} ==> (ark, m.origin.target, m.level1Cid.value) in logs.held)
    && (row.stage == Complete ==> CountsReach(m, c.targetReplicas))
  }

  ghost predicate RowOk(c: Config, logs: Logs, ark: Ark, row: Row) {
    Shape(row) && (row.meta.Some? ==> MetaOk(c, logs, ark, row, row.meta.value))
  }

  ghost predicate Sending(row: Row) { row.state in {Draft, Update} && row.stage == Chain }

  ghost predicate SnapOk(c: Config, logs: Logs, ark: Ark, snap: Snap) {
    && RowOk(c, logs, ark, snap.row)
    && (snap.kind == Persist ==>
          && snap.row.state in {Draft, Update} && snap.row.stage == Metadata
          && var o := snap.row.meta.value.origin;
          && (snap.level2Cid.Some? ==>
                && o.mediaType != ""
                && (Level2Document(o.content, o.mediaType, o.schema), snap.level2Cid.value) in logs.accepted)
          && (snap.level1Cid.Some? ==>
                snap.level2Cid.Some?
                && (Level1Document(o.fields, snap.level2Cid.value), snap.level1Cid.value) in logs.accepted))
    && (snap.kind == Audit ==>
          snap.row.state in {Draft, Update, Published} && snap.row.stage in {Availability, Replication})
    && (snap.kind == Send ==> Sending(snap.row))
  }

  /** A selected record was a qualified one when it was selected. */
  ghost predicate SelectedOk(c: Config, logs: Logs, ark: Ark, record: Row) {
    RowOk(c, logs, ark, record) && Sending(record)
  }

  /** Metadata read for an item: somebody's submission for this ARK, under CIDs the store gave. */
  ghost predicate MetadataReadOk(logs: Logs, ark: Ark, m: Meta) {
    m.origin in logs.puts && m.origin.ark == ark && CidsUsable(m) && Stored(logs, m.origin, m.level1Cid, m.level2Cid)
  }

  ghost predicate SubmissionOk(c: Config, logs: Logs, s: Submission) {
    && SelectedOk(c, logs, s.ark, s.record) && MetadataReadOk(logs, s.ark, s.metadata)
    && s == Operation(s.ark, s.record, s.metadata)
  }

  ghost predicate SupersededOk(c: Config, logs: Logs, a: Superseded) {
    RowOk(c, logs, a.ark, a.row) && a.original == a.row.authority && a.original != a.replacement
  }

  /** Every held lock belongs to a live session on an ARK with that key. */
  ghost predicate LocksHeld(c: Config, st: Sys) {
    forall k :: k in st.locks ==> Live(st, st.locks[k]) && c.lockKey(ArkOf(st, st.locks[k])) == k
  }

  /** Every live session holds its lock. */
  ghost predicate LiveHold(c: Config, st: Sys) {
    forall sid :: Live(st, sid) ==>
      c.lockKey(ArkOf(st, sid)) in st.locks && st.locks[c.lockKey(ArkOf(st, sid))] == sid
  }

  ghost predicate RowsOk(c: Config, st: Sys) {
    forall ark :: ark in st.rows ==> RowOk(c, st.logs, ark, st.rows[ark])
  }

  ghost predicate SnapsOk(c: Config, st: Sys) {
    forall sid :: sid in st.sessions && st.sessions[sid].snap.Some? ==>
      SnapOk(c, st.logs, ArkOf(st, sid), SnapOf(st, sid))
  }

  /** Between a live session's read and its write the row does not change. */
  ghost predicate SnapsCurrent(st: Sys) {
    forall sid :: Live(st, sid) && st.sessions[sid].snap.Some? ==>
      ArkOf(st, sid) in st.rows && st.rows[ArkOf(st, sid)] == SnapOf(st, sid).row
  }

  ghost predicate PageOk(c: Config, st: Sys) {
    forall s :: s in st.page ==>
      SelectedOk(c, st.logs, s.ark, s.record) && s.ark in st.rows && st.rows[s.ark].state != Reserved
  }

  ghost predicate ItemsOk(c: Config, st: Sys) {
    forall item :: item in st.items ==>
      Selected(item.ark, item.record) in st.page && MetadataReadOk(st.logs, item.ark, item.metadata)
  }

  ghost predicate SubmittedOk(c: Config, st: Sys) {
    forall s :: s in st.submitted ==> SubmissionOk(c, st.logs, s)
  }

  ghost predicate ArchiveOk(c: Config, st: Sys) {
    forall a :: a in st.archive ==> SupersededOk(c, st.logs, a)
  }

  ghost predicate Inv(c: Config, st: Sys) {
    && LocksHeld(c, st) && LiveHold(c, st)
    && RowsOk(c, st) && SnapsOk(c, st) && SnapsCurrent(st)
    && PageOk(c, st) && ItemsOk(c, st) && SubmittedOk(c, st) && ArchiveOk(c, st)
  }

  // ---------- logs only grow ----------

  ghost predicate Extends(logs: Logs, more: Logs) {
    && logs.accepted <= more.accepted && logs.held <= more.held
    && logs.puts <= more.puts && logs.qualified <= more.qualified
  }

  lemma RowOkExtends(c: Config, logs: Logs, more: Logs, ark: Ark, row: Row)
    requires RowOk(c, logs, ark, row) && Extends(logs, more)
    ensures RowOk(c, more, ark, row)
  {
  }

  lemma SnapOkExtends(c: Config, logs: Logs, more: Logs, ark: Ark, snap: Snap)
    requires SnapOk(c, logs, ark, snap) && Extends(logs, more)
    ensures SnapOk(c, more, ark, snap)
  {
    RowOkExtends(c, logs, more, ark, snap.row);
  }

  /** Growing the logs alone keeps every part of the invariant. */
  lemma InvExtends(c: Config, st: Sys, more: Logs)
    requires Inv(c, st) && Extends(st.logs, more)
    ensures Inv(c, st.(logs := more))
  {
    var st' := st.(logs := more);
    forall ark | ark in st'.rows ensures RowOk(c, more, ark, st'.rows[ark]) {
      RowOkExtends(c, st.logs, more, ark, st.rows[ark]);
    }
    forall sid | sid in st'.sessions && st'.sessions[sid].snap.Some?
      ensures SnapOk(c, more, ArkOf(st', sid), SnapOf(st', sid))
    {
      SnapOkExtends(c, st.logs, more, ArkOf(st, sid), SnapOf(st, sid));
    }
    forall s | s in st'.page ensures RowOk(c, more, s.ark, s.record) {
      RowOkExtends(c, st.logs, more, s.ark, s.record);
    }
    forall s | s in st'.submitted ensures SubmissionOk(c, more, s) {
      RowOkExtends(c, st.logs, more, s.ark, s.record);
    }
    forall a | a in st'.archive ensures SupersededOk(c, more, a) {
      RowOkExtends(c, st.logs, more, a.ark, a.row);
    }
    assert forall sid :: Live(st', sid) == Live(st, sid);
  }

  // ---------- the two shapes of a session step ----------

  /** I/O by a session, dead or alive: only what it remembers changes. */
  lemma EditKeepsInv(c: Config, st: Sys, sid: SessionId, snap: Snap)
    requires Inv(c, st) && sid in st.sessions && SnapOk(c, st.logs, ArkOf(st, sid), snap)
    requires Live(st, sid) ==> ArkOf(st, sid) in st.rows && st.rows[ArkOf(st, sid)] == snap.row
    ensures Inv(c, EditSnap(st, sid, snap))
  {
    var st' := EditSnap(st, sid, snap);
    assert forall s :: Live(st', s) == Live(st, s);
    assert forall s :: s in st.sessions ==> ArkOf(st', s) == ArkOf(st, s);
    forall s | s in st'.sessions && st'.sessions[s].snap.Some?
      ensures SnapOk(c, st'.logs, ArkOf(st', s), SnapOf(st', s))
    {
      if s != sid { assert SnapOf(st', s) == SnapOf(st, s); }
    }
    forall s | Live(st', s) && st'.sessions[s].snap.Some?
      ensures ArkOf(st', s) in st'.rows && st'.rows[ArkOf(st', s)] == SnapOf(st', s).row
    {
      if s != sid { assert SnapOf(st', s) == SnapOf(st, s); }
    }
  }

  /** A commit by a live session: no other live session can have read the row. */
  lemma WriteKeepsInv(c: Config, st: Sys, sid: SessionId, row: Row)
    requires Inv(c, st) && Live(st, sid) && RowOk(c, st.logs, ArkOf(st, sid), row)
    requires ArkOf(st, sid) in st.rows && st.rows[ArkOf(st, sid)].state != Reserved ==> row.state != Reserved
    ensures Inv(c, WriteRow(st, sid, row))
  {
    var st' := WriteRow(st, sid, row);
    var ark := ArkOf(st, sid);
    assert forall s :: Live(st', s) == Live(st, s);
    assert forall s :: s in st.sessions ==> ArkOf(st', s) == ArkOf(st, s);
    forall s | s in st'.sessions && st'.sessions[s].snap.Some?
      ensures SnapOk(c, st'.logs, ArkOf(st', s), SnapOf(st', s))
    {
      assert SnapOf(st', s) == SnapOf(st, s);
    }
    forall s | Live(st', s) && st'.sessions[s].snap.Some?
      ensures ArkOf(st', s) in st'.rows && st'.rows[ArkOf(st', s)] == SnapOf(st', s).row
    {
      assert s != sid && SnapOf(st', s) == SnapOf(st, s);
      assert ArkOf(st, s) != ark;
    }
  }
}
