/**
 * Reservation under concurrency: single and batch requests as interleaved database transactions, beside imports,
 * deletions and takeovers. A transaction holds its namespace's counter row from its first allocation until it
 * commits or rolls back; an INSERT that meets another transaction's uncommitted row waits.
 */
module ReservationRuns {
  import opened Wrappers
  import opened Reservation
  import Noid

  type Tx = nat
  type RowId = nat

  datatype Mint = Mint(namespace: string, counter: nat)

  /** `writer` is the transaction whose commit the row still waits for. */
  datatype Row = Row(record: Record, mint: Option<Mint>, writer: Option<Tx>)

  /**
   * One request. `next` is the uncommitted counter value while it holds the counter row, `candidate` a value
   * allocated but not inserted yet, and `given` (history) every value it was ever given.
   */
  datatype Session = Session(authority: string, naan: string, next: Option<nat>, candidate: Option<nat>,
                             given: seq<nat>)

  datatype Sys = Sys(rows: map<RowId, Row>, counters: map<string, nat>, sessions: map<Tx, Session>)

  datatype Step =
    | Begin(tx: Tx, authority: string, naan: string)
    | Allocate(tx: Tx)
    | Insert(tx: Tx, id: RowId, item: Option<string>)
    | Violation(tx: Tx, item: Option<string>)
    | Commit(tx: Tx)
    | Rollback(tx: Tx)
    | Import(id: RowId, record: Record)
    | Tombstone(id: RowId)
    | TakeOver(id: RowId, authority: string)

  function Namespace(p: Policy, s: Session): string { NamespaceKey(s.naan, p.shoulder) }

  function Stored(s: Sys, namespace: string): nat {
    if namespace in s.counters then s.counters[namespace] else 0
  }

  /** The value the next UPDATE of this session would take. */
  function Upcoming(p: Policy, s: Sys, tx: Tx): nat
    requires tx in s.sessions
  {
    if s.sessions[tx].next.Some? then s.sessions[tx].next.value else Stored(s, Namespace(p, s.sessions[tx]))
  }

  ghost predicate CounterRowFree(p: Policy, s: Sys, tx: Tx)
    requires tx in s.sessions
  {
    forall other :: other in s.sessions && other != tx && s.sessions[other].next.Some? ==>
      Namespace(p, s.sessions[other]) != Namespace(p, s.sessions[tx])
  }

  predicate Collide(a: Record, b: Record) {
    || (a.naan == b.naan && a.name == b.name)
    || (IsActive(a, b.authority, b.naan, b.clientItem) && !b.tombstoned)
  }

  /** No row, committed or not, is in the way. */
  ghost predicate Fits(s: Sys, r: Record) {
    forall id :: id in s.rows ==> !Collide(s.rows[id].record, r)
  }

  /** A row this transaction can see is in the way. */
  ghost predicate Violates(s: Sys, tx: Tx, r: Record) {
    exists id :: id in s.rows && Collide(s.rows[id].record, r)
                 && (s.rows[id].writer.None? || s.rows[id].writer == Some(tx))
  }

  function NewRecord(p: Policy, s: Sys, tx: Tx, item: Option<string>): Record
    requires tx in s.sessions && s.sessions[tx].candidate.Some?
  {
    var session := s.sessions[tx];
    Candidate(p, session.authority, session.naan, item, session.candidate.value)
  }

  ghost predicate Enabled(p: Policy, s: Sys, step: Step) {
    match step
    case Begin(tx, _, _) => tx !in s.sessions
    case Allocate(tx) => tx in s.sessions && s.sessions[tx].candidate.None? && CounterRowFree(p, s, tx)
    case Insert(tx, id, item) =>
      tx in s.sessions && s.sessions[tx].candidate.Some? && id !in s.rows && Fits(s, NewRecord(p, s, tx, item))
    case Violation(tx, item) =>
      tx in s.sessions && s.sessions[tx].candidate.Some? && Violates(s, tx, NewRecord(p, s, tx, item))
    case Commit(tx) => tx in s.sessions && s.sessions[tx].candidate.None?
    case Rollback(tx) => tx in s.sessions
    case Import(id, record) => id !in s.rows && record.clientItem.None? && Fits(s, record)
    case Tombstone(id) => id in s.rows && s.rows[id].writer.None?
    case TakeOver(id, _) => id in s.rows && s.rows[id].writer.None?
  }

  function Committed(row: Row, tx: Tx): Row {
    if row.writer == Some(tx) then row.(writer := None) else row
  }

  /** A commit may end the request or, after a collision, be followed by another attempt. */
  ghost function Do(p: Policy, s: Sys, step: Step): Sys
    requires Enabled(p, s, step)
  {
    match step
    case Begin(tx, authority, naan) => s.(sessions := s.sessions[tx := Session(authority, naan, None, None, [])])
    case Allocate(tx) =>
      var value := Upcoming(p, s, tx);
      var session := s.sessions[tx];
      s.(sessions := s.sessions[tx :=
        session.(next := Some(value + 1), candidate := Some(value), given := session.given + [value])])
    case Insert(tx, id, item) =>
      var session := s.sessions[tx];
      s.(rows := s.rows[id := Row(NewRecord(p, s, tx, item),
                                  Some(Mint(Namespace(p, session), session.candidate.value)), Some(tx))],
         sessions := s.sessions[tx := session.(candidate := None)])
    case Violation(tx, _) => s.(sessions := s.sessions[tx := s.sessions[tx].(candidate := None)])
    case Commit(tx) =>
      Sys(map id | id in s.rows :: Committed(s.rows[id], tx),
          if s.sessions[tx].next.Some?
          then s.counters[Namespace(p, s.sessions[tx]) := s.sessions[tx].next.value]
          else s.counters,
          s.sessions[tx := s.sessions[tx].(next := None)])
    case Rollback(tx) =>
      s.(rows := map id | id in s.rows && s.rows[id].writer != Some(tx) :: s.rows[id], sessions := s.sessions - {tx})
    case Import(id, record) => s.(rows := s.rows[id := Row(record, None, None)])
    case Tombstone(id) => s.(rows := s.rows[id := s.rows[id].(record := s.rows[id].record.(tombstoned := true))])
    case TakeOver(id, authority) =>
      s.(rows := s.rows[id := s.rows[id].(record :=
        s.rows[id].record.(authority := authority, clientItem := None, tombstoned := false))])
  }

  ghost predicate Runs(p: Policy, s: Sys, steps: seq<Step>)
    decreases |steps|
  {
    steps == [] || (Enabled(p, s, steps[0]) && Runs(p, Do(p, s, steps[0]), steps[1..]))
  }

  ghost function After(p: Policy, s: Sys, steps: seq<Step>): Sys
    requires Runs(p, s, steps)
    decreases |steps|
  {
    if steps == [] then s else After(p, Do(p, s, steps[0]), steps[1..])
  }

  const EMPTY: Sys := Sys(map[], map[], map[])

  // ---------- the invariant ----------

  /** The row carries the name its counter value mints. */
  ghost predicate Minted(p: Policy, r: Record, m: Mint) {
    && m.namespace == NamespaceKey(r.naan, p.shoulder)
    && r.name == Noid.MintName(r.naan, m.counter, p.shoulder, p.length, p.checkdigit)
  }

  /** Minted rows that are committed lie below the stored counter. */
  ghost predicate RowOk(p: Policy, s: Sys, row: Row) {
    && (row.writer.Some? ==> row.mint.Some?)
    && (row.mint.Some? ==>
          var m := row.mint.value;
          && Minted(p, row.record, m)
          && (row.writer.None? ==> m.counter < Stored(s, m.namespace))
          && (row.writer.Some? ==> PendingOk(p, s, row.writer.value, m)))
  }

  /** An uncommitted row was minted by the holder of its counter row, from the uncommitted part. */
  ghost predicate PendingOk(p: Policy, s: Sys, tx: Tx, m: Mint) {
    && tx in s.sessions && s.sessions[tx].next.Some? && Namespace(p, s.sessions[tx]) == m.namespace
    && Stored(s, m.namespace) <= m.counter < s.sessions[tx].next.value
    && s.sessions[tx].candidate != Some(m.counter)
  }

  ghost predicate SessionOk(p: Policy, s: Sys, tx: Tx)
    requires tx in s.sessions
  {
    var session := s.sessions[tx];
    && (session.next.Some? ==> Stored(s, Namespace(p, session)) < session.next.value)
    && (session.candidate.Some? ==>
          session.next == Some(session.candidate.value + 1)
            && Stored(s, Namespace(p, session)) <= session.candidate.value)
    && (forall i, j :: 0 <= i < j < |session.given| ==> session.given[i] < session.given[j])
    && (forall i :: 0 <= i < |session.given| ==> session.given[i] < Upcoming(p, s, tx))
  }

  ghost predicate Locks(p: Policy, s: Sys) {
    forall tx, other :: tx in s.sessions && other in s.sessions && tx != other ==>
      s.sessions[tx].next.Some? && s.sessions[other].next.Some? ==>
      Namespace(p, s.sessions[tx]) != Namespace(p, s.sessions[other])
  }

  ghost predicate OneRowPerMint(s: Sys) {
    forall a, b :: a in s.rows && b in s.rows && a != b && s.rows[a].mint.Some? ==> s.rows[a].mint != s.rows[b].mint
  }

  ghost predicate NoCollision(s: Sys) {
    forall a, b :: a in s.rows && b in s.rows && a != b ==> !Collide(s.rows[a].record, s.rows[b].record)
  }

  ghost predicate RowsOk(p: Policy, s: Sys) { forall id :: id in s.rows ==> RowOk(p, s, s.rows[id]) }

  ghost predicate SessionsOk(p: Policy, s: Sys) { forall tx :: tx in s.sessions ==> SessionOk(p, s, tx) }

  ghost predicate Inv(p: Policy, s: Sys) {
    RowsOk(p, s) && SessionsOk(p, s) && Locks(p, s) && OneRowPerMint(s) && NoCollision(s)
  }

  // ---------- every step keeps it ----------

  lemma AllocateKeepsRow(p: Policy, s: Sys, tx: Tx, id: RowId)
    requires Inv(p, s) && Enabled(p, s, Allocate(tx)) && id in s.rows
    ensures var s' := Do(p, s, Allocate(tx)); RowOk(p, s', s'.rows[id])
  {
    hide Minted, NamespaceKey, NoCollision, OneRowPerMint;
    assert SessionOk(p, s, tx);
    assert RowOk(p, s, s.rows[id]);
  }

  lemma AllocateKeepsInv(p: Policy, s: Sys, tx: Tx)
    requires Inv(p, s) && Enabled(p, s, Allocate(tx))
    ensures Inv(p, Do(p, s, Allocate(tx)))
  {
    hide Minted, Collide, NamespaceKey;
    var s' := Do(p, s, Allocate(tx));
    assert SessionOk(p, s, tx);
    forall id | id in s'.rows ensures RowOk(p, s', s'.rows[id]) {
      AllocateKeepsRow(p, s, tx, id);
    }
    hide RowOk;
    forall other | other in s'.sessions ensures SessionOk(p, s', other) {
      assert SessionOk(p, s, other);
    }
  }

  lemma InsertKeepsRows(p: Policy, s: Sys, tx: Tx, id: RowId, item: Option<string>)
    requires Inv(p, s) && Enabled(p, s, Insert(tx, id, item))
    ensures var s' := Do(p, s, Insert(tx, id, item)); RowsOk(p, s') && OneRowPerMint(s')
  {
    hide Noid.MintName, Collide, NamespaceKey;
    var s' := Do(p, s, Insert(tx, id, item));
    assert SessionOk(p, s, tx);
    assert Minted(p, s'.rows[id].record, s'.rows[id].mint.value);
    forall other | other in s.rows ensures RowOk(p, s', s'.rows[other]) && s.rows[other].mint != s'.rows[id].mint {
      assert RowOk(p, s, s.rows[other]);
    }
  }

  lemma InsertKeepsInv(p: Policy, s: Sys, tx: Tx, id: RowId, item: Option<string>)
    requires Inv(p, s) && Enabled(p, s, Insert(tx, id, item))
    ensures Inv(p, Do(p, s, Insert(tx, id, item)))
  {
    hide Candidate, Collide, NamespaceKey;
    var s' := Do(p, s, Insert(tx, id, item));
    InsertKeepsRows(p, s, tx, id, item);
    forall other | other in s'.sessions ensures SessionOk(p, s', other) {
      assert SessionOk(p, s, other);
    }
    CollideSymmetric(s'.rows[id].record);
  }

  lemma CollideSymmetric(r: Record)
    ensures forall a :: Collide(a, r) <==> Collide(r, a)
  {
  }

  lemma CommitKeepsSessions(p: Policy, s: Sys, tx: Tx)
    requires Inv(p, s) && Enabled(p, s, Commit(tx))
    ensures var s' := Do(p, s, Commit(tx)); SessionsOk(p, s') && Locks(p, s')
  {
    hide NamespaceKey;
    var s' := Do(p, s, Commit(tx));
    assert SessionOk(p, s, tx);
    forall other | other in s'.sessions ensures SessionOk(p, s', other) {
      assert SessionOk(p, s, other);
    }
  }

  lemma CommitKeepsRow(p: Policy, s: Sys, tx: Tx, id: RowId)
    requires Inv(p, s) && Enabled(p, s, Commit(tx)) && id in s.rows
    ensures var s' := Do(p, s, Commit(tx)); RowOk(p, s', s'.rows[id])
  {
    hide Minted, NamespaceKey, NoCollision, OneRowPerMint;
    var s' := Do(p, s, Commit(tx));
    assert SessionOk(p, s, tx);
    assert RowOk(p, s, s.rows[id]);
  }

  lemma CommitKeepsInv(p: Policy, s: Sys, tx: Tx)
    requires Inv(p, s) && Enabled(p, s, Commit(tx))
    ensures Inv(p, Do(p, s, Commit(tx)))
  {
    hide RowOk, SessionOk, Locks, Collide, NamespaceKey;
    var s' := Do(p, s, Commit(tx));
    CommitKeepsSessions(p, s, tx);
    forall id | id in s'.rows ensures RowOk(p, s', s'.rows[id]) {
      CommitKeepsRow(p, s, tx, id);
    }
  }

  lemma RollbackKeepsInv(p: Policy, s: Sys, tx: Tx)
    requires Inv(p, s) && Enabled(p, s, Rollback(tx))
    ensures Inv(p, Do(p, s, Rollback(tx)))
  {
    hide Minted, Collide, NamespaceKey;
    var s' := Do(p, s, Rollback(tx));
    forall id | id in s'.rows ensures RowOk(p, s', s'.rows[id]) {
      assert RowOk(p, s, s.rows[id]);
    }
    forall other | other in s'.sessions ensures SessionOk(p, s', other) {
      assert SessionOk(p, s, other);
    }
  }

  /** A row stays well placed while the counters stand and its writer keeps its counter row. */
  lemma RowStands(p: Policy, s: Sys, s': Sys, row: Row, row': Row)
    requires RowOk(p, s, row) && s'.counters == s.counters
    requires row'.mint == row.mint && row'.writer == row.writer
    requires row'.record.naan == row.record.naan && row'.record.name == row.record.name
    requires row.writer.Some? && row.writer.value in s.sessions ==>
               && row.writer.value in s'.sessions
               && var before, after := s.sessions[row.writer.value], s'.sessions[row.writer.value];
                  after == before || after == before.(candidate := None)
    ensures RowOk(p, s', row')
  {
    hide Noid.MintName, NamespaceKey;
  }

  lemma SessionStepKeepsSession(p: Policy, s: Sys, step: Step, tx: Tx)
    requires Inv(p, s) && Enabled(p, s, step) && (step.Begin? || step.Violation?) && tx in Do(p, s, step).sessions
    ensures SessionOk(p, Do(p, s, step), tx)
  {
    hide RowOk, Collide, NamespaceKey, Locks;
    if tx in s.sessions {
      assert SessionOk(p, s, tx);
    }
  }

  /** Steps that leave the table alone. */
  lemma SessionStepKeepsInv(p: Policy, s: Sys, step: Step)
    requires Inv(p, s) && Enabled(p, s, step) && (step.Begin? || step.Violation?)
    ensures Inv(p, Do(p, s, step))
  {
    hide RowOk, Collide, NamespaceKey, SessionOk;
    var s' := Do(p, s, step);
    forall id | id in s'.rows ensures RowOk(p, s', s'.rows[id]) {
      RowStands(p, s, s', s.rows[id], s'.rows[id]);
    }
    forall other | other in s'.sessions ensures SessionOk(p, s', other) {
      SessionStepKeepsSession(p, s, step, other);
    }
  }

  lemma TableStepKeepsRows(p: Policy, s: Sys, step: Step)
    requires Inv(p, s) && Enabled(p, s, step) && (step.Import? || step.Tombstone? || step.TakeOver?)
    ensures RowsOk(p, Do(p, s, step))
  {
    hide RowOk, Collide, NamespaceKey, SessionOk, Locks, OneRowPerMint;
    var s' := Do(p, s, step);
    forall id | id in s.rows ensures RowOk(p, s', s'.rows[id]) {
      RowStands(p, s, s', s.rows[id], s'.rows[id]);
    }
    if step.Import? {
      ImportedRowOk(p, s', step.record);
    }
  }

  /** Steps that leave counters and sessions alone. */
  lemma TableStepKeepsInv(p: Policy, s: Sys, step: Step)
    requires Inv(p, s) && Enabled(p, s, step) && (step.Import? || step.Tombstone? || step.TakeOver?)
    ensures Inv(p, Do(p, s, step))
  {
    hide RowOk, NamespaceKey, Upcoming;
    var s' := Do(p, s, step);
    TableStepKeepsRows(p, s, step);
    forall tx | tx in s'.sessions ensures SessionOk(p, s', tx) {
      SessionStands(p, s, s', tx);
    }
    if step.Import? {
      CollideSymmetric(step.record);
    }
  }

  lemma SessionStands(p: Policy, s: Sys, s': Sys, tx: Tx)
    requires s'.counters == s.counters && s'.sessions == s.sessions && tx in s.sessions && SessionOk(p, s, tx)
    ensures SessionOk(p, s', tx)
  {
  }

  lemma ImportedRowOk(p: Policy, s: Sys, record: Record)
    ensures RowOk(p, s, Row(record, None, None))
  {
  }

  lemma StepKeepsInv(p: Policy, s: Sys, step: Step)
    requires Inv(p, s) && Enabled(p, s, step)
    ensures Inv(p, Do(p, s, step))
  {
    match step {
      case Allocate(tx) => AllocateKeepsInv(p, s, tx);
      case Insert(tx, id, item) => InsertKeepsInv(p, s, tx, id, item);
      case Commit(tx) => CommitKeepsInv(p, s, tx);
      case Rollback(tx) => RollbackKeepsInv(p, s, tx);
      case Begin(_, _, _) => SessionStepKeepsInv(p, s, step);
      case Violation(_, _) => SessionStepKeepsInv(p, s, step);
      case _ => TableStepKeepsInv(p, s, step);
    }
  }

  lemma {:induction false} RunKeepsInv(p: Policy, s: Sys, steps: seq<Step>)
    requires Inv(p, s) && Runs(p, s, steps)
    ensures Inv(p, After(p, s, steps))
    decreases |steps|
  {
    hide Inv, Enabled, Do;
    if steps != [] {
      StepKeepsInv(p, s, steps[0]);
      RunKeepsInv(p, Do(p, s, steps[0]), steps[1..]);
    }
  }

  // ---------- what every interleaving guarantees ----------

  /** No counter value of a namespace ends up in two ARKs, however requests interleave, commit, roll back or crash. */
  lemma CounterUsedOnce(p: Policy, steps: seq<Step>, a: RowId, b: RowId)
    requires Runs(p, EMPTY, steps)
    requires var s := After(p, EMPTY, steps); a in s.rows && b in s.rows && a != b && s.rows[a].mint.Some?
    ensures var s := After(p, EMPTY, steps); s.rows[a].mint != s.rows[b].mint
  {
    RunKeepsInv(p, EMPTY, steps);
  }

  /** At most one row that is not tombstoned exists per authority, NAAN and client item. */
  lemma OneActiveRow(p: Policy, steps: seq<Step>, a: RowId, b: RowId, authority: string, naan: string,
                     item: Option<string>)
    requires Runs(p, EMPTY, steps)
    requires var s := After(p, EMPTY, steps);
             && a in s.rows && b in s.rows
             && IsActive(s.rows[a].record, authority, naan, item) && IsActive(s.rows[b].record, authority, naan, item)
    ensures a == b
  {
    RunKeepsInv(p, EMPTY, steps);
    var s := After(p, EMPTY, steps);
    if a != b {
      assert Collide(s.rows[a].record, s.rows[b].record);
      assert false;
    }
  }

  /** The value the next allocation takes belongs to no row, committed or pending. */
  lemma AllocationIsFresh(p: Policy, steps: seq<Step>, tx: Tx, id: RowId)
    requires Runs(p, EMPTY, steps)
    requires var s := After(p, EMPTY, steps); tx in s.sessions && CounterRowFree(p, s, tx) && id in s.rows
    ensures var s := After(p, EMPTY, steps);
            s.rows[id].mint != Some(Mint(Namespace(p, s.sessions[tx]), Upcoming(p, s, tx)))
  {
    RunKeepsInv(p, EMPTY, steps);
    hide Runs, After, Minted;
    var s := After(p, EMPTY, steps);
    assert RowOk(p, s, s.rows[id]) && SessionOk(p, s, tx);
  }

  /** Whatever happens in between, every value a request is given is larger than those it was given before. */
  lemma RetriesUseFreshCounters(p: Policy, steps: seq<Step>, tx: Tx, i: nat, j: nat)
    requires Runs(p, EMPTY, steps)
    requires var s := After(p, EMPTY, steps); tx in s.sessions && i < j < |s.sessions[tx].given|
    ensures var given := After(p, EMPTY, steps).sessions[tx].given; given[i] < given[j]
  {
    RunKeepsInv(p, EMPTY, steps);
    assert SessionOk(p, After(p, EMPTY, steps), tx);
  }

  /**
   * A collision never comes from the counter: a row in the way of a freshly minted name carries no mint of this
   * namespace (it was imported), unless what collides is the client item.
   */
  lemma CollisionsAreForeign(p: Policy, steps: seq<Step>, tx: Tx, item: Option<string>, id: RowId)
    requires Runs(p, EMPTY, steps)
    requires var s := After(p, EMPTY, steps);
             && tx in s.sessions && s.sessions[tx].candidate.Some? && id in s.rows
             && s.rows[id].record.naan == s.sessions[tx].naan
             && s.rows[id].record.name == NewRecord(p, s, tx, item).name
    ensures After(p, EMPTY, steps).rows[id].mint.None?
  {
    RunKeepsInv(p, EMPTY, steps);
    var s := After(p, EMPTY, steps);
    assert RowOk(p, s, s.rows[id]) && SessionOk(p, s, tx);
    hide Noid.MintName;
    if s.rows[id].mint.Some? {
      Noid.MintedNamesDiffer(s.sessions[tx].naan, s.rows[id].mint.value.counter, s.sessions[tx].candidate.value,
                             p.shoulder, p.length, p.checkdigit);
    }
  }
}
