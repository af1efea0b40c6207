/**
 * The reservation endpoints, as module Reservation specifies them, are runs of the concurrent model: so what every
 * interleaving guarantees holds of the retry loops as they are written.
 */
module ReservationProcedures {
  import opened Wrappers
  import opened Reservation
  import opened ReservationRuns

  lemma {:induction false} Extend(p: Policy, s: Sys, steps: seq<Step>, step: Step)
    requires Runs(p, s, steps) && Enabled(p, After(p, s, steps), step)
    ensures Runs(p, s, steps + [step]) && After(p, s, steps + [step]) == Do(p, After(p, s, steps), step)
    decreases |steps|
  {
    hide Enabled, Do;
    if steps == [] {
      assert steps + [step] == [step] && [step][1..] == [];
      assert Runs(p, Do(p, s, step), []);
    } else {
      Extend(p, Do(p, s, steps[0]), steps[1..], step);
      assert (steps + [step])[1..] == steps[1..] + [step];
    }
  }

  lemma {:induction false} Join(p: Policy, s: Sys, a: seq<Step>, b: seq<Step>)
    requires Runs(p, s, a) && Runs(p, After(p, s, a), b)
    ensures Runs(p, s, a + b) && After(p, s, a + b) == After(p, After(p, s, a), b)
    decreases |a|
  {
    hide Enabled, Do;
    if a == [] {
      assert a + b == b;
    } else {
      Join(p, Do(p, s, a[0]), a[1..], b);
      assert (a + b)[1..] == a[1..] + b;
    }
  }

  predicate RowIs(s: Sys, id: RowId, r: Record) { id in s.rows && s.rows[id].record == r }

  ghost predicate Held(s: Sys, r: Record) { exists id :: RowIs(s, id, r) }

  ghost predicate AllHeld(s: Sys, rows: seq<Record>) { forall i :: 0 <= i < |rows| ==> Held(s, rows[i]) }

  ghost predicate OnlyThese(s: Sys, rows: seq<Record>) { forall id :: id in s.rows ==> s.rows[id].record in rows }

  /** Nobody else has anything pending. */
  ghost predicate NoneElsePending(s: Sys, tx: Tx) {
    forall id :: id in s.rows ==> s.rows[id].writer.None? || s.rows[id].writer == Some(tx)
  }

  /** The table as this transaction sees it is exactly `rows`. */
  ghost predicate Sees(s: Sys, tx: Tx, rows: seq<Record>) {
    OnlyThese(s, rows) && AllHeld(s, rows) && NoneElsePending(s, tx)
  }

  /** A request for `authority` and `naan` between two attempts, with the ledger `l` before it. */
  ghost predicate InHand(p: Policy, s: Sys, tx: Tx, authority: string, naan: string, l: Ledger) {
    && tx in s.sessions && s.sessions[tx].authority == authority && s.sessions[tx].naan == naan
    && s.sessions[tx].candidate.None? && CounterRowFree(p, s, tx)
    && Upcoming(p, s, tx) == l.next && Sees(s, tx, l.rows)
  }

  lemma ConflictsMeans(rows: seq<Record>, r: Record)
    requires !r.tombstoned
    ensures Conflicts(rows, r) <==> exists i :: 0 <= i < |rows| && Collide(rows[i], r)
  {
    if FindActive(rows, r.authority, r.naan, r.clientItem).Some? {
      var i :| 0 <= i < |rows| && rows[i] == FindActive(rows, r.authority, r.naan, r.clientItem).value;
      assert Collide(rows[i], r);
    }
    if NameTaken(rows, r.naan, r.name) {
      var i :| 0 <= i < |rows| && rows[i].naan == r.naan && rows[i].name == r.name;
      assert Collide(rows[i], r);
    }
  }

  lemma BoundOf(ids: set<RowId>) returns (bound: RowId)
    ensures forall id :: id in ids ==> id < bound
  {
    bound := 0;
    var rest := ids;
    while rest != {}
      invariant rest <= ids && forall id :: id in ids && id !in rest ==> id < bound
      decreases |rest|
    {
      var id :| id in rest;
      bound := if id < bound then bound else id + 1;
      rest := rest - {id};
    }
  }

  /** One attempt: allocate, then insert or run into a violation. */
  lemma AttemptIsARun(p: Policy, s: Sys, tx: Tx, authority: string, naan: string, item: Option<string>, l: Ledger)
    returns (steps: seq<Step>)
    requires InHand(p, s, tx, authority, naan, l)
    ensures Runs(p, s, steps)
    ensures var r := Candidate(p, authority, naan, item, l.next);
            InHand(p, After(p, s, steps), tx, authority, naan,
                   Ledger(l.next + 1, if Conflicts(l.rows, r) then l.rows else l.rows + [r]))
  {
    hide Candidate, Collide, Conflicts, NamespaceKey;
    var r := Candidate(p, authority, naan, item, l.next);
    var allocate := Allocate(tx);
    var s1 := Do(p, s, allocate);
    assert NewRecord(p, s1, tx, item) == r;
    NotTombstoned(p, authority, naan, item, l.next);
    ConflictsMeans(l.rows, r);
    var id := BoundOf(s.rows.Keys);
    SeesStays(s, s1, tx, l.rows);
    var second := if Conflicts(l.rows, r) then Violation(tx, item) else Insert(tx, id, item);
    SecondStep(p, s1, tx, item, l.rows, id);
    var s2 := Do(p, s1, second);
    if second.Violation? {
      SeesStays(s1, s2, tx, l.rows);
    }
    assert InHand(p, s2, tx, authority, naan,
                  Ledger(l.next + 1, if Conflicts(l.rows, r) then l.rows else l.rows + [r])) by {
      hide Sees;
    }
    hide InHand, Do, Enabled, Sees;
    steps := [allocate, second];
    assert steps[1..] == [second] && [second][1..] == [];
    assert Runs(p, s2, []) && After(p, s2, []) == s2;
    assert Runs(p, s1, [second]) && After(p, s1, [second]) == s2;
    assert Runs(p, s, steps) && After(p, s, steps) == s2;
  }

  lemma NotTombstoned(p: Policy, authority: string, naan: string, item: Option<string>, counter: nat)
    ensures !Candidate(p, authority, naan, item, counter).tombstoned
  {
  }

  lemma InsertSees(p: Policy, s: Sys, tx: Tx, item: Option<string>, rows: seq<Record>, id: RowId)
    requires Enabled(p, s, Insert(tx, id, item)) && Sees(s, tx, rows)
    ensures Sees(Do(p, s, Insert(tx, id, item)), tx, rows + [NewRecord(p, s, tx, item)])
  {
    hide Candidate, NamespaceKey, Fits, OnlyThese;
    var s' := Do(p, s, Insert(tx, id, item));
    var all := rows + [NewRecord(p, s, tx, item)];
    forall i | 0 <= i < |all| ensures Held(s', all[i]) {
      if i < |rows| {
        assert Held(s, rows[i]);
        var k :| RowIs(s, k, rows[i]);
        assert RowIs(s', k, all[i]);
      } else {
        assert RowIs(s', id, all[i]);
      }
    }
    InsertAddsOne(p, s, tx, item, rows, id);
  }

  lemma InsertAddsOne(p: Policy, s: Sys, tx: Tx, item: Option<string>, rows: seq<Record>, id: RowId)
    requires Enabled(p, s, Insert(tx, id, item)) && OnlyThese(s, rows)
    ensures OnlyThese(Do(p, s, Insert(tx, id, item)), rows + [NewRecord(p, s, tx, item)])
  {
    hide Candidate, NamespaceKey, Fits;
    var s' := Do(p, s, Insert(tx, id, item));
    var all := rows + [NewRecord(p, s, tx, item)];
    assert all[|rows|] == s'.rows[id].record;
    forall other | other in s'.rows ensures s'.rows[other].record in all {
      if other != id {
        assert s.rows[other].record in rows;
      }
    }
  }

  lemma FitsAmong(s: Sys, rows: seq<Record>, r: Record)
    requires OnlyThese(s, rows) && forall i :: 0 <= i < |rows| ==> !Collide(rows[i], r)
    ensures Fits(s, r)
  {
    hide Collide;
  }

  lemma SecondStep(p: Policy, s: Sys, tx: Tx, item: Option<string>, rows: seq<Record>, id: RowId)
    requires tx in s.sessions && s.sessions[tx].candidate.Some? && Sees(s, tx, rows) && id !in s.rows
    requires !NewRecord(p, s, tx, item).tombstoned
    ensures var r := NewRecord(p, s, tx, item);
            if Conflicts(rows, r) then Enabled(p, s, Violation(tx, item))
            else Enabled(p, s, Insert(tx, id, item)) && Sees(Do(p, s, Insert(tx, id, item)), tx, rows + [r])
  {
    hide Candidate, Collide, Conflicts, NamespaceKey, OnlyThese;
    var r := NewRecord(p, s, tx, item);
    ConflictsMeans(rows, r);
    if Conflicts(rows, r) {
      var i :| 0 <= i < |rows| && Collide(rows[i], r);
      assert Held(s, rows[i]);
      var other :| RowIs(s, other, rows[i]);
      assert Violates(s, tx, r);
    } else {
      FitsAmong(s, rows, r);
      InsertSees(p, s, tx, item, rows, id);
    }
  }

  lemma CommitSees(p: Policy, s: Sys, tx: Tx, rows: seq<Record>)
    requires Enabled(p, s, Commit(tx)) && Sees(s, tx, rows)
    ensures var s' := Do(p, s, Commit(tx));
            Sees(s', tx, rows) && forall id :: id in s'.rows ==> s'.rows[id].writer.None?
  {
    hide NamespaceKey, AllHeld;
    var s' := Do(p, s, Commit(tx));
    assert AllHeld(s', rows) by {
      CommitHolds(p, s, tx, rows);
    }
  }

  lemma CommitHolds(p: Policy, s: Sys, tx: Tx, rows: seq<Record>)
    requires Enabled(p, s, Commit(tx)) && AllHeld(s, rows)
    ensures AllHeld(Do(p, s, Commit(tx)), rows)
  {
    hide NamespaceKey;
    var s' := Do(p, s, Commit(tx));
    forall i | 0 <= i < |rows| ensures Held(s', rows[i]) {
      assert Held(s, rows[i]);
      var k :| RowIs(s, k, rows[i]);
      assert RowIs(s', k, rows[i]);
    }
  }

  lemma CommitKeepsHand(p: Policy, s: Sys, tx: Tx, authority: string, naan: string, l: Ledger)
    requires InHand(p, s, tx, authority, naan, l)
    ensures Enabled(p, s, Commit(tx))
    ensures var s' := Do(p, s, Commit(tx));
            && InHand(p, s', tx, authority, naan, l) && s'.sessions[tx].next.None?
            && Stored(s', NamespaceKey(naan, p.shoulder)) == l.next
            && forall id :: id in s'.rows ==> s'.rows[id].writer.None?
  {
    hide NamespaceKey, Sees;
    CommitSees(p, s, tx, l.rows);
  }

  /** The attempt loop of one item; `commits` says whether a collision is committed before the next attempt. */
  lemma {:induction false} AttemptsAreARun(p: Policy, s: Sys, tx: Tx, authority: string, naan: string,
                                           item: Option<string>,
                                           l: Ledger, tries: nat, commits: bool)
    returns (steps: seq<Step>)
    requires InHand(p, s, tx, authority, naan, l)
    ensures Runs(p, s, steps)
    ensures InHand(p, After(p, s, steps), tx, authority, naan, Attempts(p, authority, naan, item, l, tries).ledger)
    decreases tries
  {
    hide InHand, Candidate, Conflicts, Enabled, Do, FindActive;
    steps := [];
    if tries > 0 {
      var r := Candidate(p, authority, naan, item, l.next);
      steps := AttemptIsARun(p, s, tx, authority, naan, item, l);
      if Conflicts(l.rows, r) {
        var next := l.(next := l.next + 1);
        if commits {
          CommitKeepsHand(p, After(p, s, steps), tx, authority, naan, next);
          Extend(p, s, steps, Commit(tx));
          steps := steps + [Commit(tx)];
        }
        if FindActive(l.rows, authority, naan, item).None? {
          var more := AttemptsAreARun(p, After(p, s, steps), tx, authority, naan, item, next, tries - 1, commits);
          Join(p, s, steps, more);
          steps := steps + more;
        }
      }
    }
  }

  lemma {:induction false} ItemsAreARun(p: Policy, s: Sys, tx: Tx, authority: string, naan: string, l: Ledger,
                                        items: seq<Option<string>>, n: nat)
    returns (steps: seq<Step>)
    requires InHand(p, s, tx, authority, naan, l) && n <= |items|
    ensures Runs(p, s, steps)
    ensures InHand(p, After(p, s, steps), tx, authority, naan, BatchUpTo(p, authority, naan, l, items, n).ledger)
  {
    hide InHand, Attempts, Enabled, Do, ActiveMap;
    steps := [];
    if n > 0 {
      steps := ItemsAreARun(p, s, tx, authority, naan, l, items, n - 1);
      var b := BatchUpTo(p, authority, naan, l, items, n - 1);
      var item := items[n - 1];
      if item.None? || item.value !in b.active {
        var more := AttemptsAreARun(p, After(p, s, steps), tx, authority, naan, item, b.ledger, MAX_TRIES, false);
        Join(p, s, steps, more);
        steps := steps + more;
      }
    }
  }

  /** The committed table and counter are the ledger `l`, and nothing is pending. */
  ghost predicate At(p: Policy, s: Sys, naan: string, l: Ledger) {
    && Stored(s, NamespaceKey(naan, p.shoulder)) == l.next
    && OnlyThese(s, l.rows) && AllHeld(s, l.rows) && forall id :: id in s.rows ==> s.rows[id].writer.None?
  }

  lemma BeginIsInHand(p: Policy, s: Sys, tx: Tx, authority: string, naan: string, l: Ledger)
    requires At(p, s, naan, l) && tx !in s.sessions
    requires forall other :: other in s.sessions && s.sessions[other].next.Some? ==>
               Namespace(p, s.sessions[other]) != NamespaceKey(naan, p.shoulder)
    ensures InHand(p, Do(p, s, Begin(tx, authority, naan)), tx, authority, naan, l)
  {
    hide NamespaceKey, AllHeld, OnlyThese;
    SeesStays(s, Do(p, s, Begin(tx, authority, naan)), tx, l.rows);
  }

  lemma HeldStays(s: Sys, s': Sys, r: Record)
    requires Held(s, r) && s'.rows == s.rows
    ensures Held(s', r)
  {
    var id :| RowIs(s, id, r);
    assert RowIs(s', id, r);
  }

  lemma SeesStays(s: Sys, s': Sys, tx: Tx, rows: seq<Record>)
    requires Sees(s, tx, rows) && s'.rows == s.rows
    ensures Sees(s', tx, rows)
  {
    hide Held;
    forall i | 0 <= i < |rows| ensures Held(s', rows[i]) {
      assert Held(s, rows[i]);
      HeldStays(s, s', rows[i]);
    }
  }

  lemma EndIsAt(p: Policy, s: Sys, tx: Tx, authority: string, naan: string, l: Ledger)
    requires InHand(p, s, tx, authority, naan, l)
    ensures Enabled(p, s, Commit(tx)) && At(p, Do(p, s, Commit(tx)), naan, l)
  {
    hide NamespaceKey;
    CommitKeepsHand(p, s, tx, authority, naan, l);
    hide Enabled, Do, AllHeld, OnlyThese;
  }

  /** POST /arks alone on its namespace is a run that ends with the specified table and counter. */
  lemma ReserveIsARun(p: Policy, s: Sys, tx: Tx, authority: string, naan: string, l: Ledger) returns (steps: seq<Step>)
    requires At(p, s, naan, l) && tx !in s.sessions
    requires forall other :: other in s.sessions && s.sessions[other].next.Some? ==>
               Namespace(p, s.sessions[other]) != NamespaceKey(naan, p.shoulder)
    ensures Runs(p, s, steps)
    ensures At(p, After(p, s, steps), naan, Attempts(p, authority, naan, None, l, MAX_TRIES).ledger)
  {
    var begin := Begin(tx, authority, naan);
    BeginIsInHand(p, s, tx, authority, naan, l);
    assert Runs(p, s, []) && Enabled(p, s, begin);
    hide InHand, At, Attempts, Enabled, Do;
    Extend(p, s, [], begin);
    steps := [] + [begin];
    var body := AttemptsAreARun(p, After(p, s, steps), tx, authority, naan, None, l, MAX_TRIES, true);
    Join(p, s, steps, body);
    steps := steps + body;
    EndIsAt(p, After(p, s, steps), tx, authority, naan, Attempts(p, authority, naan, None, l, MAX_TRIES).ledger);
    Extend(p, s, steps, Commit(tx));
    steps := steps + [Commit(tx)];
  }

  /** So is POST /arks/batch, all of it in one transaction. */
  lemma BatchIsARun(p: Policy, s: Sys, tx: Tx, authority: string, naan: string, l: Ledger, items: seq<Option<string>>)
    returns (steps: seq<Step>)
    requires At(p, s, naan, l) && tx !in s.sessions
    requires forall other :: other in s.sessions && s.sessions[other].next.Some? ==>
               Namespace(p, s.sessions[other]) != NamespaceKey(naan, p.shoulder)
    ensures Runs(p, s, steps)
    ensures At(p, After(p, s, steps), naan, BatchUpTo(p, authority, naan, l, items, |items|).ledger)
  {
    var begin := Begin(tx, authority, naan);
    BeginIsInHand(p, s, tx, authority, naan, l);
    assert Runs(p, s, []) && Enabled(p, s, begin);
    hide InHand, At, BatchUpTo, Enabled, Do;
    Extend(p, s, [], begin);
    steps := [] + [begin];
    var body := ItemsAreARun(p, After(p, s, steps), tx, authority, naan, l, items, |items|);
    Join(p, s, steps, body);
    steps := steps + body;
    EndIsAt(p, After(p, s, steps), tx, authority, naan, BatchUpTo(p, authority, naan, l, items, |items|).ledger);
    Extend(p, s, steps, Commit(tx));
    steps := steps + [Commit(tx)];
  }
}
