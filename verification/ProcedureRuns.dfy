/**
 * Each procedure of the code, run without interference, is a run of the transition system: take the lock,
 * read, call out, commit, release. So what the protocol theorems say about runs holds of the procedures.
 */
module ProcedureRuns {
  import opened Wrappers
  import opened ArkTypes
  import opened ArkRow
  import opened Lifecycle
  import opened Verdicts
  import opened Protocol
  import opened ProtocolInvariant
  import opened ProtocolPreservation
  import MetadataWorker
  import ReplicationWorker
  import ChainWorker
  import ArkApi

  lemma {:induction false} Extend(c: Config, st: Sys, steps: seq<Step>, step: Step)
    requires Runs(c, st, steps) && Enabled(c, After(c, st, steps), step)
    ensures Runs(c, st, steps + [step])
    ensures After(c, st, steps + [step]) == Do(c, After(c, st, steps), step)
    decreases |steps|
  {
    if steps == [] {
      assert steps + [step] == [step] && [step][1..] == [];
      assert Runs(c, Do(c, st, step), []);
    } else {
      Extend(c, Do(c, st, steps[0]), steps[1..], step);
      assert (steps + [step])[1..] == steps[1..] + [step];
    }
  }

  lemma {:induction false} Join(c: Config, st: Sys, a: seq<Step>, b: seq<Step>)
    requires Runs(c, st, a) && Runs(c, After(c, st, a), b)
    ensures Runs(c, st, a + b) && After(c, st, a + b) == After(c, After(c, st, a), b)
    decreases |a|
  {
    hide Enabled, Do;
    if a == [] {
      assert a + b == b;
    } else {
      Join(c, Do(c, st, a[0]), a[1..], b);
      assert (a + b)[1..] == a[1..] + b;
    }
  }

  /** Nobody is using this session number, and nobody holds this ARK's lock. */
  predicate Free(c: Config, st: Sys, sid: SessionId, ark: Ark) {
    sid !in st.sessions && c.lockKey(ark) !in st.locks
  }

  /** `steps` lead from `st` to exactly `want`: no other row, log, operation, lock or session has changed. */
  predicate Achieves(c: Config, st: Sys, steps: seq<Step>, want: Sys) {
    Runs(c, st, steps) && After(c, st, steps) == want
  }

  /** The run is at a point where the session is still live and only it has been added. */
  predicate InHand(c: Config, st: Sys, cur: Sys, sid: SessionId, ark: Ark) {
    && Live(cur, sid) && ArkOf(cur, sid) == ark
    && cur.locks == st.locks[c.lockKey(ark) := sid] && cur.sessions - {sid} == st.sessions
  }

  /** The state once the session is closed. */
  function Closed(st: Sys, cur: Sys): Sys { cur.(locks := st.locks, sessions := st.sessions) }

  function WithRow(st: Sys, ark: Ark, row: Row): Sys { st.(rows := st.rows[ark := row]) }

  function Accepting(st: Sys, documents: set<(Document, Cid)>): Sys {
    st.(logs := st.logs.(accepted := st.logs.accepted + documents))
  }

  /** The documents of an attempt that the store answered, with the answers. */
  function Answered(stored: seq<Document>, reply2: Reply<Cid>, reply1: Reply<Cid>): set<(Document, Cid)> {
    if stored == [] then {}
    else
      var last := stored[|stored| - 1];
      var reply := if last.Level2Document? then reply2 else reply1;
      Answered(stored[..|stored| - 1], reply2, reply1) + (if reply.Returned? then {(last, reply.value)} else {})
  }

  lemma AnsweredOne(d: Document, reply2: Reply<Cid>, reply1: Reply<Cid>)
    ensures Answered([d], reply2, reply1) == Answer(d, if d.Level2Document? then reply2 else reply1)
    ensures Answered([], reply2, reply1) == {}
  {
    assert [d][..0] == [];
  }

  function Answer(d: Document, reply: Reply<Cid>): set<(Document, Cid)> {
    if reply.Returned? then {(d, reply.value)} else {}
  }

  lemma {:induction false} AnsweredJoin(a: seq<Document>, b: seq<Document>, reply2: Reply<Cid>, reply1: Reply<Cid>)
    ensures Answered(a + b, reply2, reply1) == Answered(a, reply2, reply1) + Answered(b, reply2, reply1)
    decreases |b|
  {
    if b == [] {
      assert a + b == a;
    } else {
      AnsweredJoin(a, b[..|b| - 1], reply2, reply1);
      assert (a + b)[..|a + b| - 1] == a + b[..|b| - 1];
    }
  }

  lemma Begin(c: Config, st: Sys, sid: SessionId, ark: Ark) returns (steps: seq<Step>)
    requires Free(c, st, sid, ark)
    ensures Runs(c, st, steps)
    ensures var cur := After(c, st, steps);
            InHand(c, st, cur, sid, ark) && cur.sessions[sid].snap.None? && Closed(st, cur) == st
  {
    steps := [];
    var step := Lock(sid, Acquire(ark));
    Extend(c, st, steps, step);
    steps := steps + [step];
    assert After(c, st, steps).sessions - {sid} == st.sessions;
  }

  lemma End(c: Config, st: Sys, steps: seq<Step>, sid: SessionId, ark: Ark) returns (all: seq<Step>)
    requires Free(c, st, sid, ark) && Runs(c, st, steps) && InHand(c, st, After(c, st, steps), sid, ark)
    ensures Achieves(c, st, all, Closed(st, After(c, st, steps)))
  {
    Extend(c, st, steps, Lock(sid, Release));
    all := steps + [Lock(sid, Release)];
    assert st.locks[c.lockKey(ark) := sid] - {c.lockKey(ark)} == st.locks;
  }

  lemma Read(c: Config, st: Sys, steps: seq<Step>, sid: SessionId, ark: Ark, kind: Kind, now: Time)
    returns (more: seq<Step>)
    requires Runs(c, st, steps) && ark in st.rows && GuardOf(kind, st.rows[ark], now)
    requires var cur := After(c, st, steps);
             InHand(c, st, cur, sid, ark) && cur.sessions[sid].snap.None? && Closed(st, cur) == st
    ensures Runs(c, st, more)
    ensures var cur := After(c, st, more);
            && InHand(c, st, cur, sid, ark) && Closed(st, cur) == st
            && cur.sessions[sid].snap == Some(SnapFresh(kind, st.rows[ark]))
  {
    assert After(c, st, steps).rows == Closed(st, After(c, st, steps)).rows;
    var step := Lock(sid, ReadRow(kind, now));
    Extend(c, st, steps, step);
    more := steps + [step];
    assert After(c, st, more).sessions - {sid} == After(c, st, steps).sessions - {sid};
  }

  lemma CallOut(c: Config, st: Sys, steps: seq<Step>, sid: SessionId, ark: Ark, call: CallStep)
    returns (more: seq<Step>)
    requires Runs(c, st, steps) && InHand(c, st, After(c, st, steps), sid, ark)
    requires CanCall(c, After(c, st, steps), sid, call)
    ensures Runs(c, st, more) && After(c, st, more) == DoCall(c, After(c, st, steps), sid, call)
    ensures InHand(c, st, After(c, st, more), sid, ark)
  {
    Extend(c, st, steps, Call(sid, call));
    more := steps + [Call(sid, call)];
    assert After(c, st, more).sessions - {sid} == After(c, st, steps).sessions - {sid};
  }

  lemma Commit(c: Config, st: Sys, steps: seq<Step>, sid: SessionId, ark: Ark, work: WorkStep) returns (all: seq<Step>)
    requires Free(c, st, sid, ark) && Runs(c, st, steps)
    requires InHand(c, st, After(c, st, steps), sid, ark)
    requires CanWork(c, After(c, st, steps), sid, work)
    ensures var cur := After(c, st, steps);
            Achieves(c, st, all,
                     WithRow(Closed(st, cur), ark, WorkRow(c, cur, sid, work)).(logs := WorkLogs(c, cur, sid, work)))
  {
    var cur := After(c, st, steps);
    var step := Work(sid, work);
    Extend(c, st, steps, step);
    assert DoWork(c, cur, sid, work).sessions - {sid} == cur.sessions - {sid};
    hide WorkRow, WorkLogs, CanWork;
    all := End(c, st, steps + [step], sid, ark);
  }

  lemma Opening(c: Config, st: Sys, sid: SessionId, ark: Ark, kind: Kind, now: Time) returns (steps: seq<Step>)
    requires ark in st.rows
    requires Free(c, st, sid, ark) && GuardOf(kind, st.rows[ark], now)
    ensures Runs(c, st, steps)
    ensures var cur := After(c, st, steps);
            && InHand(c, st, cur, sid, ark) && Closed(st, cur) == st && cur.rows == st.rows && cur.logs == st.logs
            && cur.sessions[sid].snap == Some(SnapFresh(kind, st.rows[ark]))
  {
    steps := Begin(c, st, sid, ark);
    steps := Read(c, st, steps, sid, ark, kind, now);
  }

  lemma NothingToDo(c: Config, st: Sys, sid: SessionId, ark: Ark) returns (steps: seq<Step>)
    requires Free(c, st, sid, ark) && ark in st.rows
    ensures Achieves(c, st, steps, st) && WithRow(st, ark, st.rows[ark]) == st && Accepting(st, {}) == st
  {
    steps := Begin(c, st, sid, ark);
    assert st.rows == st.rows[ark := st.rows[ark]];
    assert st.logs.accepted + {} == st.logs.accepted;
    steps := End(c, st, steps, sid, ark);
  }

  // ---------- the metadata worker ----------

  lemma PersistRaises(c: Config, st: Sys, steps: seq<Step>, sid: SessionId, ark: Ark, exn: Exn, now: Time)
    returns (all: seq<Step>)
    requires ark in st.rows
    requires Free(c, st, sid, ark) && Runs(c, st, steps)
    requires var cur := After(c, st, steps);
             InHand(c, st, cur, sid, ark) && cur.rows == st.rows && Busy(cur, sid, Persist)
    ensures Achieves(c, st, all, WithRow(Closed(st, After(c, st, steps)), ark, PersistFailure(st.rows[ark], exn, now)))
  {
    all := Commit(c, st, steps, sid, ark, PersistRaised(exn, now));
  }

  lemma StoredLevel2Run(c: Config, st: Sys, steps: seq<Step>, sid: SessionId, ark: Ark, level2Cid: Cid,
                        reply1: Reply<Cid>, now: Time)
    returns (all: seq<Step>)
    requires ark in st.rows
    requires Free(c, st, sid, ark) && Runs(c, st, steps)
    requires st.rows[ark].meta.Some? && st.rows[ark].meta.value.level1Cid.None?
             && st.rows[ark].meta.value.level1Json.Some?
    requires var cur := After(c, st, steps);
             && InHand(c, st, cur, sid, ark) && cur.rows == st.rows
             && cur.sessions[sid].snap == Some(SnapFresh(Persist, st.rows[ark]).(level2Cid := Some(level2Cid)))
    ensures var m := st.rows[ark].meta.value;
            Achieves(c, st, all,
                     WithRow(Accepting(Closed(st, After(c, st, steps)), Answer(Level1Of(m, level2Cid), reply1)), ark,
                             MetadataWorker.PersistLevel1(st.rows[ark], m, level2Cid, [], reply1, now).row))
  {
    if reply1.Raised? {
      all := PersistRaises(c, st, steps, sid, ark, reply1.exn, now);
      assert After(c, st, steps).logs.accepted + {} == After(c, st, steps).logs.accepted;
    } else {
      var stored := CallOut(c, st, steps, sid, ark, StoreLevel1(reply1.value));
      all := Commit(c, st, stored, sid, ark, CommitPersisted);
    }
  }

  /** MetadataPersistenceWorker._persist is a run: its row, and the documents it stored, and nothing else. */
  lemma PersistIsARun(c: Config, st: Sys, sid: SessionId, ark: Ark, reply2: Reply<Cid>, reply1: Reply<Cid>, now: Time)
    returns (steps: seq<Step>)
    requires Inv(c, st) && Free(c, st, sid, ark) && ark in st.rows
    ensures var attempt := MetadataWorker.PersistAttempt(st.rows[ark], reply2, reply1, now);
            Achieves(c, st, steps, WithRow(Accepting(st, Answered(attempt.stored, reply2, reply1)), ark, attempt.row))
  {
    var row := st.rows[ark];
    assert RowOk(c, st.logs, ark, row);
    assert Answered([], reply2, reply1) == {} && st.logs.accepted + {} == st.logs.accepted;
    if !PersistGuard(row, now) {
      steps := NothingToDo(c, st, sid, ark);
    } else {
      var m := row.meta.value;
      hide Inv, RowOk, MetadataWorker.PersistLevel1, IsInfrastructureError, MarkFailed, Deferred;
      steps := Opening(c, st, sid, ark, Persist, now);
      if !CanStoreLevel2(m) {
        steps := PersistRaises(c, st, steps, sid, ark, MetadataWorker.PayloadMissing(), now);
      } else {
        AnsweredOne(Level2Of(m), reply2, reply1);
        if reply2.Raised? {
          steps := PersistRaises(c, st, steps, sid, ark, reply2.exn, now);
        } else {
          steps := PersistStored(c, st, steps, sid, ark, reply2, reply1, now);
        }
      }
    }
  }

  lemma PersistStored(c: Config, st: Sys, steps: seq<Step>, sid: SessionId, ark: Ark, reply2: Reply<Cid>,
                      reply1: Reply<Cid>, now: Time)
    returns (all: seq<Step>)
    requires Inv(c, st) && Free(c, st, sid, ark) && ark in st.rows && PersistGuard(st.rows[ark], now)
             && Runs(c, st, steps)
    requires reply2.Returned? && st.rows[ark].meta.Some? && CanStoreLevel2(st.rows[ark].meta.value)
    requires var cur := After(c, st, steps);
             && InHand(c, st, cur, sid, ark) && Closed(st, cur) == st
             && cur.sessions[sid].snap == Some(SnapFresh(Persist, st.rows[ark]))
    ensures var attempt := MetadataWorker.PersistAttempt(st.rows[ark], reply2, reply1, now);
            Achieves(c, st, all, WithRow(Accepting(st, Answered(attempt.stored, reply2, reply1)), ark, attempt.row))
  {
    hide MetadataWorker.RowMissing, MetadataWorker.PayloadMissing, MetadataWorker.FieldsMissing, IsInfrastructureError;
    var m := st.rows[ark].meta.value;
    assert RowOk(c, st.logs, ark, st.rows[ark]);
    assert After(c, st, steps).rows == Closed(st, After(c, st, steps)).rows;
    var stored := CallOut(c, st, steps, sid, ark, StoreLevel2(reply2.value));
    all := StoredLevel2Run(c, st, stored, sid, ark, reply2.value, reply1, now);
    var two, one := Level2Of(m), Level1Of(m, reply2.value);
    AnsweredOne(two, reply2, reply1);
    AnsweredOne(one, reply2, reply1);
    AnsweredJoin([two], [one], reply2, reply1);
    assert st.logs.accepted + {(two, reply2.value)} + Answer(one, reply1)
           == st.logs.accepted + Answered([two, one], reply2, reply1)
      by { assert [two, one] == [two] + [one]; }
  }

  // ---------- the replication worker ----------

  /** The snapshot after the repairs that went through. */
  function AfterRepairs(row: Row, o1: Pin, o2: Pin, repaired: bool): Snap {
    SnapFresh(Audit, row).(pins := Some((o1, o2)), repaired := repaired)
  }

  /** What the repair step does to the state of a session in hand. */
  lemma RepairEffect(c: Config, st: Sys, cur: Sys, sid: SessionId, ark: Ark, levelTwo: bool, cid: Cid, now: Time,
                     o1: Pin, o2: Pin, repaired: bool)
    requires ark in st.rows && HasUsableCids(st.rows[ark]) && InHand(c, st, cur, sid, ark)
    requires cur.sessions[sid].snap == Some(AfterRepairs(st.rows[ark], o1, o2, repaired))
    requires var m := st.rows[ark].meta.value;
             NeedsRepair(if levelTwo then o2 else o1, RepairAllowed(c, m, now))
             && if levelTwo then CanStoreLevel2(m) else m.level1Json.Some?
    ensures CanRepair(c, cur, sid, levelTwo, now)
    ensures var m := st.rows[ark].meta.value;
            var after := DoRepair(c, cur, sid, levelTwo, cid, now);
            && after.rows == cur.rows
            && Closed(st, after)
               == Accepting(Closed(st, cur), {(if levelTwo then Level2Of(m) else Level1Of(m, m.level2Cid.value), cid)})
            && after.sessions[sid].snap.Some? && SnapOf(after, sid).kind == Audit
            && (cid == (if levelTwo then m.level2Cid.value else m.level1Cid.value) ==>
                  SnapOf(after, sid) == AfterRepairs(st.rows[ark], o1, o2, true))
  {
    hide NeedsRepair, RepairAllowed;
  }

  /** One repair: the document goes to the store, and another CID than expected abandons the audit. */
  lemma RepairIsARun(c: Config, st: Sys, steps: seq<Step>, sid: SessionId, ark: Ark, levelTwo: bool,
                     reply: Reply<Cid>, now: Time,
                     o1: Pin, o2: Pin, repaired: bool)
    returns (more: seq<Step>, repairs: ReplicationWorker.Repairs)
    requires Runs(c, st, steps) && ark in st.rows && HasUsableCids(st.rows[ark])
    requires var cur := After(c, st, steps);
             && InHand(c, st, cur, sid, ark) && cur.rows == st.rows
             && cur.sessions[sid].snap == Some(AfterRepairs(st.rows[ark], o1, o2, repaired))
    ensures var m := st.rows[ark].meta.value;
            repairs == if levelTwo then ReplicationWorker.Level2Repair(c, m, o2, reply, now)
                       else ReplicationWorker.Level1Repair(c, m, o1, reply, now)
    ensures Runs(c, st, more)
    ensures var cur := After(c, st, more);
            && InHand(c, st, cur, sid, ark) && cur.rows == st.rows
            && Closed(st, cur) == Accepting(Closed(st, After(c, st, steps)), Answered(repairs.stored, reply, reply))
            && cur.sessions[sid].snap.Some? && SnapOf(cur, sid).kind == Audit
            && (repairs.ok ==> SnapOf(cur, sid) == AfterRepairs(st.rows[ark], o1, o2, repaired || repairs.count > 0))
    ensures |repairs.stored| <= 1 && (repairs.stored != [] ==> repairs.stored[0].Level2Document? == levelTwo)
  {
    hide NeedsRepair, RepairAllowed;
    var m := st.rows[ark].meta.value;
    var cur := After(c, st, steps);
    hide Runs, After;
    repairs := if levelTwo then ReplicationWorker.Level2Repair(c, m, o2, reply, now)
               else ReplicationWorker.Level1Repair(c, m, o1, reply, now);
    more := steps;
    assert cur.logs.accepted + {} == cur.logs.accepted;
    assert Answered([], reply, reply) == {};
    if repairs.stored != [] {
      AnsweredOne(repairs.stored[0], reply, reply);
      assert repairs.stored == [repairs.stored[0]];
      if reply.Returned? {
        RepairEffect(c, st, cur, sid, ark, levelTwo, reply.value, now, o1, o2, repaired);
        hide CanRepair, DoRepair, Closed, InHand;
        more := CallOut(c, st, steps, sid, ark, Repair(levelTwo, reply.value, now));
      }
    }
  }

  lemma RepairsAreARun(c: Config, st: Sys, steps: seq<Step>, sid: SessionId, ark: Ark, o1: Pin, o2: Pin,
                       reply2: Reply<Cid>, reply1: Reply<Cid>, now: Time)
    returns (more: seq<Step>)
    requires Runs(c, st, steps) && ark in st.rows && HasUsableCids(st.rows[ark])
    requires var cur := After(c, st, steps);
             && InHand(c, st, cur, sid, ark) && Closed(st, cur) == st
             && cur.sessions[sid].snap == Some(AfterRepairs(st.rows[ark], o1, o2, false))
    ensures Runs(c, st, more)
    ensures var repairs := ReplicationWorker.AllRepairs(c, st.rows[ark].meta.value, o1, o2, reply2, reply1, now);
            var cur := After(c, st, more);
            && InHand(c, st, cur, sid, ark)
            && Closed(st, cur) == Accepting(st, Answered(repairs.stored, reply2, reply1))
            && cur.sessions[sid].snap.Some? && SnapOf(cur, sid).kind == Audit
            && (repairs.ok ==> SnapOf(cur, sid) == AfterRepairs(st.rows[ark], o1, o2, repairs.count > 0))
  {
    hide ReplicationWorker.Level2Repair, ReplicationWorker.Level1Repair, Answered;
    var two, one;
    assert After(c, st, steps).rows == Closed(st, After(c, st, steps)).rows;
    more, two := RepairIsARun(c, st, steps, sid, ark, true, reply2, now, o1, o2, false);
    SameAnswers(two.stored, reply2, reply1, true);
    if two.ok {
      more, one := RepairIsARun(c, st, more, sid, ark, false, reply1, now, o1, o2, two.count > 0);
      SameAnswers(one.stored, reply2, reply1, false);
      AnsweredJoin(two.stored, one.stored, reply2, reply1);
      assert st.logs.accepted + Answered(two.stored, reply2, reply1) + Answered(one.stored, reply2, reply1)
          == st.logs.accepted + Answered(two.stored + one.stored, reply2, reply1);
    }
  }

  lemma SameAnswers(stored: seq<Document>, reply2: Reply<Cid>, reply1: Reply<Cid>, levelTwo: bool)
    requires |stored| <= 1 && (stored != [] ==> stored[0].Level2Document? == levelTwo)
    ensures Answered(stored, reply2, reply1)
            == if levelTwo then Answered(stored, reply2, reply2) else Answered(stored, reply1, reply1)
  {
    if stored != [] {
      assert stored == [stored[0]];
      AnsweredOne(stored[0], reply2, reply1);
      AnsweredOne(stored[0], reply2, reply2);
      AnsweredOne(stored[0], reply1, reply1);
    }
  }

  lemma ObservedRun(c: Config, st: Sys, steps: seq<Step>, sid: SessionId, ark: Ark, o1: Pin, o2: Pin,
                    reply2: Reply<Cid>, reply1: Reply<Cid>, now: Time, later: Time)
    returns (all: seq<Step>)
    requires ark in st.rows && HasUsableCids(st.rows[ark])
    requires ValidConfig(c) && Free(c, st, sid, ark) && Runs(c, st, steps)
    requires var cur := After(c, st, steps);
             && InHand(c, st, cur, sid, ark) && Closed(st, cur) == st
             && cur.sessions[sid].snap == Some(SnapFresh(Audit, st.rows[ark]))
    ensures var repairs := ReplicationWorker.AllRepairs(c, st.rows[ark].meta.value, o1, o2, reply2, reply1, now);
            var stored := Accepting(st, Answered(repairs.stored, reply2, reply1));
            Achieves(c, st, all,
                     if repairs.ok
                     then Recorded(c, stored, ark, Audited(c, st.rows[ark], o1, o2, repairs.count > 0, now, later))
                     else WithRow(stored, ark, Deferred(st.rows[ark], ReplicationUnavailable, c.firstPin[0], now)))
  {
    var observed := CallOut(c, st, steps, sid, ark, Observe(o1, o2));
    assert Closed(st, After(c, st, observed)) == st;
    var mended := RepairsAreARun(c, st, observed, sid, ark, o1, o2, reply2, reply1, now);
    var cur := After(c, st, mended);
    assert cur.rows == Closed(st, cur).rows && cur.logs == Closed(st, cur).logs;
    if ReplicationWorker.AllRepairs(c, st.rows[ark].meta.value, o1, o2, reply2, reply1, now).ok {
      hide ReplicationWorker.AllRepairs, Answered, Audited;
      all := Commit(c, st, mended, sid, ark, CommitAudited(now, later));
    } else {
      hide ReplicationWorker.AllRepairs, Answered;
      all := Commit(c, st, mended, sid, ark, AuditRaised(now));
    }
  }

  /** The commit of an audit: the row, and the evidence it is. */
  function Recorded(c: Config, st: Sys, ark: Ark, row: Row): Sys {
    WithRow(st, ark, row).(logs := st.logs.(qualified := st.logs.qualified + Qualifies(c, ark, row)))
  }

  lemma AuditFailsRun(c: Config, st: Sys, sid: SessionId, ark: Ark, isAssigned: bool, now: Time)
    returns (steps: seq<Step>)
    requires ValidConfig(c) && Free(c, st, sid, ark) && ark in st.rows && AuditGuard(st.rows[ark], now)
    ensures Achieves(c, st, steps,
                     WithRow(st, ark,
                             if isAssigned
                             then Deferred(st.rows[ark], ReplicationUnavailable, c.firstPin[0], now)
                                      else MarkFailed(st.rows[ark], AuthorityNotFound, now)))
  {
    steps := Opening(c, st, sid, ark, Audit, now);
    steps := Commit(c, st, steps, sid, ark, if isAssigned then AuditRaised(now) else FailUnassigned(now));
  }

  /** ReplicationReconciliationWorker._reconcile is a run: its row, its repairs, and the evidence it recorded. */
  lemma ReconcileIsARun(c: Config, st: Sys, sid: SessionId, ark: Ark, isAssigned: bool, pins: Reply<map<Cid, Pin>>,
                        reply2: Reply<Cid>, reply1: Reply<Cid>, now: Time, later: Time)
    returns (steps: seq<Step>)
    requires ValidConfig(c) && Inv(c, st) && Free(c, st, sid, ark) && ark in st.rows
    ensures var attempt :=
            ReplicationWorker.AuditAttempt(c, st.rows[ark], isAssigned, pins, reply2, reply1, now, later);
            var stored := Accepting(st, Answered(attempt.stored, reply2, reply1));
            Achieves(c, st, steps,
                     if attempt.tally.checked == 1 && attempt.tally.failed == 0
                     then Recorded(c, stored, ark, attempt.row)
                     else WithRow(stored, ark, attempt.row))
  {
    var row := st.rows[ark];
    assert RowOk(c, st.logs, ark, row);
    assert Answered([], reply2, reply1) == {} && Accepting(st, {}) == st by {
      assert st.logs.accepted + {} == st.logs.accepted;
    }
    if !AuditGuard(row, now) {
      steps := NothingToDo(c, st, sid, ark);
    } else {
      var m := row.meta.value;
      hide Inv, RowOk, Answered, ReplicationWorker.AllRepairs, Audited, Accepting, NeedsRepair;
      if !isAssigned || !ReplicationWorker.Observed(m, pins) {
        steps := AuditFailsRun(c, st, sid, ark, isAssigned, now);
      } else {
        steps := Opening(c, st, sid, ark, Audit, now);
        var o1, o2 := pins.value[m.level1Cid.value], pins.value[m.level2Cid.value];
        steps := ObservedRun(c, st, steps, sid, ark, o1, o2, reply2, reply1, now, later);
      }
    }
  }

  // ---------- the chain worker ----------

  lemma SentRun(c: Config, st: Sys, steps: seq<Step>, sid: SessionId, ark: Ark, sent: Option<Exn>, ev: Evidence,
                read: Reply<Option<ChainRecord>>, evAgain: Evidence, now: Time)
    returns (all: seq<Step>)
    requires ark in st.rows
    requires Free(c, st, sid, ark) && Runs(c, st, steps)
    requires Sending(st.rows[ark]) && Sendable(st.rows[ark])
    requires var cur := After(c, st, steps);
             && InHand(c, st, cur, sid, ark)
             && Closed(st, cur) == st.(submitted := st.submitted + {SubmissionOf(ark, st.rows[ark])})
             && cur.sessions[sid].snap == Some(SnapFresh(Send, st.rows[ark]).(sent := true))
    requires SendHonest(st, ark, st.rows[ark], sent) && Honest(st, ark, read)
    ensures var row := st.rows[ark];
            var v := Single(sent, row.target.value, row.meta.value.level1Cid.value, ev, read, evAgain);
            Achieves(c, st, all,
                     WithRow(st, ark, Apply(row, v, now)).(submitted := st.submitted + {SubmissionOf(ark, row)}))
  {
    var cur := After(c, st, steps);
    assert cur.rows == Closed(st, cur).rows && cur.logs == Closed(st, cur).logs;
    hide Single, Apply;
    var work := CommitSent(sent, ev, read, evAgain, now);
    assert StillSending(cur.rows[ark], SnapOf(cur, sid).row);
    all := Commit(c, st, steps, sid, ark, work);
  }

  lemma SendUnassignedRun(c: Config, st: Sys, sid: SessionId, ark: Ark, now: Time) returns (steps: seq<Step>)
    requires Free(c, st, sid, ark) && ark in st.rows && SendGuard(st.rows[ark], now)
    ensures Achieves(c, st, steps, WithRow(st, ark, MarkFailed(st.rows[ark], AuthorityNotFound, now)))
  {
    steps := Opening(c, st, sid, ark, Send, now);
    steps := Commit(c, st, steps, sid, ark, FailUnassigned(now));
  }

  lemma SendAssignedRun(c: Config, st: Sys, sid: SessionId, ark: Ark, sent: Option<Exn>, ev: Evidence,
                        read: Reply<Option<ChainRecord>>, evAgain: Evidence, now: Time)
    returns (steps: seq<Step>)
    requires Free(c, st, sid, ark) && ark in st.rows && SendGuard(st.rows[ark], now) && Sendable(st.rows[ark])
    requires SendHonest(st, ark, st.rows[ark], sent) && Honest(st, ark, read)
    ensures var row := st.rows[ark];
            var v := Single(sent, row.target.value, row.meta.value.level1Cid.value, ev, read, evAgain);
            Achieves(c, st, steps,
                     WithRow(st, ark, Apply(row, v, now)).(submitted := st.submitted + {SubmissionOf(ark, row)}))
  {
    hide Single, Apply;
    steps := Opening(c, st, sid, ark, Send, now);
    steps := CallOut(c, st, steps, sid, ark, SendOperation);
    steps := SentRun(c, st, steps, sid, ark, sent, ev, read, evAgain, now);
  }

  function Submitting(st: Sys, operation: Option<Submission>): Sys {
    st.(submitted := st.submitted + (if operation.Some? then {operation.value} else {}))
  }

  /**
   * publish_single_ark is a run, when what the chain client and the chain reads answer is truthful:
   * a call that returned took effect, and a value that was read has been held.
   */
  lemma PublishSingleIsARun(c: Config, st: Sys, sid: SessionId, ark: Ark, isAssigned: bool, sent: Option<Exn>,
                            ev: Evidence, read: Reply<Option<ChainRecord>>, evAgain: Evidence, now: Time)
    returns (steps: seq<Step>)
    requires Inv(c, st) && Free(c, st, sid, ark) && ark in st.rows
    requires SendHonest(st, ark, st.rows[ark], sent) && Honest(st, ark, read)
    ensures var attempt := ChainWorker.SendAttempt(st.rows[ark], ark, isAssigned, sent, ev, read, evAgain, now);
            Achieves(c, st, steps, Submitting(WithRow(st, ark, attempt.row), attempt.operation))
  {
    var row := st.rows[ark];
    assert RowOk(c, st.logs, ark, row);
    assert st.submitted + {} == st.submitted;
    hide Inv, Single, Apply, Failure, IsInfrastructureError, MarkFailed;
    if !SendGuard(row, now) {
      steps := NothingToDo(c, st, sid, ark);
    } else {
      if !isAssigned {
        steps := SendUnassignedRun(c, st, sid, ark, now);
      } else {
        steps := SendAssignedRun(c, st, sid, ark, sent, ev, read, evAgain, now);
      }
    }
  }

  /** Settling one pipeline result under the lock is a run, whenever the item was selected in the past. */
  lemma SettleIsARun(c: Config, st: Sys, sid: SessionId, item: Item, result: PipelineResult, ev: Evidence,
                     read: Reply<Option<ChainRecord>>, evAgain: Evidence, now: Time)
    returns (steps: seq<Step>)
    requires Inv(c, st) && Free(c, st, sid, item.ark) && item in st.items
    requires ResultHonest(st, item, result) && Honest(st, item.ark, read)
    ensures ItemSendable(item) && item.ark in st.rows
    ensures var v := ChainWorker.ItemVerdictOn(st.rows[item.ark], item, result, ev, read, evAgain);
            Achieves(c, st, steps, WithRow(st, item.ark, Apply(st.rows[item.ark], v, now)))
  {
    assert SelectedOk(c, st.logs, item.ark, item.record);
    hide Pipeline, Apply;
    steps := Begin(c, st, sid, item.ark);
    assert After(c, st, steps).rows == Closed(st, After(c, st, steps)).rows;
    assert After(c, st, steps).logs == Closed(st, After(c, st, steps)).logs;
    assert After(c, st, steps).items == Closed(st, After(c, st, steps)).items;
    steps := Commit(c, st, steps, sid, item.ark, SettleItem(item, result, ev, read, evAgain, now));
  }

  /** So is failing the row of an item whose authority is found unassigned: nothing but the authority is looked at. */
  lemma DropIsARun(c: Config, st: Sys, sid: SessionId, item: Item, now: Time) returns (steps: seq<Step>)
    requires Inv(c, st) && Free(c, st, sid, item.ark) && item in st.items
    requires item.ark in st.rows && st.rows[item.ark].authority == item.record.authority
    ensures Achieves(c, st, steps, WithRow(st, item.ark, MarkFailed(st.rows[item.ark], AuthorityNotFound, now)))
  {
    steps := Begin(c, st, sid, item.ark);
    assert After(c, st, steps).rows == Closed(st, After(c, st, steps)).rows;
    assert After(c, st, steps).items == Closed(st, After(c, st, steps)).items;
    steps := Commit(c, st, steps, sid, item.ark, DropUnassigned(item, now));
  }

  // ---------- the API ----------

  lemma RequestKeepsHand(c: Config, st: Sys, cur: Sys, sid: SessionId, ark: Ark, request: ApiStep)
    requires InHand(c, st, cur, sid, ark) && CanRequest(cur, sid, request)
    ensures InHand(c, st, DoRequest(cur, sid, request), sid, ark)
  {
    hide Put, Delete, Retry;
    assert DoRequest(cur, sid, request).sessions - {sid} == cur.sessions - {sid};
  }

  lemma CommitRequest(c: Config, st: Sys, steps: seq<Step>, sid: SessionId, ark: Ark, request: ApiStep)
    returns (all: seq<Step>)
    requires Free(c, st, sid, ark) && Runs(c, st, steps)
    requires InHand(c, st, After(c, st, steps), sid, ark)
    requires CanRequest(After(c, st, steps), sid, request)
    ensures Achieves(c, st, all, Closed(st, DoRequest(After(c, st, steps), sid, request)))
  {
    var cur := After(c, st, steps);
    RequestKeepsHand(c, st, cur, sid, ark, request);
    hide CanRequest, DoRequest, InHand;
    Extend(c, st, steps, Request(sid, request));
    all := End(c, st, steps + [Request(sid, request)], sid, ark);
  }

  /** The state after an accepted API call: its row, and the row it superseded in the archive. */
  function WithEffect(st: Sys, ark: Ark, caller: Authority, effect: Effect): Sys {
    WithRow(st, ark, effect.row).(archive := st.archive + Superseding(ark, caller, effect.archived))
  }

  /** An accepted PUT is a run, whether or not the ARK had a row: its row, the archive, and the PUT itself. */
  lemma PutIsARun(c: Config, st: Sys, sid: SessionId, req: PutRequest, known: Reply<bool>, ev: Evidence, now: Time)
    returns (steps: seq<Step>)
    requires Free(c, st, sid, req.origin.ark) && req.origin !in st.logs.puts
    requires Put(ArkApi.RowAt(st.rows, req.origin.ark), req, known, ev, now).Ok?
    ensures var effect := Put(ArkApi.RowAt(st.rows, req.origin.ark), req, known, ev, now).value;
            Achieves(c, st, steps,
                     WithEffect(st, req.origin.ark, req.origin.authority, effect).(
                       logs := st.logs.(puts := st.logs.puts + {req.origin})))
  {
    hide Put;
    var ark := req.origin.ark;
    steps := Begin(c, st, sid, ark);
    var cur := After(c, st, steps);
    assert cur.rows == Closed(st, cur).rows && cur.logs == Closed(st, cur).logs
           && cur.archive == Closed(st, cur).archive;
    assert Base(cur, sid) == ArkApi.RowAt(st.rows, ark);
    steps := CommitRequest(c, st, steps, sid, ark, CommitPut(req, known, ev, now));
  }

  /** An accepted DELETE is a run. */
  lemma DeleteIsARun(c: Config, st: Sys, sid: SessionId, ark: Ark, caller: Authority, ev: Evidence, evAgain: Evidence,
                     now: Time)
    returns (steps: seq<Step>)
    requires Free(c, st, sid, ark) && ark in st.rows
    requires Delete(Some(st.rows[ark]), caller, ev, evAgain).Ok?
    ensures Achieves(c, st, steps, WithEffect(st, ark, caller, Delete(Some(st.rows[ark]), caller, ev, evAgain).value))
  {
    hide Delete;
    steps := Opening(c, st, sid, ark, Api, now);
    var cur := After(c, st, steps);
    assert cur.rows == Closed(st, cur).rows && cur.archive == Closed(st, cur).archive;
    steps := CommitRequest(c, st, steps, sid, ark, CommitDelete(caller, ev, evAgain));
  }

  /** An accepted retry is a run. */
  lemma RetryIsARun(c: Config, st: Sys, sid: SessionId, ark: Ark, caller: Authority, ev: Evidence, now: Time)
    returns (steps: seq<Step>)
    requires Free(c, st, sid, ark) && ark in st.rows && Retry(Some(st.rows[ark]), caller, ev).Ok?
    ensures Achieves(c, st, steps, WithRow(st, ark, Retry(Some(st.rows[ark]), caller, ev).value))
  {
    hide Retry;
    steps := Opening(c, st, sid, ark, Api, now);
    var cur := After(c, st, steps);
    assert cur.rows == Closed(st, cur).rows;
    steps := CommitRequest(c, st, steps, sid, ark, CommitRetry(caller, ev));
  }
}
