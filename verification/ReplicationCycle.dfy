/**
 * One cycle of the replication worker around the per-ARK reconciliation: choosing a page, observing its CIDs in
 * bounded batches, and promoting under-allocated CIDs within a pressure-controlled budget.
 */
module ReplicationCycle {
  import opened Wrappers
  import opened ArkTypes
  import opened ArkRow
  import opened ProtocolInvariant
  import Protocol
  import ProtocolPreservation
  import Seqs

  /** Replica counts the cluster reports for one CID. */
  datatype CidStatus = CidStatus(total: int, assignedReplicas: int, queued: int, pinning: int)

  type Recent = map<Cid, (real, CidStatus)>

  /** A batch request fails as a whole, or answers for some CIDs; every answer is stamped by its own clock reading. */
  datatype Answer = BatchFailed | Answered(statuses: Recent)

  const WINDOW: real := 2.0

  // ---------- choosing the page ----------

  predicate Outstanding(row: Row) { row.status in {Ready, Waiting} }

  /** has_critical_reconciliation_backlog: two queries, so `first` and `second` are the table at two moments. */
  ghost predicate CriticalBacklog(first: map<Ark, Row>, second: map<Ark, Row>) {
    || (exists ark :: ark in first && Outstanding(first[ark]) && first[ark].stage == Metadata)
    || (exists ark :: && ark in second && Outstanding(second[ark]) && second[ark].stage == Availability
                      && HasBothCids(second[ark]))
  }

  /** In every state the protocol reaches, the queries find exactly the outstanding persistence and first-pin work. */
  lemma BacklogIsExact(c: Config, one: seq<Protocol.Step>, two: seq<Protocol.Step>)
    requires Protocol.Runs(c, Protocol.Initial(), one) && Protocol.Runs(c, Protocol.Initial(), two)
    ensures var first, second :=
              Protocol.After(c, Protocol.Initial(), one).rows, Protocol.After(c, Protocol.Initial(), two).rows;
            CriticalBacklog(first, second)
            <==> || (exists ark :: && ark in first && first[ark].stage == Metadata
                                   && first[ark].status in {Ready, Waiting})
                 || (exists ark :: && ark in second && second[ark].stage == Availability
                                   && second[ark].status in {Ready, Waiting})
  {
    ProtocolPreservation.Reachable(c, two);
    var st := Protocol.After(c, Protocol.Initial(), two);
    hide Protocol.Runs, Protocol.After;
    forall ark | ark in st.rows && st.rows[ark].stage == Availability ensures HasBothCids(st.rows[ark]) {
      assert RowOk(c, st.logs, ark, st.rows[ark]);
    }
  }

  // ---------- observing ----------

  predicate CachedFresh(recent: Recent, cid: Cid, now: real) { cid in recent && now - recent[cid].0 < WINDOW }

  function Cached(recent: Recent, unique: seq<Cid>, now: real): map<Cid, CidStatus> {
    map cid | cid in unique && CachedFresh(recent, cid, now) :: recent[cid].1
  }

  function Pending(recent: Recent, unique: seq<Cid>, now: real): seq<Cid> {
    if unique == [] then []
    else
      var last := unique[|unique| - 1];
      Pending(recent, unique[..|unique| - 1], now) + (if CachedFresh(recent, last, now) then [] else [last])
  }

  lemma {:induction false} PendingMeans(recent: Recent, unique: seq<Cid>, now: real)
    ensures forall cid :: cid in Pending(recent, unique, now) <==> cid in unique && !CachedFresh(recent, cid, now)
    ensures Seqs.Distinct(unique) ==> Seqs.Distinct(Pending(recent, unique, now))
  {
    hide CachedFresh;
    if unique != [] {
      var init, last := unique[..|unique| - 1], unique[|unique| - 1];
      PendingMeans(recent, init, now);
      assert unique == init + [last];
      if Seqs.Distinct(unique) {
        assert last !in init;
      }
    }
  }

  function Statuses(answer: Recent): map<Cid, CidStatus> { map cid | cid in answer :: answer[cid].1 }

  datatype Observation = Observation(observed: map<Cid, CidStatus>, recent: Recent, succeeded: nat)

  /** After `n` batch requests. */
  function AfterBatches(start: Observation, answers: nat -> Answer, n: nat): Observation {
    if n == 0 then start
    else
      var before := AfterBatches(start, answers, n - 1);
      match answers(n - 1)
      case BatchFailed => before
      case Answered(statuses) =>
        Observation(before.observed + Statuses(statuses), before.recent + statuses, before.succeeded + 1)
  }

  function Pruned(recent: Recent, readAt: Cid -> real): Recent {
    map cid | cid in recent && readAt(cid) - recent[cid].0 < WINDOW :: recent[cid]
  }

  /**
   * One cycle's CIDs without repetition, and what clock and store say to it; `readAt` are the clock readings of the
   * pruning.
   */
  datatype Cycle = Cycle(unique: seq<Cid>, observedAt: real, answers: nat -> Answer, readAt: Cid -> real,
                         finishedAt: real)

  function Requests(recent: Recent, c: Cycle, size: nat): seq<seq<Cid>>
    requires size > 0
  {
    Seqs.Batches(Pending(recent, c.unique, c.observedAt), size)
  }

  function Observed(recent: Recent, c: Cycle, size: nat): Observation
    requires size > 0
  {
    AfterBatches(Observation(Cached(recent, c.unique, c.observedAt), recent, 0), c.answers, |Requests(recent, c, size)|)
  }

  lemma {:induction false} AfterBatchesMeans(start: Observation, answers: nat -> Answer, n: nat, cid: Cid)
    ensures cid in AfterBatches(start, answers, n).observed
            <==> cid in start.observed || exists k: nat :: k < n && answers(k).Answered? && cid in answers(k).statuses
  {
    if n > 0 {
      AfterBatchesMeans(start, answers, n - 1, cid);
    }
  }

  /** Each answered batch is counted once. */
  lemma {:induction false} SucceededAreCounted(start: Observation, answers: nat -> Answer, n: nat)
    ensures AfterBatches(start, answers, n).succeeded
            == start.succeeded + |set k: nat | k < n && answers(k).Answered?|
  {
    if n > 0 {
      SucceededAreCounted(start, answers, n - 1);
      var earlier := set k: nat | k < n - 1 && answers(k).Answered?;
      assert (set k: nat | k < n && answers(k).Answered?)
             == if answers(n - 1).Answered? then earlier + {n - 1} else earlier;
    }
  }

  /** A store that answers a batch for exactly the CIDs asked. */
  ghost predicate AnswersWhatIsAsked(recent: Recent, c: Cycle, size: nat)
    requires size > 0
  {
    forall k: nat :: k < |Requests(recent, c, size)| && c.answers(k).Answered? ==>
      forall cid :: cid in c.answers(k).statuses <==> cid in Requests(recent, c, size)[k]
  }

  /** A failed batch leaves only its own CIDs unobserved. */
  lemma UnobservedMeansItsBatchFailed(recent: Recent, c: Cycle, size: nat, cid: Cid)
    requires size > 0 && Seqs.Distinct(c.unique) && cid in c.unique && AnswersWhatIsAsked(recent, c, size)
    ensures cid !in Observed(recent, c, size).observed
            <==> exists k: nat :: && k < |Requests(recent, c, size)| && cid in Requests(recent, c, size)[k]
                                  && c.answers(k).BatchFailed?
  {
    var pending := Pending(recent, c.unique, c.observedAt);
    var requests := Requests(recent, c, size);
    PendingMeans(recent, c.unique, c.observedAt);
    AfterBatchesMeans(Observation(Cached(recent, c.unique, c.observedAt), recent, 0), c.answers, |requests|, cid);
    if cid in pending {
      Seqs.EachInOneBatch(pending, size, cid);
    } else {
      Seqs.BatchesPartition(pending, size);
      Seqs.ConcatMembers(requests, cid);
    }
  }

  /** Batch `k` is the last of the first `n` whose answer holds this CID. */
  predicate LastAnswer(answers: nat -> Answer, n: nat, cid: Cid, k: nat) {
    && k < n && answers(k).Answered? && cid in answers(k).statuses
    && forall j :: k < j < n ==> answers(j).BatchFailed? || cid !in answers(j).statuses
  }

  lemma {:induction false} AfterAnswer(start: Observation, answers: nat -> Answer, n: nat, cid: Cid, k: nat)
    requires LastAnswer(answers, n, cid, k)
    ensures var after := AfterBatches(start, answers, n);
            && cid in after.observed && after.observed[cid] == answers(k).statuses[cid].1
            && cid in after.recent && after.recent[cid] == answers(k).statuses[cid]
  {
    if k < n - 1 {
      AfterAnswer(start, answers, n - 1, cid, k);
    }
  }

  lemma {:induction false} AfterNoAnswer(start: Observation, answers: nat -> Answer, n: nat, cid: Cid)
    requires forall k: nat :: k < n ==> answers(k).BatchFailed? || cid !in answers(k).statuses
    ensures var after := AfterBatches(start, answers, n);
            && (cid in after.observed <==> cid in start.observed)
            && (cid in start.observed ==> after.observed[cid] == start.observed[cid])
            && (cid in after.recent <==> cid in start.recent)
            && (cid in start.recent ==> after.recent[cid] == start.recent[cid])
  {
    if n > 0 {
      AfterNoAnswer(start, answers, n - 1, cid);
    }
  }

  lemma {:induction false} SomeAnswerIsLast(answers: nat -> Answer, n: nat, cid: Cid)
    requires forall k: nat :: !LastAnswer(answers, n, cid, k)
    ensures forall k: nat :: k < n ==> answers(k).BatchFailed? || cid !in answers(k).statuses
  {
    if n > 0 {
      var last := n - 1;
      assert !LastAnswer(answers, n, cid, last);
      forall k: nat | LastAnswer(answers, last, cid, k) ensures false {
        assert LastAnswer(answers, n, cid, k);
      }
      SomeAnswerIsLast(answers, last, cid);
    }
  }

  lemma AfterBatchesAre(start: Observation, answers: nat -> Answer, n: nat, cid: Cid)
    ensures var after := AfterBatches(start, answers, n);
            && (forall k: nat :: LastAnswer(answers, n, cid, k) ==>
                  && cid in after.observed && after.observed[cid] == answers(k).statuses[cid].1
                  && cid in after.recent && after.recent[cid] == answers(k).statuses[cid])
            && ((forall k: nat :: !LastAnswer(answers, n, cid, k)) ==>
                  && (cid in after.observed <==> cid in start.observed)
                  && (cid in start.observed ==> after.observed[cid] == start.observed[cid])
                  && (cid in after.recent <==> cid in start.recent)
                  && (cid in start.recent ==> after.recent[cid] == start.recent[cid]))
  {
    forall k: nat | LastAnswer(answers, n, cid, k)
      ensures var after := AfterBatches(start, answers, n);
              && cid in after.observed && after.observed[cid] == answers(k).statuses[cid].1
              && cid in after.recent && after.recent[cid] == answers(k).statuses[cid]
    {
      AfterAnswer(start, answers, n, cid, k);
    }
    if forall k: nat :: !LastAnswer(answers, n, cid, k) {
      SomeAnswerIsLast(answers, n, cid);
      AfterNoAnswer(start, answers, n, cid);
    }
  }

  /**
   * What a cycle goes by: the last answer it got about a CID; without one, what was remembered less than two seconds
   * ago; else nothing.
   */
  lemma ObservedMeans(recent: Recent, c: Cycle, size: nat, cid: Cid)
    requires size > 0
    ensures var n := |Requests(recent, c, size)|;
            var observed := Observed(recent, c, size).observed;
            && (forall k: nat :: LastAnswer(c.answers, n, cid, k) ==>
                  cid in observed && observed[cid] == c.answers(k).statuses[cid].1)
            && ((forall k: nat :: !LastAnswer(c.answers, n, cid, k)) ==>
                  && (cid in observed <==> cid in c.unique && cid in recent && c.observedAt - recent[cid].0 < 2.0)
                  && (cid in observed ==> observed[cid] == recent[cid].1))
  {
    AfterBatchesAre(Observation(Cached(recent, c.unique, c.observedAt), recent, 0), c.answers,
                    |Requests(recent, c, size)|, cid);
    hide AfterBatches, LastAnswer, Requests;
  }

  /** What a cycle remembers: the last answers, and what it knew, as far as they are less than two seconds old. */
  lemma RememberedMeans(recent: Recent, c: Cycle, size: nat, cid: Cid)
    requires size > 0
    ensures var n := |Requests(recent, c, size)|;
            var after := Pruned(Observed(recent, c, size).recent, c.readAt);
            && (forall k: nat :: LastAnswer(c.answers, n, cid, k) ==>
                  && (cid in after <==> c.readAt(cid) - c.answers(k).statuses[cid].0 < 2.0)
                  && (cid in after ==> after[cid] == c.answers(k).statuses[cid]))
            && ((forall k: nat :: !LastAnswer(c.answers, n, cid, k)) ==>
                  && (cid in after <==> cid in recent && c.readAt(cid) - recent[cid].0 < 2.0)
                  && (cid in after ==> after[cid] == recent[cid]))
  {
    AfterBatchesAre(Observation(Cached(recent, c.unique, c.observedAt), recent, 0), c.answers,
                    |Requests(recent, c, size)|, cid);
    hide AfterBatches, LastAnswer, Requests, Cached;
  }

  // ---------- the two-second window, over any number of cycles ----------

  function RecentAfter(cycles: seq<Cycle>, size: nat): Recent
    requires size > 0
  {
    if cycles == [] then map[]
    else
      var last := cycles[|cycles| - 1];
      Pruned(Observed(RecentAfter(cycles[..|cycles| - 1], size), last, size).recent, last.readAt)
  }

  /** Every clock reading of a cycle lies between its first and its last, and later batches are stamped later. */
  ghost predicate CycleTimely(c: Cycle) {
    && c.observedAt <= c.finishedAt
    && (forall cid :: c.observedAt <= c.readAt(cid) <= c.finishedAt)
    && (forall k: nat, cid :: c.answers(k).Answered? && cid in c.answers(k).statuses ==>
          c.observedAt <= c.answers(k).statuses[cid].0 <= c.finishedAt)
    && (forall j: nat, k: nat, cid ::
          && j < k && c.answers(j).Answered? && c.answers(k).Answered?
          && cid in c.answers(j).statuses && cid in c.answers(k).statuses ==>
          c.answers(j).statuses[cid].0 <= c.answers(k).statuses[cid].0)
  }

  ghost predicate Timely(cycles: seq<Cycle>) {
    && (forall i :: 0 <= i < |cycles| ==> CycleTimely(cycles[i]))
    && (forall i, j :: 0 <= i < j < |cycles| ==> cycles[i].finishedAt <= cycles[j].observedAt)
  }

  /** A record at least as new as `t`. */
  predicate Remembers(recent: Recent, cid: Cid, t: real) { cid in recent && t <= recent[cid].0 }

  lemma {:induction false} BatchesRemember(start: Observation, c: Cycle, n: nat, cid: Cid, t: real)
    requires CycleTimely(c)
    requires (Remembers(start.recent, cid, t) && t <= c.observedAt)
             || exists k: nat :: && k < n && c.answers(k).Answered? && cid in c.answers(k).statuses
                                 && c.answers(k).statuses[cid].0 == t
    ensures Remembers(AfterBatches(start, c.answers, n).recent, cid, t)
  {
    if n > 0 {
      var last := c.answers(n - 1);
      if last.Answered? && cid in last.statuses {
        assert c.observedAt <= last.statuses[cid].0;
        assert t <= last.statuses[cid].0;
      } else {
        BatchesRemember(start, c, n - 1, cid, t);
      }
    }
  }

  /** An answer of cycle `i` to one of its own requests, stamped `t`. */
  ghost predicate AnsweredIn(cycles: seq<Cycle>, size: nat, i: nat, cid: Cid, t: real)
    requires size > 0 && i < |cycles|
  {
    exists k: nat :: k < |Requests(RecentAfter(cycles[..i], size), cycles[i], size)|
      && cycles[i].answers(k).Answered? && cid in cycles[i].answers(k).statuses
      && cycles[i].answers(k).statuses[cid].0 == t
  }

  lemma {:induction false} RememberedOrOld(cycles: seq<Cycle>, size: nat, i: nat, cid: Cid, t: real)
    requires size > 0 && Timely(cycles) && i < |cycles| && AnsweredIn(cycles, size, i, cid, t)
    ensures Remembers(RecentAfter(cycles, size), cid, t) || cycles[|cycles| - 1].finishedAt - t >= WINDOW
    decreases |cycles|
  {
    var before, last := cycles[..|cycles| - 1], cycles[|cycles| - 1];
    var recent := RecentAfter(before, size);
    var start := Observation(Cached(recent, last.unique, last.observedAt), recent, 0);
    var n := |Requests(recent, last, size)|;
    hide Requests, Cached, AfterBatches;
    if i == |cycles| - 1 {
      assert cycles[..i] == before;
      BatchesRemember(start, last, n, cid, t);
    } else {
      assert before[..i] == cycles[..i] && before[i] == cycles[i];
      RememberedOrOld(before, size, i, cid, t);
      StampBeforeEnd(cycles, size, i, cid, t);
      if Remembers(recent, cid, t) {
        BatchesRemember(start, last, n, cid, t);
      }
    }
  }

  lemma StampBeforeEnd(cycles: seq<Cycle>, size: nat, i: nat, cid: Cid, t: real)
    requires size > 0 && Timely(cycles) && i < |cycles| && AnsweredIn(cycles, size, i, cid, t)
    ensures t <= cycles[i].finishedAt
  {
  }

  /** No CID is requested again before two seconds have passed since the last answer about it, in any run of cycles. */
  lemma WindowKept(cycles: seq<Cycle>, size: nat, i: nat, j: nat, cid: Cid, t: real)
    requires size > 0 && Timely(cycles) && i < j < |cycles| && AnsweredIn(cycles, size, i, cid, t)
    requires cid in Pending(RecentAfter(cycles[..j], size), cycles[j].unique, cycles[j].observedAt)
    ensures cycles[j].observedAt - t >= 2.0
  {
    var before := cycles[..j];
    assert before[..i] == cycles[..i] && before[i] == cycles[i];
    RememberedOrOld(before, size, i, cid, t);
    PendingMeans(RecentAfter(before, size), cycles[j].unique, cycles[j].observedAt);
  }

  // ---------- the promotion budget ----------

  datatype BudgetPolicy = BudgetPolicy(high: int, medium: int, batch: nat, minBatch: nat)

  /** What the constructor makes of any settings. */
  predicate ValidBudget(p: BudgetPolicy) {
    1 <= p.high <= 100 && 0 <= p.medium < p.high && 1 <= p.minBatch <= p.batch <= 200
  }

  datatype Budget = Budget(effective: nat, lowCycles: nat)

  function Updated(p: BudgetPolicy, b: Budget, pressure: real): Budget {
    if pressure >= p.high as real then Budget(p.minBatch, 0)
    else if pressure >= p.medium as real then Budget(if p.batch / 2 > p.minBatch then p.batch / 2 else p.minBatch, 0)
    else if pressure < 25.0 then Budget(if b.lowCycles + 1 >= 3 then p.batch else b.effective, b.lowCycles + 1)
    else Budget(p.batch, 0)
  }

  function BudgetAfter(p: BudgetPolicy, samples: seq<real>): Budget {
    if samples == [] then Budget(p.batch, 0)
    else Updated(p, BudgetAfter(p, samples[..|samples| - 1]), samples[|samples| - 1])
  }

  lemma {:induction false} BudgetInRange(p: BudgetPolicy, samples: seq<real>)
    requires ValidBudget(p)
    ensures p.minBatch <= BudgetAfter(p, samples).effective <= p.batch
  {
    if samples != [] {
      BudgetInRange(p, samples[..|samples| - 1]);
    }
  }

  /**
   * High pressure gives the minimum, medium pressure half the batch but no less than the minimum, moderate pressure the
   * whole batch; low pressure changes nothing until its third sample in a row. Only low samples are counted.
   */
  lemma BudgetMeans(p: BudgetPolicy, b: Budget, pressure: real)
    requires ValidBudget(p)
    ensures var after := Updated(p, b, pressure);
            && (after.lowCycles > 0 ==> Low(p, pressure) && after.lowCycles == b.lowCycles + 1)
            && (Low(p, pressure) ==> after.lowCycles == b.lowCycles + 1)
            && (pressure >= p.high as real ==> after.effective == p.minBatch)
            && (p.medium as real <= pressure < p.high as real ==>
                  && after.effective >= p.minBatch && 2 * after.effective >= p.batch - 1
                  && (after.effective == p.minBatch || 2 * after.effective <= p.batch))
            && (25.0 <= pressure < p.medium as real ==> after.effective == p.batch)
            && (Low(p, pressure) ==> after.effective == if b.lowCycles >= 2 then p.batch else b.effective)
  {
  }

  predicate Low(p: BudgetPolicy, pressure: real) { pressure < p.medium as real && pressure < 25.0 }

  /**
   * Whatever came before: a sample at or above the high mark shrinks the budget to its minimum at once, one low sample
   * or two after it leave it there, and the third restores the full budget.
   */
  lemma ThirdLowSampleRestores(p: BudgetPolicy, samples: seq<real>, low: seq<real>)
    requires ValidBudget(p) && samples != [] && samples[|samples| - 1] >= p.high as real
    requires |low| <= 3 && forall i :: 0 <= i < |low| ==> Low(p, low[i])
    ensures BudgetAfter(p, samples + low).effective == if |low| == 3 then p.batch else p.minBatch
  {
    var all := samples + low;
    if low == [] {
      assert all == samples;
      return;
    }
    var one := samples + low[..1];
    assert one[..|samples|] == samples && one[|samples|] == low[0];
    assert BudgetAfter(p, one) == Budget(p.minBatch, 1);
    if |low| == 1 {
      assert all == one;
    } else {
      var two := samples + low[..2];
      assert two[..|samples| + 1] == one && two[|samples| + 1] == low[1];
      assert BudgetAfter(p, two) == Budget(p.minBatch, 2);
      if |low| == 2 {
        assert all == two;
      } else {
        assert all[..|samples| + 2] == two && all[|samples| + 2] == low[2];
      }
    }
  }

  // ---------- promotion ----------

  predicate UnderTarget(observed: map<Cid, CidStatus>, target: nat, cid: Cid) {
    cid in observed && observed[cid].assignedReplicas < target
  }

  function Candidates(cids: seq<Cid>, observed: map<Cid, CidStatus>, target: nat): seq<Cid> {
    if cids == [] then []
    else
      var last := cids[|cids| - 1];
      Candidates(cids[..|cids| - 1], observed, target) + (if UnderTarget(observed, target, last) then [last] else [])
  }

  /** The CIDs of the page that were observed with fewer replicas allocated than the target. */
  lemma CandidatesMean(cids: seq<Cid>, observed: map<Cid, CidStatus>, target: nat)
    ensures forall cid :: cid in Candidates(cids, observed, target) <==>
            cid in cids && cid in observed && observed[cid].assignedReplicas < target
    ensures Seqs.Distinct(cids) ==> Seqs.Distinct(Candidates(cids, observed, target))
  {
    CandidatesAre(cids, observed, target);
  }

  lemma {:induction false} CandidatesAre(cids: seq<Cid>, observed: map<Cid, CidStatus>, target: nat)
    ensures forall cid :: cid in Candidates(cids, observed, target) <==>
            cid in cids && UnderTarget(observed, target, cid)
    ensures Seqs.Distinct(cids) ==> Seqs.Distinct(Candidates(cids, observed, target))
  {
    hide UnderTarget;
    if cids != [] {
      var init, last := cids[..|cids| - 1], cids[|cids| - 1];
      CandidatesAre(init, observed, target);
      assert cids == init + [last];
      if Seqs.Distinct(cids) {
        assert last !in init;
      }
    }
  }

  predicate Pressured(status: CidStatus) { status.queued > 0 || status.pinning > 0 }

  function Pressure(observed: map<Cid, CidStatus>): real {
    if |observed| == 0 then 0.0
    else 100.0 * |set cid | cid in observed && Pressured(observed[cid])| as real / |observed| as real
  }

  /** The share, in percent, of the observed CIDs of which something is queued or being pinned. */
  lemma PressureMeans(observed: map<Cid, CidStatus>, busy: set<Cid>)
    requires forall cid :: cid in busy <==> cid in observed && (observed[cid].queued > 0 || observed[cid].pinning > 0)
    ensures observed == map[] ==> Pressure(observed) == 0.0
    ensures Pressure(observed) * |observed| as real == 100.0 * |busy| as real
    ensures 0.0 <= Pressure(observed) <= 100.0
  {
    assert busy == set cid | cid in observed && Pressured(observed[cid]);
    SubsetSmaller(busy, observed.Keys);
    if |observed| == 0 {
      assert observed.Keys == {};
    } else {
      Percentage(|busy|, |observed|);
    }
  }

  lemma SubsetSmaller(a: set<Cid>, b: set<Cid>)
    requires a <= b
    ensures |a| <= |b|
  {
    var rest := b - a;
    assert b == a + rest;
  }

  lemma Percentage(part: nat, whole: nat)
    requires part <= whole && whole > 0
    ensures 0.0 <= 100.0 * part as real / whole as real <= 100.0
    ensures 100.0 * part as real / whole as real * whole as real == 100.0 * part as real
  {
  }

  // ---------- the code ----------

  datatype Candidate = Candidate(ark: Ark, level1Cid: Cid, level2Cid: Cid)

  function Cids(records: seq<Candidate>): seq<Cid> {
    if records == [] then [] else [records[0].level1Cid, records[0].level2Cid] + Cids(records[1..])
  }

  function UniqueCids(records: seq<Candidate>): seq<Cid> { Seqs.Dedupe(Cids(records)) }

  /** A durable ARK has two CIDs, so half the promotion budget bounds the page. */
  function MaintenancePageSize(pageSize: nat, batch: nat): nat { Max(1, Min(pageSize, (batch + 1) / 2)) }

  datatype Report = Report(maintenance: bool, observed: map<Cid, CidStatus>, requested: seq<Cid>, candidates: nat,
                           deferred: nat)

  type Select = (Stage, nat) -> seq<Candidate>

  predicate Maintains(select: Select, critical: bool, pageSize: nat) {
    select(Availability, pageSize) == [] && !critical
  }

  /** The records of the cycle: first-pin work, or in maintenance a page of durable ARKs. */
  function PageRecords(select: Select, critical: bool, pageSize: nat, batch: nat): seq<Candidate> {
    if Maintains(select, critical, pageSize) then select(Replication, MaintenancePageSize(pageSize, batch))
    else select(Availability, pageSize)
  }

  /**
   * First-pin work always comes first, and with a backlog of it nothing else is looked at. A maintenance page is so
   * small that its CIDs, two to an ARK, exceed the promotion budget by one at most.
   */
  lemma PageMeans(select: Select, critical: bool, pageSize: nat, batch: nat)
    requires pageSize > 0 && batch > 0
    ensures select(Availability, pageSize) != [] || critical ==>
              PageRecords(select, critical, pageSize, batch) == select(Availability, pageSize)
    ensures select(Availability, pageSize) == [] && !critical ==>
              exists limit: nat :: && 1 <= limit <= pageSize && 2 * limit <= batch + 1
                                   && (limit == pageSize || 2 * limit >= batch)
                                   && PageRecords(select, critical, pageSize, batch) == select(Replication, limit)
  {
    var limit := MaintenancePageSize(pageSize, batch);
    assert 1 <= limit <= pageSize;
    assert select(Availability, pageSize) == [] && !critical ==>
             PageRecords(select, critical, pageSize, batch) == select(Replication, limit);
  }

  /** What a cycle with this page, observation and budget promotes. */
  function ReportOf(maintenance: bool, unique: seq<Cid>, observed: map<Cid, CidStatus>, target: nat,
                    budget: nat): Report
  {
    if !maintenance then Report(false, observed, [], 0, 0)
    else
      var candidates := Candidates(unique, observed, target);
      var requested := candidates[..Min(|candidates|, budget)];
      Report(true, observed, requested, |candidates|, |candidates| - |requested|)
  }

  // ---------- promotions wait for the backlog ----------

  /**
   * What get_reconciliation_candidates returns from this table: due rows of the stage with their CIDs, if there are
   * any.
   */
  ghost predicate IsPage(rows: map<Ark, Row>, stage: Stage, now: Time, limit: nat, page: seq<Candidate>) {
    && |page| <= limit
    && (forall i :: 0 <= i < |page| ==>
          && page[i].ark in rows && AuditSelects(rows[page[i].ark], stage, now)
          && rows[page[i].ark].meta.value.level1Cid == Some(page[i].level1Cid)
          && rows[page[i].ark].meta.value.level2Cid == Some(page[i].level2Cid))
    && (page == [] && limit > 0 ==> forall ark :: ark in rows ==> !AuditSelects(rows[ark], stage, now))
  }

  /** The CID is one of a row that is due for a durability audit. */
  ghost predicate OfDurableRow(rows: map<Ark, Row>, now: Time, cid: Cid) {
    exists ark :: ark in rows && AuditSelects(rows[ark], Replication, now)
                  && (rows[ark].meta.value.level1Cid == Some(cid) || rows[ark].meta.value.level2Cid == Some(cid))
  }

  lemma {:induction false} CidsMembers(records: seq<Candidate>, cid: Cid)
    ensures cid in Cids(records) <==>
            exists i :: 0 <= i < |records| && cid in [records[i].level1Cid, records[i].level2Cid]
  {
    if records != [] {
      CidsMembers(records[1..], cid);
      if i :| 0 <= i < |records[1..]| && cid in [records[1..][i].level1Cid, records[1..][i].level2Cid] {
        assert records[i + 1] == records[1..][i];
      }
    }
  }

  /**
   * The four queries of a cycle see four reachable states: first-pin page, backlog of METADATA, backlog of
   * AVAILABILITY, durability page. If anything is promoted then no METADATA and no AVAILABILITY work was READY or
   * WAITING when its query ran, and every promoted CID belongs to a row due at REPLICATION and was observed below the
   * target.
   */
  lemma PromotionsWaitForBacklog(c: Config, metadata: seq<Protocol.Step>, availability: seq<Protocol.Step>,
                                 durable: seq<Protocol.Step>,
                                 select: Select, critical: bool, now: Time, pageSize: nat, batch: nat,
                                 observed: map<Cid, CidStatus>, target: nat, budget: nat)
    requires Protocol.Runs(c, Protocol.Initial(), metadata) && Protocol.Runs(c, Protocol.Initial(), availability)
    requires Protocol.Runs(c, Protocol.Initial(), durable)
    requires critical == CriticalBacklog(Protocol.After(c, Protocol.Initial(), metadata).rows,
                                         Protocol.After(c, Protocol.Initial(), availability).rows)
    requires var limit := MaintenancePageSize(pageSize, batch);
             IsPage(Protocol.After(c, Protocol.Initial(), durable).rows, Replication, now, limit,
                    select(Replication, limit))
    ensures var first := Protocol.After(c, Protocol.Initial(), metadata).rows;
            var second := Protocol.After(c, Protocol.Initial(), availability).rows;
            var third := Protocol.After(c, Protocol.Initial(), durable).rows;
            var report := ReportOf(Maintains(select, critical, pageSize),
                                   UniqueCids(PageRecords(select, critical, pageSize, batch)),
                                   observed, target, budget);
            report.requested != [] ==>
              && (forall ark :: ark in first && first[ark].stage == Metadata ==> first[ark].status !in {Ready, Waiting})
              && (forall ark :: ark in second && second[ark].stage == Availability ==>
                    second[ark].status !in {Ready, Waiting})
              && (forall cid :: cid in report.requested ==>
                    UnderTarget(observed, target, cid) && OfDurableRow(third, now, cid))
  {
    BacklogIsExact(c, metadata, availability);
    var third := Protocol.After(c, Protocol.Initial(), durable).rows;
    hide Protocol.Runs, Protocol.After, CriticalBacklog, Seqs.Dedupe, Cids, AuditSelects;
    var maintenance := Maintains(select, critical, pageSize);
    var records := PageRecords(select, critical, pageSize, batch);
    var unique := UniqueCids(records);
    var report := ReportOf(maintenance, unique, observed, target, budget);
    if report.requested != [] {
      CandidatesMean(unique, observed, target);
      Seqs.DedupeDistinct(Cids(records));
      forall cid | cid in report.requested ensures UnderTarget(observed, target, cid) && OfDurableRow(third, now, cid) {
        assert cid in Candidates(unique, observed, target);
        assert cid in Cids(records);
        CidsMembers(records, cid);
        var i :| 0 <= i < |records| && cid in [records[i].level1Cid, records[i].level2Cid];
        assert records[i].ark in third;
      }
    }
  }

  /** Promotions stay within the budget, and requested + deferred = candidates. */
  lemma ReportBalances(maintenance: bool, unique: seq<Cid>, observed: map<Cid, CidStatus>, target: nat, budget: nat)
    ensures var report := ReportOf(maintenance, unique, observed, target, budget);
            && |report.requested| <= budget && |report.requested| + report.deferred == report.candidates
            && report.candidates == (if maintenance then |Candidates(unique, observed, target)| else 0)
            && (forall cid :: cid in report.requested ==> cid in unique && UnderTarget(observed, target, cid))
            && (Seqs.Distinct(unique) ==> Seqs.Distinct(report.requested))
            && (report.deferred > 0 ==> |report.requested| == budget)
            && report.requested <= Candidates(unique, observed, target)
            && report.maintenance == maintenance && report.observed == observed
  {
    CandidatesMean(unique, observed, target);
  }

  class ReplicationCycleWorker {
    const statusBatchSize: nat
    const targetReplicas: nat
    const policy: BudgetPolicy
    var recentStatuses: Recent
    var effectivePromotionBatchSize: nat
    var lowPressureCycles: nat

    predicate Valid()
      reads this
    {
      && 1 <= statusBatchSize <= 200 && ValidBudget(policy)
      && policy.minBatch <= effectivePromotionBatchSize <= policy.batch
    }

    constructor (statusBatchSize: int, targetReplicas: nat, high: int, medium: int, batch: int, minBatch: int)
      ensures Valid() && recentStatuses == map[] && BudgetState() == Budget(policy.batch, 0)
      ensures this.targetReplicas == targetReplicas
    {
      this.statusBatchSize := Clamp(statusBatchSize, 1, 200);
      this.targetReplicas := targetReplicas;
      var top := Clamp(high, 1, 100);
      var full := Clamp(batch, 1, 200);
      policy := BudgetPolicy(top, Min(Max(medium, 1), top - 1), full, Clamp(minBatch, 1, full));
      recentStatuses, effectivePromotionBatchSize, lowPressureCycles := map[], full, 0;
    }

    function BudgetState(): Budget
      reads this
    {
      Budget(effectivePromotionBatchSize, lowPressureCycles)
    }

    method UpdatePromotionBudget(pressure: real) returns (budget: nat)
      requires Valid()
      modifies this`effectivePromotionBatchSize, this`lowPressureCycles
      ensures Valid() && BudgetState() == Updated(policy, old(BudgetState()), pressure)
      ensures budget == effectivePromotionBatchSize
    {
      if pressure >= policy.high as real {
        effectivePromotionBatchSize := policy.minBatch;
        lowPressureCycles := 0;
      } else if pressure >= policy.medium as real {
        effectivePromotionBatchSize := Max(policy.minBatch, policy.batch / 2);
        lowPressureCycles := 0;
      } else if pressure < 25.0 {
        lowPressureCycles := lowPressureCycles + 1;
        if lowPressureCycles >= 3 { effectivePromotionBatchSize := policy.batch; }
      } else {
        lowPressureCycles := 0;
        effectivePromotionBatchSize := policy.batch;
      }
      return effectivePromotionBatchSize;
    }

    /** Cached answers, then one request per batch; a failed request is skipped. */
    method Observe(c: Cycle) returns (observed: map<Cid, CidStatus>, succeeded: nat)
      requires Valid()
      modifies this`recentStatuses
      ensures var o := Observed(old(recentStatuses), c, statusBatchSize);
              observed == o.observed && succeeded == o.succeeded && recentStatuses == Pruned(o.recent, c.readAt)
    {
      hide CachedFresh, Cached, Pending, Seqs.Batches;
      observed := Cached(recentStatuses, c.unique, c.observedAt);
      var pending := Pending(recentStatuses, c.unique, c.observedAt);
      ghost var start := Observation(observed, recentStatuses, 0);
      succeeded := 0;
      var offset := 0;
      var n := 0;
      assert pending[0..] == pending;
      while offset < |pending|
        invariant 0 <= offset <= |pending|
        invariant |Seqs.Batches(pending, statusBatchSize)| == n + |Seqs.Batches(pending[offset..], statusBatchSize)|
        invariant Observation(observed, recentStatuses, succeeded) == AfterBatches(start, c.answers, n)
      {
        var end := if offset + statusBatchSize < |pending| then offset + statusBatchSize else |pending|;
        Seqs.NextBatch(pending, offset, statusBatchSize);
        match c.answers(n) {
          case BatchFailed =>
          case Answered(statuses) =>
            observed := observed + Statuses(statuses);
            recentStatuses := recentStatuses + statuses;
            succeeded := succeeded + 1;
        }
        offset := end;
        n := n + 1;
      }
      Seqs.NoBatch(pending, statusBatchSize);
      recentStatuses := Pruned(recentStatuses, c.readAt);
    }

    /**
     * The cycle up to the per-ARK reconciliations. `select` is the candidate query and `critical` the backlog query;
     * `c` carries clock and store, its CIDs are those of the page.
     */
    method RunPublishCycle(select: Select, critical: bool, pageSize: nat, c: Cycle) returns (report: Report)
      requires Valid()
      modifies this
      ensures Valid()
      ensures var unique := UniqueCids(PageRecords(select, critical, pageSize, policy.batch));
              var o := Observed(old(recentStatuses), c.(unique := unique), statusBatchSize);
              && recentStatuses == Pruned(o.recent, c.readAt)
              && BudgetState() == Updated(policy, old(BudgetState()), Pressure(o.observed))
              && report == ReportOf(Maintains(select, critical, pageSize), unique, o.observed, targetReplicas,
                                    effectivePromotionBatchSize)
    {
      hide Seqs.Dedupe, Cids;
      var records := select(Availability, pageSize);
      var maintenance := false;
      if records == [] && !critical {
        maintenance := true;
        records := select(Replication, MaintenancePageSize(pageSize, policy.batch));
      }
      var unique := UniqueCids(records);
      var observed, _ := Observe(c.(unique := unique));
      var budget := UpdatePromotionBudget(Pressure(observed));
      if !maintenance { return Report(false, observed, [], 0, 0); }
      var candidates := Candidates(unique, observed, targetReplicas);
      var requested := candidates[..Min(|candidates|, budget)];
      return Report(true, observed, requested, |candidates|, Max(|candidates| - |requested|, 0));
    }
  }

  function Max(a: int, b: int): int { if a > b then a else b }

  function Clamp(value: int, low: nat, high: nat): nat { if value <= low then low else Min(value, high) }
}
