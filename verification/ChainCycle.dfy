/**
 * One cycle of the chain worker: items are grouped by authority, sent in bounded single-authority pipelines, and
 * settled one by one until one settlement raises. The counters of a finished cycle tell the worker loop whether the
 * chain is saturated.
 */
module ChainCycle {
  import opened Wrappers
  import opened ArkTypes
  import opened ArkRow
  import opened Verdicts
  import opened ChainWorker
  import opened Protocol
  import opened ProtocolInvariant
  import opened ProtocolTheorems
  import ProtocolPreservation
  import P = Pipelines
  import Seqs

  function AuthorityOf(): Item -> Authority { (item: Item) => item.record.authority }

  /** The pipelines of a page of items. */
  function PipelinesOf(items: seq<Item>, isAssigned: Authority -> bool, size: nat): Sent
    requires size > 0
  {
    P.Pipelines(items, AuthorityOf(), P.GroupKeys(items, AuthorityOf()), isAssigned, size)
  }

  /** The items whose authority this deployment does not serve. */
  function RefusedOf(items: seq<Item>, isAssigned: Authority -> bool): seq<Item> {
    P.Grouped(items, AuthorityOf(), P.GroupKeys(items, AuthorityOf()), Unassigned(isAssigned))
  }

  function Unassigned(isAssigned: Authority -> bool): Authority -> bool { a => !isAssigned(a) }

  /**
   * Operations go out in pipelines within the size, each signed by the authority of its record, and by the submitter of
   * its payload whenever that is the record's own payload.
   */
  lemma OperationsSignedBySubmitter(c: Config, steps: seq<Step>, items: seq<Item>, isAssigned: Authority -> bool,
                                    size: nat, k: nat, i: nat)
    requires Runs(c, Initial(), steps) && forall item :: item in items ==> item in After(c, Initial(), steps).items
    requires size > 0
    requires k < |PipelinesOf(items, isAssigned, size)| && i < |PipelinesOf(items, isAssigned, size)[k].items|
    ensures var batch := PipelinesOf(items, isAssigned, size)[k];
            var item := batch.items[i];
            && |batch.items| <= size && isAssigned(batch.signer) && item in items && ItemSendable(item)
            && ItemOperation(item).signer == batch.signer && ItemOperation(item).ark == item.ark
            && (ItemOperation(item).create <==> item.record.state == Draft)
            && Some(ItemOperation(item).target) == item.record.target
            && Some(ItemOperation(item).cid) == item.metadata.level1Cid
            && (OwnPayload(ItemOperation(item)) ==> item.metadata.origin.authority == batch.signer
                                                    && item.metadata.origin.target == item.record.target.value)
  {
    P.PipelinesWellSigned(items, AuthorityOf(), P.GroupKeys(items, AuthorityOf()), isAssigned, size);
    ProtocolPreservation.Reachable(c, steps);
    hide P.Pipelines, P.GroupKeys, Runs, After;
    var st := After(c, Initial(), steps);
    var item := PipelinesOf(items, isAssigned, size)[k].items[i];
    assert SelectedOk(c, st.logs, item.ark, item.record) && MetadataReadOk(st.logs, item.ark, item.metadata);
    if OwnPayload(ItemOperation(item)) {
      OwnIsJustified(c, st.logs, ItemOperation(item));
    }
  }

  /** The rows a cycle refuses are those of the items of authorities that are not served, each as often as selected. */
  lemma RefusedConserve(items: seq<Item>, isAssigned: Authority -> bool)
    ensures multiset(RefusedOf(items, isAssigned))
            == multiset(P.Select(items, P.HasChosen(AuthorityOf(), Unassigned(isAssigned))))
  {
    P.GroupedConserve(items, AuthorityOf(), Unassigned(isAssigned));
  }

  // ---------- settling ----------

  /** What the chain client gives back for a pipeline. */
  datatype Answer = CallRaised(error: string) | Results(results: map<Ark, PipelineResult>)

  /**
   * What settling an item meets: a connection lost before anything is decided, a lock somebody holds, or the row at
   * that moment with the answers of registry and chain. `commits` and `exits` say whether the commit and the release of
   * the connection go through; a lost connection makes them raise.
   */
  datatype Settling =
    | Unreachable
    | NoLock(exits: bool)
    | Locked(row: Row, ev: Evidence, read: Reply<Option<ChainRecord>>, evAgain: Evidence, commits: bool, exits: bool)

  function ResultFor(answer: Answer, item: Item): PipelineResult {
    match answer
    case CallRaised(error) => PipelineResult(FailedCall, Some(error))
    case Results(results) =>
      if item.ark in results then results[item.ark]
      else PipelineResult(Ambiguous, Some("Missing pipeline result from core-lib"))
  }

  /** The counter a raising settlement had moved besides `processed`. */
  datatype Moved = NothingMoved | SucceededMoved | FailedMoved | DeferredMoved

  /** Only a published row succeeds, only a postponed one is deferred; a settlement that raises aborts the cycle. */
  datatype Outcome = Succeeded | Lost | Postponed | Aborted(moved: Moved)

  /** Items without target or CIDs are never built. */
  function OutcomeOf(item: Item, result: PipelineResult, s: Settling): Outcome {
    match s
    case Unreachable => Aborted(NothingMoved)
    case NoLock(exits) =>
      if exits then Lost else Aborted(if result.status == Confirmed then FailedMoved else NothingMoved)
    case Locked(row, ev, read, evAgain, commits, exits) =>
      if !ItemSendable(item) then Lost
      else LockedOutcome(ItemVerdictOn(row, item, result, ev, read, evAgain), result.status == Confirmed, commits,
                         exits)
  }

  /** A confirmed result is counted after its commit and the release of the lock, or as failed before the release. */
  function LockedOutcome(v: Verdict, confirmed: bool, commits: bool, exits: bool): Outcome {
    if v.Publish? then
      if commits && exits then Succeeded
      else Aborted(if commits && !confirmed then SucceededMoved else NothingMoved)
    else if confirmed then
      if exits then Lost else Aborted(FailedMoved)
    else if commits && exits then
      if v.Postpone? then Postponed else Lost
    else Aborted(if v.Postpone? then DeferredMoved else NothingMoved)
  }

  /** What a settlement meets makes it raise: the connection is lost before its last use. */
  predicate Raises(item: Item, result: PipelineResult, s: Settling) {
    match s
    case Unreachable => true
    case NoLock(exits) => !exits
    case Locked(row, ev, read, evAgain, commits, exits) =>
      && ItemSendable(item)
      && !(exits && (commits || (result.status == Confirmed
                                 && !ItemVerdictOn(row, item, result, ev, read, evAgain).Publish?)))
  }

  /**
   * The connection is lost before the item is counted: before its lock is looked at; at the release of a lock not
   * taken, unless the result was a confirmation; of a row to be published, at the commit, or at the release if the
   * result was a confirmation; of any other row, at the commit or the release, unless the result was a confirmation.
   */
  predicate LostBeforeCounted(item: Item, result: PipelineResult, s: Settling) {
    match s
    case Unreachable => true
    case NoLock(exits) => !exits && result.status != Confirmed
    case Locked(row, ev, read, evAgain, commits, exits) =>
      && ItemSendable(item)
      && if ItemVerdictOn(row, item, result, ev, read, evAgain).Publish?
         then !commits || (!exits && result.status == Confirmed)
         else result.status != Confirmed && !(commits && exits)
  }

  lemma OutcomeOfMeans(item: Item, result: PipelineResult, s: Settling)
    ensures OutcomeOf(item, result, s).Aborted? <==> Raises(item, result, s)
    ensures Uncounted(OutcomeOf(item, result, s)) <==> LostBeforeCounted(item, result, s)
    ensures OutcomeOf(item, result, s) == Aborted(SucceededMoved)
            <==> && Raises(item, result, s) && !LostBeforeCounted(item, result, s) && s.Locked?
                 && ItemVerdictOn(s.row, item, result, s.ev, s.read, s.evAgain).Publish?
    ensures OutcomeOf(item, result, s) == Aborted(DeferredMoved)
            <==> && LostBeforeCounted(item, result, s) && s.Locked?
                 && ItemVerdictOn(s.row, item, result, s.ev, s.read, s.evAgain).Postpone?
  {
    hide ItemVerdictOn, ItemSendable;
  }

  /** The row a settlement leaves, when nothing raises. */
  function Left(item: Item, result: PipelineResult, s: Settling, now: Time): Row
    requires ItemSendable(item) && s.Locked?
  {
    Apply(s.row, ItemVerdictOn(s.row, item, result, s.ev, s.read, s.evAgain), now)
  }

  /** The row still is what the item was built from: same authority, state and target, in the chain queue, same CID. */
  predicate Unchanged(row: Row, item: Item) {
    && row.authority == item.record.authority && row.state == item.record.state && row.target == item.record.target
    && row.stage == Chain && row.meta.Some? && row.meta.value.level1Cid == item.metadata.level1Cid
  }

  /**
   * What is counted is what happened to the row. Of the settlements that do not raise, exactly those that published the
   * row succeeded and exactly those that left it waiting, and moved the counter of deferrals, are deferred; a row that
   * was failed, one that is no longer what was sent and is left alone, and one whose lock was not obtained are lost.
   */
  lemma OutcomeIsTheRows(item: Item, result: PipelineResult, s: Settling, now: Time)
    requires ItemSendable(item) && !Raises(item, result, s)
    ensures s.NoLock? ==> OutcomeOf(item, result, s) == Lost
    ensures s.Locked? && !Unchanged(s.row, item) ==>
              Left(item, result, s, now) == s.row && OutcomeOf(item, result, s) == Lost
    ensures s.Locked? && Unchanged(s.row, item) ==>
              var o, after := OutcomeOf(item, result, s), Left(item, result, s, now);
              && (o == Succeeded <==> after.state == Published && after.stage == Replication)
              && (o == Postponed <==> after.status == Waiting)
              && (o == Lost <==> after.status == Failed)
    ensures s.Locked? ==>
              (OutcomeOf(item, result, s) == Postponed
               <==> One(ItemVerdictOn(s.row, item, result, s.ev, s.read, s.evAgain).Postpone?) == 1)
  {
    if s.Locked? {
      PipelineNeverRetryable(s.row, item, result, s.ev, s.read, s.evAgain);
      ApplyMeans(s.row, ItemVerdictOn(s.row, item, result, s.ev, s.read, s.evAgain), now);
    }
    hide Apply, Pipeline, Identity, Failure;
  }

  /** A settlement leaves alone what has changed, and fails a row only for a code that is final. */
  lemma PipelineNeverRetryable(row: Row, item: Item, result: PipelineResult, ev: Evidence,
                               read: Reply<Option<ChainRecord>>, evAgain: Evidence)
    requires ItemSendable(item)
    ensures var v := ItemVerdictOn(row, item, result, ev, read, evAgain);
            && (v.Untouched? <==> !Unchanged(row, item))
            && (v.Fail? ==> !Retryable(v.code))
            && (Unchanged(row, item) && result.status == Confirmed ==> v.Publish?)
  {
    IdentityMeaning(ev);
    IdentityMeaning(evAgain);
    FailureMeans(evAgain, OtherError(Message(result)));
    hide Identity, Failure, Conclusive, Unreadable, Terminal, Message, Matches;
  }

  type Log = seq<(Item, Outcome)>

  function Aborts(): Outcome -> bool { (o: Outcome) => o.Aborted? }

  function VerdictOf(answer: Answer, settle: Item -> Settling): Item -> Outcome {
    item => OutcomeOf(item, ResultFor(answer, item), settle(item))
  }

  /** The verdict on an item of the k-th pipeline, if the cycle gets that far. */
  function VerdictIn(answers: nat -> Answer, settle: Item -> Settling): nat -> Item -> Outcome {
    k => VerdictOf(answers(k), settle)
  }

  /** The verdicts of a cycle that has reached its first `n` pipelines: none after one that raised. */
  function CycleLog(items: seq<Item>, isAssigned: Authority -> bool, size: nat, answers: nat -> Answer,
                    settle: Item -> Settling, n: nat): Log
    requires size > 0 && n <= |PipelinesOf(items, isAssigned, size)|
  {
    P.Until(P.Log(PipelinesOf(items, isAssigned, size), VerdictIn(answers, settle), n), Aborts())
  }

  /**
   * The judged items are a prefix of the items of assigned authorities in the order they are sent, each as often as it
   * was selected; all of them exactly when no settlement raises.
   */
  lemma CycleConserves(items: seq<Item>, isAssigned: Authority -> bool, size: nat, answers: nat -> Answer,
                       settle: Item -> Settling, n: nat)
    requires size > 0 && n <= |PipelinesOf(items, isAssigned, size)|
    ensures var batches := PipelinesOf(items, isAssigned, size);
            var log := CycleLog(items, isAssigned, size, answers, settle, n);
            && P.Firsts(log) <= P.ItemsOf(batches[..n]) <= P.ItemsOf(batches)
            && (!P.Stopped(log, Aborts()) ==> P.Firsts(log) == P.ItemsOf(batches[..n]))
            && (log != [] ==> NoAbort(log[..|log| - 1]))
            && multiset(P.ItemsOf(batches)) == multiset(P.Select(items, P.HasChosen(AuthorityOf(), isAssigned)))
  {
    hide P.Pipelines, P.Log, P.Select, P.ItemsOf, P.GroupKeys, P.Until;
    var batches := PipelinesOf(items, isAssigned, size);
    var full := P.Log(batches, VerdictIn(answers, settle), n);
    P.OneVerdictEach(batches, VerdictIn(answers, settle), n);
    P.UntilMeans(full, Aborts());
    P.FirstsPrefix(P.Until(full, Aborts()), full);
    P.ItemsOfPrefix(batches, n);
    P.PipelinesConserve(items, AuthorityOf(), isAssigned, size);
    hide P.Stopped;
    assert forall i :: 0 <= i < |P.Until(full, Aborts())| - 1 ==> !Aborts()(P.Until(full, Aborts())[i].1);
  }

  // ---------- counters ----------

  datatype Counters = Counters(processed: nat, succeeded: nat, failed: nat, deferred: nat)

  function Counted(c: Counters, o: Outcome): Counters {
    var one := c.(processed := c.processed + 1);
    match o
    case Succeeded => one.(succeeded := c.succeeded + 1)
    case Lost => one.(failed := c.failed + 1)
    case Postponed => one.(failed := c.failed + 1, deferred := c.deferred + 1)
    case Aborted(NothingMoved) => one
    case Aborted(SucceededMoved) => one.(succeeded := c.succeeded + 1)
    case Aborted(FailedMoved) => one.(failed := c.failed + 1)
    case Aborted(DeferredMoved) => one.(deferred := c.deferred + 1)
  }

  function CountedAll(c: Counters, log: Log): Counters {
    if log == [] then c else Counted(CountedAll(c, log[..|log| - 1]), log[|log| - 1].1)
  }

  const NOTHING: Counters := Counters(0, 0, 0, 0)

  predicate Balanced(c: Counters) { c.processed == c.succeeded + c.failed && c.deferred <= c.failed }

  /** The last settlement raised before it had been counted as succeeded or failed. */
  predicate LeftUncounted(log: Log) {
    log != [] && Uncounted(log[|log| - 1].1)
  }

  predicate Uncounted(o: Outcome) { o.Aborted? && (o.moved.NothingMoved? || o.moved.DeferredMoved?) }

  lemma CountedEffect(c: Counters, o: Outcome)
    ensures var after := Counted(c, o);
            && after.processed == c.processed + 1
            && after.succeeded + after.failed == c.succeeded + c.failed + (if Uncounted(o) then 0 else 1)
            && after.failed >= c.failed && after.deferred >= c.deferred
            && (!o.Aborted? ==> after.deferred - c.deferred <= after.failed - c.failed)
            && (o.Aborted? && !Uncounted(o) ==> after.deferred == c.deferred)
            && (!o.Aborted? ==> after.deferred == c.deferred + (if o == Postponed then 1 else 0))
  {
  }

  function OutcomeIs(o: Outcome): ((Item, Outcome)) -> bool { (entry: (Item, Outcome)) => entry.1 == o }

  /** The counters of a finished cycle count the outcomes: successes apart, everything else failed, deferrals within. */
  lemma {:induction false} CountersCount(log: Log)
    requires NoAbort(log)
    ensures var c := CountedAll(NOTHING, log);
            && c.processed == |log| && c.succeeded == |P.Select(log, OutcomeIs(Succeeded))|
            && c.deferred == |P.Select(log, OutcomeIs(Postponed))|
            && c.failed == |P.Select(log, OutcomeIs(Lost))| + |P.Select(log, OutcomeIs(Postponed))|
  {
    if log != [] {
      AllPostponedStep(log);
      CountersCount(log[..|log| - 1]);
      var c, last := CountedAll(NOTHING, log[..|log| - 1]), log[|log| - 1];
      assert CountedAll(NOTHING, log) == Counted(c, last.1);
      hide NoAbort, CountedAll;
    }
  }

  /** No verdict of the log is an abort. */
  predicate NoAbort(log: Log) { forall i :: 0 <= i < |log| ==> !log[i].1.Aborted? }

  predicate AllPostponed(log: Log) { forall i :: 0 <= i < |log| ==> log[i].1 == Postponed }

  lemma AllPostponedStep(log: Log)
    requires log != []
    ensures AllPostponed(log) <==> AllPostponed(log[..|log| - 1]) && log[|log| - 1].1 == Postponed
    ensures NoAbort(log) <==> NoAbort(log[..|log| - 1]) && !log[|log| - 1].1.Aborted?
  {
  }

  lemma {:induction false} FinishedBalance(log: Log)
    requires NoAbort(log)
    ensures var c := CountedAll(NOTHING, log);
            && c.processed == |log| && Balanced(c) && c.deferred <= |log|
            && (c.deferred == |log| <==> AllPostponed(log))
  {
    if log != [] {
      var before, last := log[..|log| - 1], log[|log| - 1];
      AllPostponedStep(log);
      FinishedBalance(before);
      CountedEffect(CountedAll(NOTHING, before), last.1);
      assert CountedAll(NOTHING, log) == Counted(CountedAll(NOTHING, before), last.1);
      hide Counted, CountedAll, NoAbort, AllPostponed;
    }
  }

  lemma BalancedStep(c: Counters, o: Outcome)
    requires Balanced(c)
    ensures Balanced(Counted(c, o)) <==> !Uncounted(o)
    ensures Counted(c, o).processed == c.processed + 1
  {
    CountedEffect(c, o);
  }

  lemma LogBalance(log: Log)
    requires log != [] ==> NoAbort(log[..|log| - 1])
    ensures CountedAll(NOTHING, log).processed == |log|
    ensures Balanced(CountedAll(NOTHING, log)) <==> !LeftUncounted(log)
  {
    hide NoAbort, AllPostponed, Counted, Balanced;
    if log == [] {
      FinishedBalance([]) by { EmptyHasNoAbort(); }
    } else {
      FinishedBalance(log[..|log| - 1]);
      BalancedStep(CountedAll(NOTHING, log[..|log| - 1]), log[|log| - 1].1);
    }
  }

  lemma EmptyHasNoAbort()
    ensures NoAbort([])
  {
  }

  /** Settling item `i` of pipeline `k` raises, and settling no item sent before it does. */
  predicate CutShortAt(batches: Sent, answers: nat -> Answer, settle: Item -> Settling, k: nat, i: nat)
    requires k < |batches| && i < |batches[k].items|
  {
    && SettlingRaises(batches[k].items[i], answers(k), settle)
    && (forall j :: 0 <= j < i ==> !SettlingRaises(batches[k].items[j], answers(k), settle))
    && forall m, j :: 0 <= m < k && 0 <= j < |batches[m].items| ==>
         !SettlingRaises(batches[m].items[j], answers(m), settle)
  }

  predicate SettlingRaises(item: Item, answer: Answer, settle: Item -> Settling) {
    Raises(item, ResultFor(answer, item), settle(item))
  }

  lemma CutShortIsFirstStop(batches: Sent, answers: nat -> Answer, settle: Item -> Settling, k: nat, i: nat)
    requires k < |batches| && i < |batches[k].items|
    ensures CutShortAt(batches, answers, settle, k, i)
            <==> P.FirstStop(batches, VerdictIn(answers, settle), Aborts(), k, i)
  {
    RaisingMeans(batches, answers, settle, k);
    hide SettlingRaises, OutcomeOf;
    forall m | 0 <= m < k
      ensures P.NoStopIn(batches[m].items, VerdictIn(answers, settle)(m), Aborts())
              <==> forall j :: 0 <= j < |batches[m].items| ==>
                     !SettlingRaises(batches[m].items[j], answers(m), settle)
    {
      RaisingMeans(batches, answers, settle, m);
    }
  }

  lemma RaisingMeans(batches: Sent, answers: nat -> Answer, settle: Item -> Settling, k: nat)
    requires k < |batches|
    ensures forall j :: 0 <= j < |batches[k].items| ==>
              (SettlingRaises(batches[k].items[j], answers(k), settle)
               <==> Aborts()(VerdictIn(answers, settle)(k)(batches[k].items[j])))
  {
    forall j | 0 <= j < |batches[k].items|
      ensures SettlingRaises(batches[k].items[j], answers(k), settle)
              <==> Aborts()(VerdictIn(answers, settle)(k)(batches[k].items[j]))
    {
      OutcomeOfMeans(batches[k].items[j], ResultFor(answers(k), batches[k].items[j]), settle(batches[k].items[j]));
    }
  }

  /** The cycle is cut short at item `i` of pipeline `k`, and the connection was lost before that item was counted. */
  predicate CutUncountedAt(batches: Sent, answers: nat -> Answer, settle: Item -> Settling, k: nat, i: nat) {
    && k < |batches| && i < |batches[k].items| && CutShortAt(batches, answers, settle, k, i)
    && var item := batches[k].items[i]; LostBeforeCounted(item, ResultFor(answers(k), item), settle(item))
  }

  /**
   * processed = succeeded + failed and deferred <= failed, for a finished cycle and for an aborted one, if and only if
   * it is not the case that the first settlement that raises loses its connection before its item is counted.
   */
  lemma CountersBalance(items: seq<Item>, isAssigned: Authority -> bool, size: nat, answers: nat -> Answer,
                        settle: Item -> Settling, n: nat)
    requires size > 0 && n <= |PipelinesOf(items, isAssigned, size)|
    ensures var log := CycleLog(items, isAssigned, size, answers, settle, n);
            && CountedAll(NOTHING, log).processed == |log|
            && (Balanced(CountedAll(NOTHING, log))
                <==> !exists k: nat, i: nat :: k < n && CutUncountedAt(PipelinesOf(items, isAssigned, size), answers,
                                                                       settle, k, i))
  {
    hide P.Log, P.Until, P.Pipelines, CountedAll, Balanced, LeftUncounted, NoAbort, CutUncountedAt;
    var batches := PipelinesOf(items, isAssigned, size);
    OnlyLastAborts(P.Log(batches, VerdictIn(answers, settle), n));
    LogBalance(CycleLog(items, isAssigned, size, answers, settle, n));
    UncountedMeans(batches, answers, settle, n);
  }

  lemma OnlyLastAborts(full: Log)
    ensures var log := P.Until(full, Aborts()); log != [] ==> NoAbort(log[..|log| - 1])
  {
    P.UntilMeans(full, Aborts());
    var log := P.Until(full, Aborts());
    assert forall i :: 0 <= i < |log| - 1 ==> !Aborts()(log[i].1);
  }

  lemma FirstStopDecides(batches: Sent, answers: nat -> Answer, settle: Item -> Settling, k: nat, i: nat)
    requires k < |batches| && i < |batches[k].items|
    requires P.FirstStop(batches, VerdictIn(answers, settle), Aborts(), k, i)
    ensures CutUncountedAt(batches, answers, settle, k, i)
            <==> Uncounted(VerdictIn(answers, settle)(k)(batches[k].items[i]))
    ensures forall k': nat, i': nat :: CutUncountedAt(batches, answers, settle, k', i') ==> k' == k && i' == i
  {
    hide CutShortAt, P.FirstStop, OutcomeOf, LostBeforeCounted;
    var item := batches[k].items[i];
    CutShortIsFirstStop(batches, answers, settle, k, i);
    OutcomeOfMeans(item, ResultFor(answers(k), item), settle(item));
    forall k': nat, i': nat | CutUncountedAt(batches, answers, settle, k', i') ensures k' == k && i' == i {
      CutShortIsFirstStop(batches, answers, settle, k', i');
      P.FirstStopUnique(batches, VerdictIn(answers, settle), Aborts(), k, i, k', i');
    }
  }

  lemma UncountedMeans(batches: Sent, answers: nat -> Answer, settle: Item -> Settling, n: nat)
    requires n <= |batches|
    ensures LeftUncounted(P.Until(P.Log(batches, VerdictIn(answers, settle), n), Aborts()))
            <==> exists k: nat, i: nat :: k < n && CutUncountedAt(batches, answers, settle, k, i)
  {
    hide OutcomeOf, P.Log, P.Until, LostBeforeCounted;
    var verdict := VerdictIn(answers, settle);
    var full := P.Log(batches, verdict, n);
    P.UntilMeans(full, Aborts());
    P.UnstoppedMeans(batches, verdict, Aborts(), n);
    if P.Stopped(full, Aborts()) {
      var k, i := P.UntilFirstStop(batches, verdict, Aborts(), n);
      hide P.Stopped;
      FirstStopDecides(batches, answers, settle, k, i);
    } else {
      forall k: nat, i: nat | k < n && CutUncountedAt(batches, answers, settle, k, i) ensures false {
        CutShortIsFirstStop(batches, answers, settle, k, i);
      }
      UnstoppedCounted(P.Until(full, Aborts()));
    }
  }

  lemma UnstoppedCounted(log: Log)
    requires !P.Stopped(log, Aborts())
    ensures !LeftUncounted(log)
  {
    if log != [] {
      assert !Aborts()(log[|log| - 1].1);
    }
  }

  /**
   * A cycle of one item that leaves its counters unbalanced: nothing was sent and the registry cannot be read, so the
   * item is deferred and counted as deferred, and then the connection is lost before the commit. One item is processed,
   * none succeeded or failed, one is deferred.
   */
  lemma LostCommitUnbalances(item: Item, isAssigned: Authority -> bool, size: nat, answers: nat -> Answer,
                             settle: Item -> Settling)
    requires size > 0 && isAssigned(item.record.authority) && ItemSendable(item)
    requires ResultFor(answers(0), item).status == NotSent
    requires var s := settle(item);
             s.Locked? && ItemIsCurrent(s.row, item) && s.ev.authority == Raised(ConnectionProblem) && !s.commits
    ensures |PipelinesOf([item], isAssigned, size)| == 1
    ensures var c := CountedAll(NOTHING, CycleLog([item], isAssigned, size, answers, settle, 1));
            c == Counters(1, 0, 0, 1) && !Balanced(c)
  {
    P.OneItem(item, AuthorityOf(), isAssigned, size);
    var batches := PipelinesOf([item], isAssigned, size);
    assert batches == [P.Batch(item.record.authority, [item])];
    var verdict := VerdictIn(answers, settle);
    OneJudged(batches, item, verdict);
    assert verdict(0)(item) == Aborted(DeferredMoved);
    assert [(item, Aborted(DeferredMoved))][..0] == [];
  }

  lemma {:induction false} OneJudged(batches: Sent, item: Item, verdict: nat -> Item -> Outcome)
    requires |batches| == 1 && batches[0].items == [item]
    ensures P.Until(P.Log(batches, verdict, 1), Aborts()) == [(item, verdict(0)(item))]
  {
    assert P.Log(batches, verdict, 0) == [];
    assert P.Log(batches, verdict, 1) == [(item, verdict(0)(item))];
    assert [(item, verdict(0)(item))][1..] == [];
  }

  /** main_worker: a full page that failed only because of infrastructure. */
  predicate CongestionSaturated(pageSize: nat, c: Counters) {
    c.processed >= pageSize && c.failed >= pageSize && c.deferred >= pageSize
  }

  lemma SaturationOfLog(items: seq<Item>, isAssigned: Authority -> bool, size: nat, pageSize: nat,
                        answers: nat -> Answer, settle: Item -> Settling)
    requires size > 0 && 0 < pageSize && |items| <= pageSize
    requires !P.Stopped(CycleLog(items, isAssigned, size, answers, settle, |PipelinesOf(items, isAssigned, size)|),
                        Aborts())
    ensures var log := CycleLog(items, isAssigned, size, answers, settle, |PipelinesOf(items, isAssigned, size)|);
            CongestionSaturated(pageSize, CountedAll(NOTHING, log))
            <==> && |items| == pageSize && (forall i :: 0 <= i < |items| ==> isAssigned(items[i].record.authority))
                 && AllPostponed(log)
  {
    hide CycleLog, P.Select, P.ItemsOf, CountedAll, P.GroupKeys, P.Pipelines;
    var batches := PipelinesOf(items, isAssigned, size);
    var log := CycleLog(items, isAssigned, size, answers, settle, |batches|);
    forall i | 0 <= i < |log| ensures !log[i].1.Aborted? {
      assert !Aborts()(log[i].1);
    }
    FinishedBalance(log);
    CycleConserves(items, isAssigned, size, answers, settle, |batches|);
    assert batches[..|batches|] == batches;
    var chosen := P.Select(items, P.HasChosen(AuthorityOf(), isAssigned));
    assert |log| == |multiset(P.Firsts(log))| == |multiset(chosen)| == |chosen|;
    P.SelectAll(items, P.HasChosen(AuthorityOf(), isAssigned));
  }

  /** The item's settlement found the row as it was sent and left it waiting. */
  predicate LeftWaiting(item: Item, result: PipelineResult, s: Settling, now: Time) {
    && ItemSendable(item) && s.Locked? && !Raises(item, result, s) && Unchanged(s.row, item)
    && Left(item, result, s, now).status == Waiting
  }

  function NotPostponed(): Outcome -> bool { (o: Outcome) => o != Postponed }

  /**
   * For a cycle that finished (an aborted one ends the worker before the test), the saturation test says exactly that
   * the page was full, every item's authority was assigned, and every single item was left waiting by its settlement.
   */
  lemma SaturationExact(items: seq<Item>, isAssigned: Authority -> bool, size: nat, pageSize: nat,
                        answers: nat -> Answer, settle: Item -> Settling, now: Time)
    requires size > 0 && 0 < pageSize && |items| <= pageSize
    requires !P.Stopped(CycleLog(items, isAssigned, size, answers, settle, |PipelinesOf(items, isAssigned, size)|),
                        Aborts())
    ensures var batches := PipelinesOf(items, isAssigned, size);
            CongestionSaturated(pageSize,
                                CountedAll(NOTHING, CycleLog(items, isAssigned, size, answers, settle, |batches|)))
            <==> && |items| == pageSize && (forall i :: 0 <= i < |items| ==> isAssigned(items[i].record.authority))
                 && forall k: nat, i: nat :: k < |batches| && i < |batches[k].items| ==>
                      var item := batches[k].items[i];
                      LeftWaiting(item, ResultFor(answers(k), item), settle(item), now)
  {
    hide P.Log, P.Until, P.Pipelines, CountedAll, P.Stopped, AllPostponed, OutcomeOf, LeftWaiting;
    var batches := PipelinesOf(items, isAssigned, size);
    var verdict := VerdictIn(answers, settle);
    SaturationOfLog(items, isAssigned, size, pageSize, answers, settle);
    P.UntilMeans(P.Log(batches, verdict, |batches|), Aborts());
    P.UnstoppedMeans(batches, verdict, NotPostponed(), |batches|);
    PostponedMeans(P.Log(batches, verdict, |batches|));
    forall k | 0 <= k < |batches|
      ensures P.NoStopIn(batches[k].items, verdict(k), NotPostponed())
              <==> forall i: nat :: i < |batches[k].items| ==>
                     LeftWaiting(batches[k].items[i], ResultFor(answers(k), batches[k].items[i]),
                                 settle(batches[k].items[i]), now)
    {
      PipelineLeftWaiting(batches[k].items, answers(k), settle, now);
    }
    hide P.NoStopIn;
  }

  lemma PostponedMeans(log: Log)
    ensures AllPostponed(log) <==> !P.Stopped(log, NotPostponed())
  {
    if i :| 0 <= i < |log| && log[i].1 != Postponed {
      assert NotPostponed()(log[i].1);
    }
  }

  lemma PipelineLeftWaiting(items: seq<Item>, answer: Answer, settle: Item -> Settling, now: Time)
    ensures P.NoStopIn(items, VerdictOf(answer, settle), NotPostponed())
            <==> forall i: nat :: i < |items| ==>
                LeftWaiting(items[i], ResultFor(answer, items[i]), settle(items[i]), now)
  {
    forall i | 0 <= i < |items|
      ensures !NotPostponed()(VerdictOf(answer, settle)(items[i]))
              <==> LeftWaiting(items[i], ResultFor(answer, items[i]), settle(items[i]), now)
    {
      PostponedIsWaiting(items[i], ResultFor(answer, items[i]), settle(items[i]), now);
    }
    hide OutcomeOf, LeftWaiting;
  }

  lemma PostponedIsWaiting(item: Item, result: PipelineResult, s: Settling, now: Time)
    ensures OutcomeOf(item, result, s) == Postponed <==> LeftWaiting(item, result, s, now)
  {
    OutcomeOfMeans(item, result, s);
    if ItemSendable(item) && !Raises(item, result, s) {
      OutcomeIsTheRows(item, result, s, now);
    }
    hide Left, Unchanged, ItemVerdictOn, Raises, ItemSendable;
  }

  /** An item the client raised on, or forgot, fails its row only on conclusive evidence. */
  lemma UnansweredNeverFails(item: Item, answer: Answer, row: Row, ev: Evidence, read: Reply<Option<ChainRecord>>,
                             evAgain: Evidence, now: Time)
    requires ItemSendable(item) && (answer.CallRaised? || item.ark !in answer.results)
    ensures var v := ItemVerdictOn(row, item, ResultFor(answer, item), ev, read, evAgain);
            v.Fail? <==> ItemIsCurrent(row, item) && Conclusive(ev)
  {
    IdentityMeaning(ev);
  }

  // ---------- the code ----------

  type Sent = seq<P.Batch<Item, Authority>>

  class ChainPublishCycle {
    const pageSize: nat
    const rpcBatchSize: nat
    var stats: Counters
    var lastRun: Option<Counters>

    /** The worker loop only ever reads balanced counters: a cycle that is cut short does not set them. */
    predicate Valid()
      reads this
    {
      1 <= rpcBatchSize <= pageSize && (lastRun.Some? ==> Balanced(lastRun.value))
    }

    constructor (pageSize: int, rpcBatchSize: int)
      ensures Valid() && stats == NOTHING && lastRun.None?
    {
      var page: nat := if pageSize > 1 then pageSize else 1;
      var batch: nat := if rpcBatchSize > 1 then rpcBatchSize else 1;
      this.pageSize := page;
      this.rpcBatchSize := if batch < page then batch else page;
      stats, lastRun := NOTHING, None;
    }

    /** Results are applied item by item, each under its own lock, until one raises. */
    method SettlePipeline(items: seq<Item>, answer: Answer, settle: Item -> Settling) returns (log: Log, raised: bool)
      modifies this`stats
      ensures log == P.Until(P.Judged(items, VerdictOf(answer, settle)), Aborts())
      ensures raised <==> P.Stopped(log, Aborts())
      ensures stats == CountedAll(old(stats), log)
    {
      hide OutcomeOf, ResultFor, P.Until, CountedAll;
      ghost var verdict := VerdictOf(answer, settle);
      log, raised := [], false;
      var i := 0;
      CountedNothing(old(stats));
      while i < |items|
        invariant 0 <= i <= |items|
        invariant log == P.Judged(items[..i], verdict) && !P.Stopped(log, Aborts())
        invariant stats == CountedAll(old(stats), log)
      {
        var outcome := OutcomeOf(items[i], ResultFor(answer, items[i]), settle(items[i]));
        stats := stats.(processed := stats.processed + 1);
        match outcome {
          case Succeeded => stats := stats.(succeeded := stats.succeeded + 1);
          case Lost => stats := stats.(failed := stats.failed + 1);
          case Postponed => stats := stats.(failed := stats.failed + 1, deferred := stats.deferred + 1);
          case Aborted(NothingMoved) =>
          case Aborted(SucceededMoved) => stats := stats.(succeeded := stats.succeeded + 1);
          case Aborted(FailedMoved) => stats := stats.(failed := stats.failed + 1);
          case Aborted(DeferredMoved) => stats := stats.(deferred := stats.deferred + 1);
        }
        JudgedNext(items, verdict, i);
        CountedOne(old(stats), log, items[i], outcome);
        log := log + [(items[i], outcome)];
        if outcome.Aborted? { return log, true; }
        i := i + 1;
      }
      assert items[..i] == items;
      P.UntilMeans(log, Aborts());
    }

    /** The group of one assigned authority, `rpcBatchSize` items at a time, after the pipelines already sent. */
    method PublishGroup(group: seq<Item>, authority: Authority, answers: nat -> Answer, settle: Item -> Settling,
                        sent: Sent)
      returns (sent': Sent, log: Log, raised: bool, ghost full: Log)
      requires Valid()
      modifies this`stats
      ensures sent <= sent' <= sent + P.Signed(authority, Seqs.Batches(group, rpcBatchSize))
      ensures var verdict := VerdictIn(answers, settle);
              P.Log(sent', verdict, |sent'|) == P.Log(sent, verdict, |sent|) + full
      ensures log == P.Until(full, Aborts()) && (raised <==> P.Stopped(log, Aborts()))
      ensures !raised ==> sent' == sent + P.Signed(authority, Seqs.Batches(group, rpcBatchSize))
      ensures stats == CountedAll(old(stats), log)
    {
      hide OutcomeOf, P.Log, Seqs.Batches, CountedAll, P.Until, P.Stopped, P.Signed, P.Judged, VerdictOf, ResultFor;
      ghost var verdict := VerdictIn(answers, settle);
      sent', log, raised, full := sent, [], false, [];
      var start := 0;
      ghost var chunks := [];
      NothingYet(authority, sent, old(stats));
      assert group[0..] == group;
      while start < |group|
        invariant 0 <= start <= |group|
        invariant Seqs.Batches(group, rpcBatchSize) == chunks + Seqs.Batches(group[start..], rpcBatchSize)
        invariant sent' == sent + P.Signed(authority, chunks)
        invariant P.Log(sent', verdict, |sent'|) == P.Log(sent, verdict, |sent|) + full
        invariant log == full && !P.Stopped(full, Aborts())
        invariant stats == CountedAll(old(stats), log)
      {
        var end := if start + rpcBatchSize < |group| then start + rpcBatchSize else |group|;
        var chunk := group[start..end];
        Seqs.NextBatch(group, start, rpcBatchSize);
        var settled;
        settled, raised := SettlePipeline(chunk, answers(|sent'|), settle);
        ghost var judged := P.Judged(chunk, verdict(|sent'|));
        P.LogAppend(sent', P.Batch(authority, chunk), verdict, |sent'|);
        P.SignedAppend(authority, chunks, chunk);
        CountedAppend(old(stats), log, settled);
        JoinLogs(full, judged);
        chunks, full := chunks + [chunk], full + judged;
        sent', log := sent' + [P.Batch(authority, chunk)], log + settled;
        start := end;
        if raised {
          SignedPart(authority, chunks, Seqs.Batches(group[start..], rpcBatchSize));
          return;
        }
      }
      Seqs.NoBatch(group, rpcBatchSize);
      P.UntilMeans(full, Aborts());
    }

    /** Each row of an unassigned authority is failed under its own lock, until one raises. */
    method DropGroup(group: seq<Item>, drops: Item -> bool) returns (dropped: seq<Item>, raised: bool)
      ensures dropped <= group && (!raised ==> dropped == group)
      ensures raised ==> |dropped| < |group| && !drops(group[|dropped|])
    {
      var i := 0;
      while i < |group|
        invariant 0 <= i <= |group|
      {
        if !drops(group[i]) { return group[..i], true; }
        i := i + 1;
      }
      return group, false;
    }

    /**
     * The cycle. `refused` are the items of authorities this deployment does not serve whose rows it failed; `drops`
     * says which of them go through. No operation is sent for them and no counter moves. A cycle that does not finish
     * leaves `lastRun`, which the worker loop reads, as it was.
     */
    method RunPublishCycle(items: seq<Item>, isAssigned: Authority -> bool, answers: nat -> Answer,
                           settle: Item -> Settling,
                           drops: Item -> bool)
      returns (sent: Sent, log: Log, refused: seq<Item>, finished: bool)
      requires Valid()
      modifies this
      ensures Valid()
      ensures sent <= PipelinesOf(items, isAssigned, rpcBatchSize) && refused <= RefusedOf(items, isAssigned)
      ensures log == CycleLog(items, isAssigned, rpcBatchSize, answers, settle, |sent|)
      ensures finished ==>
                && sent == PipelinesOf(items, isAssigned, rpcBatchSize) && refused == RefusedOf(items, isAssigned)
                           && !P.Stopped(log, Aborts())
      ensures !finished ==> P.Stopped(log, Aborts())
                            || exists item :: item in items && !isAssigned(item.record.authority) && !drops(item)
      ensures stats == CountedAll(old(stats), log)
      ensures lastRun == if finished then Some(CountedAll(NOTHING, log)) else old(lastRun)
    {
      hide P.Log, CountedAll, P.Until, P.Stopped, P.Pipelines, P.Grouped, P.GroupKeys, P.Group;
      var before := stats;
      sent, log, refused, finished := [], [], [], false;
      var authorities := P.GroupKeys(items, AuthorityOf());
      ghost var verdict := VerdictIn(answers, settle);
      var g := 0;
      NothingSent(items, isAssigned, rpcBatchSize, authorities, verdict, before);
      while g < |authorities|
        invariant 0 <= g <= |authorities|
        invariant sent == P.Pipelines(items, AuthorityOf(), authorities[..g], isAssigned, rpcBatchSize)
        invariant log == P.Log(sent, verdict, |sent|) && !P.Stopped(log, Aborts())
        invariant refused == P.Grouped(items, AuthorityOf(), authorities[..g], Unassigned(isAssigned))
        invariant stats == CountedAll(before, log) && lastRun == old(lastRun)
      {
        var authority := authorities[g];
        var group := P.Group(items, AuthorityOf(), authority);
        NextAuthority(items, isAssigned, rpcBatchSize, authorities, g);
        if !isAssigned(authority) {
          var dropped, raised := DropGroup(group, drops);
          refused := refused + dropped;
          if raised {
            CutBetween(items, isAssigned, rpcBatchSize, authorities, g, verdict, log);
            InGroup(items, authority, group[|dropped|]);
            return;
          }
        } else {
          var settled, raised;
          ghost var full;
          sent, settled, raised, full := PublishGroup(group, authority, answers, settle, sent);
          CountedAppend(before, log, settled);
          JoinLogs(log, full);
          log := log + settled;
          if raised {
            CutBetween(items, isAssigned, rpcBatchSize, authorities, g + 1, verdict, []);
            P.LogPrefix(sent, PipelinesOf(items, isAssigned, rpcBatchSize), verdict, |sent|);
            return;
          }
        }
        g := g + 1;
      }
      assert authorities[..g] == authorities;
      P.UntilMeans(log, Aborts());
      CountedShift(before, log);
      FinishedIsBalanced(log);
      lastRun := Some(Counters(stats.processed - before.processed, stats.succeeded - before.succeeded,
                               stats.failed - before.failed, stats.deferred - before.deferred));
      finished := true;
    }
  }

  // ---------- steps of the loops ----------

  lemma JudgedNext(items: seq<Item>, verdict: Item -> Outcome, i: nat)
    requires i < |items|
    ensures var done, next := P.Judged(items[..i], verdict), (items[i], verdict(items[i]));
            && P.Judged(items[..i + 1], verdict) == done + [next]
            && (P.Stopped(done + [next], Aborts()) <==> P.Stopped(done, Aborts()) || next.1.Aborted?)
            && (!P.Stopped(done, Aborts()) && next.1.Aborted? ==>
                  P.Until(P.Judged(items, verdict), Aborts()) == done + [next])
  {
    var done, next := P.Judged(items[..i], verdict), (items[i], verdict(items[i]));
    var rest := P.Judged(items[i..], verdict);
    assert P.Judged(items, verdict) == done + rest;
    assert rest[0] == next;
    P.UntilAppend(done, rest, Aborts());
    P.UntilHead(rest, Aborts());
    P.StoppedAppend(done, [next], Aborts());
    assert P.Stopped([next], Aborts()) <==> next.1.Aborted? by { assert [next][0] == next; }
  }

  lemma JoinLogs(full: Log, judged: Log)
    requires !P.Stopped(full, Aborts())
    ensures P.Until(full + judged, Aborts()) == full + P.Until(judged, Aborts())
    ensures P.Stopped(full + P.Until(judged, Aborts()), Aborts()) <==> P.Stopped(P.Until(judged, Aborts()), Aborts())
    ensures !P.Stopped(P.Until(judged, Aborts()), Aborts()) ==>
              P.Until(judged, Aborts()) == judged && !P.Stopped(full + judged, Aborts())
  {
    P.UntilAppend(full, judged, Aborts());
    P.UntilMeans(judged, Aborts());
    P.StoppedAppend(full, P.Until(judged, Aborts()), Aborts());
    P.StoppedAppend(full, judged, Aborts());
  }

  lemma NothingYet(authority: Authority, sent: Sent, c: Counters)
    ensures P.Signed<Item, Authority>(authority, []) == [] && CountedAll(c, []) == c
    ensures !P.Stopped<Item, Outcome>([], Aborts())
  {
  }

  lemma SignedPart(authority: Authority, chunks: seq<seq<Item>>, rest: seq<seq<Item>>)
    ensures P.Signed(authority, chunks) <= P.Signed(authority, chunks + rest)
  {
  }

  lemma NothingSent(items: seq<Item>, isAssigned: Authority -> bool, size: nat, authorities: seq<Authority>,
                    verdict: nat -> Item -> Outcome, c: Counters)
    requires size > 0
    ensures P.Pipelines(items, AuthorityOf(), authorities[..0], isAssigned, size) == []
    ensures P.Grouped(items, AuthorityOf(), authorities[..0], Unassigned(isAssigned)) == []
    ensures P.Log<Item, Authority, Outcome>([], verdict, 0) == [] && !P.Stopped<Item, Outcome>([], Aborts())
            && CountedAll(c, []) == c
  {
  }

  lemma NextAuthority(items: seq<Item>, isAssigned: Authority -> bool, size: nat, authorities: seq<Authority>, g: nat)
    requires size > 0 && g < |authorities|
    ensures var group := P.Group(items, AuthorityOf(), authorities[g]);
            && P.Pipelines(items, AuthorityOf(), authorities[..g + 1], isAssigned, size)
               == P.Pipelines(items, AuthorityOf(), authorities[..g], isAssigned, size)
                  + (if isAssigned(authorities[g]) then P.Signed(authorities[g], Seqs.Batches(group, size)) else [])
            && P.Grouped(items, AuthorityOf(), authorities[..g + 1], Unassigned(isAssigned))
               == P.Grouped(items, AuthorityOf(), authorities[..g], Unassigned(isAssigned))
                  + (if isAssigned(authorities[g]) then [] else group)
  {
    assert authorities[..g + 1][..g] == authorities[..g];
  }

  /** What a cycle has sent and refused when it stops at authority `g` is the beginning of what it would have. */
  lemma CutBetween(items: seq<Item>, isAssigned: Authority -> bool, size: nat, authorities: seq<Authority>, g: nat,
                   verdict: nat -> Item -> Outcome, log: Log)
    requires size > 0 && g <= |authorities| && authorities == P.GroupKeys(items, AuthorityOf())
    ensures var sent := P.Pipelines(items, AuthorityOf(), authorities[..g], isAssigned, size);
            && sent <= PipelinesOf(items, isAssigned, size)
            && P.Log(PipelinesOf(items, isAssigned, size), verdict, |sent|) == P.Log(sent, verdict, |sent|)
    ensures P.Grouped(items, AuthorityOf(), authorities[..g], Unassigned(isAssigned)) <= RefusedOf(items, isAssigned)
    ensures g < |authorities| ==>
              P.Grouped(items, AuthorityOf(), authorities[..g + 1], Unassigned(isAssigned))
                <= RefusedOf(items, isAssigned)
    ensures !P.Stopped(log, Aborts()) ==> P.Until(log, Aborts()) == log
  {
    P.PipelinesGrow(items, AuthorityOf(), authorities, isAssigned, size, g);
    P.GroupedGrow(items, AuthorityOf(), authorities, Unassigned(isAssigned), g);
    if g < |authorities| {
      P.GroupedGrow(items, AuthorityOf(), authorities, Unassigned(isAssigned), g + 1);
    }
    var sent := P.Pipelines(items, AuthorityOf(), authorities[..g], isAssigned, size);
    P.LogPrefix(sent, PipelinesOf(items, isAssigned, size), verdict, |sent|);
    P.UntilMeans(log, Aborts());
  }

  lemma FinishedIsBalanced(log: Log)
    requires !P.Stopped(log, Aborts())
    ensures Balanced(CountedAll(NOTHING, log))
  {
    forall i | 0 <= i < |log| ensures !log[i].1.Aborted? {
      assert !Aborts()(log[i].1);
    }
    FinishedBalance(log);
  }

  lemma InGroup(items: seq<Item>, authority: Authority, item: Item)
    requires item in P.Group(items, AuthorityOf(), authority)
    ensures item in items && item.record.authority == authority
  {
    P.SelectMembers(items, P.HasKey(AuthorityOf(), authority));
  }

  function Plus(a: Counters, b: Counters): Counters {
    Counters(a.processed + b.processed, a.succeeded + b.succeeded, a.failed + b.failed, a.deferred + b.deferred)
  }

  lemma {:induction false} CountedShift(c: Counters, log: Log)
    ensures CountedAll(c, log) == Plus(c, CountedAll(NOTHING, log))
  {
    if log != [] {
      CountedShift(c, log[..|log| - 1]);
    }
  }

  lemma CountedOne(c: Counters, log: Log, item: Item, outcome: Outcome)
    ensures CountedAll(c, log + [(item, outcome)]) == Counted(CountedAll(c, log), outcome)
  {
    assert (log + [(item, outcome)])[..|log|] == log;
  }

  lemma CountedNothing(c: Counters)
    ensures CountedAll(c, []) == c
  {
  }

  lemma {:induction false} CountedAppend(c: Counters, a: Log, b: Log)
    ensures CountedAll(c, a + b) == CountedAll(CountedAll(c, a), b)
    decreases |b|
  {
    if b == [] {
      assert a + b == a;
    } else {
      CountedAppend(c, a, b[..|b| - 1]);
      assert (a + b)[..|a + b| - 1] == a + b[..|b| - 1];
    }
  }
}
