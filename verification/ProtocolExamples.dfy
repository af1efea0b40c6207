/**
 * Three runs from the initial state that show where the protocol is weaker than it looks: a pipeline item torn by a PUT
 * between its two reads, the same item sent after its payload has been archived, and a completed row that becomes ready
 * with nobody to take it.
 */
module ProtocolExamples {
  import opened Wrappers
  import opened ArkTypes
  import opened ArkRow
  import opened Lifecycle
  import opened Verdicts
  import opened Protocol
  import opened ProtocolInvariant
  import opened ProtocolPreservation
  import opened ProtocolTheorems
  import opened ProtocolItems
  import opened ProcedureRuns
  import ChainWorker
  import MetadataWorker
  import ReplicationWorker
  import ArkApi

  /** One replica qualifies, two are the target, and all ARKs share one lock. */
  const SETTINGS: Config :=
    Config(1, 2, 0, 0, [SECOND, SECOND, SECOND], [SECOND, SECOND, SECOND], (ark: Ark) => 0)

  const ARK: Ark := "ark:1/x"

  function FirstPut(): Origin { Origin(0, ARK, "first", "http://first", "f1", "c1", "text/plain", "s") }

  function SecondPut(): Origin { Origin(1, ARK, "second", "http://second", "f2", "c2", "text/plain", "s") }

  /** The registry and the chain say that this wallet is the owner and may publish. */
  function Owner(wallet: string): Evidence {
    Evidence(Returned(AuthorityInfo(wallet, true)), Returned(Some(ChainRecord(wallet, "", ""))), Returned(true))
  }

  // ---------- reachable states ----------

  /** Reachable, with every session closed. */
  ghost predicate Reached(st: Sys) {
    && st.locks == map[] && st.sessions == map[]
    && exists steps :: Runs(SETTINGS, Initial(), steps) && After(SETTINGS, Initial(), steps) == st
  }

  lemma Goes(st: Sys, steps: seq<Step>, want: Sys)
    requires Reached(st) && Achieves(SETTINGS, st, steps, want) && want.locks == map[] && want.sessions == map[]
    ensures Reached(want)
  {
    var before :| Runs(SETTINGS, Initial(), before) && After(SETTINGS, Initial(), before) == st;
    Join(SETTINGS, Initial(), before, steps);
  }

  lemma GoesOne(st: Sys, step: Step)
    requires Reached(st) && Enabled(SETTINGS, st, step) && step.World?
    ensures Reached(Do(SETTINGS, st, step))
  {
    assert Runs(SETTINGS, st, []);
    Extend(SETTINGS, st, [], step);
    Goes(st, [] + [step], Do(SETTINGS, st, step));
  }

  lemma ReachedInv(st: Sys)
    requires Reached(st)
    ensures Inv(SETTINGS, st)
  {
    var steps :| Runs(SETTINGS, Initial(), steps) && After(SETTINGS, Initial(), steps) == st;
    Reachable(SETTINGS, steps);
  }

  // ---------- what the procedures do to these rows ----------

  function Staged(o: Origin, state: State): Row {
    Row(state, o.authority, Some(o.target), Metadata, Ready, 0, None, NoReason, None, None,
        Some(Meta(Some(o.fields), None, Some(o.content), o.mediaType, o.schema, None, None, None, 0, None, 0, o)))
  }

  function StoredRow(o: Origin, state: State, level1Cid: Cid, level2Cid: Cid): Row {
    Persisted(Staged(o, state), level1Cid, level2Cid)
  }

  function Pins(level1Cid: Cid, level2Cid: Cid, count: int): Reply<map<Cid, Pin>> {
    Returned(map[level1Cid := Pin(Pinned, count, None), level2Cid := Pin(Pinned, count, None)])
  }

  function Counted(row: Row, count: int): Row
    requires row.meta.Some?
  {
    Audited(SETTINGS, row, Pin(Pinned, count, None), Pin(Pinned, count, None), false, 0, 0)
  }

  lemma FirstPutStages(o: Origin)
    requires o.target != ""
    ensures Put(Some(NewReserved(o.authority, None)), PutRequest(o, true), Returned(true), Owner("w"), 0)
            == Ok(Effect(Staged(o, Draft), None))
  {
  }

  lemma SecondPutTakesOver(row: Row, o: Origin)
    requires o.target != "" && row.authority != o.authority
    ensures Put(Some(row), PutRequest(o, true), Returned(true), Owner("w"), 0)
            == Ok(Effect(Staged(o, Update), Some(row)))
  {
  }

  lemma PersistStores(o: Origin, state: State, level1Cid: Cid, level2Cid: Cid)
    requires state in {Draft, Update} && o.mediaType != ""
    ensures MetadataWorker.PersistAttempt(Staged(o, state), Returned(level2Cid), Returned(level1Cid), 0).row
            == StoredRow(o, state, level1Cid, level2Cid)
  {
  }

  lemma AuditCounts(row: Row, count: int)
    requires HasUsableCids(row) && AuditGuard(row, 0) && count > 0
    requires row.meta.value.level1Cid.value != row.meta.value.level2Cid.value
    ensures var attempt := ReplicationWorker.AuditAttempt(SETTINGS, row, true,
              Pins(row.meta.value.level1Cid.value, row.meta.value.level2Cid.value, count), Returned(""), Returned(""),
              0, 0);
            attempt.row == Counted(row, count) && attempt.tally.checked == 1 && attempt.tally.failed == 0
  {
  }

  // ---------- the common beginning: a submission that is qualified for the chain ----------

  function Qualified(): Row { Counted(StoredRow(FirstPut(), Draft, "q1", "q2"), 1) }

  lemma QualifiedRow()
    ensures Qualified().state == Draft && Qualified().stage == Chain && Qualified().authority == "first"
    ensures Qualified().target == Some("http://first") && Qualified().status == Ready
    ensures Qualified().meta.Some? && Qualified().meta.value.origin == FirstPut() && CidsUsable(Qualified().meta.value)
    ensures Qualified().meta.value.level1Cid == Some("q1") && Qualified().meta.value.level2Cid == Some("q2")
  {
  }

  /** The first authority has reserved and PUT, the payload is stored under q1 and q2 and has one replica of each. */
  ghost predicate AtChain(st: Sys) {
    && Reached(st) && st.rows == map[ARK := Qualified()] && st.page == {} && st.items == {}
    && st.logs.puts == {FirstPut()} && (forall q :: q in st.logs.qualified ==> q.level1Cid == "q1")
  }

  /** A page, its items and its operations stay while other procedures run. */
  predicate SameCycle(st: Sys, st': Sys) {
    st'.page == st.page && st'.items == st.items && st'.submitted == st.submitted
  }

  lemma PutRun(st: Sys, row: Row, o: Origin, effect: Effect) returns (st': Sys)
    requires Reached(st) && st.rows == map[ARK := row] && o.ark == ARK && o !in st.logs.puts
    requires Put(Some(row), PutRequest(o, true), Returned(true), Owner("w"), 0) == Ok(effect)
    ensures Reached(st') && st'.rows == map[ARK := effect.row] && SameCycle(st, st')
    ensures st'.logs == st.logs.(puts := st.logs.puts + {o})
    ensures st'.archive == st.archive + Superseding(ARK, o.authority, effect.archived)
  {
    hide Put, Inv;
    var steps := PutIsARun(SETTINGS, st, 0, PutRequest(o, true), Returned(true), Owner("w"), 0);
    st' := WithEffect(st, ARK, o.authority, effect).(logs := st.logs.(puts := st.logs.puts + {o}));
    Goes(st, steps, st');
  }

  lemma PersistRun(st: Sys, o: Origin, state: State, level1Cid: Cid, level2Cid: Cid) returns (st': Sys)
    requires Reached(st) && st.rows == map[ARK := Staged(o, state)] && state in {Draft, Update} && o.mediaType != ""
    ensures Reached(st') && st'.rows == map[ARK := StoredRow(o, state, level1Cid, level2Cid)] && SameCycle(st, st')
    ensures st'.logs == st.logs.(accepted := st'.logs.accepted)
  {
    ReachedInv(st);
    PersistStores(o, state, level1Cid, level2Cid);
    hide Inv, MetadataWorker.PersistAttempt, StoredRow, Staged;
    var steps := PersistIsARun(SETTINGS, st, 0, ARK, Returned(level2Cid), Returned(level1Cid), 0);
    var attempt := MetadataWorker.PersistAttempt(Staged(o, state), Returned(level2Cid), Returned(level1Cid), 0);
    st' := WithRow(Accepting(st, Answered(attempt.stored, Returned(level2Cid), Returned(level1Cid))), ARK, attempt.row);
    Goes(st, steps, st');
    assert st'.rows == map[ARK := attempt.row];
  }

  lemma AuditRun(st: Sys, row: Row, count: int) returns (st': Sys)
    requires Reached(st) && st.rows == map[ARK := row] && HasUsableCids(row) && AuditGuard(row, 0) && count > 0
    requires row.meta.value.level1Cid == Some("q1") && row.meta.value.level2Cid == Some("q2")
    ensures Reached(st') && st'.rows == map[ARK := Counted(row, count)] && SameCycle(st, st')
    ensures st'.logs == st.logs.(accepted := st'.logs.accepted,
                                 qualified := st.logs.qualified + Qualifies(SETTINGS, ARK, Counted(row, count)))
  {
    ReachedInv(st);
    AuditCounts(row, count);
    hide Inv, ReplicationWorker.AuditAttempt, Counted, Qualifies, Answered;
    var pins := Pins("q1", "q2", count);
    var steps := ReconcileIsARun(SETTINGS, st, 0, ARK, true, pins, Returned(""), Returned(""), 0, 0);
    var attempt := ReplicationWorker.AuditAttempt(SETTINGS, row, true, pins, Returned(""), Returned(""), 0, 0);
    st' := Recorded(SETTINGS, Accepting(st, Answered(attempt.stored, Returned(""), Returned(""))), ARK, attempt.row);
    Goes(st, steps, st');
    assert st'.rows == map[ARK := attempt.row];
  }

  lemma ReachChain() returns (st: Sys)
    ensures AtChain(st)
  {
    assert Runs(SETTINGS, Initial(), []) && After(SETTINGS, Initial(), []) == Initial();
    assert Reached(Initial());
    GoesOne(Initial(), World(Reserve(ARK, "first", None)));
    var st0 := Do(SETTINGS, Initial(), World(Reserve(ARK, "first", None)));
    FirstPutStages(FirstPut());
    var st1 := PutRun(st0, NewReserved("first", None), FirstPut(), Effect(Staged(FirstPut(), Draft), None));
    var st2 := PersistRun(st1, FirstPut(), Draft, "q1", "q2");
    st := AuditRun(st2, StoredRow(FirstPut(), Draft, "q1", "q2"), 1);
    QualifiedRow();
    assert st.logs.puts == {FirstPut()};
  }

  // ---------- a torn item ----------

  /** The row the second authority's PUT leaves after its payload has been stored: no replica has been counted. */
  function Uncounted(): Row { StoredRow(SecondPut(), Update, "n1", "n2") }

  lemma UncountedRow()
    ensures Uncounted().meta.Some? && CidsUsable(Uncounted().meta.value) && Uncounted().meta.value.origin == SecondPut()
    ensures Uncounted().meta.value.level1Cid == Some("n1")
    ensures Uncounted().meta.value.level1Count.None? && Uncounted().meta.value.level2Count.None?
  {
  }

  /**
   * The failing run of publication integrity. The first authority's record is selected; the chain's new owner takes the
   * ARK over with a PUT whose payload is stored; then the metadata is read. The cycle sends the new payload, of which
   * no replica was ever counted, to the old target under the old authority's name.
   */
  lemma TornItemIsSent() returns (steps: seq<Step>, s: Submission)
    ensures Runs(SETTINGS, Initial(), steps) && s in After(SETTINGS, Initial(), steps).submitted
    ensures s.signer == "first" && s.metadata.origin.authority == "second"
    ensures s.target != s.metadata.origin.target
    ensures s.metadata.level1Count.None? && s.metadata.level2Count.None?
    ensures forall q :: q in After(SETTINGS, Initial(), steps).logs.qualified ==> q.level1Cid != s.cid
    ensures !Justified(SETTINGS, After(SETTINGS, Initial(), steps).logs, s) && !RightlySigned(s)
  {
    UncountedRow();
    QualifiedRow();
    hide Qualified, Uncounted;
    var st := TornItem();
    GoesOne(st, World(SubmitItem(TORN)));
    s := ItemOperation(TORN);
    steps := RunTo(Do(SETTINGS, st, World(SubmitItem(TORN))));
  }

  /** The item with the first authority's record and the second's metadata. */
  const TORN: Item := Item(ARK, Qualified(), TornMeta())

  function TornMeta(): Meta { UncountedRow(); Uncounted().meta.value }

  /** The state right after the second read. */
  lemma TornItem() returns (st4: Sys)
    ensures Reached(st4) && st4.rows == map[ARK := Uncounted()] && TORN in st4.items && ItemSendable(TORN)
    ensures st4.logs.puts == {FirstPut(), SecondPut()}
    ensures forall q :: q in st4.logs.qualified ==> q.level1Cid == "q1"
  {
    var st := ReachChain();
    QualifiedRow();
    UncountedRow();
    hide Qualified, Uncounted;
    GoesOne(st, World(SelectRecord(ARK, 0)));
    var selected := Selected(ARK, Qualified());
    var st1 := Do(SETTINGS, st, World(SelectRecord(ARK, 0)));
    SecondPutTakesOver(Qualified(), SecondPut());
    var st2 := PutRun(st1, Qualified(), SecondPut(), Effect(Staged(SecondPut(), Update), Some(Qualified())));
    var st3 := PersistRun(st2, SecondPut(), Update, "n1", "n2");
    assert st3.rows[ARK] == Uncounted() by { UncountedIs(); }
    GoesOne(st3, World(ReadMetadata(selected)));
    st4 := Do(SETTINGS, st3, World(ReadMetadata(selected)));
    assert st4.rows == map[ARK := Uncounted()];
  }

  function ThirdPut(): Origin { Origin(2, ARK, "first", "http://third", "f3", "c3", "text/plain", "s") }

  /**
   * The same item when the first authority gets the ARK back before it is sent: the second authority's payload, by then
   * archived, goes out under the name of the authority that replaced it. Only an item read before the archiving can do
   * that (`SupersededNeverResigned`).
   */
  lemma SupersededIsResigned() returns (steps: seq<Step>, a: Superseded, s: Submission)
    ensures Runs(SETTINGS, Initial(), steps)
    ensures a in After(SETTINGS, Initial(), steps).archive && s in After(SETTINGS, Initial(), steps).submitted
    ensures a.row.meta.Some? && s.metadata.origin == a.row.meta.value.origin
    ensures s.signer == a.replacement && a.original == "second"
  {
    UncountedRow();
    QualifiedRow();
    UncountedIs();
    var st4 := TornItem();
    SecondPutTakesOver(Uncounted(), ThirdPut());
    hide Qualified, Uncounted;
    var st5 := PutRun(st4, Uncounted(), ThirdPut(), Effect(Staged(ThirdPut(), Update), Some(Uncounted())));
    GoesOne(st5, World(SubmitItem(TORN)));
    a := Superseded(ARK, "second", "first", Uncounted());
    s := ItemOperation(TORN);
    steps := RunTo(Do(SETTINGS, st5, World(SubmitItem(TORN))));
  }

  lemma UncountedIs()
    ensures Uncounted() == StoredRow(SecondPut(), Update, "n1", "n2")
  {
  }

  // ---------- a due row that nobody selects ----------

  function PublishedQualified(): Row { PublishedRow(Qualified()) }

  function Completed(): Row { Counted(PublishedQualified(), 2) }

  function Idle(): Row { Retried(MarkFailed(Completed(), AuthorityNotFound, 0)) }

  lemma IdleRows()
    ensures HasUsableCids(PublishedQualified()) && AuditGuard(PublishedQualified(), 0)
    ensures PublishedQualified().meta == Qualified().meta
    ensures Completed().state == Published && Completed().stage == Complete && Completed().authority == "first"
    ensures Retry(Some(MarkFailed(Completed(), AuthorityNotFound, 0)), "first", Owner("w")) == Ok(Idle())
    ensures Idle().stage == Complete && ReadyForProcessing(Idle(), 0) && forall q, now :: !Selects(q, Idle(), now)
  {
  }

  lemma SettleRun(st: Sys, item: Item, row: Row) returns (st': Sys)
    requires Reached(st) && st.rows == map[ARK := row] && item in st.items && item.ark == ARK && ItemSendable(item)
    requires ItemIsCurrent(row, item) && (ARK, item.record.target.value, item.metadata.level1Cid.value) in st.logs.held
    ensures Reached(st') && st'.rows == map[ARK := PublishedRow(row)] && SameCycle(st, st') && st'.logs == st.logs
  {
    ReachedInv(st);
    hide Inv, PublishedRow;
    var result := PipelineResult(Confirmed, None);
    var steps := SettleIsARun(SETTINGS, st, 0, item, result, Owner("w"), Returned(None), Owner("w"), 0);
    st' := WithRow(st, ARK, PublishedRow(row));
    assert Apply(row, ChainWorker.ItemVerdictOn(row, item, result, Owner("w"), Returned(None), Owner("w")), 0)
           == PublishedRow(row);
    Goes(st, steps, st');
    assert st'.rows == map[ARK := PublishedRow(row)];
  }

  lemma DropRun(st: Sys, item: Item, row: Row) returns (st': Sys)
    requires Reached(st) && st.rows == map[ARK := row] && item in st.items && item.ark == ARK
    requires row.authority == item.record.authority
    ensures Reached(st') && st'.rows == map[ARK := MarkFailed(row, AuthorityNotFound, 0)]
  {
    ReachedInv(st);
    hide Inv, MarkFailed;
    var steps := DropIsARun(SETTINGS, st, 0, item, 0);
    st' := WithRow(st, ARK, MarkFailed(row, AuthorityNotFound, 0));
    Goes(st, steps, st');
    assert st'.rows == map[ARK := MarkFailed(row, AuthorityNotFound, 0)];
  }

  lemma RetryRun(st: Sys, row: Row, after: Row) returns (st': Sys)
    requires Reached(st) && st.rows == map[ARK := row] && Retry(Some(row), "first", Owner("w")) == Ok(after)
    ensures Reached(st') && st'.rows == map[ARK := after]
  {
    hide Retry;
    var steps := RetryIsARun(SETTINGS, st, 0, ARK, "first", Owner("w"), 0);
    st' := WithRow(st, ARK, after);
    Goes(st, steps, st');
    assert st'.rows == map[ARK := after];
  }

  /**
   * Two cycles read the same item. One sends it; its write is confirmed, the ARK is published, replicated and purged.
   * The other finds the authority no longer assigned and fails the completed row without looking at its state; an
   * administrative retry then leaves it due for ever: no worker selects it.
   */
  lemma CompletedRowCanBecomeReady() returns (steps: seq<Step>)
    ensures Runs(SETTINGS, Initial(), steps) && ARK in After(SETTINGS, Initial(), steps).rows
    ensures var row := After(SETTINGS, Initial(), steps).rows[ARK];
            && row.state == Published && row.stage == Complete && ReadyForProcessing(row, 0)
            && forall q, now :: !Selects(q, row, now)
  {
    IdleRows();
    IdleIs();
    hide Idle, PublishedQualified, Completed, Reached;
    var st4, item := PublishRun();
    var st5 := AuditRun(st4, PublishedQualified(), 2);
    var st6 := DropRun(st5, item, Completed());
    var st7 := RetryRun(st6, MarkFailed(Completed(), AuthorityNotFound, 0), Idle());
    steps := RunTo(st7);
  }

  lemma RunTo(st: Sys) returns (steps: seq<Step>)
    requires Reached(st)
    ensures Runs(SETTINGS, Initial(), steps) && After(SETTINGS, Initial(), steps) == st
  {
    steps :| Runs(SETTINGS, Initial(), steps) && After(SETTINGS, Initial(), steps) == st;
  }

  /** The item is read, its write is confirmed on the chain, and the row is published. */
  lemma PublishRun() returns (st: Sys, item: Item)
    ensures Reached(st) && st.rows == map[ARK := PublishedRow(Qualified())]
    ensures item in st.items && item.ark == ARK && item.record == Qualified()
  {
    var st0 := ReachChain();
    QualifiedRow();
    var m := Qualified().meta.value;
    var target, cid := Qualified().target.value, m.level1Cid.value;
    hide Qualified;
    GoesOne(st0, World(SelectRecord(ARK, 0)));
    item := Item(ARK, Qualified(), m);
    var st1 := Do(SETTINGS, st0, World(SelectRecord(ARK, 0)));
    GoesOne(st1, World(ReadMetadata(Selected(ARK, Qualified()))));
    var st2 := Do(SETTINGS, st1, World(ReadMetadata(Selected(ARK, Qualified()))));
    GoesOne(st2, World(ChainHolds(ARK, target, cid)));
    var st3 := Do(SETTINGS, st2, World(ChainHolds(ARK, target, cid)));
    st := SettleRun(st3, item, Qualified());
  }

  lemma IdleIs()
    ensures PublishedRow(Qualified()) == PublishedQualified() && Counted(PublishedQualified(), 2) == Completed()
    ensures Idle().state == Published
    ensures PublishedQualified().meta.value.level1Cid == Some("q1")
            && PublishedQualified().meta.value.level2Cid == Some("q2")
    ensures Qualified().authority == "first"
  {
  }
}
