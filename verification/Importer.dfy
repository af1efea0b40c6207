/**
 * Importing rows into the contract with a checkpoint file, and resuming after a crash. The chain and the file are
 * the state; reads and creations that raise come from an oracle, one answer per row.
 */
module Importer {
  import opened Wrappers
  import opened ArkIdentifiers
  import opened CsvReader
  import Text

  datatype Ark = Ark(url: string, owner: string)

  type Chain = map<Key, Ark>

  datatype Status = Created | SkippedSameUrl | ConflictOwner | ConflictUrl | Validated | Invalid | Failed

  /** One line of the checkpoint file; error texts are left out. */
  datatype Line = Line(number: nat, identifier: string, url: string, status: Status, owner: string)

  /** `creates` (history) lists the ARKs whose creation took effect, in order. */
  datatype World = World(chain: Chain, checkpoint: seq<Line>, creates: seq<Key>)

  datatype Authority = Authority(active: bool, wallet: string, naans: set<string>)

  datatype ImportError = UnknownAuthority | Inactive | Unauthorized | BadCheckpoint(error: ParseError)

  /** `Raises(Some(owner))` is a creation that took effect although the call raised. */
  datatype Creation = Returns(owner: string) | Raises(effect: Option<string>)

  datatype Outcome = Outcome(existsReads: bool, getReads: bool, create: Creation)

  datatype Counts = Counts(created: nat, validated: nat, skipped: nat, conflict: nat, invalid: nat, failed: nat,
                           resumed: nat)

  // ---------- the checkpoint ----------

  type Completed = map<string, (string, string)>

  predicate Resumable(status: Status) { status.Created? || status.SkippedSameUrl? }

  /** The last resumable line of each ARK wins; one that does not parse raises. */
  function LoadCompleted(lines: seq<Line>): Result<Completed, ParseError> {
    if lines == [] then Ok(map[])
    else
      var line := lines[|lines| - 1];
      match LoadCompleted(lines[..|lines| - 1])
      case Err(e) => Err(e)
      case Ok(before) =>
        if !Resumable(line.status) then Ok(before)
        else
          match ParseArk(line.identifier)
          case Err(e) => Err(e)
          case Ok(key) => Ok(before[Canonical(key.0, key.1) :=
                                    (Text.Strip(line.url), Text.Lower(Text.Strip(line.owner)))])
  }

  // ---------- one row ----------

  datatype Decision = Resume | Report(status: Status, owner: string) | Create(creation: Creation)

  function Decide(chain: Chain, completed: Completed, wallet: string, row: ImportRow, execute: bool,
                  o: Outcome): Decision
  {
    var key := KeyOf(row);
    if row.identifier in completed && completed[row.identifier] == (row.url, Text.Lower(wallet)) then Resume
    else if !o.existsReads then Report(Failed, "")
    else if key in chain then
      if !o.getReads then Report(Failed, "")
      else if Text.Lower(chain[key].owner) != Text.Lower(wallet) then Report(ConflictOwner, chain[key].owner)
      else if chain[key].url != row.url then Report(ConflictUrl, chain[key].owner)
      else Report(SkippedSameUrl, chain[key].owner)
    else if !execute then Report(Validated, wallet)
    else Create(o.create)
  }

  datatype Action = Put(key: Key, ark: Ark) | Append(line: Line)

  function LineOf(row: ImportRow, status: Status, owner: string): Line {
    Line(row.number, row.identifier, row.url, status, owner)
  }

  /** What a decision does to chain and file, in order; a crash may come after any of these. */
  function Actions(row: ImportRow, d: Decision): seq<Action> {
    match d
    case Resume => []
    case Report(status, owner) => [Append(LineOf(row, status, owner))]
    case Create(Returns(owner)) => [Put(KeyOf(row), Ark(row.url, owner)), Append(LineOf(row, Created, owner))]
    case Create(Raises(None)) => [Append(LineOf(row, Failed, ""))]
    case Create(Raises(Some(owner))) => [Put(KeyOf(row), Ark(row.url, owner)), Append(LineOf(row, Failed, ""))]
  }

  function Perform(w: World, a: Action): World {
    match a
    case Put(key, ark) => w.(chain := w.chain[key := ark], creates := w.creates + [key])
    case Append(line) => w.(checkpoint := w.checkpoint + [line])
  }

  function PerformAll(w: World, actions: seq<Action>): World
    decreases |actions|
  {
    if actions == [] then w else PerformAll(Perform(w, actions[0]), actions[1..])
  }

  lemma PerformOne(w: World, a: Action)
    ensures PerformAll(w, [a]) == Perform(w, a)
  {
    assert [a][1..] == [];
  }

  lemma PerformTwo(w: World, a: Action, b: Action)
    ensures PerformAll(w, [a, b]) == Perform(Perform(w, a), b)
  {
    assert [a, b][1..] == [b];
    PerformOne(Perform(w, a), b);
  }

  function Count(c: Counts, d: Decision): Counts {
    match d
    case Resume => c.(resumed := c.resumed + 1)
    case Report(status, _) =>
      (match status
       case ConflictOwner => c.(conflict := c.conflict + 1)
       case ConflictUrl => c.(conflict := c.conflict + 1)
       case SkippedSameUrl => c.(skipped := c.skipped + 1)
       case Validated => c.(validated := c.validated + 1)
       case _ => c.(failed := c.failed + 1))
    case Create(Returns(_)) => c.(created := c.created + 1)
    case Create(Raises(_)) => c.(failed := c.failed + 1)
  }

  /** The checkpoint says that this very row was imported for this wallet. */
  predicate Done(completed: Completed, wallet: string, row: ImportRow) {
    row.identifier in completed && completed[row.identifier] == (row.url, Text.Lower(wallet))
  }

  /** The ARK is on the chain, with the wallet as owner or not, with the row's URL or not. */
  predicate Exists(chain: Chain, wallet: string, row: ImportRow, ours: bool, sameUrl: bool) {
    && (row.naan, row.name) in chain
    && (Text.EqualIgnoringCase(chain[(row.naan, row.name)].owner, wallet) <==> ours)
    && (chain[(row.naan, row.name)].url == row.url <==> sameUrl)
  }

  /**
   * What happens to a row. A row that is done is left out. Otherwise it fails if the chain cannot be read; an ARK that
   * exists is a conflict of owners, a conflict of URLs, or nothing to do; one that does not is created, or validated in
   * a dry run.
   */
  lemma DecideMeans(chain: Chain, completed: Completed, wallet: string, row: ImportRow, execute: bool, o: Outcome)
    ensures var d := Decide(chain, completed, wallet, row, execute, o);
            var readable := o.existsReads && ((row.naan, row.name) in chain ==> o.getReads);
            if Done(completed, wallet, row) then d == Resume
            else if !readable then d == Report(Failed, "")
            else if (row.naan, row.name) !in chain then
              d == if execute then Create(o.create) else Report(Validated, wallet)
            else
              && d.Report? && d.owner == chain[(row.naan, row.name)].owner
              && (d.status == SkippedSameUrl <==> Exists(chain, wallet, row, true, true))
              && (d.status == ConflictUrl <==> Exists(chain, wallet, row, true, false))
              && (d.status == ConflictOwner <==> exists sameUrl :: Exists(chain, wallet, row, false, sameUrl))
  {
    if (row.naan, row.name) in chain {
      Text.LowerEqual(chain[(row.naan, row.name)].owner, wallet);
      assert Exists(chain, wallet, row, false, true) || Exists(chain, wallet, row, false, false)
             || Exists(chain, wallet, row, true, true) || Exists(chain, wallet, row, true, false);
    }
    hide Text.Lower, Text.EqualIgnoringCase;
  }

  function One(b: bool): nat { if b then 1 else 0 }

  /** Each row moves exactly one counter: that of what was decided, and of how the creation ended. */
  lemma CountMeans(c: Counts, d: Decision)
    requires d.Report? ==> !d.status.Created? && !d.status.Invalid?
    ensures var after := Count(c, d);
            && after.resumed == c.resumed + One(d.Resume?)
            && after.created == c.created + One(d.Create? && d.creation.Returns?)
            && after.skipped == c.skipped + One(d.Report? && d.status == SkippedSameUrl)
            && after.conflict == c.conflict + One(d.Report? && d.status in {ConflictOwner, ConflictUrl})
            && after.validated == c.validated + One(d.Report? && d.status == Validated)
            && after.failed == c.failed + One((d.Create? && d.creation.Raises?) || (d.Report? && d.status == Failed))
            && after.invalid == c.invalid
  {
  }

  /** The line a row leaves in the checkpoint: none if it was done, else one with its own number, ARK and URL. */
  lemma LinesMean(row: ImportRow, d: Decision)
    ensures d.Resume? ==> Actions(row, d) == []
    ensures !d.Resume? ==>
              var actions := Actions(row, d);
              && actions != [] && actions[|actions| - 1].Append?
              && (forall i :: 0 <= i < |actions| - 1 ==> actions[i].Put?)
              && var line := actions[|actions| - 1].line;
                 && line.number == row.number && line.identifier == row.identifier && line.url == row.url
                 && (d.Report? ==> line.status == d.status && line.owner == d.owner)
                 && (d.Create? && d.creation.Returns? ==> line.status == Created && line.owner == d.creation.owner)
                 && (d.Create? && d.creation.Raises? ==> line.status == Failed && line.owner == "")
  {
  }

  /** The line says that the ARK with this canonical identifier was created or was there with the same URL. */
  predicate Names(line: Line, id: string) {
    && line.status in {Created, SkippedSameUrl}
    && ParseArk(line.identifier).Ok?
    && id == Canonical(ParseArk(line.identifier).value.0, ParseArk(line.identifier).value.1)
  }

  /** Line `i` is the last one that names this ARK. */
  predicate LastNaming(lines: seq<Line>, id: string, i: nat) {
    i < |lines| && Names(lines[i], id) && forall j :: i < j < |lines| ==> !Names(lines[j], id)
  }

  /** A checkpoint loads unless a line that says so does not parse. */
  lemma {:induction false} LoadFails(lines: seq<Line>)
    ensures LoadCompleted(lines).Err?
            <==> exists i :: 0 <= i < |lines| && Unreadable(lines[i])
  {
    hide ParseArk, Canonical, Text.Strip, Text.Lower;
    if lines != [] {
      LoadFails(lines[..|lines| - 1]);
    }
  }

  predicate Unreadable(line: Line) { line.status in {Created, SkippedSameUrl} && ParseArk(line.identifier).Err? }

  /** An ARK is done if and only if a line names it, and then as its last such line says. */
  lemma LoadedMeans(lines: seq<Line>, id: string)
    requires LoadCompleted(lines).Ok?
    ensures var completed := LoadCompleted(lines).value;
            && (id in completed <==> exists i: nat :: LastNaming(lines, id, i))
            && forall i: nat :: LastNaming(lines, id, i) ==>
                 completed[id] == (Text.Strip(lines[i].url), Text.Lower(Text.Strip(lines[i].owner)))
  {
    hide LoadCompleted, LastNaming, Text.Strip, Text.Lower;
    forall i: nat | LastNaming(lines, id, i)
      ensures id in LoadCompleted(lines).value
      ensures i < |lines| && LoadCompleted(lines).value[id]
                             == (Text.Strip(lines[i].url), Text.Lower(Text.Strip(lines[i].owner)))
    {
      LoadedValue(lines, id, i);
    }
    if id in LoadCompleted(lines).value {
      var i := LoadedIsNamed(lines, id);
    }
  }

  lemma {:induction false} LoadedValue(lines: seq<Line>, id: string, i: nat)
    requires LoadCompleted(lines).Ok? && LastNaming(lines, id, i)
    ensures i < |lines| && id in LoadCompleted(lines).value
    ensures LoadCompleted(lines).value[id] == (Text.Strip(lines[i].url), Text.Lower(Text.Strip(lines[i].owner)))
    decreases |lines|
  {
    hide ParseArk, Canonical, Text.Strip, Text.Lower;
    if i < |lines| - 1 {
      assert !Names(lines[|lines| - 1], id);
      LoadedValue(lines[..|lines| - 1], id, i);
    }
  }

  lemma {:induction false} LoadedIsNamed(lines: seq<Line>, id: string) returns (i: nat)
    requires LoadCompleted(lines).Ok? && id in LoadCompleted(lines).value
    ensures LastNaming(lines, id, i)
    decreases |lines|
  {
    hide ParseArk, Canonical, Text.Strip, Text.Lower;
    i := |lines| - 1;
    if !Names(lines[i], id) {
      i := LoadedIsNamed(lines[..|lines| - 1], id);
    }
  }

  /** A row whose creation was the last thing recorded about its ARK is left out by the next execution. */
  lemma RecordedIsResumed(lines: seq<Line>, i: nat, row: ImportRow, wallet: string, chain: Chain, o: Outcome)
    requires Importable(row) && Text.Strip(row.url) == row.url && Text.Strip(wallet) == wallet
    requires LoadCompleted(lines).Ok? && LastNaming(lines, row.identifier, i)
    requires lines[i].url == row.url && lines[i].owner == wallet
    ensures Decide(chain, LoadCompleted(lines).value, wallet, row, true, o) == Resume
  {
    LoadedValue(lines, row.identifier, i);
    hide LoadCompleted, LastNaming, Text.Strip, Text.Lower;
  }

  // ---------- a whole run ----------

  /** What a run is given, fixed for its whole length. */
  datatype Run = Run(rows: seq<ImportRow>, invalid: seq<InvalidRow>, wallet: string, execute: bool,
                     oracle: nat -> Outcome)

  function InvalidLine(bad: InvalidRow): Line { Line(bad.number, bad.identifier, bad.url, Invalid, "") }

  function InvalidLines(invalid: seq<InvalidRow>): (lines: seq<Line>)
    ensures |lines| == |invalid| && forall i :: 0 <= i < |lines| ==> lines[i] == InvalidLine(invalid[i])
  {
    seq(|invalid|, i requires 0 <= i < |invalid| => InvalidLine(invalid[i]))
  }

  function RowDecision(w: World, completed: Completed, r: Run, i: nat): Decision
    requires i < |r.rows|
  {
    Decide(w.chain, completed, r.wallet, r.rows[i], r.execute, r.oracle(i))
  }

  /** State and counts after the first `n` rows, started in `w`. */
  function AfterRows(w: World, completed: Completed, r: Run, n: nat): (World, Counts)
    requires n <= |r.rows|
  {
    if n == 0 then (w, Counts(0, 0, 0, 0, |r.invalid|, 0, 0))
    else
      var (before, counts) := AfterRows(w, completed, r, n - 1);
      var d := RowDecision(before, completed, r, n - 1);
      (PerformAll(before, Actions(r.rows[n - 1], d)), Count(counts, d))
  }

  function CompletedAtStart(w: World, r: Run): Result<Completed, ParseError> {
    if r.execute then LoadCompleted(w.checkpoint) else Ok(map[])
  }

  function Begun(w: World, r: Run): World { w.(checkpoint := w.checkpoint + InvalidLines(r.invalid)) }

  // ---------- the code ----------

  class ImportTool {
    var chain: Chain
    var checkpoint: seq<Line>
    var creates: seq<Key>

    constructor (w: World)
      ensures View() == w
    {
      chain, checkpoint, creates := w.chain, w.checkpoint, w.creates;
    }

    function View(): World
      reads this
    {
      World(chain, checkpoint, creates)
    }

    method WriteResult(line: Line)
      modifies this`checkpoint
      ensures checkpoint == old(checkpoint) + [line]
    {
      checkpoint := checkpoint + [line];
    }

    method CreateArk(key: Key, url: string, creation: Creation) returns (created: Option<string>)
      modifies this`chain, this`creates
      ensures created == if creation.Returns? then Some(creation.owner) else None
      ensures var effect := if creation.Returns? then Some(creation.owner) else creation.effect;
              if effect.None? then chain == old(chain) && creates == old(creates)
              else chain == old(chain)[key := Ark(url, effect.value)] && creates == old(creates) + [key]
    {
      var effect := if creation.Returns? then Some(creation.owner) else creation.effect;
      if effect.Some? {
        chain := chain[key := Ark(url, effect.value)];
        creates := creates + [key];
      }
      return if creation.Returns? then Some(creation.owner) else None;
    }

    /** The body of the loop over the rows. */
    method ImportRow(row: ImportRow, completed: Completed, wallet: string, execute: bool, o: Outcome, c: Counts)
      returns (counts: Counts)
      modifies this
      ensures var d := Decide(old(chain), completed, wallet, row, execute, o);
              View() == PerformAll(old(View()), Actions(row, d)) && counts == Count(c, d)
    {
      hide Text.Lower;
      if row.identifier in completed && completed[row.identifier] == (row.url, Text.Lower(wallet)) {
        return c.(resumed := c.resumed + 1);
      }
      if !o.existsReads {
        WriteResult(LineOf(row, Failed, ""));
        return c.(failed := c.failed + 1);
      }
      var key := KeyOf(row);
      if key in chain {
        if !o.getReads {
          WriteResult(LineOf(row, Failed, ""));
          return c.(failed := c.failed + 1);
        }
        var known := chain[key];
        if Text.Lower(known.owner) != Text.Lower(wallet) {
          WriteResult(LineOf(row, ConflictOwner, known.owner));
          return c.(conflict := c.conflict + 1);
        } else if known.url != row.url {
          WriteResult(LineOf(row, ConflictUrl, known.owner));
          return c.(conflict := c.conflict + 1);
        }
        WriteResult(LineOf(row, SkippedSameUrl, known.owner));
        return c.(skipped := c.skipped + 1);
      }
      if !execute {
        WriteResult(LineOf(row, Validated, wallet));
        return c.(validated := c.validated + 1);
      }
      var created := CreateArk(key, row.url, o.create);
      if created.Some? {
        WriteResult(LineOf(row, Created, created.value));
        PerformTwo(old(View()), Put(key, Ark(row.url, created.value)), Append(LineOf(row, Created, created.value)));
        return c.(created := c.created + 1);
      }
      WriteResult(LineOf(row, Failed, ""));
      if o.create.effect.Some? {
        PerformTwo(old(View()), Put(key, Ark(row.url, o.create.effect.value)), Append(LineOf(row, Failed, "")));
      }
      return c.(failed := c.failed + 1);
    }

    method WriteInvalid(invalid: seq<InvalidRow>)
      modifies this`checkpoint
      ensures checkpoint == old(checkpoint) + InvalidLines(invalid)
    {
      var i := 0;
      while i < |invalid|
        invariant 0 <= i <= |invalid|
        invariant checkpoint == old(checkpoint) + InvalidLines(invalid)[..i]
      {
        WriteResult(InvalidLine(invalid[i]));
        i := i + 1;
      }
      assert InvalidLines(invalid)[..i] == InvalidLines(invalid);
    }

    /** The authority must be known and active, and serve the NAAN of every row. */
    method Refuse(authority: Option<Authority>, rows: seq<ImportRow>) returns (refused: Option<ImportError>)
      ensures refused == Some(UnknownAuthority) <==> authority.None?
      ensures refused == Some(Inactive) <==> authority.Some? && !authority.value.active
      ensures refused == Some(Unauthorized)
              <==> && authority.Some? && authority.value.active
                   && exists i :: 0 <= i < |rows| && rows[i].naan !in authority.value.naans
      ensures refused.None? || refused.value in {UnknownAuthority, Inactive, Unauthorized}
    {
      if authority.None? { return Some(UnknownAuthority); }
      if !authority.value.active { return Some(Inactive); }
      if exists i :: 0 <= i < |rows| && rows[i].naan !in authority.value.naans { return Some(Unauthorized); }
      return None;
    }

    /** A refused run has touched nothing. */
    method ImportRows(authority: Option<Authority>, rows: seq<ImportRow>, invalid: seq<InvalidRow>, execute: bool,
                      oracle: nat -> Outcome)
      returns (result: Result<Counts, ImportError>)
      modifies this
      ensures result.Err? ==> View() == old(View())
      ensures result == Err(UnknownAuthority) <==> authority.None?
      ensures result == Err(Inactive) <==> authority.Some? && !authority.value.active
      ensures result == Err(Unauthorized)
              <==> && authority.Some? && authority.value.active
                   && exists i :: 0 <= i < |rows| && rows[i].naan !in authority.value.naans
      ensures result.Ok? ==>
                && authority.Some? && authority.value.active
                && (forall i :: 0 <= i < |rows| ==> rows[i].naan in authority.value.naans)
                && var r := Run(rows, invalid, authority.value.wallet, execute, oracle);
                   && CompletedAtStart(old(View()), r).Ok?
                   && AfterRows(Begun(old(View()), r), CompletedAtStart(old(View()), r).value, r, |rows|)
                      == (View(), result.value)
    {
      var refused := Refuse(authority, rows);
      if refused.Some? { return Err(refused.value); }
      var wallet := authority.value.wallet;
      var loaded := if execute then LoadCompleted(checkpoint) else Ok(map[]);
      if loaded.Err? { return Err(BadCheckpoint(loaded.error)); }
      hide LoadCompleted, AfterRows;
      WriteInvalid(invalid);
      var counts := ImportEach(Run(rows, invalid, wallet, execute, oracle), loaded.value);
      return Ok(counts);
    }

    /** The loop over the rows. */
    method ImportEach(r: Run, completed: Completed) returns (counts: Counts)
      modifies this
      ensures AfterRows(old(View()), completed, r, |r.rows|) == (View(), counts)
    {
      hide LoadCompleted, Decide, Actions, PerformAll, Count;
      counts := Counts(0, 0, 0, 0, |r.invalid|, 0, 0);
      var i := 0;
      while i < |r.rows|
        invariant 0 <= i <= |r.rows|
        invariant AfterRows(old(View()), completed, r, i) == (View(), counts)
      {
        counts := ImportRow(r.rows[i], completed, r.wallet, r.execute, r.oracle(i), counts);
        i := i + 1;
      }
    }
  }

  // ---------- counters ----------

  function Sum(c: Counts): nat { c.created + c.validated + c.skipped + c.conflict + c.invalid + c.failed + c.resumed }

  /** The counters of a completed run sum to the number of input rows, whatever reads and creations raised. */
  lemma {:induction false} CountersSum(w: World, completed: Completed, r: Run, n: nat)
    requires n <= |r.rows|
    ensures Sum(AfterRows(w, completed, r, n).1) == n + |r.invalid|
  {
    hide Decide, PerformAll, Actions;
    if n > 0 {
      CountersSum(w, completed, r, n - 1);
    }
  }

  lemma {:induction false} DryRunOnlyReports(w: World, completed: Completed, r: Run, n: nat)
    requires n <= |r.rows| && !r.execute
    ensures var after := AfterRows(w, completed, r, n).0;
            after.chain == w.chain && after.creates == w.creates && AfterRows(w, completed, r, n).1.created == 0
  {
    if n > 0 {
      DryRunOnlyReports(w, completed, r, n - 1);
      var before := AfterRows(w, completed, r, n - 1).0;
      var actions := Actions(r.rows[n - 1], RowDecision(before, completed, r, n - 1));
      if actions != [] {
        PerformOne(before, actions[0]);
        assert actions == [actions[0]];
      }
    }
  }

  // ---------- crash and resume ----------

  /** Every resumable line of the file names an ARK that is on the chain. */
  ghost predicate Truthful(lines: seq<Line>, chain: Chain) {
    forall i :: 0 <= i < |lines| && Resumable(lines[i].status) ==>
      ParseArk(lines[i].identifier).Ok? && ParseArk(lines[i].identifier).value in chain
  }

  ghost predicate CompletedTrue(completed: Completed, chain: Chain) {
    forall id :: id in completed ==> ParseArk(id).Ok? && ParseArk(id).value in chain
  }

  lemma {:induction false} LoadedIsTrue(lines: seq<Line>, chain: Chain)
    requires Truthful(lines, chain)
    ensures LoadCompleted(lines).Ok? && CompletedTrue(LoadCompleted(lines).value, chain)
  {
    hide Text.Strip, Text.Lower;
    if lines != [] {
      LoadedIsTrue(lines[..|lines| - 1], chain);
      var id := lines[|lines| - 1].identifier;
      if ParseArk(id).Ok? {
        var key := ParseArk(id).value;
        ParseIsExact(id, key.0, key.1);
        CanonicalParses(key.0, key.1);
      }
      hide ParseArk, Canonical, WellFormed;
    }
  }

  /** Executed with reads that answer and creations that succeed under the authority's own wallet. */
  ghost predicate Works(r: Run) {
    && r.execute
    && (forall i :: 0 <= i < |r.rows| ==>
          Importable(r.rows[i]) && r.oracle(i) == Outcome(true, true, Returns(r.wallet)))
  }

  /** What importing the first `n` rows should leave on the chain. */
  function Target(chain: Chain, r: Run, n: nat): Chain
    requires n <= |r.rows|
  {
    if n == 0 then chain
    else
      var before := Target(chain, r, n - 1);
      var row := r.rows[n - 1];
      if KeyOf(row) in before then before else before[KeyOf(row) := Ark(row.url, r.wallet)]
  }

  lemma {:induction false} TargetGrows(chain: Chain, r: Run, m: nat, n: nat)
    requires m <= n <= |r.rows|
    ensures var a, b := Target(chain, r, m), Target(chain, r, n);
            && (forall k :: k in a ==> k in b && b[k] == a[k])
            && (forall i :: 0 <= i < n ==> KeyOf(r.rows[i]) in b)
    decreases n
  {
    if n > m {
      TargetGrows(chain, r, m, n - 1);
    } else if n > 0 {
      TargetGrows(chain, r, m - 1, n - 1);
    }
  }

  /** State is on the way from `start`: its chain is the target of the first `m` rows, its file and history agree. */
  ghost predicate OnTheWay(start: World, w: World, r: Run, m: nat)
    requires m <= |r.rows|
  {
    && w.chain == Target(start.chain, r, m)
    && Truthful(w.checkpoint, w.chain)
    && start.creates <= w.creates
    && (forall i :: |start.creates| <= i < |w.creates| ==> w.creates[i] !in start.chain && w.creates[i] in w.chain)
    && (forall i, j :: |start.creates| <= i < j < |w.creates| ==> w.creates[i] != w.creates[j])
  }

  lemma HeaderKeepsWay(start: World, w: World, r: Run, m: nat, k: nat)
    requires m <= |r.rows| && OnTheWay(start, w, r, m) && k <= |r.invalid|
    ensures OnTheWay(start, w.(checkpoint := w.checkpoint + InvalidLines(r.invalid)[..k]), r, m)
  {
    hide ParseArk, Target;
    var lines := w.checkpoint + InvalidLines(r.invalid)[..k];
    assert forall i :: 0 <= i < |w.checkpoint| ==> lines[i] == w.checkpoint[i];
    assert forall i :: |w.checkpoint| <= i < |lines| ==> lines[i].status == Invalid;
  }

  lemma AppendKeepsWay(start: World, w: World, r: Run, m: nat, line: Line)
    requires m <= |r.rows| && OnTheWay(start, w, r, m)
    requires Resumable(line.status) ==> ParseArk(line.identifier).Ok? && ParseArk(line.identifier).value in w.chain
    ensures OnTheWay(start, Perform(w, Append(line)), r, m)
  {
    hide ParseArk, Target;
  }

  lemma PutKeepsWay(start: World, w: World, r: Run, i: nat)
    requires i < |r.rows| && OnTheWay(start, w, r, i) && KeyOf(r.rows[i]) !in w.chain
    ensures OnTheWay(start, Perform(w, Put(KeyOf(r.rows[i]), Ark(r.rows[i].url, r.wallet))), r, i + 1)
  {
    hide ParseArk;
    TargetGrows(start.chain, r, 0, i);
    var w' := Perform(w, Put(KeyOf(r.rows[i]), Ark(r.rows[i].url, r.wallet)));
    assert w'.chain == Target(start.chain, r, i + 1);
    hide Target;
    assert forall j :: 0 <= j < |w.creates| ==> w'.creates[j] == w.creates[j];
  }

  /** An importable row that the checkpoint resumes is on the chain. */
  lemma ResumedIsThere(completed: Completed, chain: Chain, row: ImportRow)
    requires CompletedTrue(completed, chain) && Importable(row) && row.identifier in completed
    ensures KeyOf(row) in chain
  {
    CanonicalParses(row.naan, row.name);
  }

  lemma PassedIsThere(start: World, w: World, r: Run, m: nat, i: nat)
    requires i < m <= |r.rows| && OnTheWay(start, w, r, m)
    ensures KeyOf(r.rows[i]) in w.chain
  {
    TargetGrows(start.chain, r, m, m);
  }

  lemma PresentIsPassed(start: World, w: World, r: Run, i: nat)
    requires i < |r.rows| && OnTheWay(start, w, r, i) && KeyOf(r.rows[i]) in w.chain
    ensures OnTheWay(start, w, r, i + 1)
  {
  }

  /** A row whose ARK is on the chain writes at most one line. */
  lemma PresentRowKeepsWay(start: World, w: World, completed: Completed, r: Run, m: nat, i: nat, k: nat)
    returns (reached: nat)
    requires Works(r) && i < |r.rows| && i <= m <= |r.rows| && OnTheWay(start, w, r, m) && KeyOf(r.rows[i]) in w.chain
    requires k <= |Actions(r.rows[i], RowDecision(w, completed, r, i))|
    ensures m <= reached <= |r.rows| && i < reached
    ensures OnTheWay(start, PerformAll(w, Actions(r.rows[i], RowDecision(w, completed, r, i))[..k]), r, reached)
  {
    hide ParseArk, OnTheWay, Canonical, WellFormed, Text.Lower;
    var row := r.rows[i];
    var actions := Actions(row, RowDecision(w, completed, r, i));
    assert Importable(row);
    CanonicalParses(row.naan, row.name);
    reached := if m > i then m else i + 1;
    if m == i {
      PresentIsPassed(start, w, r, i);
    }
    if k == 1 {
      AppendKeepsWay(start, w, r, reached, actions[0].line);
    }
  }

  /** A row whose ARK is not on the chain creates it and then says so. */
  lemma AbsentRowKeepsWay(start: World, w: World, completed: Completed, r: Run, i: nat, k: nat)
    requires Works(r) && i < |r.rows| && OnTheWay(start, w, r, i) && KeyOf(r.rows[i]) !in w.chain
    requires r.rows[i].identifier !in completed
    requires k <= |Actions(r.rows[i], RowDecision(w, completed, r, i))|
    ensures |Actions(r.rows[i], RowDecision(w, completed, r, i))| == 2
    ensures OnTheWay(start, PerformAll(w, Actions(r.rows[i], RowDecision(w, completed, r, i))[..k]), r,
                     if k == 0 then i else i + 1)
  {
    hide ParseArk, OnTheWay, Canonical, WellFormed, Text.Lower;
    var row := r.rows[i];
    var actions := Actions(row, RowDecision(w, completed, r, i));
    assert Importable(row);
    CanonicalParses(row.naan, row.name);
    var put, append := Put(KeyOf(row), Ark(row.url, r.wallet)), Append(LineOf(row, Created, r.wallet));
    assert actions == [put, append];
    if k > 0 {
      PutKeepsWay(start, w, r, i);
      var created := Perform(w, put);
      if k == 1 {
        assert actions[..1] == [put] && [put][1..] == [];
      } else {
        AppendKeepsWay(start, created, r, i + 1, append.line);
        PerformTwo(w, put, append);
        assert actions[..2] == [put, append];
      }
    }
  }

  /**
   * Row `i` is processed in a state that has come at least to row `i` (further after an interrupted run). After its
   * first `k` actions the state is still on the way, and after all of them it has passed the row.
   */
  lemma RowKeepsWay(start: World, w: World, completed: Completed, r: Run, m: nat, i: nat, k: nat) returns (reached: nat)
    requires Works(r) && i < |r.rows| && i <= m <= |r.rows| && OnTheWay(start, w, r, m)
             && CompletedTrue(completed, w.chain)
    requires k <= |Actions(r.rows[i], RowDecision(w, completed, r, i))|
    ensures m <= reached <= |r.rows|
    ensures var actions := Actions(r.rows[i], RowDecision(w, completed, r, i));
            && OnTheWay(start, PerformAll(w, actions[..k]), r, reached)
            && (k == |actions| ==> i < reached)
  {
    hide ParseArk, OnTheWay, CompletedTrue, Decide, PerformAll;
    assert Importable(r.rows[i]);
    if r.rows[i].identifier in completed {
      ResumedIsThere(completed, w.chain, r.rows[i]);
    }
    if KeyOf(r.rows[i]) in w.chain {
      reached := PresentRowKeepsWay(start, w, completed, r, m, i, k);
    } else {
      if i < m {
        PassedIsThere(start, w, r, m, i);
      }
      AbsentRowKeepsWay(start, w, completed, r, i, k);
      reached := if k == 0 then i else i + 1;
    }
  }

  lemma TrueStaysTrue(completed: Completed, start: World, w: World, w': World, r: Run, m: nat, m': nat)
    requires CompletedTrue(completed, w.chain) && m <= m' <= |r.rows|
    requires OnTheWay(start, w, r, m) && OnTheWay(start, w', r, m')
    ensures CompletedTrue(completed, w'.chain)
  {
    hide ParseArk, Truthful, Target;
    TargetGrows(start.chain, r, m, m');
    forall id | id in completed ensures ParseArk(id).Ok? && ParseArk(id).value in w'.chain {
      var key := ParseArk(id).value;
      assert key in Target(start.chain, r, m);
    }
  }

  lemma {:induction false} RowsKeepWay(start: World, w: World, completed: Completed, r: Run, m: nat, n: nat)
    returns (reached: nat)
    requires Works(r) && m <= |r.rows| && OnTheWay(start, w, r, m) && CompletedTrue(completed, w.chain) && n <= |r.rows|
    ensures m <= reached <= |r.rows| && n <= reached
    ensures var w' := AfterRows(w, completed, r, n).0;
            OnTheWay(start, w', r, reached) && CompletedTrue(completed, w'.chain)
    decreases n
  {
    hide OnTheWay, CompletedTrue, Decide, PerformAll, Actions;
    if n == 0 {
      reached := m;
    } else {
      var before := RowsKeepWay(start, w, completed, r, m, n - 1);
      var w' := AfterRows(w, completed, r, n - 1).0;
      var actions := Actions(r.rows[n - 1], RowDecision(w', completed, r, n - 1));
      reached := RowKeepsWay(start, w', completed, r, before, n - 1, |actions|);
      assert actions[..|actions|] == actions;
      TrueStaysTrue(completed, start, w', AfterRows(w, completed, r, n).0, r, before, reached);
    }
  }

  // ---------- interrupted runs ----------

  /** Where a run was cut: among the lines of the rejected rows, or after some actions of a row. */
  datatype Cut = InHeader(lines: nat) | InRow(row: nat, actions: nat)

  function Loaded(w: World): Completed {
    match LoadCompleted(w.checkpoint) case Ok(completed) => completed case Err(_) => map[]
  }

  predicate IsCut(w: World, r: Run, cut: Cut) {
    match cut
    case InHeader(k) => k <= |r.invalid|
    case InRow(i, k) =>
      && i < |r.rows|
      && k <= |Actions(r.rows[i], RowDecision(AfterRows(Begun(w, r), Loaded(w), r, i).0, Loaded(w), r, i))|
  }

  /** What the code's run starts from: the checkpoint when it executes, nothing in a dry run. */
  lemma ExecutionIsCompletion(w: World, r: Run)
    ensures !r.execute ==> CompletedAtStart(w, r) == Ok(map[])
    ensures r.execute && LoadCompleted(w.checkpoint).Ok? ==>
              && CompletedAtStart(w, r).Ok?
              && AfterRows(Begun(w, r), CompletedAtStart(w, r).value, r, |r.rows|).0 == Completion(w, r)
  {
    hide LoadCompleted, AfterRows;
  }

  /** What an execution cut there leaves behind. */
  function Interrupted(w: World, r: Run, cut: Cut): World
    requires IsCut(w, r, cut)
  {
    match cut
    case InHeader(k) => w.(checkpoint := w.checkpoint + InvalidLines(r.invalid)[..k])
    case InRow(i, k) =>
      var before := AfterRows(Begun(w, r), Loaded(w), r, i).0;
      PerformAll(before, Actions(r.rows[i], RowDecision(before, Loaded(w), r, i))[..k])
  }

  function Completion(w: World, r: Run): World { AfterRows(Begun(w, r), Loaded(w), r, |r.rows|).0 }

  ghost predicate AreCuts(w: World, r: Run, cuts: seq<Cut>)
    decreases |cuts|
  {
    cuts == [] || (IsCut(w, r, cuts[0]) && AreCuts(Interrupted(w, r, cuts[0]), r, cuts[1..]))
  }

  /** Any number of executions, each stopped somewhere and started again on what it left. */
  ghost function AfterCuts(w: World, r: Run, cuts: seq<Cut>): World
    requires AreCuts(w, r, cuts)
    decreases |cuts|
  {
    if cuts == [] then w else AfterCuts(Interrupted(w, r, cuts[0]), r, cuts[1..])
  }

  lemma BegunKeepsWay(start: World, w: World, r: Run, m: nat)
    requires m <= |r.rows| && OnTheWay(start, w, r, m)
    ensures LoadCompleted(w.checkpoint).Ok? && CompletedTrue(Loaded(w), w.chain)
    ensures OnTheWay(start, Begun(w, r), r, m) && Begun(w, r).chain == w.chain
  {
    LoadedIsTrue(w.checkpoint, w.chain);
    HeaderKeepsWay(start, w, r, m, |r.invalid|);
    assert InvalidLines(r.invalid)[..|r.invalid|] == InvalidLines(r.invalid);
  }

  lemma CutKeepsWay(start: World, w: World, r: Run, m: nat, cut: Cut) returns (reached: nat)
    requires Works(r) && m <= |r.rows| && OnTheWay(start, w, r, m) && IsCut(w, r, cut)
    ensures m <= reached <= |r.rows| && OnTheWay(start, Interrupted(w, r, cut), r, reached)
  {
    hide OnTheWay, CompletedTrue, Decide, PerformAll, Actions, AfterRows;
    BegunKeepsWay(start, w, r, m);
    match cut {
      case InHeader(k) =>
        HeaderKeepsWay(start, w, r, m, k);
        reached := m;
      case InRow(i, k) =>
        var before := RowsKeepWay(start, Begun(w, r), Loaded(w), r, m, i);
        reached := RowKeepsWay(start, AfterRows(Begun(w, r), Loaded(w), r, i).0, Loaded(w), r, before, i, k);
    }
  }

  lemma {:induction false} CutsKeepWay(start: World, w: World, r: Run, m: nat, cuts: seq<Cut>) returns (reached: nat)
    requires Works(r) && m <= |r.rows| && OnTheWay(start, w, r, m) && AreCuts(w, r, cuts)
    ensures reached <= |r.rows| && OnTheWay(start, AfterCuts(w, r, cuts), r, reached)
    decreases |cuts|
  {
    hide OnTheWay, IsCut, Interrupted, Works;
    reached := m;
    if cuts != [] {
      reached := CutKeepsWay(start, w, r, m, cuts[0]);
      reached := CutsKeepWay(start, Interrupted(w, r, cuts[0]), r, reached, cuts[1..]);
    }
  }

  /**
   * Crash-resume equivalence. Execute, stop anywhere (between a creation and its checkpoint line included), execute
   * again, any number of times, and at last to the end: the chain is what one uninterrupted execution leaves, it holds
   * every row, and no ARK was created twice or over an existing one.
   */
  lemma CrashResume(w: World, r: Run, cuts: seq<Cut>)
    requires Works(r) && Truthful(w.checkpoint, w.chain) && AreCuts(w, r, cuts)
    ensures var last := Completion(AfterCuts(w, r, cuts), r);
            && last.chain == Completion(w, r).chain == Target(w.chain, r, |r.rows|)
            && w.creates <= last.creates
            && (forall i :: |w.creates| <= i < |last.creates| ==> last.creates[i] !in w.chain)
            && (forall i, j :: |w.creates| <= i < j < |last.creates| ==> last.creates[i] != last.creates[j])
  {
    hide IsCut, Interrupted, Works, AfterRows, LoadCompleted;
    assert OnTheWay(w, w, r, 0);
    var m := CutsKeepWay(w, w, r, 0, cuts);
    var left := AfterCuts(w, r, cuts);
    BegunKeepsWay(w, left, r, m);
    var n := RowsKeepWay(w, Begun(left, r), Loaded(left), r, m, |r.rows|);
    BegunKeepsWay(w, w, r, 0);
    var whole := RowsKeepWay(w, Begun(w, r), Loaded(w), r, 0, |r.rows|);
  }

  /** What the target holds: the old chain as it was, and each missing ARK with the URL of its row. */
  lemma {:induction false} TargetMeans(chain: Chain, r: Run, n: nat, key: Key)
    requires n <= |r.rows|
    requires forall i, j :: 0 <= i < j < |r.rows| ==> KeyOf(r.rows[i]) != KeyOf(r.rows[j])
    ensures key in Target(chain, r, n) <==> key in chain || exists i :: 0 <= i < n && KeyOf(r.rows[i]) == key
    ensures key in chain ==> Target(chain, r, n)[key] == chain[key]
    ensures forall i :: 0 <= i < n && KeyOf(r.rows[i]) == key && key !in chain ==>
              Target(chain, r, n)[key] == Ark(r.rows[i].url, r.wallet)
  {
    if n > 0 {
      TargetMeans(chain, r, n - 1, key);
    }
  }

  // ---------- interrupted runs in which reads fail and creations raise ----------

  /** A creation, whether it returns or raises, belongs to this wallet if it takes effect. */
  predicate CreatesFor(creation: Creation, wallet: string) {
    match creation
    case Returns(owner) => owner == wallet
    case Raises(effect) => effect.Some? ==> effect.value == wallet
  }

  /** Executed with any reads and creations failing. */
  ghost predicate Tries(r: Run) {
    && r.execute
    && forall i :: 0 <= i < |r.rows| ==> Importable(r.rows[i]) && CreatesFor(r.oracle(i).create, r.wallet)
  }

  ghost predicate DistinctKeys(rows: seq<ImportRow>) {
    forall i, j :: 0 <= i < j < |rows| ==> KeyOf(rows[i]) != KeyOf(rows[j])
  }

  /** The chain is the old one and some of the rows, each with its URL; file and history agree with it. */
  ghost predicate Within(start: World, w: World, r: Run) {
    && (forall k :: k in start.chain ==> k in w.chain && w.chain[k] == start.chain[k])
    && (forall k :: k in w.chain && k !in start.chain ==>
          exists i :: 0 <= i < |r.rows| && KeyOf(r.rows[i]) == k && w.chain[k] == Ark(r.rows[i].url, r.wallet))
    && Truthful(w.checkpoint, w.chain)
    && start.creates <= w.creates
    && (forall i :: |start.creates| <= i < |w.creates| ==> w.creates[i] !in start.chain && w.creates[i] in w.chain)
    && (forall i, j :: |start.creates| <= i < j < |w.creates| ==> w.creates[i] != w.creates[j])
  }

  lemma HeaderKeepsWithin(start: World, w: World, r: Run, k: nat)
    requires Within(start, w, r) && k <= |r.invalid|
    ensures Within(start, w.(checkpoint := w.checkpoint + InvalidLines(r.invalid)[..k]), r)
  {
    hide ParseArk;
    var lines := w.checkpoint + InvalidLines(r.invalid)[..k];
    assert forall i :: 0 <= i < |w.checkpoint| ==> lines[i] == w.checkpoint[i];
    assert forall i :: |w.checkpoint| <= i < |lines| ==> lines[i].status == Invalid;
  }

  lemma AppendKeepsWithin(start: World, w: World, r: Run, line: Line)
    requires Within(start, w, r)
    requires Resumable(line.status) ==> ParseArk(line.identifier).Ok? && ParseArk(line.identifier).value in w.chain
    ensures Within(start, Perform(w, Append(line)), r)
  {
    hide ParseArk;
  }

  lemma PutKeepsWithin(start: World, w: World, r: Run, i: nat)
    requires i < |r.rows| && Within(start, w, r) && KeyOf(r.rows[i]) !in w.chain
    ensures Within(start, Perform(w, Put(KeyOf(r.rows[i]), Ark(r.rows[i].url, r.wallet))), r)
  {
    hide ParseArk;
    var key := KeyOf(r.rows[i]);
    var w' := Perform(w, Put(key, Ark(r.rows[i].url, r.wallet)));
    forall k | k in w'.chain && k !in start.chain
      ensures exists j :: 0 <= j < |r.rows| && KeyOf(r.rows[j]) == k && w'.chain[k] == Ark(r.rows[j].url, r.wallet)
    {
      if k != key {
        assert w'.chain[k] == w.chain[k];
      }
    }
    assert forall j :: 0 <= j < |w.creates| ==> w'.creates[j] == w.creates[j];
  }

  lemma RowKeepsWithin(start: World, w: World, completed: Completed, r: Run, i: nat, k: nat)
    requires Tries(r) && i < |r.rows| && Within(start, w, r)
    requires k <= |Actions(r.rows[i], RowDecision(w, completed, r, i))|
    ensures Within(start, PerformAll(w, Actions(r.rows[i], RowDecision(w, completed, r, i))[..k]), r)
  {
    hide ParseArk, Within, Canonical, WellFormed, Text.Lower;
    var row := r.rows[i];
    var actions := Actions(row, RowDecision(w, completed, r, i));
    assert Importable(row) && CreatesFor(r.oracle(i).create, r.wallet);
    CanonicalParses(row.naan, row.name);
    if k > 0 {
      if actions[0].Append? {
        AppendKeepsWithin(start, w, r, actions[0].line);
        PerformOne(w, actions[0]);
        assert actions[..k] == [actions[0]];
      } else {
        PutKeepsWithin(start, w, r, i);
        PerformOne(w, actions[0]);
        if k == 1 {
          assert actions[..k] == [actions[0]];
        } else {
          AppendKeepsWithin(start, Perform(w, actions[0]), r, actions[1].line);
          PerformTwo(w, actions[0], actions[1]);
          assert actions[..k] == [actions[0], actions[1]];
        }
      }
    }
  }

  lemma {:induction false} RowsKeepWithin(start: World, w: World, completed: Completed, r: Run, n: nat)
    requires Tries(r) && Within(start, w, r) && n <= |r.rows|
    ensures Within(start, AfterRows(w, completed, r, n).0, r)
  {
    hide Within, Decide, PerformAll, Actions;
    if n > 0 {
      RowsKeepWithin(start, w, completed, r, n - 1);
      var w' := AfterRows(w, completed, r, n - 1).0;
      var actions := Actions(r.rows[n - 1], RowDecision(w', completed, r, n - 1));
      RowKeepsWithin(start, w', completed, r, n - 1, |actions|);
      assert actions[..|actions|] == actions;
    }
  }

  lemma CutKeepsWithin(start: World, w: World, r: Run, cut: Cut)
    requires Tries(r) && Within(start, w, r) && IsCut(w, r, cut)
    ensures Within(start, Interrupted(w, r, cut), r)
  {
    hide Within, Decide, PerformAll, Actions, AfterRows, Tries;
    match cut {
      case InHeader(k) => HeaderKeepsWithin(start, w, r, k);
      case InRow(i, k) =>
        HeaderKeepsWithin(start, w, r, |r.invalid|);
        assert InvalidLines(r.invalid)[..|r.invalid|] == InvalidLines(r.invalid);
        RowsKeepWithin(start, Begun(w, r), Loaded(w), r, i);
        RowKeepsWithin(start, AfterRows(Begun(w, r), Loaded(w), r, i).0, Loaded(w), r, i, k);
    }
  }

  /** An execution with its own luck, stopped somewhere (a cut after the last action of the last row is its end). */
  datatype Attempt = Attempt(oracle: nat -> Outcome, cut: Cut)

  ghost predicate AreAttempts(w: World, r: Run, attempts: seq<Attempt>)
    decreases |attempts|
  {
    attempts == []
    || var tried := r.(oracle := attempts[0].oracle);
       && Tries(tried) && IsCut(w, tried, attempts[0].cut)
       && AreAttempts(Interrupted(w, tried, attempts[0].cut), r, attempts[1..])
  }

  ghost function AfterAttempts(w: World, r: Run, attempts: seq<Attempt>): World
    requires AreAttempts(w, r, attempts)
    decreases |attempts|
  {
    if attempts == [] then w
    else AfterAttempts(Interrupted(w, r.(oracle := attempts[0].oracle), attempts[0].cut), r, attempts[1..])
  }

  lemma {:induction false} AttemptsKeepWithin(start: World, w: World, r: Run, attempts: seq<Attempt>)
    requires Within(start, w, r) && AreAttempts(w, r, attempts)
    ensures Within(start, AfterAttempts(w, r, attempts), r)
    decreases |attempts|
  {
    if attempts != [] {
      var tried := r.(oracle := attempts[0].oracle);
      OtherLuck(start, w, r, tried);
      CutKeepsWithin(start, w, tried, attempts[0].cut);
      var left := Interrupted(w, tried, attempts[0].cut);
      OtherLuck(start, left, r, tried);
      hide Within, IsCut, Interrupted, Tries;
      AttemptsKeepWithin(start, left, r, attempts[1..]);
    }
  }

  lemma OtherLuck(start: World, w: World, r: Run, tried: Run)
    requires tried.rows == r.rows && tried.wallet == r.wallet
    ensures Within(start, w, r) <==> Within(start, w, tried)
  {
  }

  /** Whichever of the rows are there already, importing them all leads to the same chain. */
  lemma SameTarget(start: World, w: World, r: Run)
    requires DistinctKeys(r.rows) && Within(start, w, r)
    ensures Target(w.chain, r, |r.rows|) == Target(start.chain, r, |r.rows|)
  {
    var a, b := Target(w.chain, r, |r.rows|), Target(start.chain, r, |r.rows|);
    hide Target, Truthful;
    forall k | k in a || k in b ensures k in a && k in b && a[k] == b[k] {
      TargetMeans(w.chain, r, |r.rows|, k);
      TargetMeans(start.chain, r, |r.rows|, k);
    }
  }

  /**
   * Crash-resume equivalence with failures: in the stopped executions any read may fail and any creation raise, with or
   * without effect. If only the last execution meets a working client, the chain is again what one uninterrupted
   * execution leaves, and no ARK was created twice or over an existing one. The rows name distinct ARKs, as the
   * reader's do.
   */
  lemma CrashResumeDespiteFailures(w: World, r: Run, attempts: seq<Attempt>)
    requires Works(r) && DistinctKeys(r.rows) && Truthful(w.checkpoint, w.chain) && AreAttempts(w, r, attempts)
    ensures var last := Completion(AfterAttempts(w, r, attempts), r);
            && last.chain == Completion(w, r).chain == Target(w.chain, r, |r.rows|)
            && w.creates <= last.creates
            && (forall i :: |w.creates| <= i < |last.creates| ==> last.creates[i] !in w.chain)
            && (forall i, j :: |w.creates| <= i < j < |last.creates| ==> last.creates[i] != last.creates[j])
  {
    assert Within(w, w, r);
    AttemptsKeepWithin(w, w, r, attempts);
    var left := AfterAttempts(w, r, attempts);
    CrashResume(left, r, []);
    CrashResume(w, r, []);
    SameTarget(w, left, r);
    hide Completion, Target, Truthful, Works;
  }
}
