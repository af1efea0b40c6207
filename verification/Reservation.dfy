/**
 * Reserving ARKs: the counter repository, the single and batch endpoints with their retry loops, and what a
 * batch guarantees about its items.
 */
module Reservation {
  import opened Wrappers
  import Noid

  /** Minter settings that shape a name. */
  datatype Policy = Policy(shoulder: string, length: nat, checkdigit: bool)

  /** A row of the ARK table as reservation sees it; rows are kept in order of their id. */
  datatype Record = Record(naan: string, name: string, authority: string, clientItem: Option<string>, tombstoned: bool)

  function NamespaceKey(naan: string, shoulder: string): string { naan + ":" + shoulder }

  /** Shoulders have one fixed length, so the key tells NAAN and shoulder apart. */
  lemma NamespaceKeyInjective(naan: string, shoulder: string, naan': string, shoulder': string)
    requires |shoulder| == |shoulder'| && NamespaceKey(naan, shoulder) == NamespaceKey(naan', shoulder')
    ensures naan == naan' && shoulder == shoulder'
  {
    var key := NamespaceKey(naan, shoulder);
    assert key[..|key| - |shoulder| - 1] == naan && key[..|key| - |shoulder| - 1] == naan';
    assert key[|key| - |shoulder|..] == shoulder && key[|key| - |shoulder|..] == shoulder';
  }

  // ---------- the table ----------

  predicate IsActive(r: Record, authority: string, naan: string, item: Option<string>) {
    item.Some? && !r.tombstoned && r.authority == authority && r.naan == naan && r.clientItem == item
  }

  /** get_active_by_client_item_id: the first active row for the key, by id. */
  function FindActive(rows: seq<Record>, authority: string, naan: string, item: Option<string>): (found: Option<Record>)
    ensures found.Some? ==> found.value in rows && IsActive(found.value, authority, naan, item)
    ensures found.None? ==> forall r :: r in rows ==> !IsActive(r, authority, naan, item)
  {
    if rows == [] then None
    else if IsActive(rows[0], authority, naan, item) then Some(rows[0])
    else FindActive(rows[1..], authority, naan, item)
  }

  predicate NameTaken(rows: seq<Record>, naan: string, name: string) {
    exists i :: 0 <= i < |rows| && rows[i].naan == naan && rows[i].name == name
  }

  /** The two unique constraints of the table. */
  ghost predicate UniqueOk(rows: seq<Record>) {
    && (forall i, j :: 0 <= i < j < |rows| ==> rows[i].naan != rows[j].naan || rows[i].name != rows[j].name)
    && (forall i, j :: 0 <= i < j < |rows| ==>
          !IsActive(rows[i], rows[j].authority, rows[j].naan, rows[j].clientItem) || rows[j].tombstoned)
  }

  predicate Conflicts(rows: seq<Record>, r: Record) {
    NameTaken(rows, r.naan, r.name) || FindActive(rows, r.authority, r.naan, r.clientItem).Some?
  }

  lemma AppendKeepsUnique(rows: seq<Record>, r: Record)
    requires UniqueOk(rows) && !Conflicts(rows, r)
    ensures UniqueOk(rows + [r])
  {
  }

  // ---------- specification of one reservation ----------

  /** The table and the namespace's next counter value. */
  datatype Ledger = Ledger(next: nat, rows: seq<Record>)

  function Candidate(p: Policy, authority: string, naan: string, item: Option<string>, counter: nat): Record {
    Record(naan, Noid.MintName(naan, counter, p.shoulder, p.length, p.checkdigit), authority, item, false)
  }

  datatype Attempted = Attempted(ledger: Ledger, saved: Option<Record>)

  /** At most `tries` attempts; each consumes one counter value, used or not. */
  function Attempts(p: Policy, authority: string, naan: string, item: Option<string>, l: Ledger, tries: nat): Attempted
    decreases tries
  {
    if tries == 0 then Attempted(l, None)
    else
      var r := Candidate(p, authority, naan, item, l.next);
      var advanced := l.(next := l.next + 1);
      if !Conflicts(l.rows, r) then Attempted(advanced.(rows := l.rows + [r]), Some(r))
      else if FindActive(l.rows, authority, naan, item).Some? then
        Attempted(advanced, FindActive(l.rows, authority, naan, item))
      else Attempts(p, authority, naan, item, advanced, tries - 1)
  }

  const MAX_TRIES: nat := 8

  /** What a saved or found row is to the request that asked for it. */
  predicate Answers(r: Record, authority: string, naan: string, item: Option<string>) {
    !r.tombstoned && r.authority == authority && r.naan == naan && r.clientItem == item
  }

  /** What an attempt loop guarantees, whether it saves, finds an existing row or gives up. */
  lemma {:induction false} AttemptsOutcome(p: Policy, authority: string, naan: string, item: Option<string>,
                                           l: Ledger, tries: nat)
    requires UniqueOk(l.rows)
    ensures var a := Attempts(p, authority, naan, item, l, tries);
            && UniqueOk(a.ledger.rows)
            && l.next <= a.ledger.next <= l.next + tries
            && (a.saved.Some? ==> a.saved.value in a.ledger.rows && Answers(a.saved.value, authority, naan, item))
            && (a.ledger.rows == l.rows
                || (l.next < a.ledger.next
                    && a.saved == Some(Candidate(p, authority, naan, item, a.ledger.next - 1))
                    && a.ledger.rows == l.rows + [a.saved.value]
                    && a.saved.value.name
                       == Noid.MintName(naan, a.ledger.next - 1, p.shoulder, p.length, p.checkdigit)))
    decreases tries
  {
    hide UniqueOk;
    hide Noid.MintName;
    if tries > 0 {
      var r := Candidate(p, authority, naan, item, l.next);
      if !Conflicts(l.rows, r) {
        AppendKeepsUnique(l.rows, r);
        assert (l.rows + [r])[|l.rows|] == r;
      } else if FindActive(l.rows, authority, naan, item).None? {
        AttemptsOutcome(p, authority, naan, item, l.(next := l.next + 1), tries - 1);
      }
    }
  }

  /** Giving up means that every one of the tried names was taken. */
  lemma {:induction false} GivingUp(p: Policy, authority: string, naan: string, item: Option<string>, l: Ledger,
                                    tries: nat)
    requires Attempts(p, authority, naan, item, l, tries).saved.None?
    ensures Attempts(p, authority, naan, item, l, tries).ledger == l.(next := l.next + tries)
    ensures forall c :: l.next <= c < l.next + tries ==>
              NameTaken(l.rows, naan, Candidate(p, authority, naan, item, c).name)
    decreases tries
  {
    hide NameTaken;
    hide Noid.MintName;
    if tries > 0 {
      assert NameTaken(l.rows, naan, Candidate(p, authority, naan, item, l.next).name);
      GivingUp(p, authority, naan, item, l.(next := l.next + 1), tries - 1);
    }
  }

  /** An endpoint gives up after eight names, each taken, and has used up eight counter values. */
  lemma EightNamesTaken(p: Policy, authority: string, naan: string, item: Option<string>, l: Ledger)
    requires Attempts(p, authority, naan, item, l, MAX_TRIES).saved.None?
    ensures Attempts(p, authority, naan, item, l, MAX_TRIES).ledger == l.(next := l.next + 8)
    ensures forall c :: l.next <= c < l.next + 8 ==>
              NameTaken(l.rows, naan, Noid.MintName(naan, c, p.shoulder, p.length, p.checkdigit))
  {
    hide NameTaken, Noid.MintName;
    GivingUp(p, authority, naan, item, l, MAX_TRIES);
    forall c | l.next <= c < l.next + 8
      ensures NameTaken(l.rows, naan, Noid.MintName(naan, c, p.shoulder, p.length, p.checkdigit))
    {
      assert NameTaken(l.rows, naan, Candidate(p, authority, naan, item, c).name);
    }
  }

  // ---------- specification of a batch ----------

  datatype BatchError = BatchError(index: nat, clientItem: Option<string>)

  datatype Batch = Batch(ledger: Ledger, active: map<string, Record>, results: seq<Record>, errors: seq<BatchError>)

  /** get_active_by_client_item_ids. */
  function ActiveMap(rows: seq<Record>, authority: string, naan: string,
                     items: seq<Option<string>>): map<string, Record>
  {
    if items == [] then map[]
    else
      var before := ActiveMap(rows, authority, naan, items[..|items| - 1]);
      var item := items[|items| - 1];
      var found := FindActive(rows, authority, naan, item);
      if item.Some? && found.Some? then before[item.value := found.value] else before
  }

  function BatchItem(p: Policy, authority: string, naan: string, b: Batch, item: Option<string>, index: nat): Batch {
    if item.Some? && item.value in b.active then b.(results := b.results + [b.active[item.value]])
    else
      var a := Attempts(p, authority, naan, item, b.ledger, MAX_TRIES);
      if a.saved.Some? then
        b.(ledger := a.ledger, results := b.results + [a.saved.value],
           active := if item.Some? then b.active[item.value := a.saved.value] else b.active)
      else b.(ledger := a.ledger, errors := b.errors + [BatchError(index, item)])
  }

  /** The batch after its first `n` items. */
  function BatchUpTo(p: Policy, authority: string, naan: string, l: Ledger, items: seq<Option<string>>, n: nat): Batch
    requires n <= |items|
  {
    if n == 0 then Batch(l, ActiveMap(l.rows, authority, naan, items), [], [])
    else BatchItem(p, authority, naan, BatchUpTo(p, authority, naan, l, items, n - 1), items[n - 1], n - 1)
  }

  // ---------- the code ----------

  class NoidCounterRepository {
    var nextValue: map<string, nat>

    constructor ()
      ensures nextValue == map[]
    {
      nextValue := map[];
    }

    function Next(key: string): nat
      reads this
    {
      if key in nextValue then nextValue[key] else 0
    }

    /** Creates the row lazily at 0, then takes and increments it. */
    method AllocateNext(key: string) returns (value: nat)
      modifies this
      ensures value == (if key in old(nextValue) then old(nextValue)[key] else 0)
      ensures value == old(Next(key)) && nextValue == old(nextValue)[key := value + 1]
    {
      if key !in nextValue {
        nextValue := nextValue[key := 0];
      }
      value := nextValue[key];
      nextValue := nextValue[key := value + 1];
    }
  }

  datatype ReserveError = AlreadyExistsAfterRetries

  class ReservationApi {
    const counters: NoidCounterRepository
    const policy: Policy
    var rows: seq<Record>

    constructor (counters: NoidCounterRepository, policy: Policy, rows: seq<Record>)
      ensures this.counters == counters && this.policy == policy && this.rows == rows
    {
      this.counters, this.policy, this.rows := counters, policy, rows;
    }

    /** Table and counter as the specification sees them. */
    function View(naan: string): Ledger
      reads this, counters
    {
      Ledger(counters.Next(NamespaceKey(naan, policy.shoulder)), rows)
    }

    /** INSERT in a savepoint: the counter allocated before it survives a violation. */
    method Insert(r: Record) returns (inserted: bool)
      modifies this
      ensures inserted <==> !Conflicts(old(rows), r)
      ensures rows == if inserted then old(rows) + [r] else old(rows)
    {
      if Conflicts(rows, r) { return false; }
      rows := rows + [r];
      return true;
    }

    /** POST /arks: every collision is retried with a new counter value. */
    method ReserveArk(authority: string, naan: string) returns (reserved: Result<Record, ReserveError>)
      modifies this, counters
      ensures var a := Attempts(policy, authority, naan, None, old(View(naan)), MAX_TRIES);
              && View(naan) == a.ledger
              && reserved == if a.saved.Some? then Ok(a.saved.value) else Err(AlreadyExistsAfterRetries)
      ensures forall key :: key != NamespaceKey(naan, policy.shoulder) ==> counters.Next(key) == old(counters.Next(key))
    {
      hide Noid.MintName;
      var key := NamespaceKey(naan, policy.shoulder);
      var attempt := 0;
      while attempt < MAX_TRIES
        invariant 0 <= attempt <= MAX_TRIES
        invariant Attempts(policy, authority, naan, None, old(View(naan)), MAX_TRIES)
                  == Attempts(policy, authority, naan, None, View(naan), MAX_TRIES - attempt)
        invariant forall k :: k != key ==> counters.Next(k) == old(counters.Next(k))
      {
        var counter := counters.AllocateNext(key);
        var r := Candidate(policy, authority, naan, None, counter);
        var inserted := Insert(r);
        if inserted { return Ok(r); }
        attempt := attempt + 1;
      }
      return Err(AlreadyExistsAfterRetries);
    }

    /** One item of a batch that has no active ARK yet. */
    method ReserveItem(authority: string, naan: string, item: Option<string>) returns (saved: Option<Record>)
      modifies this, counters
      ensures Attempts(policy, authority, naan, item, old(View(naan)), MAX_TRIES) == Attempted(View(naan), saved)
      ensures forall k :: k != NamespaceKey(naan, policy.shoulder) ==> counters.Next(k) == old(counters.Next(k))
    {
      hide Noid.MintName;
      var key := NamespaceKey(naan, policy.shoulder);
      var attempt := 0;
      while attempt < MAX_TRIES
        invariant 0 <= attempt <= MAX_TRIES
        invariant Attempts(policy, authority, naan, item, old(View(naan)), MAX_TRIES)
                  == Attempts(policy, authority, naan, item, View(naan), MAX_TRIES - attempt)
        invariant forall k :: k != key ==> counters.Next(k) == old(counters.Next(k))
      {
        var counter := counters.AllocateNext(key);
        var r := Candidate(policy, authority, naan, item, counter);
        var inserted := Insert(r);
        if inserted { return Some(r); }
        var found := FindActive(rows, authority, naan, item);
        if found.Some? { return found; }
        attempt := attempt + 1;
      }
      return None;
    }

    /** POST /arks/batch. */
    method BatchReserveArk(authority: string, naan: string, items: seq<Option<string>>)
      returns (results: seq<Record>, errors: seq<BatchError>)
      modifies this, counters
      ensures var b := BatchUpTo(policy, authority, naan, old(View(naan)), items, |items|);
              View(naan) == b.ledger && results == b.results && errors == b.errors
      ensures forall k :: k != NamespaceKey(naan, policy.shoulder) ==> counters.Next(k) == old(counters.Next(k))
    {
      hide Attempts;
      hide ActiveMap;
      results, errors := [], [];
      var active := ActiveMap(rows, authority, naan, items);
      var index := 0;
      while index < |items|
        invariant 0 <= index <= |items|
        invariant BatchUpTo(policy, authority, naan, old(View(naan)), items, index)
                  == Batch(View(naan), active, results, errors)
        invariant forall k :: k != NamespaceKey(naan, policy.shoulder) ==> counters.Next(k) == old(counters.Next(k))
      {
        var item := items[index];
        if item.Some? && item.value in active {
          results := results + [active[item.value]];
        } else {
          var saved := ReserveItem(authority, naan, item);
          if saved.Some? {
            if item.Some? { active := active[item.value := saved.value]; }
            results := results + [saved.value];
          } else {
            errors := errors + [BatchError(index, item)];
          }
        }
        index := index + 1;
      }
    }
  }

  // ---------- what a batch guarantees ----------

  /** The answer to one item: a record, or nothing after the last attempt. */
  function Answer(p: Policy, authority: string, naan: string, b: Batch, item: Option<string>): Option<Record> {
    if item.Some? && item.value in b.active then Some(b.active[item.value])
    else Attempts(p, authority, naan, item, b.ledger, MAX_TRIES).saved
  }

  /** The answer to each of the first `n` items, in order. */
  function Outcomes(p: Policy, authority: string, naan: string, l: Ledger, items: seq<Option<string>>,
                    n: nat): (o: seq<Option<Record>>)
    requires n <= |items|
    ensures |o| == n
  {
    if n == 0 then []
    else
      Outcomes(p, authority, naan, l, items, n - 1)
      + [Answer(p, authority, naan, BatchUpTo(p, authority, naan, l, items, n - 1), items[n - 1])]
  }

  function Answered(o: seq<Option<Record>>): seq<Record> {
    if o == [] then []
    else Answered(o[..|o| - 1]) + (if o[|o| - 1].Some? then [o[|o| - 1].value] else [])
  }

  function Refused(o: seq<Option<Record>>, items: seq<Option<string>>): seq<BatchError>
    requires |o| <= |items|
  {
    if o == [] then []
    else Refused(o[..|o| - 1], items) + (if o[|o| - 1].None? then [BatchError(|o| - 1, items[|o| - 1])] else [])
  }

  /** Constraints hold, and the active map only points at rows of the table that answer its ids. */
  ghost predicate BatchOk(b: Batch, authority: string, naan: string) {
    && UniqueOk(b.ledger.rows)
    && forall id :: id in b.active ==>
         b.active[id] in b.ledger.rows && Answers(b.active[id], authority, naan, Some(id))
  }

  /** Nothing recorded is lost. */
  ghost predicate Extends(earlier: Batch, later: Batch) {
    && earlier.ledger.rows <= later.ledger.rows && earlier.ledger.next <= later.ledger.next
    && forall id :: id in earlier.active ==> id in later.active && later.active[id] == earlier.active[id]
  }

  lemma ItemEffect(p: Policy, authority: string, naan: string, b: Batch, item: Option<string>, index: nat)
    requires BatchOk(b, authority, naan)
    ensures var a := BatchItem(p, authority, naan, b, item, index);
            var answer := Answer(p, authority, naan, b, item);
            && BatchOk(a, authority, naan) && Extends(b, a)
            && a.results == (if answer.Some? then b.results + [answer.value] else b.results)
            && a.errors == (if answer.None? then b.errors + [BatchError(index, item)] else b.errors)
            && (answer.Some? ==> answer.value in a.ledger.rows && Answers(answer.value, authority, naan, item))
            && (answer.Some? && item.Some? ==> item.value in a.active && a.active[item.value] == answer.value)
            && (item.Some? && item.value in b.active ==> a.ledger == b.ledger && answer == Some(b.active[item.value]))
  {
    hide Attempts;
    hide UniqueOk;
    hide Candidate;
    AttemptsOutcome(p, authority, naan, item, b.ledger, MAX_TRIES);
  }

  lemma {:induction false} ActiveMapMeans(rows: seq<Record>, authority: string, naan: string,
                                          items: seq<Option<string>>)
    ensures var m := ActiveMap(rows, authority, naan, items);
            && (forall id :: id in m ==> Some(m[id]) == FindActive(rows, authority, naan, Some(id)))
            && (forall i :: 0 <= i < |items| && items[i].Some? && FindActive(rows, authority, naan, items[i]).Some? ==>
                  items[i].value in m)
  {
    hide FindActive;
    if items != [] {
      ActiveMapMeans(rows, authority, naan, items[..|items| - 1]);
    }
  }

  lemma BatchStart(l: Ledger, authority: string, naan: string, items: seq<Option<string>>)
    requires UniqueOk(l.rows)
    ensures BatchOk(Batch(l, ActiveMap(l.rows, authority, naan, items), [], []), authority, naan)
  {
    hide UniqueOk;
    ActiveMapMeans(l.rows, authority, naan, items);
  }

  lemma {:induction false} BatchStaysOk(p: Policy, authority: string, naan: string, l: Ledger,
                                        items: seq<Option<string>>, n: nat)
    requires n <= |items| && UniqueOk(l.rows)
    ensures BatchOk(BatchUpTo(p, authority, naan, l, items, n), authority, naan)
  {
    hide BatchItem;
    hide UniqueOk;
    hide BatchOk;
    hide ActiveMap;
    if n == 0 {
      BatchStart(l, authority, naan, items);
    } else {
      BatchStaysOk(p, authority, naan, l, items, n - 1);
      ItemEffect(p, authority, naan, BatchUpTo(p, authority, naan, l, items, n - 1), items[n - 1], n - 1);
    }
  }

  lemma LastItem(p: Policy, authority: string, naan: string, l: Ledger, items: seq<Option<string>>, n: nat)
    requires 0 < n <= |items| && UniqueOk(l.rows)
    ensures var b := BatchUpTo(p, authority, naan, l, items, n - 1);
            && BatchOk(b, authority, naan)
            && BatchUpTo(p, authority, naan, l, items, n) == BatchItem(p, authority, naan, b, items[n - 1], n - 1)
            && Outcomes(p, authority, naan, l, items, n)
               == Outcomes(p, authority, naan, l, items, n - 1) + [Answer(p, authority, naan, b, items[n - 1])]
  {
    hide BatchItem;
    hide UniqueOk;
    hide BatchOk;
    hide Answer;
    BatchStaysOk(p, authority, naan, l, items, n - 1);
  }

  lemma AppendOutcome(o: seq<Option<Record>>, answer: Option<Record>, items: seq<Option<string>>)
    requires |o| < |items|
    ensures Answered(o + [answer]) == (if answer.Some? then Answered(o) + [answer.value] else Answered(o))
    ensures Refused(o + [answer], items)
            == (if answer.None? then Refused(o, items) + [BatchError(|o|, items[|o|])] else Refused(o, items))
  {
    assert (o + [answer])[..|o|] == o;
  }

  ghost predicate Partitioned(b: Batch, o: seq<Option<Record>>, items: seq<Option<string>>)
    requires |o| <= |items|
  {
    b.results == Answered(o) && b.errors == Refused(o, items) && |b.results| + |b.errors| == |o|
  }

  lemma PartitionStep(p: Policy, authority: string, naan: string, b: Batch, o: seq<Option<Record>>,
                      items: seq<Option<string>>)
    requires |o| < |items| && BatchOk(b, authority, naan) && Partitioned(b, o, items)
    ensures Partitioned(BatchItem(p, authority, naan, b, items[|o|], |o|),
                        o + [Answer(p, authority, naan, b, items[|o|])], items)
  {
    hide BatchItem, Answer, BatchOk, Extends, Answers, Answered, Refused;
    ItemEffect(p, authority, naan, b, items[|o|], |o|);
    AppendOutcome(o, Answer(p, authority, naan, b, items[|o|]), items);
  }

  /** Results and errors partition the items in order. */
  lemma {:induction false} BatchPartition(p: Policy, authority: string, naan: string, l: Ledger,
                                          items: seq<Option<string>>, n: nat)
    requires n <= |items| && UniqueOk(l.rows)
    ensures var b := BatchUpTo(p, authority, naan, l, items, n);
            var o := Outcomes(p, authority, naan, l, items, n);
            b.results == Answered(o) && b.errors == Refused(o, items) && |b.results| + |b.errors| == n
  {
    hide BatchItem, Answer, BatchOk, UniqueOk, ActiveMap;
    if n > 0 {
      BatchPartition(p, authority, naan, l, items, n - 1);
      LastItem(p, authority, naan, l, items, n);
      hide BatchUpTo, Outcomes;
      PartitionStep(p, authority, naan, BatchUpTo(p, authority, naan, l, items, n - 1),
                    Outcomes(p, authority, naan, l, items, n - 1), items);
    }
  }

  /**
   * Each result is an untombstoned row of the caller that carries its own item's id, and an id once answered
   * stays in the active map with that answer.
   */
  lemma {:induction false} AnswersStand(p: Policy, authority: string, naan: string, l: Ledger,
                                        items: seq<Option<string>>, n: nat, i: nat)
    requires i < n <= |items| && UniqueOk(l.rows)
    ensures var b := BatchUpTo(p, authority, naan, l, items, n);
            var answer := Outcomes(p, authority, naan, l, items, n)[i];
            answer.Some? ==>
              && answer.value in b.ledger.rows && Answers(answer.value, authority, naan, items[i])
              && (items[i].Some? ==> items[i].value in b.active && b.active[items[i].value] == answer.value)
    decreases n
  {
    hide BatchItem;
    hide BatchUpTo;
    hide Outcomes;
    hide Answer;
    hide BatchOk;
    hide UniqueOk;
    hide Answers;
    hide ActiveMap;
    LastItem(p, authority, naan, l, items, n);
    ItemEffect(p, authority, naan, BatchUpTo(p, authority, naan, l, items, n - 1), items[n - 1], n - 1);
    if i < n - 1 {
      AnswersStand(p, authority, naan, l, items, n - 1, i);
    }
  }

  lemma {:induction false} OutcomesPrefix(p: Policy, authority: string, naan: string, l: Ledger,
                                          items: seq<Option<string>>, m: nat, n: nat)
    requires m <= n <= |items|
    ensures Outcomes(p, authority, naan, l, items, n)[..m] == Outcomes(p, authority, naan, l, items, m)
    decreases n
  {
    hide Answer;
    if m < n {
      OutcomesPrefix(p, authority, naan, l, items, m, n - 1);
      var o := Outcomes(p, authority, naan, l, items, n);
      assert o[..n - 1] == Outcomes(p, authority, naan, l, items, n - 1);
      assert o[..m] == o[..n - 1][..m];
    }
  }

  /** Equal client ids get equal ARKs within a batch, and an id once answered is answered every time. */
  lemma EqualItemsEqualArks(p: Policy, authority: string, naan: string, l: Ledger, items: seq<Option<string>>, i: nat,
                            j: nat)
    requires UniqueOk(l.rows)
    requires i < j < |items| && items[i].Some? && items[i] == items[j]
    ensures var o := Outcomes(p, authority, naan, l, items, |items|);
            o[i].Some? ==> o[j] == o[i]
  {
    hide BatchUpTo;
    hide UniqueOk;
    hide Attempts;
    OutcomesPrefix(p, authority, naan, l, items, j + 1, |items|);
    var o := Outcomes(p, authority, naan, l, items, |items|);
    var before := Outcomes(p, authority, naan, l, items, j);
    assert o[..j + 1][i] == before[i] && o[..j + 1][j] == o[j];
    AnswersStand(p, authority, naan, l, items, j, i);
  }

  lemma ActiveIsFound(rows: seq<Record>, r: Record, authority: string, naan: string, item: Option<string>)
    requires UniqueOk(rows) && r in rows && IsActive(r, authority, naan, item)
    ensures FindActive(rows, authority, naan, item) == Some(r)
  {
    var found := FindActive(rows, authority, naan, item);
    var i :| 0 <= i < |rows| && rows[i] == r;
    var j :| 0 <= j < |rows| && rows[j] == found.value;
  }

  lemma {:induction false} AllAnswered(o: seq<Option<Record>>, items: seq<Option<string>>)
    requires |o| <= |items| && Refused(o, items) == []
    ensures |Answered(o)| == |o|
    ensures forall i :: 0 <= i < |o| ==> o[i] == Some(Answered(o)[i])
  {
    if o != [] {
      AllAnswered(o[..|o| - 1], items);
    }
  }

  /** Every answer of an error-free batch is found again in any later table that still has its row. */
  lemma AnswersFoundAgain(p: Policy, authority: string, naan: string, l: Ledger, items: seq<Option<string>>,
                          later: seq<Record>, i: nat)
    requires UniqueOk(l.rows) && UniqueOk(later) && i < |items| && items[i].Some?
    requires var b := BatchUpTo(p, authority, naan, l, items, |items|);
             b.errors == [] && forall r :: r in b.results ==> r in later
    ensures var results := BatchUpTo(p, authority, naan, l, items, |items|).results;
            |results| == |items| && FindActive(later, authority, naan, items[i]) == Some(results[i])
  {
    hide UniqueOk;
    hide BatchUpTo;
    hide Outcomes;
    hide FindActive;
    BatchPartition(p, authority, naan, l, items, |items|);
    var o := Outcomes(p, authority, naan, l, items, |items|);
    AllAnswered(o, items);
    AnswersStand(p, authority, naan, l, items, |items|, i);
    var r := BatchUpTo(p, authority, naan, l, items, |items|).results[i];
    assert o[i] == Some(r);
    ActiveIsFound(later, r, authority, naan, items[i]);
  }

  /**
   * Idempotency: repeating an error-free batch of identified items, on any later table in which the answered
   * rows are still there, allocates no counter, inserts nothing and gives the same answers.
   */
  lemma {:induction false} RepeatedBatch(p: Policy, authority: string, naan: string, l: Ledger,
                                         items: seq<Option<string>>,
                                         later: Ledger, n: nat)
    requires n <= |items| && UniqueOk(l.rows) && UniqueOk(later.rows)
    requires forall i :: 0 <= i < |items| ==> items[i].Some?
    requires var b := BatchUpTo(p, authority, naan, l, items, |items|);
             b.errors == [] && forall r :: r in b.results ==> r in later.rows
    ensures var first := BatchUpTo(p, authority, naan, l, items, |items|);
            var again := BatchUpTo(p, authority, naan, later, items, n);
            |first.results| == |items|
            && again == Batch(later, ActiveMap(later.rows, authority, naan, items), first.results[..n], [])
    decreases n
  {
    hide UniqueOk;
    hide Attempts;
    hide FindActive;
    hide ActiveMap;
    if n == 0 {
      if |items| > 0 {
        AnswersFoundAgain(p, authority, naan, l, items, later.rows, 0);
      }
    } else {
      RepeatedBatch(p, authority, naan, l, items, later, n - 1);
      RepeatedItem(p, authority, naan, l, items, later, n - 1);
    }
  }

  lemma RepeatedItem(p: Policy, authority: string, naan: string, l: Ledger, items: seq<Option<string>>, later: Ledger,
                     i: nat)
    requires i < |items| && UniqueOk(l.rows) && UniqueOk(later.rows) && items[i].Some?
    requires var b := BatchUpTo(p, authority, naan, l, items, |items|);
             b.errors == [] && forall r :: r in b.results ==> r in later.rows
    ensures var m := ActiveMap(later.rows, authority, naan, items);
            var results := BatchUpTo(p, authority, naan, l, items, |items|).results;
            |results| == |items| && items[i].value in m && m[items[i].value] == results[i]
  {
    hide UniqueOk;
    hide BatchUpTo;
    hide FindActive;
    hide ActiveMap;
    AnswersFoundAgain(p, authority, naan, l, items, later.rows, i);
    ActiveMapMeans(later.rows, authority, naan, items);
  }

  lemma {:induction false} AttemptsAdvance(p: Policy, authority: string, naan: string, item: Option<string>,
                                           l: Ledger, tries: nat)
    ensures Attempts(p, authority, naan, item, l, tries).ledger.next >= l.next
    ensures tries > 0 ==> Attempts(p, authority, naan, item, l, tries).ledger.next > l.next
    decreases tries
  {
    hide Candidate, Conflicts, FindActive;
    if tries > 0 {
      AttemptsAdvance(p, authority, naan, item, l.(next := l.next + 1), tries - 1);
    }
  }

  /** A batch consumes a counter value as soon as one of its items carries no client id. */
  lemma {:induction false} AnonymousItemsAllocate(p: Policy, authority: string, naan: string, l: Ledger,
                                                  items: seq<Option<string>>, n: nat)
    requires n <= |items|
    ensures BatchUpTo(p, authority, naan, l, items, n).ledger.next >= l.next
    ensures (exists i :: 0 <= i < n && items[i].None?) ==>
              BatchUpTo(p, authority, naan, l, items, n).ledger.next > l.next
  {
    hide Attempts, ActiveMap;
    if n > 0 {
      AnonymousItemsAllocate(p, authority, naan, l, items, n - 1);
      AttemptsAdvance(p, authority, naan, items[n - 1], BatchUpTo(p, authority, naan, l, items, n - 1).ledger,
                      MAX_TRIES);
    }
  }

  /** So repeating an error-free batch is free exactly when every item carries a client id. */
  lemma RepeatIsFree(p: Policy, authority: string, naan: string, l: Ledger, items: seq<Option<string>>, later: Ledger)
    requires UniqueOk(l.rows) && UniqueOk(later.rows)
    requires var b := BatchUpTo(p, authority, naan, l, items, |items|);
             b.errors == [] && forall r :: r in b.results ==> r in later.rows
    ensures BatchUpTo(p, authority, naan, later, items, |items|).ledger == later
            <==> forall i :: 0 <= i < |items| ==> items[i].Some?
  {
    hide BatchUpTo, UniqueOk;
    AnonymousItemsAllocate(p, authority, naan, later, items, |items|);
    if forall i :: 0 <= i < |items| ==> items[i].Some? {
      RepeatedBatch(p, authority, naan, l, items, later, |items|);
    }
  }
}
