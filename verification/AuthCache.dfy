/**
 * The authorization cache: positive answers of the registry are kept for `ttl` seconds in an insertion-ordered
 * dictionary of bounded size.
 */
module AuthCache {
  import opened Wrappers
  import Text

  type Key = (string, string)

  datatype Entry = Entry(key: Key, allowed: bool, at: real)

  /** A dictionary in insertion order. */
  type Entries = seq<Entry>

  ghost predicate KeysDistinct(entries: Entries) {
    forall i, j :: 0 <= i < j < |entries| ==> entries[i].key != entries[j].key
  }

  /** Position of `key`, or the length. */
  function Find(entries: Entries, key: Key): (i: nat)
    ensures i <= |entries|
    ensures i < |entries| ==> entries[i].key == key
    ensures forall j :: 0 <= j < i ==> entries[j].key != key
  {
    if entries == [] || entries[0].key == key then 0 else 1 + Find(entries[1..], key)
  }

  // ---------- specification ----------

  datatype Answer = Miss | Hit(allowed: bool)

  function Recall(entries: Entries, key: Key, ttl: real, now: real): Answer {
    var i := Find(entries, key);
    if i < |entries| && now - entries[i].at < ttl then Hit(entries[i].allowed) else Miss
  }

  /** A lookup drops the entry it finds expired. */
  function Looked(entries: Entries, key: Key, ttl: real, now: real): Entries {
    var i := Find(entries, key);
    if i < |entries| && now - entries[i].at >= ttl then entries[..i] + entries[i + 1..] else entries
  }

  /** What a full dictionary keeps: all but its first entry; taking the first of an empty one raises. */
  function Kept(entries: Entries, maxsize: int): Option<Entries> {
    if |entries| < maxsize then Some(entries) else if entries == [] then None else Some(entries[1..])
  }

  /** Assignment keeps the position of a present key and appends an absent one. */
  function Assigned(entries: Entries, entry: Entry): Entries {
    var i := Find(entries, entry.key);
    if i < |entries| then entries[i := entry] else entries + [entry]
  }

  function Stored(entries: Entries, key: Key, allowed: bool, maxsize: int, now: real): Option<Entries> {
    var kept := Kept(entries, maxsize);
    if kept.None? then None else Some(Assigned(kept.value, Entry(key, allowed, now)))
  }

  datatype Source = Said(allowed: bool) | Failed

  datatype CheckError = AuthorizationCheckUnavailable

  datatype Checked = Checked(entries: Entries, result: Result<bool, CheckError>)

  /** One sequential check: a lookup at `now`, and on a miss the source's answer, stored at `later` if positive. */
  function Check(entries: Entries, key: Key, ttl: real, maxsize: int, now: real, source: Source, later: real): Checked {
    var looked := Looked(entries, key, ttl, now);
    match Recall(entries, key, ttl, now)
    case Hit(allowed) => Checked(looked, Ok(allowed))
    case Miss =>
      if source.Failed? then Checked(looked, Err(AuthorizationCheckUnavailable))
      else if !source.allowed then Checked(looked, Ok(false))
      else
        var stored := Stored(looked, key, true, maxsize, later);
        if stored.None? then Checked(looked, Err(AuthorizationCheckUnavailable)) else Checked(stored.value, Ok(true))
  }

  // ---------- the code ----------

  class AuthorizationCache {
    const ttl: real
    const maxsize: int
    var cache: Entries

    constructor (ttl: real, maxsize: int)
      ensures this.ttl == ttl && this.maxsize == maxsize && cache == []
    {
      this.ttl, this.maxsize, cache := ttl, maxsize, [];
    }

    method Get(key: Key, now: real) returns (answer: Answer)
      modifies this
      ensures answer == Recall(old(cache), key, ttl, now) && cache == Looked(old(cache), key, ttl, now)
    {
      var i := Find(cache, key);
      if i < |cache| {
        if now - cache[i].at < ttl { return Hit(cache[i].allowed); }
        cache := cache[..i] + cache[i + 1..];
      }
      return Miss;
    }

    /** `stored` is false when the eviction raised. */
    method Set(key: Key, allowed: bool, now: real) returns (stored: bool)
      modifies this
      ensures var after := Stored(old(cache), key, allowed, maxsize, now);
              stored == after.Some? && cache == if after.Some? then after.value else old(cache)
    {
      if |cache| >= maxsize {
        if cache == [] { return false; }
        cache := cache[1..];
      }
      var i := Find(cache, key);
      if i < |cache| {
        cache := cache[i := Entry(key, allowed, now)];
      } else {
        cache := cache + [Entry(key, allowed, now)];
      }
      return true;
    }

    method CheckAuthorizationCached(authority: string, naan: string, now: real, source: Source, later: real)
      returns (result: Result<bool, CheckError>)
      modifies this
      ensures Check(old(cache), (Text.Strip(authority), Text.Strip(naan)), ttl, maxsize, now, source, later)
              == Checked(cache, result)
    {
      var key := (Text.Strip(authority), Text.Strip(naan));
      var answer := Get(key, now);
      if answer.Hit? { return Ok(answer.allowed); }
      match source {
        case Failed => return Err(AuthorizationCheckUnavailable);
        case Said(allowed) =>
          if allowed {
            var stored := Set(key, true, later);
            if !stored { return Err(AuthorizationCheckUnavailable); }
          }
          return Ok(allowed);
      }
    }
  }

  // ---------- any interleaving of checks ----------

  /**
   * A check in its parts, which interleave with those of other checks: the lookup, the source's answer to the check
   * whose lookup is event `look`, and the store of the answer that is event `ask`.
   */
  datatype Event =
    | Look(key: Key, at: real)
    | Ask(look: nat, at: real, source: Source)
    | Store(ask: nat, at: real)

  /** Event `ask` is the source's yes to a check of `key` whose lookup missed; only such an answer is stored. */
  predicate SaidYes(run: seq<Event>, ask: nat, key: Key, ttl: real, maxsize: int)
    requires ask < |run|
    decreases ask, 1
  {
    && run[ask].Ask? && run[ask].source == Said(true) && run[ask].look < ask
    && var look := run[run[ask].look];
       look.Look? && look.key == key && Recall(After(run, run[ask].look, ttl, maxsize), key, ttl, look.at).Miss?
  }

  /** The key of the check that event `ask` belongs to. */
  function KeyOf(run: seq<Event>, ask: nat): Option<Key> {
    if ask < |run| && run[ask].Ask? && run[ask].look < |run| && run[run[ask].look].Look?
    then Some(run[run[ask].look].key) else None
  }

  /** The dictionary after the first `n` events. */
  function After(run: seq<Event>, n: nat, ttl: real, maxsize: int): Entries
    requires n <= |run|
    decreases n, 0
  {
    if n == 0 then []
    else
      var before := After(run, n - 1, ttl, maxsize);
      match run[n - 1]
      case Look(key, at) => Looked(before, key, ttl, at)
      case Ask(_, _, _) => before
      case Store(ask, at) =>
        var key := KeyOf(run, ask);
        if ask < n - 1 && key.Some? && SaidYes(run, ask, key.value, ttl, maxsize)
        then AfterStore(before, key.value, maxsize, at)
        else before
  }

  function AfterStore(entries: Entries, key: Key, maxsize: int, at: real): Entries {
    var after := Stored(entries, key, true, maxsize, at);
    if after.Some? then after.value else entries
  }

  /** Event `r` stores a yes of the source for `key`. */
  predicate Stores(run: seq<Event>, r: nat, key: Key, ttl: real, maxsize: int)
    requires r < |run|
  {
    run[r].Store? && run[r].ask < r && SaidYes(run, run[r].ask, key, ttl, maxsize)
  }

  /** The last store of `key` among the first `n` events. */
  ghost predicate LastStore(run: seq<Event>, n: nat, key: Key, r: nat, ttl: real, maxsize: int)
    requires n <= |run|
  {
    && r < n && Stores(run, r, key, ttl, maxsize)
    && forall later :: r < later < n ==> !Stores(run, later, key, ttl, maxsize)
  }

  /** An entry is a yes, from the last store of its key, at that store's time. */
  ghost predicate FromLastStore(run: seq<Event>, n: nat, e: Entry, ttl: real, maxsize: int)
    requires n <= |run|
  {
    e.allowed && exists r: nat :: r < n && LastStore(run, n, e.key, r, ttl, maxsize) && run[r].at == e.at
  }

  lemma LookedKeepsSome(entries: Entries, key: Key, ttl: real, now: real)
    requires KeysDistinct(entries)
    ensures var looked := Looked(entries, key, ttl, now);
            && KeysDistinct(looked) && (forall e :: e in looked ==> e in entries)
            && (Recall(entries, key, ttl, now).Miss? ==> Find(looked, key) == |looked|)
  {
    var i := Find(entries, key);
    var looked := Looked(entries, key, ttl, now);
    if i < |entries| && now - entries[i].at >= ttl {
      forall j | 0 <= j < |looked| ensures looked[j] in entries && looked[j].key != key {
        assert looked[j] == if j < i then entries[j] else entries[j + 1];
      }
    }
  }

  lemma AfterStoreKeepsOthers(entries: Entries, key: Key, maxsize: int, at: real)
    requires KeysDistinct(entries)
    ensures var after := AfterStore(entries, key, maxsize, at);
            && KeysDistinct(after)
            && forall e :: e in after ==> e == Entry(key, true, at) || (e in entries && e.key != key)
  {
    if Kept(entries, maxsize).Some? {
      var kept := Kept(entries, maxsize).value;
      assert KeysDistinct(kept) && forall e :: e in kept ==> e in entries;
    }
  }

  lemma StillLast(run: seq<Event>, n: nat, e: Entry, ttl: real, maxsize: int)
    requires 0 < n <= |run| && FromLastStore(run, n - 1, e, ttl, maxsize) && !Stores(run, n - 1, e.key, ttl, maxsize)
    ensures FromLastStore(run, n, e, ttl, maxsize)
  {
    hide Stores;
    var r: nat :| r < n - 1 && LastStore(run, n - 1, e.key, r, ttl, maxsize) && run[r].at == e.at;
    assert LastStore(run, n, e.key, r, ttl, maxsize);
  }

  lemma StoredIsLast(run: seq<Event>, n: nat, key: Key, ttl: real, maxsize: int)
    requires 0 < n <= |run| && Stores(run, n - 1, key, ttl, maxsize)
    ensures FromLastStore(run, n, Entry(key, true, run[n - 1].at), ttl, maxsize)
  {
    assert LastStore(run, n, key, n - 1, ttl, maxsize);
  }

  /** What is there after an event was there before, or is the key the event stores, at the event's time. */
  lemma StepEffect(run: seq<Event>, n: nat, ttl: real, maxsize: int)
    requires 0 < n <= |run| && KeysDistinct(After(run, n - 1, ttl, maxsize))
    ensures KeysDistinct(After(run, n, ttl, maxsize))
    ensures forall e :: e in After(run, n, ttl, maxsize) ==>
              if Stores(run, n - 1, e.key, ttl, maxsize) then e == Entry(e.key, true, run[n - 1].at)
              else e in After(run, n - 1, ttl, maxsize)
  {
    var before := After(run, n - 1, ttl, maxsize);
    hide Looked, AfterStore;
    match run[n - 1] {
      case Look(key, at) => LookedKeepsSome(before, key, ttl, at);
      case Ask(_, _, _) =>
      case Store(ask, at) =>
        if KeyOf(run, ask).Some? {
          AfterStoreKeepsOthers(before, KeyOf(run, ask).value, maxsize, at);
        }
    }
  }

  lemma {:induction false} EntriesFromLastStores(run: seq<Event>, n: nat, ttl: real, maxsize: int)
    requires n <= |run|
    ensures KeysDistinct(After(run, n, ttl, maxsize))
    ensures forall e :: e in After(run, n, ttl, maxsize) ==> FromLastStore(run, n, e, ttl, maxsize)
  {
    if n > 0 {
      EntriesFromLastStores(run, n - 1, ttl, maxsize);
      StepEffect(run, n, ttl, maxsize);
      hide After, FromLastStore, Stores;
      forall e | e in After(run, n, ttl, maxsize) ensures FromLastStore(run, n, e, ttl, maxsize) {
        if Stores(run, n - 1, e.key, ttl, maxsize) {
          StoredIsLast(run, n, e.key, ttl, maxsize);
        } else {
          StillLast(run, n, e, ttl, maxsize);
        }
      }
    }
  }

  /** The time of a present key is that of its last store. */
  lemma PresentKey(run: seq<Event>, n: nat, ttl: real, maxsize: int, key: Key) returns (r: nat)
    requires n <= |run| && Find(After(run, n, ttl, maxsize), key) < |After(run, n, ttl, maxsize)|
    ensures r < n && LastStore(run, n, key, r, ttl, maxsize)
    ensures After(run, n, ttl, maxsize)[Find(After(run, n, ttl, maxsize), key)] == Entry(key, true, run[r].at)
  {
    EntriesFromLastStores(run, n, ttl, maxsize);
    var entries := After(run, n, ttl, maxsize);
    var e := entries[Find(entries, key)];
    assert e in entries;
    hide LastStore, After;
    r :| r < n && LastStore(run, n, key, r, ttl, maxsize) && run[r].at == e.at;
  }

  lemma LastStoreUnique(run: seq<Event>, n: nat, key: Key, r: nat, r': nat, ttl: real, maxsize: int)
    requires n <= |run| && LastStore(run, n, key, r, ttl, maxsize) && LastStore(run, n, key, r', ttl, maxsize)
    ensures r == r'
  {
    hide Stores;
  }

  /**
   * The cache refines the source: whatever the interleaving, a hit is a yes, and it is the yes the source gave to a
   * check of that very key whose own lookup had missed, stored less than `ttl` ago.
   */
  lemma HitsComeFromTheSource(run: seq<Event>, n: nat, ttl: real, maxsize: int, key: Key, now: real)
    requires n <= |run| && Recall(After(run, n, ttl, maxsize), key, ttl, now).Hit?
    ensures Recall(After(run, n, ttl, maxsize), key, ttl, now).allowed
    ensures exists r: nat :: && r < n && LastStore(run, n, key, r, ttl, maxsize) && now - run[r].at < ttl
                             && SaidYes(run, run[r].ask, key, ttl, maxsize)
  {
    var r := PresentKey(run, n, ttl, maxsize, key);
    hide After, SaidYes;
  }

  /** Every hit is answered by a yes that the source gave less than `ttl + slack` ago. */
  ghost predicate AnswersYoung(run: seq<Event>, ttl: real, maxsize: int, slack: real) {
    forall n: nat, key: Key, r: nat, now: real ::
      && n <= |run| && LastStore(run, n, key, r, ttl, maxsize)
      && Recall(After(run, n, ttl, maxsize), key, ttl, now).Hit? ==>
        now - run[run[r].ask].at < ttl + slack
  }

  /** Every yes is stored at most `slack` after the source gave it. */
  ghost predicate StoredWithin(run: seq<Event>, ttl: real, maxsize: int, slack: real) {
    forall r: nat, key: Key :: r < |run| && Stores(run, r, key, ttl, maxsize) ==>
      run[r].at - run[run[r].ask].at <= slack
  }

  /**
   * How old a remembered yes can be: less than `ttl` plus the longest time between an answer and its store. In
   * particular no hit repeats a yes of `ttl` or more ago if and only if no yes is stored later than it was given.
   */
  lemma AnswersYoungExactly(run: seq<Event>, ttl: real, maxsize: int, slack: real)
    ensures AnswersYoung(run, ttl, maxsize, slack) <==> maxsize < 1 || StoredWithin(run, ttl, maxsize, slack)
  {
    if maxsize < 1 {
      forall n: nat, key: Key, now: real | n <= |run| ensures Recall(After(run, n, ttl, maxsize), key, ttl, now).Miss? {
        SizeBounded(run, n, ttl, maxsize);
      }
    } else if StoredWithin(run, ttl, maxsize, slack) {
      PromptAnswersYoung(run, ttl, maxsize, slack);
    } else {
      var r: nat, key: Key :| r < |run| && Stores(run, r, key, ttl, maxsize) && run[r].at - run[run[r].ask].at > slack;
      var now := run[run[r].ask].at + ttl + slack;
      JustStored(run, r, ttl, maxsize, key, now);
      hide After, Recall, LastStore;
      assert LastStore(run, r + 1, key, r, ttl, maxsize) && Recall(After(run, r + 1, ttl, maxsize), key, ttl, now).Hit?;
    }
  }

  lemma PromptAnswersYoung(run: seq<Event>, ttl: real, maxsize: int, slack: real)
    requires StoredWithin(run, ttl, maxsize, slack)
    ensures AnswersYoung(run, ttl, maxsize, slack)
  {
    hide After, SaidYes;
    forall n: nat, key: Key, r: nat, now: real
      | n <= |run| && LastStore(run, n, key, r, ttl, maxsize) && Recall(After(run, n, ttl, maxsize), key, ttl, now).Hit?
      ensures now - run[run[r].ask].at < ttl + slack
    {
      var r' := PresentKey(run, n, ttl, maxsize, key);
      LastStoreUnique(run, n, key, r, r', ttl, maxsize);
    }
  }

  /** Right after its store a key answers for `ttl`. */
  lemma JustStored(run: seq<Event>, r: nat, ttl: real, maxsize: int, key: Key, now: real)
    requires r < |run| && Stores(run, r, key, ttl, maxsize) && maxsize >= 1
    ensures LastStore(run, r + 1, key, r, ttl, maxsize)
    ensures Recall(After(run, r + 1, ttl, maxsize), key, ttl, now).Hit? <==> now - run[r].at < ttl
  {
    var before := After(run, r, ttl, maxsize);
    EntriesFromLastStores(run, r, ttl, maxsize);
    StoreStep(run, r, key, ttl, maxsize);
    StoredIsFound(before, key, maxsize, run[r].at);
  }

  lemma StoredIsFound(entries: Entries, key: Key, maxsize: int, at: real)
    requires KeysDistinct(entries) && maxsize >= 1
    ensures var after := AfterStore(entries, key, maxsize, at);
            Find(after, key) < |after| && after[Find(after, key)] == Entry(key, true, at)
  {
    var kept := Kept(entries, maxsize).value;
    var after := Assigned(kept, Entry(key, true, at));
    AfterStoreKeepsOthers(entries, key, maxsize, at);
    assert after[Find(kept, key)] == Entry(key, true, at);
  }

  /**
   * A slow check: the source says yes at 0, the answer is stored at 50, and with a ttl of 60 it still answers at 100.
   */
  lemma StaleYesIsServed(key: Key, maxsize: int)
    requires maxsize >= 1
    ensures var run := [Look(key, 0.0), Ask(0, 0.0, Said(true)), Store(1, 50.0)];
            && LastStore(run, 3, key, 2, 60.0, maxsize) && run[run[2].ask].at == 0.0
            && Recall(After(run, 3, 60.0, maxsize), key, 60.0, 100.0) == Hit(true)
  {
    var run := [Look(key, 0.0), Ask(0, 0.0, Said(true)), Store(1, 50.0)];
    assert After(run, 0, 60.0, maxsize) == [];
    assert SaidYes(run, 1, key, 60.0, maxsize);
    JustStored(run, 2, 60.0, maxsize, key, 100.0);
    HitsComeFromTheSource(run, 3, 60.0, maxsize, key, 100.0);
  }

  lemma {:induction false} AfterPrefix(run: seq<Event>, more: seq<Event>, n: nat, ttl: real, maxsize: int)
    requires n <= |run|
    ensures After(run + more, n, ttl, maxsize) == After(run, n, ttl, maxsize)
    decreases n
  {
    if n > 0 {
      AfterPrefix(run, more, n - 1, ttl, maxsize);
      var event := run[n - 1];
      assert (run + more)[n - 1] == event;
      if event.Store? && event.ask < n - 1 {
        SaidYesPrefix(run, more, event.ask, ttl, maxsize);
      }
    }
  }

  lemma {:induction false} SaidYesPrefix(run: seq<Event>, more: seq<Event>, ask: nat, ttl: real, maxsize: int)
    requires ask < |run|
    ensures forall key :: SaidYes(run + more, ask, key, ttl, maxsize) <==> SaidYes(run, ask, key, ttl, maxsize)
    ensures run[ask].Ask? && run[ask].look < ask ==> KeyOf(run + more, ask) == KeyOf(run, ask)
    decreases ask
  {
    assert (run + more)[ask] == run[ask];
    if run[ask].Ask? && run[ask].look < ask {
      assert (run + more)[run[ask].look] == run[run[ask].look];
      AfterPrefix(run, more, run[ask].look, ttl, maxsize);
    }
  }

  /** A check that nothing interrupts is its lookup, its answer and its store, one after the other. */
  lemma CheckIsItsEvents(run: seq<Event>, ttl: real, maxsize: int, key: Key, now: real, source: Source, asked: real,
                         later: real)
    ensures var whole := run + [Look(key, now), Ask(|run|, asked, source), Store(|run| + 1, later)];
            After(whole, |whole|, ttl, maxsize)
            == Check(After(run, |run|, ttl, maxsize), key, ttl, maxsize, now, source, later).entries
  {
    var n := |run|;
    var whole := run + [Look(key, now), Ask(n, asked, source), Store(n + 1, later)];
    assert whole[n] == Look(key, now) && whole[n + 1] == Ask(n, asked, source) && whole[n + 2] == Store(n + 1, later);
    AfterPrefix(run, whole[n..], n, ttl, maxsize);
    assert run + whole[n..] == whole;
    hide Looked, Recall;
    assert After(whole, n + 1, ttl, maxsize) == Looked(After(run, n, ttl, maxsize), key, ttl, now);
    assert After(whole, n + 2, ttl, maxsize) == After(whole, n + 1, ttl, maxsize);
    assert KeyOf(whole, n + 1) == Some(key);
  }

  /** A no is never remembered: it is what the source says now. */
  lemma NoComesFromTheSourceNow(run: seq<Event>, n: nat, ttl: real, maxsize: int, key: Key, now: real, source: Source,
                                later: real)
    requires n <= |run|
    requires Check(After(run, n, ttl, maxsize), key, ttl, maxsize, now, source, later).result == Ok(false)
    ensures source == Said(false)
  {
    hide After;
    if Recall(After(run, n, ttl, maxsize), key, ttl, now).Hit? {
      HitsComeFromTheSource(run, n, ttl, maxsize, key, now);
    }
  }

  /** The dictionary never outgrows its bound; with a bound below one it stays empty. */
  lemma {:induction false} SizeBounded(run: seq<Event>, n: nat, ttl: real, maxsize: int)
    requires n <= |run|
    ensures |After(run, n, ttl, maxsize)| <= if maxsize < 0 then 0 else maxsize
  {
    if n > 0 {
      SizeBounded(run, n - 1, ttl, maxsize);
    }
  }

  /** A yes of the source turns into "unavailable" exactly when the bound is below one. */
  lemma UnavailableDespiteYes(run: seq<Event>, n: nat, ttl: real, maxsize: int, key: Key, now: real, later: real)
    requires n <= |run|
    ensures Check(After(run, n, ttl, maxsize), key, ttl, maxsize, now, Said(true), later).result.Err? <==> maxsize < 1
  {
    SizeBounded(run, n, ttl, maxsize);
    var entries := After(run, n, ttl, maxsize);
    hide After;
    if maxsize < 1 {
      assert entries == [];
    }
  }

  /** A remembered answer for the key that is younger than `ttl`. */
  ghost predicate Remembered(entries: Entries, key: Key, ttl: real, now: real, allowed: bool) {
    exists e :: e in entries && e.key == key && e.allowed == allowed && now < e.at + ttl
  }

  /**
   * What a check answers: what is remembered, else what the source says. A failing source never becomes a no, a no is
   * never remembered, and a yes is from then on.
   */
  lemma CheckMeans(entries: Entries, key: Key, ttl: real, maxsize: int, now: real, source: Source, later: real)
    requires KeysDistinct(entries) && maxsize >= 1
    ensures var checked := Check(entries, key, ttl, maxsize, now, source, later);
            && (checked.result == Ok(true)
                <==> || Remembered(entries, key, ttl, now, true)
                     || (!Remembered(entries, key, ttl, now, false) && source == Said(true)))
            && (checked.result == Ok(false)
                <==> || Remembered(entries, key, ttl, now, false)
                     || (!Remembered(entries, key, ttl, now, true) && source == Said(false)))
            && (checked.result == Err(AuthorizationCheckUnavailable)
                <==> (forall allowed :: !Remembered(entries, key, ttl, now, allowed)) && source == Failed)
            && (forall e :: e in checked.entries ==> e in entries || e == Entry(key, true, later))
            && (source == Said(true) && (forall allowed :: !Remembered(entries, key, ttl, now, allowed)) ==>
                  Entry(key, true, later) in checked.entries)
  {
    RecallMeans(entries, key, ttl, now);
    LookedKeepsSome(entries, key, ttl, now);
    var looked := Looked(entries, key, ttl, now);
    AfterStoreKeepsOthers(looked, key, maxsize, later);
    StoredIsFound(looked, key, maxsize, later);
    StoreGoesThrough(looked, key, maxsize, later);
    hide Recall, Looked, Remembered, Stored, KeysDistinct;
  }

  lemma RecallMeans(entries: Entries, key: Key, ttl: real, now: real)
    requires KeysDistinct(entries)
    ensures forall allowed ::
              Recall(entries, key, ttl, now) == Hit(allowed) <==> Remembered(entries, key, ttl, now, allowed)
  {
    var i := Find(entries, key);
    forall allowed | Remembered(entries, key, ttl, now, allowed)
      ensures Recall(entries, key, ttl, now) == Hit(allowed)
    {
      var e :| e in entries && e.key == key && e.allowed == allowed && now < e.at + ttl;
      var j :| 0 <= j < |entries| && entries[j] == e;
      assert i == j;
    }
    if i < |entries| && now - entries[i].at < ttl {
      assert entries[i] in entries;
    }
  }

  lemma StoreGoesThrough(entries: Entries, key: Key, maxsize: int, at: real)
    requires maxsize >= 1
    ensures Stored(entries, key, true, maxsize, at) == Some(AfterStore(entries, key, maxsize, at))
  {
  }

  // ---------- age order ----------

  ghost predicate InAgeOrder(entries: Entries) {
    forall i, j :: 0 <= i < j < |entries| ==> entries[i].at <= entries[j].at
  }

  /** When a store at the current time keeps the dictionary in age order: nothing older comes after the key's place. */
  lemma StoreKeepsAgeOrder(entries: Entries, key: Key, maxsize: int, now: real)
    requires InAgeOrder(entries) && Stored(entries, key, true, maxsize, now).Some?
    requires forall i :: 0 <= i < |entries| ==> entries[i].at <= now
    ensures var kept := Kept(entries, maxsize).value;
            InAgeOrder(Stored(entries, key, true, maxsize, now).value)
            <==> forall i :: Find(kept, key) < i < |kept| ==> kept[i].at == now
  {
    var kept := Kept(entries, maxsize).value;
    var p := Find(kept, key);
    var after := Stored(entries, key, true, maxsize, now).value;
    if InAgeOrder(after) {
      forall i | p < i < |kept| ensures kept[i].at == now {
        assert after[p].at == now && after[i] == kept[i];
      }
    }
  }

  datatype Call = Call(key: Key, now: real, source: Source, later: real)

  /** Checks made one after the other on a clock that never goes back. */
  ghost predicate Sequential(calls: seq<Call>) {
    && (forall i :: 0 <= i < |calls| ==> calls[i].now <= calls[i].later)
    && forall i, j :: 0 <= i < j < |calls| ==> calls[i].later <= calls[j].now
  }

  function AfterCalls(calls: seq<Call>, ttl: real, maxsize: int): Entries {
    if calls == [] then []
    else
      var last := calls[|calls| - 1];
      Check(AfterCalls(calls[..|calls| - 1], ttl, maxsize), last.key, ttl, maxsize, last.now, last.source,
            last.later).entries
  }

  /** One check keeps age order: after its own lookup missed, the key is absent and goes to the end. */
  lemma CheckKeepsAgeOrder(entries: Entries, c: Call, ttl: real, maxsize: int)
    requires KeysDistinct(entries) && InAgeOrder(entries) && c.now <= c.later
    requires forall i :: 0 <= i < |entries| ==> entries[i].at <= c.now
    ensures var after := Check(entries, c.key, ttl, maxsize, c.now, c.source, c.later).entries;
            && KeysDistinct(after) && InAgeOrder(after)
            && forall i :: 0 <= i < |after| ==> after[i].at <= c.later
  {
    var looked := Looked(entries, c.key, ttl, c.now);
    LookedKeepsSome(entries, c.key, ttl, c.now);
    LookedKeepsAgeOrder(entries, c.key, ttl, c.now);
    hide Looked, Stored;
    if Stored(looked, c.key, true, maxsize, c.later).Some? && Recall(entries, c.key, ttl, c.now).Miss? {
      AbsentAppended(looked, c.key, maxsize, c.later);
    }
  }

  lemma LookedKeepsAgeOrder(entries: Entries, key: Key, ttl: real, now: real)
    requires InAgeOrder(entries)
    ensures InAgeOrder(Looked(entries, key, ttl, now))
  {
  }

  lemma AbsentAppended(entries: Entries, key: Key, maxsize: int, now: real)
    requires Find(entries, key) == |entries| && Stored(entries, key, true, maxsize, now).Some?
    requires KeysDistinct(entries) && InAgeOrder(entries) && forall e :: e in entries ==> e.at <= now
    ensures var after := Stored(entries, key, true, maxsize, now).value;
            && after == Kept(entries, maxsize).value + [Entry(key, true, now)]
            && KeysDistinct(after) && InAgeOrder(after) && forall e :: e in after ==> e.at <= now
  {
    var kept := Kept(entries, maxsize).value;
    KeptKeeps(entries, maxsize);
    FindAbsent(kept, key);
    hide KeysDistinct, InAgeOrder, Kept, Find;
    AppendedKeeps(kept, Entry(key, true, now));
  }

  lemma KeptKeeps(entries: Entries, maxsize: int)
    requires KeysDistinct(entries) && InAgeOrder(entries) && Kept(entries, maxsize).Some?
    ensures var kept := Kept(entries, maxsize).value;
            KeysDistinct(kept) && InAgeOrder(kept) && forall e :: e in kept ==> e in entries
  {
  }

  lemma AppendedKeeps(entries: Entries, e: Entry)
    requires KeysDistinct(entries) && InAgeOrder(entries)
    requires forall other :: other in entries ==> other.key != e.key && other.at <= e.at
    ensures KeysDistinct(entries + [e]) && InAgeOrder(entries + [e])
  {
  }

  /** In sequential use insertion order is age order, so evicting the first entry evicts the oldest. */
  lemma {:induction false} SequentialUseEvictsTheOldest(calls: seq<Call>, ttl: real, maxsize: int)
    requires Sequential(calls)
    ensures var entries := AfterCalls(calls, ttl, maxsize);
            && KeysDistinct(entries) && InAgeOrder(entries)
            && (calls != [] ==> forall i :: 0 <= i < |entries| ==> entries[i].at <= calls[|calls| - 1].later)
            && forall i :: 0 <= i < |entries| ==> entries[0].at <= entries[i].at
  {
    if calls != [] {
      var before := calls[..|calls| - 1];
      SequentialUseEvictsTheOldest(before, ttl, maxsize);
      CheckKeepsAgeOrder(AfterCalls(before, ttl, maxsize), calls[|calls| - 1], ttl, maxsize);
    }
  }

  /**
   * Two concurrent checks of `a` miss and store it twice; the renewed entry keeps its old place and is evicted before
   * an older one. All five checks look before anything is stored.
   */
  lemma ConcurrentStoreEvictsTheNewer(a: Key, b: Key, c: Key, d: Key)
    requires a != b && a != c && b != c && d != a && d != b && d != c
    ensures var run := FiveChecks(a, b, c, d);
            && After(run, 14, 60.0, 3) == [Entry(a, true, 2.0), Entry(b, true, 1.0), Entry(c, true, 3.0)]
            && After(run, 15, 60.0, 3) == [Entry(b, true, 1.0), Entry(c, true, 3.0), Entry(d, true, 4.0)]
  {
    var run := FiveChecks(a, b, c, d);
    FiveEarly(a, b, c, d);
    NothingStoredYet(run, 10, 60.0, 3);
    hide After, AfterStore, Early, FiveChecks;
    EarlyStep(run, 10, a, 0.0, 60.0, 3);
    EarlyStep(run, 11, b, 1.0, 60.0, 3);
    EarlyStep(run, 12, a, 2.0, 60.0, 3);
    EarlyStep(run, 13, c, 3.0, 60.0, 3);
    EarlyStep(run, 14, d, 4.0, 60.0, 3);
    FiveStores(a, b, c, d);
  }

  lemma StoreStep(run: seq<Event>, r: nat, key: Key, ttl: real, maxsize: int)
    requires r < |run| && Stores(run, r, key, ttl, maxsize)
    ensures After(run, r + 1, ttl, maxsize) == AfterStore(After(run, r, ttl, maxsize), key, maxsize, run[r].at)
  {
    hide AfterStore;
    assert KeyOf(run, run[r].ask) == Some(key);
  }

  /** Event `r` stores the yes to a check that looked before anything was stored. */
  predicate Early(run: seq<Event>, r: nat, key: Key, at: real) {
    && r < |run| && run[r].Store? && run[r].at == at && run[r].ask < r
    && var ask := run[run[r].ask];
       && ask.Ask? && ask.source == Said(true) && ask.look < run[r].ask
       && run[ask.look].Look? && run[ask.look].key == key && forall i :: 0 <= i < ask.look ==> !run[i].Store?
  }

  lemma FiveEarly(a: Key, b: Key, c: Key, d: Key)
    ensures var run := FiveChecks(a, b, c, d);
            && |run| == 15 && (forall i :: 0 <= i < 10 ==> !run[i].Store?) && Early(run, 10, a, 0.0)
            && Early(run, 11, b, 1.0) && Early(run, 12, a, 2.0) && Early(run, 13, c, 3.0) && Early(run, 14, d, 4.0)
  {
  }

  lemma EarlyStep(run: seq<Event>, r: nat, key: Key, at: real, ttl: real, maxsize: int)
    requires Early(run, r, key, at)
    ensures r < |run|
    ensures After(run, r + 1, ttl, maxsize) == AfterStore(After(run, r, ttl, maxsize), key, maxsize, at)
  {
    hide AfterStore;
    NothingStoredYet(run, run[run[r].ask].look, ttl, maxsize);
    StoreStep(run, r, key, ttl, maxsize);
  }

  lemma FiveStores(a: Key, b: Key, c: Key, d: Key)
    requires a != b && a != c && b != c && d != a && d != b && d != c
    ensures AfterStore([], a, 3, 0.0) == [Entry(a, true, 0.0)]
    ensures AfterStore([Entry(a, true, 0.0)], b, 3, 1.0) == [Entry(a, true, 0.0), Entry(b, true, 1.0)]
    ensures AfterStore([Entry(a, true, 0.0), Entry(b, true, 1.0)], a, 3, 2.0)
            == [Entry(a, true, 2.0), Entry(b, true, 1.0)]
    ensures AfterStore([Entry(a, true, 2.0), Entry(b, true, 1.0)], c, 3, 3.0)
            == [Entry(a, true, 2.0), Entry(b, true, 1.0), Entry(c, true, 3.0)]
    ensures AfterStore([Entry(a, true, 2.0), Entry(b, true, 1.0), Entry(c, true, 3.0)], d, 3, 4.0)
            == [Entry(b, true, 1.0), Entry(c, true, 3.0), Entry(d, true, 4.0)]
  {
    var two := [Entry(a, true, 2.0), Entry(b, true, 1.0)];
    var three := two + [Entry(c, true, 3.0)];
    FindAbsent([Entry(a, true, 0.0)], b);
    FindAbsent(two, c);
    FindAbsent(three[1..], d);
    assert three[1..] + [Entry(d, true, 4.0)] == [Entry(b, true, 1.0), Entry(c, true, 3.0), Entry(d, true, 4.0)];
  }

  lemma FindAbsent(entries: Entries, key: Key)
    requires forall e :: e in entries ==> e.key != key
    ensures Find(entries, key) == |entries|
  {
  }

  function FiveChecks(a: Key, b: Key, c: Key, d: Key): seq<Event> {
    [Look(a, 0.0), Look(a, 0.0), Look(b, 0.0), Look(c, 0.0), Look(d, 0.0),
     Ask(0, 0.0, Said(true)), Ask(1, 0.0, Said(true)), Ask(2, 0.0, Said(true)), Ask(3, 0.0, Said(true)),
     Ask(4, 0.0, Said(true)),
     Store(5, 0.0), Store(7, 1.0), Store(6, 2.0), Store(8, 3.0), Store(9, 4.0)]
  }

  lemma {:induction false} NothingStoredYet(run: seq<Event>, n: nat, ttl: real, maxsize: int)
    requires n <= |run| && forall i :: 0 <= i < n ==> !run[i].Store?
    ensures After(run, n, ttl, maxsize) == []
  {
    if n > 0 {
      NothingStoredYet(run, n - 1, ttl, maxsize);
    }
  }
}
