/**
 * Admission of signed requests: the timestamp window, the nonce table with its cleanup, and the sliding key cache.
 *
 * `wall` times are seconds of the UTC clock, `mono` times of the process's monotonic clock.
 */
module NonceAdmission {
  import opened Wrappers

  type Key = (string, string)

  /** Unexpired and expired nonces, each with its expiry. */
  type Table = map<Key, real>

  // ---------- one claim ----------

  const CLEANUP_INTERVAL: real := 60.0

  function Purged(table: Table, wall: real): Table {
    map k | k in table && !(table[k] < wall) :: table[k]
  }

  datatype ClaimResult = ClaimResult(table: Table, admitted: bool)

  /** One transaction: optional cleanup, then INSERT; a duplicate key rolls both back. */
  function Claim(table: Table, key: Key, expiresAt: real, cleanup: bool, wall: real): ClaimResult {
    var kept := if cleanup then Purged(table, wall) else table;
    if key in kept then ClaimResult(table, false) else ClaimResult(kept[key := expiresAt], true)
  }

  // ---------- whole runs ----------

  /** A request that reached the nonce claim; each process decides on its own whether a claim also cleans up. */
  datatype Request = Request(key: Key, timestamp: int, checkedAt: real, claimedAt: real, cleanup: bool)

  predicate Fresh(timestamp: int, skew: nat, wall: real) {
    timestamp as real - skew as real <= wall <= timestamp as real + skew as real
  }

  function Expiry(timestamp: int, skew: nat): real { (timestamp + skew) as real }

  /** Every request passed its freshness check before its claim, and claims happen in wall-clock order. */
  ghost predicate Timely(run: seq<Request>, skew: nat) {
    && (forall i :: 0 <= i < |run| ==>
          Fresh(run[i].timestamp, skew, run[i].checkedAt) && run[i].checkedAt <= run[i].claimedAt)
    && (forall i, j :: 0 <= i < j < |run| ==> run[i].claimedAt <= run[j].claimedAt)
  }

  function TableAfter(run: seq<Request>, skew: nat): Table {
    if run == [] then map[]
    else
      var last := run[|run| - 1];
      Claim(TableAfter(run[..|run| - 1], skew), last.key, Expiry(last.timestamp, skew), last.cleanup,
            last.claimedAt).table
  }

  predicate Admitted(run: seq<Request>, skew: nat, i: nat)
    requires i < |run|
  {
    Claim(TableAfter(run[..i], skew), run[i].key, Expiry(run[i].timestamp, skew), run[i].cleanup,
          run[i].claimedAt).admitted
  }

  /** A nonce leaves the table only in a cleanup after its timestamp has left the window. */
  lemma {:induction false} RemovedOnlyWhenExpired(run: seq<Request>, skew: nat, i: nat)
    requires Timely(run, skew) && i < |run| && Admitted(run, skew, i)
    ensures var key := run[i].key;
            var table := TableAfter(run, skew);
            || (key in table && table[key] >= Expiry(run[i].timestamp, skew))
            || Expiry(run[i].timestamp, skew) < run[|run| - 1].claimedAt
    decreases |run|
  {
    var before := run[..|run| - 1];
    if i == |run| - 1 {
      assert run[..i] == before;
    } else {
      assert before[..i] == run[..i] && before[i] == run[i];
      RemovedOnlyWhenExpired(before, skew, i);
    }
  }

  /**
   * A nonce that was admitted is admitted again only by a claim made after the earlier request's timestamp has left
   * the window, under any cleanup schedule of any number of processes.
   */
  lemma ReadmittedOnlyAfterTheWindow(run: seq<Request>, skew: nat, i: nat, j: nat)
    requires Timely(run, skew) && i < j < |run| && run[i].key == run[j].key
    requires Admitted(run, skew, i) && Admitted(run, skew, j)
    ensures run[j].claimedAt > Expiry(run[i].timestamp, skew)
  {
    var before := run[..j];
    assert before[..i] == run[..i] && before[i] == run[i];
    RemovedOnlyWhenExpired(before, skew, i);
  }

  /**
   * At most once: when the freshness check and the claim are taken at one instant, no (authority, nonce, timestamp)
   * is admitted twice; a reused nonce needs a strictly newer timestamp.
   */
  lemma AdmittedAtMostOnce(run: seq<Request>, skew: nat, i: nat, j: nat)
    requires Timely(run, skew) && i < j < |run| && run[i].key == run[j].key
    requires run[j].checkedAt == run[j].claimedAt
    requires Admitted(run, skew, i) && Admitted(run, skew, j)
    ensures run[i].timestamp < run[j].timestamp
  {
    ReadmittedOnlyAfterTheWindow(run, skew, i, j);
  }

  /**
   * The exact boundary. The code checks freshness when the headers arrive and claims the nonce later. A request
   * repeated with the same timestamp can be admitted a second time if and only if its claim comes after the window.
   */
  lemma ReplayBoundary(key: Key, timestamp: int, skew: nat, first: real, second: real)
    requires Fresh(timestamp, skew, first) && first <= second
    ensures (exists run :: Timely(run, skew) && IsReplay(run, skew, key, timestamp, first, second))
            <==> second > Expiry(timestamp, skew)
  {
    if second > Expiry(timestamp, skew) {
      var run := [Request(key, timestamp, first, first, false), Request(key, timestamp, first, second, true)];
      assert run[..0] == [] && run[..1] == [run[0]] && run[..1][..0] == [];
      assert TableAfter(run[..1], skew) == map[key := Expiry(timestamp, skew)];
      assert Timely(run, skew) && Admitted(run, skew, 0) && Admitted(run, skew, 1);
      assert IsReplay(run, skew, key, timestamp, first, second);
    }
    forall run | Timely(run, skew) && IsReplay(run, skew, key, timestamp, first, second)
      ensures second > Expiry(timestamp, skew)
    {
      var j := |run| - 1;
      ReadmittedOnlyAfterTheWindow(run, skew, 0, j);
    }
  }

  /** The run's first and last requests are the same signed request, claimed at `first` and `second`, both admitted. */
  ghost predicate IsReplay(run: seq<Request>, skew: nat, key: Key, timestamp: int, first: real, second: real) {
    && |run| >= 2
    && (var a, b := run[0], run[|run| - 1];
        && a.key == b.key == key && a.timestamp == b.timestamp == timestamp
        && a.claimedAt == first && b.claimedAt == second)
    && Admitted(run, skew, 0) && Admitted(run, skew, |run| - 1)
  }

  /** Every stored nonce expires within twice the skew of the instant it was admitted. */
  lemma {:induction false} RowsExpireSoon(run: seq<Request>, skew: nat, key: Key)
    requires Timely(run, skew) && key in TableAfter(run, skew)
    ensures exists i :: 0 <= i < |run| && run[i].key == key && Admitted(run, skew, i)
              && TableAfter(run, skew)[key] == Expiry(run[i].timestamp, skew) <= run[i].claimedAt + 2.0 * skew as real
    decreases |run|
  {
    var before, last := run[..|run| - 1], run[|run| - 1];
    if last.key == key && Admitted(run, skew, |run| - 1) {
      assert run[|run| - 1].key == key;
    } else {
      RowsExpireSoon(before, skew, key);
      var i :| 0 <= i < |before| && before[i].key == key && Admitted(before, skew, i)
               && TableAfter(before, skew)[key] == Expiry(before[i].timestamp, skew)
               && Expiry(before[i].timestamp, skew) <= before[i].claimedAt + 2.0 * skew as real;
      assert before[..i] == run[..i] && before[i] == run[i];
      assert Admitted(run, skew, i);
    }
  }

  /**
   * Right after an admission that cleaned up, the table is exactly the new nonce and those admitted earlier whose
   * timestamps are still in the window: the cleanup forgets nothing it must keep and keeps nothing it may forget.
   */
  lemma CleanupIsExact(run: seq<Request>, skew: nat, key: Key)
    requires Timely(run, skew) && run != [] && run[|run| - 1].cleanup && Admitted(run, skew, |run| - 1)
    ensures var last := run[|run| - 1];
            key in TableAfter(run, skew)
            <==> || key == last.key
                 || exists i :: 0 <= i < |run| - 1 && run[i].key == key && Admitted(run, skew, i)
                                && Expiry(run[i].timestamp, skew) >= last.claimedAt
  {
    var before, last := run[..|run| - 1], run[|run| - 1];
    if key != last.key {
      if key in TableAfter(run, skew) {
        RowsExpireSoon(before, skew, key);
        var i :| 0 <= i < |before| && before[i].key == key && Admitted(before, skew, i)
                 && TableAfter(before, skew)[key] == Expiry(before[i].timestamp, skew);
        assert before[..i] == run[..i] && before[i] == run[i];
        assert Admitted(run, skew, i);
      }
      if i :| && 0 <= i < |run| - 1 && run[i].key == key && Admitted(run, skew, i)
              && Expiry(run[i].timestamp, skew) >= last.claimedAt
      {
        assert before[..i] == run[..i] && before[i] == run[i];
        RemovedOnlyWhenExpired(before, skew, i);
      }
    }
  }

  // ---------- the key cache, over any interleaving of requests ----------

  datatype Registered = NotFound | Unavailable | Registered(key: string, active: bool)

  datatype CachedKey = CachedKey(key: string, active: bool, usedAt: real)

  type KeyCache = map<string, CachedKey>

  /** A cached key answers while it was used less than `ttl` ago and has the fingerprint the request names. */
  predicate Hit(cache: KeyCache, authority: string, fingerprint: string, mono: real, ttl: real, keyId: string -> string)
  {
    authority in cache && mono - cache[authority].usedAt < ttl && keyId(cache[authority].key) == fingerprint
  }

  /**
   * The two critical sections: a lookup, and the renewal of the key that an earlier lookup found, which may evict
   * another entry. What the registry answers is used on a miss only.
   */
  datatype KeyEvent =
    | Look(authority: string, fingerprint: string, at: real, registry: Registered)
    | Renewal(lookup: nat, at: real, evicted: Option<string>)

  /** What the lookup at `i` returns. */
  function FoundAt(run: seq<KeyEvent>, i: nat, ttl: real, keyId: string -> string): Option<(string, bool)>
    requires i < |run| && run[i].Look?
    decreases i, 1
  {
    var cache := CacheAfter(run, i, ttl, keyId);
    var look := run[i];
    if Hit(cache, look.authority, look.fingerprint, look.at, ttl, keyId)
    then Some((cache[look.authority].key, cache[look.authority].active))
    else if look.registry.Registered? then Some((look.registry.key, look.registry.active))
    else None
  }

  function CacheAfter(run: seq<KeyEvent>, n: nat, ttl: real, keyId: string -> string): KeyCache
    requires n <= |run|
    decreases n, 0
  {
    if n == 0 then map[]
    else
      var before := CacheAfter(run, n - 1, ttl, keyId);
      match run[n - 1]
      case Look(_, _, _, _) => before
      case Renewal(lookup, at, evicted) =>
        if lookup < n - 1 && run[lookup].Look? && FoundAt(run, lookup, ttl, keyId).Some? then
          var found := FoundAt(run, lookup, ttl, keyId).value;
          (if evicted.Some? then before - {evicted.value} else before)
            [run[lookup].authority := CachedKey(found.0, found.1, at)]
        else before
  }

  /** The registry gave this key for this authority to a lookup that missed, no later than event `i`. */
  ghost predicate Given(run: seq<KeyEvent>, i: nat, authority: string, found: (string, bool), ttl: real,
                        keyId: string -> string)
  {
    exists j :: 0 <= j <= i && j < |run| && run[j].Look? && run[j].authority == authority
                && run[j].registry == Registered(found.0, found.1)
                && !Hit(CacheAfter(run, j, ttl, keyId), authority, run[j].fingerprint, run[j].at, ttl, keyId)
  }

  /** A renewal of this authority's key happened at that time, before event `i`. */
  ghost predicate RenewedAt(run: seq<KeyEvent>, i: nat, authority: string, at: real) {
    exists r :: 0 <= r < i && r < |run| && run[r].Renewal? && run[r].at == at
                && run[r].lookup < r && run[run[r].lookup].Look? && run[run[r].lookup].authority == authority
  }

  lemma GivenStays(run: seq<KeyEvent>, i: nat, j: nat, authority: string, found: (string, bool), ttl: real,
                   keyId: string -> string)
    requires Given(run, i, authority, found, ttl, keyId) && i <= j
    ensures Given(run, j, authority, found, ttl, keyId)
  {
  }

  lemma {:induction false} CacheIsGiven(run: seq<KeyEvent>, n: nat, ttl: real, keyId: string -> string,
                                        authority: string)
    requires n <= |run| && authority in CacheAfter(run, n, ttl, keyId)
    ensures var entry := CacheAfter(run, n, ttl, keyId)[authority];
            && Given(run, n, authority, (entry.key, entry.active), ttl, keyId)
            && RenewedAt(run, n, authority, entry.usedAt)
    decreases n, 0
  {
    var event := run[n - 1];
    var entry := CacheAfter(run, n, ttl, keyId)[authority];
    if event.Renewal? && event.lookup < n - 1 && run[event.lookup].Look? && FoundAt(run, event.lookup, ttl, keyId).Some?
       && run[event.lookup].authority == authority
    {
      KeysComeFromTheRegistry(run, event.lookup, ttl, keyId);
      GivenStays(run, event.lookup, n, authority, (entry.key, entry.active), ttl, keyId);
      assert run[n - 1].at == entry.usedAt;
    } else {
      CacheIsGiven(run, n - 1, ttl, keyId, authority);
      GivenStays(run, n - 1, n, authority, (entry.key, entry.active), ttl, keyId);
    }
  }

  /**
   * Over any interleaving, a lookup only returns a key the registry gave for that very authority; and if it came from
   * the cache, one renewed by a request of that authority less than `ttl` ago. A key idle for `ttl` or longer is never
   * returned.
   */
  lemma {:induction false} KeysComeFromTheRegistry(run: seq<KeyEvent>, i: nat, ttl: real, keyId: string -> string)
    requires i < |run| && run[i].Look? && FoundAt(run, i, ttl, keyId).Some?
    ensures Given(run, i, run[i].authority, FoundAt(run, i, ttl, keyId).value, ttl, keyId)
    ensures var cache := CacheAfter(run, i, ttl, keyId);
            Hit(cache, run[i].authority, run[i].fingerprint, run[i].at, ttl, keyId) ==>
              && keyId(FoundAt(run, i, ttl, keyId).value.0) == run[i].fingerprint
              && exists at :: RenewedAt(run, i, run[i].authority, at) && run[i].at - at < ttl
    decreases i, 1
  {
    var cache := CacheAfter(run, i, ttl, keyId);
    if Hit(cache, run[i].authority, run[i].fingerprint, run[i].at, ttl, keyId) {
      CacheIsGiven(run, i, ttl, keyId, run[i].authority);
      assert RenewedAt(run, i, run[i].authority, cache[run[i].authority].usedAt);
    }
  }

  // ---------- the code ----------

  datatype AuthError =
    | HeadersInvalid | TimestampExpired | BodyMismatch | PathInvalid | AuthorityNotFound | RegistryUnavailable
    | KeyInvalid | SignatureInvalid | Replay

  /**
   * What the checks look at: `headersOk` and `signatureOk` are the form checks, `bodyMatches` the digest comparison.
   */
  datatype Signed = Signed(authority: string, fingerprint: string, timestamp: int, nonce: string,
                           headersOk: bool, signatureOk: bool, bodyMatches: bool, pathOk: bool, message: string,
                           signature: string)

  /** The clocks as the request reads them, and what the registry would answer. */
  datatype Moment = Moment(checkedAt: real, lookedUpAt: real, claimMono: real, claimedAt: real, renewedAt: real,
                           registry: Registered)

  const MAX_CACHED: nat := 10000

  predicate UsableKey(key: string) { |key| == 32 && exists i :: 0 <= i < |key| && key[i] != '\0' }

  lemma OldestExists(cache: map<string, CachedKey>, names: set<string>) returns (oldest: string)
    requires names != {} && names <= cache.Keys
    ensures oldest in names && forall k :: k in names ==> cache[oldest].usedAt <= cache[k].usedAt
    decreases |names|
  {
    var k :| k in names;
    if names == {k} {
      oldest := k;
    } else {
      var rest := names - {k};
      var candidate := OldestExists(cache, rest);
      oldest := if cache[k].usedAt < cache[candidate].usedAt then k else candidate;
    }
  }

  /** The key the checks look at: the cached one if it is the named one and not idle, else what the registry answers. */
  predicate Offered(cache: KeyCache, r: Signed, m: Moment, idleTtl: real, keyId: string -> string, key: string,
                    active: bool)
  {
    if r.authority in cache && m.lookedUpAt < cache[r.authority].usedAt + idleTtl
       && keyId(cache[r.authority].key) == r.fingerprint
    then key == cache[r.authority].key && active == cache[r.authority].active
    else m.registry == Registered(key, active)
  }

  /** The clock is at most `skew` seconds before or behind the request's timestamp. */
  predicate InWindow(r: Signed, m: Moment, skew: nat) {
    m.checkedAt - r.timestamp as real <= skew as real && r.timestamp as real - m.checkedAt <= skew as real
  }

  /** A key of 32 bytes, not all of them zero. */
  predicate RealKey(key: string) { |key| == 32 && key != seq(32, _ => '\0') }

  /** The request is well formed, in time, and signed with that key, which is active and the one it names. */
  predicate Proper(r: Signed, m: Moment, skew: nat, keyId: string -> string,
                   verifies: (string, string, string) -> bool, key: string, active: bool)
  {
    && r.headersOk && r.signatureOk && r.bodyMatches && r.pathOk && InWindow(r, m, skew)
    && active && RealKey(key) && keyId(key) == r.fingerprint && verifies(key, r.message, r.signature)
  }

  /** The nonce is not in the table, or a cleanup is due that takes it out first. */
  predicate Unclaimed(nonces: Table, lastCleanup: real, r: Signed, m: Moment) {
    (r.authority, r.nonce) in nonces ==>
      m.claimMono >= lastCleanup + 60.0 && nonces[(r.authority, r.nonce)] < m.claimedAt
  }

  /** What a request that is not well formed, not in time, or without a key is told. */
  predicate FormRefusal(r: Signed, m: Moment, skew: nat, error: AuthError) {
    error == if !r.headersOk then HeadersInvalid
             else if !InWindow(r, m, skew) then TimestampExpired
             else if !r.signatureOk then HeadersInvalid
             else if !r.bodyMatches then BodyMismatch
             else if !r.pathOk then PathInvalid
             else if m.registry.NotFound? then AuthorityNotFound
             else RegistryUnavailable
  }

  lemma UsableIsReal(key: string)
    ensures UsableKey(key) <==> RealKey(key)
  {
    if |key| == 32 && key != seq(32, _ => '\0') {
      assert exists i :: 0 <= i < 32 && key[i] != '\0';
    }
  }

  class SignedAuth {
    const skew: nat
    const idleTtl: real
    const keyId: string -> string
    const verifies: (string, string, string) -> bool
    var cache: map<string, CachedKey>
    var lastCleanup: real
    var nonces: Table

    constructor (skew: nat, idleTtl: real, keyId: string -> string, verifies: (string, string, string) -> bool,
                 nonces: Table)
      ensures this.skew == skew && this.idleTtl == idleTtl && this.keyId == keyId && this.verifies == verifies
      ensures cache == map[] && lastCleanup == 0.0 && this.nonces == nonces
    {
      this.skew, this.idleTtl, this.keyId, this.verifies, this.nonces := skew, idleTtl, keyId, verifies, nonces;
      cache, lastCleanup := map[], 0.0;
    }

    predicate CacheHit(authority: string, fingerprint: string, mono: real)
      reads this
    {
      Hit(cache, authority, fingerprint, mono, idleTtl, keyId)
    }

    /** A cached key while it is in use and still has the claimed fingerprint; otherwise the registry's. */
    method Lookup(authority: string, fingerprint: string, mono: real, registry: Registered)
      returns (found: Result<(string, bool), AuthError>)
      ensures CacheHit(authority, fingerprint, mono) ==> found == Ok((cache[authority].key, cache[authority].active))
      ensures !CacheHit(authority, fingerprint, mono) ==>
                found == match registry
                         case NotFound => Err(AuthorityNotFound)
                         case Unavailable => Err(RegistryUnavailable)
                         case Registered(key, active) => Ok((key, active))
    {
      if CacheHit(authority, fingerprint, mono) {
        return Ok((cache[authority].key, cache[authority].active));
      }
      match registry {
        case NotFound => return Err(AuthorityNotFound);
        case Unavailable => return Err(RegistryUnavailable);
        case Registered(key, active) => return Ok((key, active));
      }
    }

    /** Every check short of the nonce: a fresh timestamp and a signature by the active key the request names. */
    predicate Verified(r: Signed, m: Moment)
      reads this
    {
      && r.headersOk && r.signatureOk && r.bodyMatches && r.pathOk && Fresh(r.timestamp, skew, m.checkedAt)
      && (CacheHit(r.authority, r.fingerprint, m.lookedUpAt) || m.registry.Registered?)
      && var (key, active) := if CacheHit(r.authority, r.fingerprint, m.lookedUpAt)
                              then (cache[r.authority].key, cache[r.authority].active)
                              else (m.registry.key, m.registry.active);
         active && UsableKey(key) && keyId(key) == r.fingerprint && verifies(key, r.message, r.signature)
    }

    function NonceClaim(r: Signed, m: Moment): ClaimResult
      reads this
    {
      Claim(nonces, (r.authority, r.nonce), Expiry(r.timestamp, skew),
            m.claimMono - lastCleanup >= CLEANUP_INTERVAL, m.claimedAt)
    }

    method ClaimNonce(key: Key, expiresAt: real, mono: real, wall: real) returns (admitted: bool)
      modifies this`nonces, this`lastCleanup
      ensures lastCleanup == old(lastCleanup) || (lastCleanup == mono && mono >= old(lastCleanup) + 60.0)
      ensures var due := mono - old(lastCleanup) >= CLEANUP_INTERVAL;
              && Claim(old(nonces), key, expiresAt, due, wall) == ClaimResult(nonces, admitted)
              && lastCleanup == if due && admitted then mono else old(lastCleanup)
    {
      var before := nonces;
      if mono - lastCleanup >= CLEANUP_INTERVAL {
        nonces := Purged(nonces, wall);
      }
      if key in nonces {
        nonces := before;
        return false;
      }
      nonces := nonces[key := expiresAt];
      if mono - lastCleanup >= CLEANUP_INTERVAL {
        lastCleanup := mono;
      }
      return true;
    }

    method Renew(authority: string, entry: CachedKey)
      modifies this`cache
      ensures authority in cache && cache[authority] == entry
      ensures |old(cache)| <= MAX_CACHED ==> |cache| <= MAX_CACHED
      ensures forall k :: k in cache && k != authority ==> k in old(cache) && cache[k] == old(cache)[k]
      ensures forall k :: k in old(cache) && k !in cache ==>
                && |old(cache)| >= MAX_CACHED && authority !in old(cache)
                && forall o :: o in old(cache) ==> old(cache)[k].usedAt <= old(cache)[o].usedAt
      ensures forall k, o :: k in old(cache) && k !in cache && o in old(cache) && o !in cache ==> k == o
    {
      if |cache| >= MAX_CACHED && authority !in cache {
        assert cache.Keys != {};
        ghost var some := OldestExists(cache, cache.Keys);
        var oldest :| oldest in cache && forall k :: k in cache ==> cache[oldest].usedAt <= cache[k].usedAt;
        cache := cache - {oldest};
      }
      cache := cache[authority := entry];
    }

    /**
     * Only a request that passed every check claims its nonce, and only an admitted one touches the key cache: a
     * stale timestamp, a bad signature or a replay leaves everything as it was.
     */
    method Authenticate(r: Signed, m: Moment) returns (outcome: Result<string, AuthError>)
      requires |cache| <= MAX_CACHED
      modifies this
      ensures |cache| <= MAX_CACHED
      ensures outcome.Ok? <==> old(Verified(r, m)) && old(NonceClaim(r, m)).admitted
      ensures outcome == Err(Replay) <==> old(Verified(r, m)) && !old(NonceClaim(r, m)).admitted
      ensures outcome.Ok? <==>
                && Unclaimed(old(nonces), old(lastCleanup), r, m)
                && exists key, active :: && Offered(old(cache), r, m, idleTtl, keyId, key, active)
                                         && Proper(r, m, skew, keyId, verifies, key, active)
      ensures outcome.Ok? ==>
                && (r.authority, r.nonce) in nonces
                && nonces[(r.authority, r.nonce)] == r.timestamp as real + skew as real
      ensures outcome.Err? && !(r.headersOk && InWindow(r, m, skew) && r.signatureOk && r.bodyMatches && r.pathOk) ==>
                FormRefusal(r, m, skew, outcome.error)
      ensures outcome.Err? && (forall key, active :: !Offered(old(cache), r, m, idleTtl, keyId, key, active)) ==>
                FormRefusal(r, m, skew, outcome.error)
      ensures forall key, active ::
                outcome.Err? && r.headersOk && InWindow(r, m, skew) && r.signatureOk && r.bodyMatches && r.pathOk
                && Offered(old(cache), r, m, idleTtl, keyId, key, active) ==>
                  outcome.error == if !active || !RealKey(key) || keyId(key) != r.fingerprint then KeyInvalid
                                   else if !verifies(key, r.message, r.signature) then SignatureInvalid
                                   else Replay
      ensures outcome.Err? ==> cache == old(cache) && nonces == old(nonces) && lastCleanup == old(lastCleanup)
      ensures outcome.Ok? ==>
                && outcome.value == r.authority && nonces == old(NonceClaim(r, m)).table
                && r.authority in cache
                && (var entry := cache[r.authority];
                    && keyId(entry.key) == r.fingerprint && entry.usedAt == m.renewedAt
                    && (|| m.registry == Registered(entry.key, entry.active)
                        || (&& r.authority in old(cache) && old(cache)[r.authority].key == entry.key
                            && m.lookedUpAt - old(cache)[r.authority].usedAt < idleTtl)))
    {
      if !r.headersOk { return Err(HeadersInvalid); }
      if !Fresh(r.timestamp, skew, m.checkedAt) { return Err(TimestampExpired); }
      if !r.signatureOk { return Err(HeadersInvalid); }
      if !r.bodyMatches { return Err(BodyMismatch); }
      if !r.pathOk { return Err(PathInvalid); }
      var found := Lookup(r.authority, r.fingerprint, m.lookedUpAt, m.registry);
      if found.Err? {
        assert forall key, active :: !Offered(cache, r, m, idleTtl, keyId, key, active);
        return Err(found.error);
      }
      var (key, active) := found.value;
      assert Offered(cache, r, m, idleTtl, keyId, key, active);
      UsableIsReal(key);
      if !active || !UsableKey(key) || keyId(key) != r.fingerprint { return Err(KeyInvalid); }
      if !verifies(key, r.message, r.signature) { return Err(SignatureInvalid); }
      var admitted := ClaimNonce((r.authority, r.nonce), Expiry(r.timestamp, skew), m.claimMono, m.claimedAt);
      if !admitted { return Err(Replay); }
      Renew(r.authority, CachedKey(key, active, m.renewedAt));
      return Ok(r.authority);
    }
  }
}
