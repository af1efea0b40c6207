/**
 * The per-ARK advisory lock: one checked-out connection takes it, writes under it and gives it back, and may be lost at
 * any moment. Module Protocol takes these guarantees as its lock steps.
 */
module ArkLocks {
  import opened Wrappers
  import opened ArkTypes
  import opened Protocol
  import opened ProtocolInvariant
  import opened ProtocolPreservation

  type Connection = nat

  /** The server's lock table after a connection is gone, or has given back what it held. */
  function Freed(holder: map<int, Connection>, c: Connection): map<int, Connection> {
    map key | key in holder && holder[key] != c :: holder[key]
  }

  lemma FreedNone(holder: map<int, Connection>, c: Connection)
    requires forall k :: k in holder ==> holder[k] != c
    ensures Freed(holder, c) == holder
  {
    forall k | k in holder ensures k in Freed(holder, c) {
      assert holder[k] != c;
    }
  }

  lemma FreedOne(holder: map<int, Connection>, c: Connection, key: int)
    requires key in holder && forall k :: k in holder ==> (holder[k] == c <==> k == key)
    ensures Freed(holder, c) == holder - {key}
  {
    forall k | k in holder && k != key ensures k in Freed(holder, c) {
      assert holder[k] != c;
    }
  }

  /** The database server: live connections and the holder of each advisory lock. */
  class Server {
    var live: set<Connection>
    var holder: map<int, Connection>
    var writes: seq<Connection>

    ghost predicate Valid()
      reads this
    {
      forall key :: key in holder ==> holder[key] in live
    }

    constructor ()
      ensures Valid() && live == {} && holder == map[] && writes == []
    {
      live, holder, writes := {}, map[], [];
    }

    method Connect(c: Connection)
      requires Valid() && c !in live
      modifies this`live
      ensures Valid() && live == old(live) + {c}
    {
      live := live + {c};
    }

    /** A connection or its process dies: its locks are free at once. */
    method Lose(c: Connection)
      requires Valid()
      modifies this`live, this`holder
      ensures Valid() && live == old(live) - {c}
      ensures holder == Freed(old(holder), c)
    {
      live := live - {c};
      holder := Freed(holder, c);
    }

    method TryAdvisoryLock(c: Connection, key: int) returns (got: bool)
      requires Valid() && c in live && forall k :: k in holder ==> holder[k] != c
      modifies this`holder
      ensures Valid() && (got <==> key !in old(holder))
      ensures holder == if got then old(holder)[key := c] else old(holder)
    {
      if key in holder { return false; }
      holder := holder[key := c];
      return true;
    }

    method AdvisoryUnlock(c: Connection, key: int) returns (unlocked: bool)
      requires Valid() && c in live
      modifies this`holder
      ensures Valid() && (unlocked <==> key in old(holder) && old(holder)[key] == c)
      ensures holder == if unlocked then old(holder) - {key} else old(holder)
    {
      if key !in holder || holder[key] != c { return false; }
      holder := holder - {key};
      return true;
    }
  }

  datatype LockError = ConnectionLost

  /** The context manager: `__enter__` is Enter, `__exit__` is Exit, and Write is any statement under the lock. */
  class ArkLock {
    const server: Server
    const connection: Connection
    const key: int
    var acquired: bool
    var invalidated: bool

    /** As long as the connection is good and acquired, the server knows it as the holder; it holds nothing else. */
    ghost predicate Valid()
      reads this, server
    {
      && server.Valid()
      && (connection in server.live && acquired ==> key in server.holder && server.holder[key] == connection)
      && (forall k :: k in server.holder && server.holder[k] == connection ==> k == key && acquired)
    }

    constructor (server: Server, connection: Connection, key: int)
      requires server.Valid() && connection !in server.live
      modifies server`live
      ensures Valid() && this.server == server && this.connection == connection && this.key == key
      ensures !acquired && !invalidated && server.live == old(server.live) + {connection}
    {
      this.server, this.connection, this.key, acquired, invalidated := server, connection, key, false, false;
      new;
      server.Connect(connection);
    }

    /** Taken exactly when nobody holds the key; a lost connection yields nothing. */
    method Enter() returns (yielded: Result<bool, LockError>)
      requires Valid() && !acquired && !invalidated
      modifies this, server`holder
      ensures Valid()
      ensures yielded.Err? <==> connection !in server.live
      ensures yielded.Err? ==> invalidated && server.holder == old(server.holder)
      ensures yielded.Ok? ==>
                && yielded.value == acquired == (key !in old(server.holder))
                && server.holder == if acquired then old(server.holder)[key := connection] else old(server.holder)
    {
      if connection !in server.live {
        invalidated := true;
        return Err(ConnectionLost);
      }
      acquired := server.TryAdvisoryLock(connection, key);
      return Ok(acquired);
    }

    /**
     * A statement on the session. An invalidated connection is refused before it could reconnect, so a write that
     * succeeds is made by the present holder of the lock.
     */
    method Write() returns (done: Result<(), LockError>)
      requires Valid() && acquired
      modifies this`invalidated, server`writes
      ensures Valid()
      ensures done.Ok? <==> connection in server.live && !old(invalidated)
      ensures done.Ok? ==> server.writes == old(server.writes) + [connection]
                           && key in server.holder && server.holder[key] == connection
      ensures done.Err? ==> invalidated && server.writes == old(server.writes)
    {
      if invalidated { return Err(ConnectionLost); }
      if connection !in server.live {
        invalidated := true;
        return Err(ConnectionLost);
      }
      server.writes := server.writes + [connection];
      return Ok(());
    }

    /** Whatever happened, the connection that goes back to the pool holds no lock; nobody else's lock is touched. */
    method Exit() returns (closed: Result<(), LockError>)
      requires Valid()
      modifies this, server`holder, server`live
      ensures server.Valid() && server.holder == Freed(old(server.holder), connection)
      ensures closed.Err? ==> invalidated
      ensures closed.Err? <==> old(acquired) && !old(invalidated) && connection !in old(server.live)
    {
      if acquired && !invalidated {
        if connection !in server.live {
          FreedNone(server.holder, connection);
          invalidated := true;
          return Err(ConnectionLost);
        }
        FreedOne(server.holder, connection, key);
        var unlocked := server.AdvisoryUnlock(connection, key);
        // The source raises when the unlock reports that ownership was lost; a good connection never loses it.
        assert unlocked;
      } else if invalidated {
        server.Lose(connection);
      } else {
        FreedNone(server.holder, connection);
      }
      acquired := false;
      return Ok(());
    }
  }

  // ---------- the lock steps of the protocol ----------

  /**
   * What the protocol's lock steps do to its lock map is what the server does: a session can start exactly when the key
   * is free, and then holds it; losing the connection or releasing it frees exactly what the session held.
   */
  lemma LockStepsAreTheServers(c: Config, steps: seq<Step>, sid: SessionId, step: SessionStep)
    requires Runs(c, Initial(), steps) && CanLock(c, After(c, Initial(), steps), sid, step)
    ensures var st := After(c, Initial(), steps);
            DoLock(c, st, sid, step).locks
            == match step
               case Acquire(ark) => st.locks[c.lockKey(ark) := sid]
               case LoseConnection => Freed(st.locks, sid)
               case Release => Freed(st.locks, sid)
               case ReadRow(_, _) => st.locks
    ensures var st := After(c, Initial(), steps); step.Acquire? ==> c.lockKey(step.ark) !in st.locks
  {
    Reachable(c, steps);
    hide Runs, After;
    var st := After(c, Initial(), steps);
    if step.LoseConnection? || step.Release? {
      assert forall k :: k in st.locks && st.locks[k] == sid ==> Live(st, sid) && c.lockKey(ArkOf(st, sid)) == k;
    }
  }

  /** A lock that is acquired on a good connection is the live session of the protocol with that key. */
  lemma GoodLockIsALiveSession(c: Config, steps: seq<Step>, lock: ArkLock)
    requires Runs(c, Initial(), steps) && lock.Valid() && lock.server.holder == After(c, Initial(), steps).locks
    requires lock.acquired && lock.connection in lock.server.live
    ensures var st := After(c, Initial(), steps);
            Live(st, lock.connection) && c.lockKey(ArkOf(st, lock.connection)) == lock.key
  {
    Reachable(c, steps);
    hide Runs, After;
    var st := After(c, Initial(), steps);
    assert lock.key in st.locks;
  }
}
