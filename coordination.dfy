/** `zkConnection`: a ZooKeeper connection that keeps one lock handle per path.

    The session itself, the handles' locking protocol and the event channel
    belong to go-zookeeper; here they are the results those calls return,
    passed in as parameters. The class keeps the two fields the connector
    updates, `connection` and `locks`, and a counter standing for the handles
    `zk.NewLock` has created. */
module Coordination {
  import opened Outcomes
  import opened Errors
  import opened LockRegistry

  /** A go-zookeeper session object (`*zk.Conn`). */
  type SessionId = nat

  class ZkConnection {
    var connection: Option<SessionId>
    var locks: Option<map<Path, HandleId>>
    var minted: nat

    /** The registry part of the connection's state. */
    function State(): Registry
      reads this
    {
      Registry(locks, minted)
    }

    predicate Valid()
      reads this
    {
      LockRegistry.Valid(State())
    }

    /** A zero-valued connection: no session and no map. */
    constructor ()
      ensures Valid()
      ensures connection.None? && locks.None? && minted == 0
    {
      connection := None;
      locks := None;
      minted := 0;
    }

    /** `Connect`: stores the session `zk.Connect` returned (`session`, nil when
        it returns an error) and installs an empty map, then returns `zk.Connect`'s
        error. The map is reset even when the dial failed. */
    method Connect(session: Option<SessionId>, dialError: Option<Error>) returns (err: Option<Error>)
      requires Valid()
      modifies this
      ensures Valid()
      ensures err == dialError
      ensures connection == session
      ensures State() == Connected(old(State()))
    {
      connection := session;
      locks := Some(map[]);
      err := dialError;
    }

    /** `Close`: closes the session and drops the map, with every handle in it. */
    method Close()
      requires Valid()
      modifies this
      ensures Valid()
      ensures connection == old(connection)
      ensures State() == Closed(old(State()))
    {
      locks := None;
    }

    /** `Lock(path)`: fails on an uninitialised connection; otherwise creates a
        handle for `path` if it has none, and returns what locking that handle
        returns (`zkLock`, go-zookeeper's `Lock.Lock()`). */
    method Lock(path: Path, zkLock: HandleId -> Option<Error>) returns (err: Option<Error>)
      requires Valid()
      modifies this
      ensures Valid()
      ensures connection == old(connection)
      ensures State() == Acquire(old(State()), path).0
      ensures err == match Acquire(old(State()), path).1
                     case Failure(e) => Some(e)
                     case Success(h) => zkLock(h)
    {
      if locks.None? {
        return Some(ConnectionNotInitialized);
      }
      if path !in locks.value {
        locks := Some(locks.value[path := minted]);
        minted := minted + 1;
      }
      var handle := locks.value[path];
      err := zkLock(handle);
    }

    /** `Unlock(path)`: fails on an uninitialised connection or when `path` has
        no handle; otherwise returns what unlocking that handle returns
        (`zkUnlock`, go-zookeeper's `Lock.Unlock()`). The entry stays. */
    method Unlock(path: Path, zkUnlock: HandleId -> Option<Error>) returns (err: Option<Error>)
      requires Valid()
      ensures locks.None? ==> err == Some(ConnectionNotInitialized)
      ensures locks.Some? && path !in locks.value ==> err == Some(NotLocked)
      ensures locks.Some? && path in locks.value ==> err == zkUnlock(locks.value[path])
    {
      if locks.None? {
        return Some(ConnectionNotInitialized);
      }
      if path !in locks.value {
        err := Some(NotLocked);
      } else {
        var handle := locks.value[path];
        err := zkUnlock(handle);
      }
    }
  }

  /** A connection used in order: `Lock` twice on one path delegates to one
      handle, `Unlock` finds it, and after `Close` both fail until `Connect`. */
  method ClientScenario(c: ZkConnection, session: SessionId, path: Path, zkLock: HandleId -> Option<Error>)
    requires c.Valid()
    modifies c
  {
    var e := c.Connect(Some(session), None);
    var before := c.State();
    e := c.Lock(path, zkLock);
    var handle := c.locks.value[path];
    assert e == zkLock(handle);
    var after := c.State();
    e := c.Lock(path, zkLock);
    assert c.State() == after && e == zkLock(handle);
    e := c.Unlock(path, h => None);
    assert c.locks.value.Keys == {path};
    c.Close();
    e := c.Lock(path, zkLock);
    assert e == Some(ConnectionNotInitialized);
    e := c.Unlock(path, h => None);
    assert e == Some(ConnectionNotInitialized);
    e := c.Unlock("/other", h => None);
    assert e == Some(ConnectionNotInitialized);
  }
}
