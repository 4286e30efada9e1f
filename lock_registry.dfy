/** The lock-handle registry of a ZooKeeper connection, as values.

    A connection keeps `locks`, a map from lock path to lock handle, which is
    nil before `Connect` and after `Close`. Creating a handle (`zk.NewLock`)
    is modelled by handing out the next unused number: `minted` counts the
    handles this connection has created, so they are `0 .. minted - 1`.
    What a handle then does when locked or unlocked belongs to go-zookeeper
    and is not modelled; the functions here say which handle the connection
    delegates to, or which error it returns itself. */
module LockRegistry {
  import opened Outcomes
  import opened Errors

  type Path = string
  type HandleId = nat

  datatype Registry = Registry(locks: Option<map<Path, HandleId>>, minted: nat)

  /** Every registered handle was created by this connection, and no handle
      is registered under two paths. */
  predicate Valid(r: Registry)
  {
    r.locks.Some? ==>
      var m := r.locks.value;
      && (forall p | p in m :: m[p] < r.minted)
      && (forall p, q | p in m && q in m && p != q :: m[p] != m[q])
  }

  /** The registry after `Connect`: a fresh, empty map, whatever the previous
      session held and whether or not the dial succeeded. */
  function Connected(r: Registry): (r': Registry)
    ensures r'.locks == Some(map[]) && r'.minted == r.minted
    ensures Valid(r')
  {
    Registry(Some(map[]), r.minted)
  }

  /** The registry after `Close`: no map at all. */
  function Closed(r: Registry): (r': Registry)
    ensures r'.locks.None? && r'.minted == r.minted
    ensures Valid(r')
  {
    Registry(None, r.minted)
  }

  /** The local part of `Lock(path)`: the registry afterwards, and either the
      handle the call delegates to or the error it returns itself. */
  function Acquire(r: Registry, path: Path): (res: (Registry, Result<HandleId, Error>))
    ensures r.locks.None? <==> res.1 == Failure(ConnectionNotInitialized)
    ensures r.locks.None? ==> res.0 == r
    ensures r.locks.Some? ==> res.0.locks.Some?
    ensures r.locks.Some? ==>
      var (m, m') := (r.locks.value, res.0.locks.value);
      && m'.Keys == m.Keys + {path}
      && (forall q | q in m :: m'[q] == m[q])
      && res.1 == Success(m'[path])
    ensures r.locks.Some? && path in r.locks.value ==> res.0 == r
    ensures r.locks.Some? && path !in r.locks.value ==>
      res.1 == Success(r.minted) && res.0.minted == r.minted + 1
    ensures Valid(r) ==> Valid(res.0)
  {
    match r.locks
    case None => (r, Failure(ConnectionNotInitialized))
    case Some(m) =>
      if path in m then (r, Success(m[path]))
      else (Registry(Some(m[path := r.minted]), r.minted + 1), Success(r.minted))
  }

  /** The local part of `Unlock(path)`: the handle the call delegates to, or the
      error it returns itself. The registry is never changed by `Unlock`. */
  function Release(r: Registry, path: Path): (res: Result<HandleId, Error>)
    ensures r.locks.None? <==> res == Failure(ConnectionNotInitialized)
    ensures r.locks.Some? && path !in r.locks.value <==> res == Failure(NotLocked)
    ensures r.locks.Some? && path in r.locks.value ==> res == Success(r.locks.value[path])
    ensures res.Success? ==> r.locks.Some? && path in r.locks.value
  {
    match r.locks
    case None => Failure(ConnectionNotInitialized)
    case Some(m) => if path in m then Success(m[path]) else Failure(NotLocked)
  }

  /** The registry operations of a connection, in the order a caller issues them. */
  datatype Op = Connect | Close | Lock(path: Path) | Unlock(path: Path)

  function Step(r: Registry, op: Op): (r': Registry)
  {
    match op
    case Connect => Connected(r)
    case Close => Closed(r)
    case Lock(path) => Acquire(r, path).0
    case Unlock(_) => r
  }

  /** The registry after running `ops` in order from `r`. */
  function Run(r: Registry, ops: seq<Op>): (r': Registry)
    decreases |ops|
  {
    if ops == [] then r else Run(Step(r, ops[0]), ops[1..])
  }

  /** `ops` stays within one session: it neither connects nor closes. */
  predicate WithinSession(ops: seq<Op>)
  {
    forall i | 0 <= i < |ops| :: ops[i].Lock? || ops[i].Unlock?
  }

  predicate NeverConnects(ops: seq<Op>)
  {
    forall i | 0 <= i < |ops| :: !ops[i].Connect?
  }

  /** The paths that `ops` locks. */
  function LockedPaths(ops: seq<Op>): (paths: set<Path>)
    decreases |ops|
  {
    if ops == [] then {} else (if ops[0].Lock? then {ops[0].path} else {}) + LockedPaths(ops[1..])
  }

  /** Every sequence of operations keeps the registry valid. */
  lemma {:induction false} RunPreservesValid(r: Registry, ops: seq<Op>)
    requires Valid(r)
    ensures Valid(Run(r, ops))
    decreases |ops|
  {
    if ops != [] {
      RunPreservesValid(Step(r, ops[0]), ops[1..]);
    }
  }

  /** Without a `Connect`, an uninitialised registry stays uninitialised. */
  lemma {:induction false} UninitialisedUntilConnect(r: Registry, ops: seq<Op>)
    requires r.locks.None?
    requires NeverConnects(ops)
    ensures Run(r, ops) == r
    decreases |ops|
  {
    if ops != [] {
      assert Step(r, ops[0]) == Closed(r);
      UninitialisedUntilConnect(Step(r, ops[0]), ops[1..]);
    }
  }

  /** After `Close`, every `Lock` and `Unlock` fails with "connection not
      initialized" and changes nothing, until the next `Connect`. */
  lemma ClosedRejectsUntilConnect(r: Registry, ops: seq<Op>, path: Path)
    requires NeverConnects(ops)
    ensures var s := Run(Closed(r), ops);
      && Acquire(s, path) == (s, Failure(ConnectionNotInitialized))
      && Release(s, path) == Failure(ConnectionNotInitialized)
  {
  }

  /** Within one session the key set only grows, by exactly the locked paths,
      and a path keeps the handle it was first given. */
  lemma {:induction false} SessionKeysOnlyGrow(r: Registry, ops: seq<Op>)
    requires r.locks.Some?
    requires WithinSession(ops)
    ensures Run(r, ops).locks.Some?
    ensures Run(r, ops).locks.value.Keys == r.locks.value.Keys + LockedPaths(ops)
    ensures forall p | p in r.locks.value :: Run(r, ops).locks.value[p] == r.locks.value[p]
    decreases |ops|
  {
    if ops != [] {
      SessionKeysOnlyGrow(Step(r, ops[0]), ops[1..]);
    }
  }

  /** Within one session a handle is created exactly once per newly locked path:
      `zk.NewLock` is called as many times as the map gains keys. */
  lemma {:induction false} OneHandlePerNewPath(r: Registry, ops: seq<Op>)
    requires r.locks.Some?
    requires WithinSession(ops)
    ensures Run(r, ops).locks.Some?
    ensures Run(r, ops).minted - r.minted == |Run(r, ops).locks.value| - |r.locks.value|
    decreases |ops|
  {
    if ops != [] {
      var s := Step(r, ops[0]);
      if ops[0].Lock? && ops[0].path !in r.locks.value {
        assert s.locks.value.Keys == r.locks.value.Keys + {ops[0].path};
        assert |s.locks.value.Keys| == |r.locks.value.Keys| + 1;
      }
      OneHandlePerNewPath(s, ops[1..]);
    }
  }

  /** Every handle registered after running `ops` was either registered before
      or created during the run. */
  lemma {:induction false} HandlesInheritedOrNew(r: Registry, ops: seq<Op>)
    ensures Run(r, ops).minted >= r.minted
    ensures Run(r, ops).locks.Some? ==>
      forall p | p in Run(r, ops).locks.value ::
        var h := Run(r, ops).locks.value[p];
        (r.locks.Some? && h in r.locks.value.Values) || r.minted <= h
    decreases |ops|
  {
    if ops != [] {
      var s := Step(r, ops[0]);
      HandlesInheritedOrNew(s, ops[1..]);
      if s.locks.Some? {
        forall p | p in s.locks.value
          ensures (r.locks.Some? && s.locks.value[p] in r.locks.value.Values) || r.minted <= s.locks.value[p]
        {
          if r.locks.Some? && p in r.locks.value {
            assert s.locks.value[p] == r.locks.value[p];
          }
        }
      }
    }
  }

  /** Handles are never shared across sessions: after `Close` and `Connect`, no
      handle of the previous session is ever registered again. */
  lemma SessionsShareNoHandle(r: Registry, ops: seq<Op>)
    requires Valid(r) && r.locks.Some?
    ensures var s := Run(r, [Close, Connect] + ops);
      s.locks.Some? ==> forall p | p in s.locks.value :: s.locks.value[p] !in r.locks.value.Values
  {
    var reset := Connected(Closed(r));
    assert Run(r, [Close, Connect] + ops) == Run(reset, ops) by {
      assert ([Close, Connect] + ops)[1..] == [Connect] + ops;
      assert ([Connect] + ops)[1..] == ops;
    }
    HandlesInheritedOrNew(reset, ops);
  }

  /** A second `Lock` of the same path delegates to the same handle and
      changes nothing. */
  lemma LockReusesHandle(r: Registry, path: Path)
    ensures var (s, h) := Acquire(r, path);
      Acquire(s, path) == (s, h)
  {
  }

  /** After a `Lock` of a path, `Unlock` of that path delegates to the handle
      the `Lock` used (and on an uninitialised connection both fail alike). */
  lemma UnlockFindsLockedHandle(r: Registry, path: Path)
    ensures Release(Acquire(r, path).0, path) == Acquire(r, path).1
  {
  }
}
