/**
 * The Redis side of the engine as `dal/redis/init.go` sets it up: one client over a key
 * space with expiring keys, the read-view lifetime `ExpireTime`, and two redsync mutexes,
 * one per domain. A mutex is a held/free flag; redsync's cross-process protocol is not
 * modelled. Every Redis or redsync call takes a `fail` flag: true means the round trip
 * failed (network, server, quorum).
 */
module RedisInit {
  import opened Errs
  import opened GoText

  /** Lifetime of a read view, in seconds (`6 * time.Second`). */
  const ExpireTime: nat := 6

  const FavoriteMutexName: string := "mutex-favorite"
  const RelationMutexName: string := "mutex-relation"

  datatype Expiry = Persistent | ExpiresIn(seconds: nat)

  /** A stored string value with its time to live. */
  datatype Entry = Entry(value: string, expiry: Expiry)

  /** The TTL that Redis SET gives for Go's expiration argument: 0 means no expiry. */
  function TtlOf(expiration: nat): (e: Expiry)
    ensures e.Persistent? <==> expiration == 0
    ensures e.ExpiresIn? ==> e.seconds == expiration
  {
    if expiration == 0 then Persistent else ExpiresIn(expiration)
  }

  /** What one cache operation works on: the key space and the flag of its domain's mutex. */
  datatype CacheState = CacheState(store: map<string, Entry>, held: bool)

  // ---------------------------------------------------------------- redsync

  /** `LockByMutex`: succeeds exactly when the mutex is free and the call goes through. */
  function TryLock(held: bool, fail: bool): (r: (Option<Error>, bool))
    ensures r.0 == None <==> !held && !fail
    ensures r.0.Some? ==> r.0.value == LockFailed && r.1 == held
    ensures r.0 == None ==> r.1
  {
    if held || fail then (Some(LockFailed), held) else (None, true)
  }

  /** `UnlockByMutex`: succeeds exactly when the mutex is held and the call goes through. */
  function TryUnlock(held: bool, fail: bool): (r: (Option<Error>, bool))
    ensures r.0 == None <==> held && !fail
    ensures r.0.Some? ==> r.0.value == UnlockFailed && r.1 == held
    ensures r.0 == None ==> !r.1
  {
    if !held || fail then (Some(UnlockFailed), held) else (None, false)
  }

  /** Once a lock has been taken, nobody takes it again before it is released. */
  lemma LockExcludes(fail: bool, again: bool)
    requires TryLock(false, fail).0 == None
    ensures TryLock(TryLock(false, fail).1, again).0 == Some(LockFailed)
  {
  }

  /** A named redsync mutex; one object is shared by every caller in the process. */
  class Mutex {
    const name: string
    var held: bool

    constructor (name: string)
      ensures this.name == name && !held
    {
      this.name := name;
      held := false;
    }

    method LockByMutex(fail: bool) returns (err: Option<Error>)
      modifies this
      ensures (err, held) == TryLock(old(held), fail)
    {
      if held || fail {
        err := Some(LockFailed);
      } else {
        held := true;
        err := None;
      }
    }

    method UnlockByMutex(fail: bool) returns (err: Option<Error>)
      modifies this
      ensures (err, held) == TryUnlock(old(held), fail)
    {
      if !held || fail {
        err := Some(UnlockFailed);
      } else {
        held := false;
        err := None;
      }
    }

    /** The lock's own expiry in Redis, a step of the environment. */
    method Expire()
      modifies this
      ensures !held
    {
      held := false;
    }
  }

  // ---------------------------------------------------------------- Redis commands

  /** GET: the value, redis.Nil for a missing key, or a failed round trip. */
  function GetReply(store: map<string, Entry>, key: string, fail: bool): (r: Result<string>)
    ensures r.Ok? <==> !fail && key in store
    ensures r.Ok? ==> r.value == store[key].value
    ensures !fail && key !in store ==> r == Err(RedisNil)
    ensures fail ==> r == Err(RedisFailed)
  {
    if fail then Err(RedisFailed) else if key in store then Ok(store[key].value) else Err(RedisNil)
  }

  /** SET key value [EX expiration]: overwrites any previous value and TTL. */
  function SetReply(store: map<string, Entry>, key: string, value: string, expiration: nat, fail: bool)
    : (r: (Option<Error>, map<string, Entry>))
    ensures r.0 == None <==> !fail
    ensures !fail ==> key in r.1 && r.1[key] == Entry(value, TtlOf(expiration))
    ensures forall k :: k != key ==> (k in r.1 <==> k in store) && (k in store ==> r.1[k] == store[k])
    ensures fail ==> r.1 == store
  {
    if fail then (Some(RedisFailed), store) else (None, store[key := Entry(value, TtlOf(expiration))])
  }

  /** DEL key: removing a missing key is not an error. */
  function DelReply(store: map<string, Entry>, key: string, fail: bool): (r: (Option<Error>, map<string, Entry>))
    ensures r.0 == None <==> !fail
    ensures r.1 == if fail then store else store - {key}
  {
    if fail then (Some(RedisFailed), store) else (None, store - {key})
  }

  /** The client of `GetRedisHelper()` together with the two package-level mutexes. */
  class RedisHelper {
    var store: map<string, Entry>
    const favoriteMutex: Mutex
    const relationMutex: Mutex

    ghost predicate Valid()
      reads this
    {
      && favoriteMutex != relationMutex
      && favoriteMutex.name == FavoriteMutexName
      && relationMutex.name == RelationMutexName
    }

    /** `init()`: an empty key space and the two free mutexes. */
    constructor ()
      ensures Valid() && store == map[]
      ensures fresh(favoriteMutex) && fresh(relationMutex)
      ensures !favoriteMutex.held && !relationMutex.held
    {
      store := map[];
      favoriteMutex := new Mutex(FavoriteMutexName);
      relationMutex := new Mutex(RelationMutexName);
    }

    method Exists(key: string, fail: bool) returns (r: Result<bool>)
      ensures r == if fail then Err(RedisFailed) else Ok(key in store)
    {
      r := if fail then Err(RedisFailed) else Ok(key in store);
    }

    method Get(key: string, fail: bool) returns (r: Result<string>)
      ensures r == GetReply(store, key, fail)
    {
      r := GetReply(store, key, fail);
    }

    method Set(key: string, value: string, expiration: nat, fail: bool) returns (err: Option<Error>)
      modifies this
      ensures (err, store) == SetReply(old(store), key, value, expiration, fail)
    {
      if fail {
        err := Some(RedisFailed);
      } else {
        store := store[key := Entry(value, TtlOf(expiration))];
        err := None;
      }
    }

    method Del(key: string, fail: bool) returns (err: Option<Error>)
      modifies this
      ensures (err, store) == DelReply(old(store), key, fail)
    {
      if fail {
        err := Some(RedisFailed);
      } else {
        store := store - {key};
        err := None;
      }
    }

    /** KEYS pattern: every matching key once, in an order Redis does not specify. */
    method Keys(pattern: string, fail: bool) returns (r: Result<seq<string>>)
      ensures r.Ok? <==> !fail
      ensures fail ==> r == Err(RedisFailed)
      ensures r.Ok? ==> forall k :: k in r.value <==> k in store && GlobMatch(pattern, k)
      ensures r.Ok? ==> forall i, j :: 0 <= i < j < |r.value| ==> r.value[i] != r.value[j]
    {
      if fail {
        return Err(RedisFailed);
      }
      var rest := set k | k in store && GlobMatch(pattern, k);
      var keys: seq<string> := [];
      while rest != {}
        invariant forall k :: k in keys || k in rest <==> k in store && GlobMatch(pattern, k)
        invariant forall k :: k in keys ==> k !in rest
        invariant forall i, j :: 0 <= i < j < |keys| ==> keys[i] != keys[j]
        decreases rest
      {
        var k :| k in rest;
        keys := keys + [k];
        rest := rest - {k};
      }
      r := Ok(keys);
    }

    /** A key's TTL running out, a step of the environment: keys without a TTL stay. */
    method ExpireKey(key: string)
      modifies this
      ensures store == if key in old(store) && old(store)[key].expiry.ExpiresIn?
                       then old(store) - {key} else old(store)
    {
      if key in store && store[key].expiry.ExpiresIn? {
        store := store - {key};
      }
    }
  }
}
