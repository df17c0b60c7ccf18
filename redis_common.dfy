/**
 * The locking helpers of `dal/redis/common.go`: `getKeys`, `deleteKeys` and `setKey`.
 * `setKey` expects its caller to hold the mutex and always releases it; `deleteKeys`
 * takes and releases the mutex itself.
 */
module RedisCommon {
  import opened Errs
  import opened RedisInit

  /** `setKey`: SET, then release the caller's lock whatever SET did; an unlock error wins. */
  function SetKeySpec(s: CacheState, key: string, value: string, expiration: nat, failSet: bool, failUnlock: bool)
    : (r: (Option<Error>, CacheState))
    ensures r.1.store == SetReply(s.store, key, value, expiration, failSet).1
    ensures r.1.held == (s.held && failUnlock)
    ensures r.0 == None <==> s.held && !failSet && !failUnlock
    ensures r.0 == Some(UnlockFailed) <==> !s.held || failUnlock
    ensures r.0.Some? ==> r.0.value in {UnlockFailed, RedisFailed}
  {
    var (setErr, store1) := SetReply(s.store, key, value, expiration, failSet);
    var (unlockErr, held1) := TryUnlock(s.held, failUnlock);
    var err := if unlockErr.Some? then unlockErr else if setErr.Some? then Some(RedisFailed) else None;
    (err, CacheState(store1, held1))
  }

  method SetKey(r: RedisHelper, key: string, value: string, expiration: nat, mutex: Mutex,
                failSet: bool, failUnlock: bool) returns (err: Option<Error>)
    modifies r, mutex
    ensures (err, CacheState(r.store, mutex.held))
         == SetKeySpec(CacheState(old(r.store), old(mutex.held)), key, value, expiration, failSet, failUnlock)
  {
    var setErr := r.Set(key, value, expiration, failSet);
    var unlockErr := mutex.UnlockByMutex(failUnlock);
    if unlockErr.Some? {
      return unlockErr;
    }
    if setErr.Some? {
      return Some(RedisFailed);
    }
    return None;
  }

  /** `deleteKeys`: lock, DEL, unlock; nothing is deleted when locking fails, and an
      unlock error takes priority over a DEL error. */
  function DeleteKeysSpec(s: CacheState, key: string, failLock: bool, failDel: bool, failUnlock: bool)
    : (r: (Option<Error>, CacheState))
    ensures s.held || failLock ==> r == (Some(LockFailed), s)
    ensures !s.held && !failLock ==>
              && r.1.store == (if failDel then s.store else s.store - {key})
              && r.1.held == failUnlock
              && r.0 == (if failUnlock then Some(UnlockFailed) else if failDel then Some(RedisFailed) else None)
  {
    var (lockErr, held1) := TryLock(s.held, failLock);
    if lockErr.Some? then (Some(LockFailed), s)
    else
      var (delErr, store1) := DelReply(s.store, key, failDel);
      var (unlockErr, held2) := TryUnlock(held1, failUnlock);
      var err := if unlockErr.Some? then Some(UnlockFailed) else if delErr.Some? then delErr else None;
      (err, CacheState(store1, held2))
  }

  method DeleteKeys(r: RedisHelper, key: string, mutex: Mutex, failLock: bool, failDel: bool, failUnlock: bool)
    returns (err: Option<Error>)
    modifies r, mutex
    ensures (err, CacheState(r.store, mutex.held))
         == DeleteKeysSpec(CacheState(old(r.store), old(mutex.held)), key, failLock, failDel, failUnlock)
  {
    var errLock := mutex.LockByMutex(failLock);
    if errLock.Some? {
      return Some(LockFailed);
    }
    var errRedis := r.Del(key, failDel);
    var errUnlock := mutex.UnlockByMutex(failUnlock);
    if errUnlock.Some? {
      return Some(UnlockFailed);
    }
    if errRedis.Some? {
      return errRedis;
    }
    return None;
  }

  /** Deleting a key that is already gone changes nothing but the lock round trip. */
  lemma DeleteKeysTwice(s: CacheState, key: string)
    requires !s.held
    ensures var (e1, s1) := DeleteKeysSpec(s, key, false, false, false);
            var (e2, s2) := DeleteKeysSpec(s1, key, false, false, false);
            e1 == None && e2 == None && s2 == s1 && key !in s2.store
  {
  }

  /** `getKeys`: KEYS with the pattern, or the error of the call. */
  method GetKeys(r: RedisHelper, pattern: string, fail: bool) returns (keys: Result<seq<string>>)
    ensures keys.Ok? <==> !fail
    ensures keys.Ok? ==> forall k :: k in keys.value <==> k in r.store && GoText.GlobMatch(pattern, k)
    ensures keys.Ok? ==> forall i, j :: 0 <= i < j < |keys.value| ==> keys.value[i] != keys.value[j]
  {
    keys := r.Keys(pattern, fail);
  }
}
