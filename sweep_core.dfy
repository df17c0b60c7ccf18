/**
 * What the two write-behind sweeps of dal/redis/common.go share: the world they act on
 * (one domain's key space and mutex flag, and the tables), the calls of one key's round
 * that may fail, and the loop over the keys KEYS returned, which stops at the first key
 * whose round returns an error.
 */
module SweepCore {
  import opened Errs
  import opened RedisInit
  import opened RedisCommon
  import opened DbTables

  /** The calls of one key's round that may fail. `n` tells the first `deleteKeys` call of
      the round from the second. */
  datatype SweepSite =
    | Lock | Get | Unlock
    | VideoLookup | UserLookup | ToUserLookup | PairLookup | AuthorLookup
    | Tx(site: TxSite)
    | DelLock(n: nat) | Del(n: nat) | DelUnlock(n: nat)

  datatype World = World(cache: CacheState, db: Tables)

  /** How one key's round ends: on to the next key, `return err`, or a panic. */
  datatype StepEnd = Next | Stop(err: Error) | Crash

  /** How a sweep ends: the function's returned error, or a panic of the job. */
  datatype SweepResult = Finished(err: Option<Error>) | Panicked

  function FaultsAt(faults: map<string, set<SweepSite>>, key: string): set<SweepSite>
  {
    if key in faults then faults[key] else {}
  }

  /** The sites of the one transaction a round may run. */
  function TxFaults(f: set<SweepSite>): set<TxSite>
  {
    set x | x in f && x.Tx? :: x.site
  }

  /** `deleteKeys(ctx, key, mutex)` as call n of a round, then the round's verdict: the
      delete's error first, then the error `err` of the transaction before it. */
  function DeleteVerdict(c: CacheState, key: string, f: set<SweepSite>, n: nat, err: Option<Error>)
    : (r: (StepEnd, CacheState))
    ensures r.1.store == c.store || r.1.store == c.store - {key}
    ensures r.0 == Next ==> key !in r.1.store && err == None
  {
    var (delErr, c') := DeleteKeysSpec(c, key, DelLock(n) in f, Del(n) in f, DelUnlock(n) in f);
    if delErr.Some? then (Stop(delErr.value), c')
    else if err.Some? then (Stop(err.value), c')
    else (Next, c')
  }

  function DeleteThen(w: World, key: string, f: set<SweepSite>, n: nat, err: Option<Error>): (r: (StepEnd, World))
  {
    var (end, c') := DeleteVerdict(w.cache, key, f, n, err);
    (end, w.(cache := c'))
  }

  method DeleteRound(r: RedisHelper, m: Mutex, key: string, f: set<SweepSite>, n: nat, err: Option<Error>)
    returns (end: StepEnd)
    modifies r, m
    ensures (end, CacheState(r.store, m.held)) == DeleteVerdict(CacheState(old(r.store), old(m.held)), key, f, n, err)
  {
    var delErr := DeleteKeys(r, key, m, DelLock(n) in f, Del(n) in f, DelUnlock(n) in f);
    if delErr.Some? {
      return Stop(delErr.value);
    } else if err.Some? {
      return Stop(err.value);
    }
    return Next;
  }

  /** With the mutex free and the delete's calls going through, the key is gone, the mutex
      is free again, and the verdict is the transaction's error. */
  lemma CleanDelete(c: CacheState, key: string, f: set<SweepSite>, n: nat, err: Option<Error>)
    requires !c.held && DelLock(n) !in f && Del(n) !in f && DelUnlock(n) !in f
    ensures DeleteVerdict(c, key, f, n, err)
         == (if err.Some? then Stop(err.value) else Next, CacheState(c.store - {key}, false))
  {
  }

  type StepFn = (World, string, set<SweepSite>) -> (StepEnd, World)

  /** `for _, key := range keys { ... }`: the rounds in order, up to the first that returns. */
  function Sweep(step: StepFn, w: World, keys: seq<string>, faults: map<string, set<SweepSite>>): (SweepResult, World)
    decreases |keys|
  {
    if keys == [] then (Finished(None), w)
    else
      var (end, w') := step(w, keys[0], FaultsAt(faults, keys[0]));
      match end
      case Next => Sweep(step, w', keys[1..], faults)
      case Stop(e) => (Finished(Some(e)), w')
      case Crash => (Panicked, w')
  }

  /** A round removes at most its own key from the key space, and a round that goes on to
      the next key has removed it. */
  predicate RoundIsLocal(step: StepFn, w: World, key: string, f: set<SweepSite>)
  {
    var (end, w') := step(w, key, f);
    && (w'.cache.store == w.cache.store || w'.cache.store == w.cache.store - {key})
    && (end == Next ==> key !in w'.cache.store)
  }

  ghost predicate RoundsAreLocal(step: StepFn)
  {
    forall w, key, f :: RoundIsLocal(step, w, key, f)
  }

  /** A sweep deletes only keys it was given, and changes no entry it keeps. */
  lemma {:induction false} SweepOnlyDeletesSweptKeys(step: StepFn, w: World, keys: seq<string>,
                                                     faults: map<string, set<SweepSite>>)
    requires RoundsAreLocal(step)
    ensures var w' := Sweep(step, w, keys, faults).1;
            && (forall k :: k in w'.cache.store ==> k in w.cache.store && w'.cache.store[k] == w.cache.store[k])
            && (forall k :: k in w.cache.store && k !in keys ==> k in w'.cache.store)
    decreases |keys|
  {
    if keys != [] {
      var (end, w1) := step(w, keys[0], FaultsAt(faults, keys[0]));
      assert RoundIsLocal(step, w, keys[0], FaultsAt(faults, keys[0]));
      if end == Next {
        SweepOnlyDeletesSweptKeys(step, w1, keys[1..], faults);
        forall k | k in w.cache.store && k !in keys
          ensures k in Sweep(step, w, keys, faults).1.cache.store
        {
          assert k !in keys[1..];
        }
      }
    }
  }

  /** A sweep that returns nil has removed every key it was given. */
  lemma {:induction false} CleanSweepClearsKeys(step: StepFn, w: World, keys: seq<string>,
                                                faults: map<string, set<SweepSite>>)
    requires RoundsAreLocal(step)
    requires Sweep(step, w, keys, faults).0 == Finished(None)
    ensures forall k :: k in keys ==> k !in Sweep(step, w, keys, faults).1.cache.store
    decreases |keys|
  {
    if keys != [] {
      var (end, w1) := step(w, keys[0], FaultsAt(faults, keys[0]));
      assert RoundIsLocal(step, w, keys[0], FaultsAt(faults, keys[0]));
      SweepOnlyDeletesSweptKeys(step, w1, keys[1..], faults);
      CleanSweepClearsKeys(step, w1, keys[1..], faults);
      forall k | k in keys
        ensures k !in Sweep(step, w, keys, faults).1.cache.store
      {
        if k != keys[0] {
          assert k in keys[1..];
        }
      }
    }
  }

  /** A round that returns ends the sweep: the keys after it stay in the key space. */
  lemma StoppedSweepKeepsLaterKeys(step: StepFn, w: World, keys: seq<string>, faults: map<string, set<SweepSite>>)
    requires RoundsAreLocal(step)
    requires keys != [] && !step(w, keys[0], FaultsAt(faults, keys[0])).0.Next?
    requires forall j :: 0 < j < |keys| ==> keys[j] != keys[0]
    ensures Sweep(step, w, keys, faults).0 != Finished(None)
    ensures forall j :: 0 < j < |keys| && keys[j] in w.cache.store ==> keys[j] in Sweep(step, w, keys, faults).1.cache.store
  {
    assert RoundIsLocal(step, w, keys[0], FaultsAt(faults, keys[0]));
  }
}
