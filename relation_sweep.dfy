/**
 * `RelationMoveToDB` of dal/redis/common.go: each cached follow write view is read back,
 * checked against the tables, applied as a follow transaction when it disagrees with them,
 * and deleted. Three things set it apart from the like sweep: the GET is not locked, the
 * value is split before the GET's error is looked at (so every GET error panics), and a
 * round that runs a transaction deletes its key twice.
 */
module RelationSweep {
  import opened Errs
  import opened GoText
  import opened RedisInit
  import opened RedisCommon
  import opened DbTables
  import opened DbRelation
  import opened SweepCore
  import opened CacheKeys
  import Reconcile
  import RelationCache

  /** The round of one key, from the GET to the end of the loop body. */
  function RelationStep(w: World, key: string, f: set<SweepSite>): (StepEnd, World)
  {
    var res := GetReply(w.cache.store, key, Get in f);
    // go-redis hands back "" with its error, which splits into one part; indexing the
    // second part panics before the `err != nil` check after it is reached
    var vSplit := Split(if res.Ok? then res.value else "");
    if |vSplit| < 2 then (Crash, w)
    else
      var kSplit := Split(key);
      if |kSplit| < 4 then (Crash, w)
      else
        match (ParseInt64(kSplit[1]), ParseInt64(kSplit[3]))
        case (None, _) => (Stop(ParseFailed), w)
        case (_, None) => (Stop(ParseFailed), w)
        case (Some(userID), Some(toUserID)) => RelationApply(w, key, userID, toUserID, vSplit[1], f)
  }

  /** The checks against the tables, the transaction they call for, and the deletes. */
  function RelationApply(w: World, key: string, userID: I64, toUserID: I64, redisAt: string, f: set<SweepSite>)
    : (r: (StepEnd, World))
    ensures r.1.cache.store == w.cache.store || r.1.cache.store == w.cache.store - {key}
    ensures r.0 == Next ==> key !in r.1.cache.store
  {
    var u := GetUserByID(w.db, userID, UserLookup in f);
    if u.Err? then (Stop(u.error), w)
    else
      var tu := GetUserByID(w.db, toUserID, ToUserLookup in f);
      if tu.Err? then (Stop(tu.error), w)
      else if u.value.None? || tu.value.None? then DeleteThen(w, key, f, 1, None)
      else
        var relation := GetRelationByUserIDs(w.db, userID, toUserID, PairLookup in f);
        if relation.Err? then (Stop(relation.error), w)
        else if (relation.value.None? && redisAt == "1") || (relation.value.Some? && redisAt == "2") then
          RelationWrite(w, key, userID, toUserID, redisAt == "1", f)
        else DeleteThen(w, key, f, 2, None)
  }

  /** The follow (or unfollow) transaction, then the delete whose error or the
      transaction's ends the round, then the second delete. */
  function RelationWrite(w: World, key: string, userID: I64, toUserID: I64, follow: bool, f: set<SweepSite>)
    : (r: (StepEnd, World))
    ensures r.1.cache.store == w.cache.store || r.1.cache.store == w.cache.store - {key}
    ensures r.0 == Next ==> key !in r.1.cache.store
  {
    var (err, db') :=
      if follow then CreateRelationTx(w.db, userID, toUserID, TxFaults(f))
      else DelRelationByUserIDsTx(w.db, userID, toUserID, TxFaults(f));
    var (end1, c1) := DeleteVerdict(w.cache, key, f, 1, err);
    if end1.Stop? then (end1, World(c1, db'))
    else DeleteThen(World(c1, db'), key, f, 2, None)
  }

  function RelationMoveToDBSpec(w: World, keysFail: bool, order: seq<string>, faults: map<string, set<SweepSite>>)
    : (SweepResult, World)
  {
    if keysFail then (Finished(Some(RedisFailed)), w)
    else Sweep(RelationStep, w, order, faults)
  }

  function WorldOf(r: RedisHelper, db: Database): World
    reads r, r.relationMutex, db
  {
    World(CacheState(r.store, r.relationMutex.held), db.State())
  }

  method RelationMoveToDB(r: RedisHelper, db: Database, keysFail: bool, faults: map<string, set<SweepSite>>)
    returns (res: SweepResult, ghost order: seq<string>)
    requires r.Valid()
    modifies r, r.relationMutex, db
    ensures !keysFail ==> forall k :: k in order <==> k in old(r.store) && GlobMatch(RelationCache.RelationPattern(), k)
    ensures (res, WorldOf(r, db)) == RelationMoveToDBSpec(old(WorldOf(r, db)), keysFail, order, faults)
  {
    var keys := GetKeys(r, RelationCache.RelationPattern(), keysFail);
    if keys.Err? {
      order := [];
      return Finished(Some(RedisFailed)), order;
    }
    var ks := keys.value;
    order := ks;
    ghost var w0 := WorldOf(r, db);
    var i := 0;
    while i < |ks|
      invariant 0 <= i <= |ks|
      invariant r.Valid()
      invariant Sweep(RelationStep, w0, ks, faults) == Sweep(RelationStep, WorldOf(r, db), ks[i..], faults)
    {
      var key := ks[i];
      var end := RelationRound(r, db, key, FaultsAt(faults, key));
      match end {
        case Next =>
          assert ks[i..][1..] == ks[i + 1..];
          i := i + 1;
        case Stop(e) =>
          return Finished(Some(e)), order;
        case Crash =>
          return Panicked, order;
      }
    }
    return Finished(None), order;
  }

  method RelationRound(r: RedisHelper, db: Database, key: string, f: set<SweepSite>) returns (end: StepEnd)
    requires r.Valid()
    modifies r, r.relationMutex, db
    ensures r.Valid()
    ensures (end, WorldOf(r, db)) == RelationStep(old(WorldOf(r, db)), key, f)
  {
    var res := r.Get(key, Get in f);
    var vSplit := Split(if res.Ok? then res.value else "");
    if |vSplit| < 2 {
      return Crash;
    }
    var kSplit := Split(key);
    if |kSplit| < 4 {
      return Crash;
    }
    var uid := ParseInt64(kSplit[1]);
    if uid.None? {
      return Stop(ParseFailed);
    }
    var tid := ParseInt64(kSplit[3]);
    if tid.None? {
      return Stop(ParseFailed);
    }
    end := RelationApplyRound(r, db, key, uid.value, tid.value, vSplit[1], f);
  }

  method RelationApplyRound(r: RedisHelper, db: Database, key: string, userID: I64, toUserID: I64,
                            redisAt: string, f: set<SweepSite>) returns (end: StepEnd)
    requires r.Valid()
    modifies r, r.relationMutex, db
    ensures r.Valid()
    ensures (end, WorldOf(r, db)) == RelationApply(old(WorldOf(r, db)), key, userID, toUserID, redisAt, f)
  {
    var u := GetUserByID(db.State(), userID, UserLookup in f);
    if u.Err? {
      return Stop(u.error);
    }
    var tu := GetUserByID(db.State(), toUserID, ToUserLookup in f);
    if tu.Err? {
      return Stop(tu.error);
    }
    if u.value.None? || tu.value.None? {
      end := DeleteRound(r, r.relationMutex, key, f, 1, None);
      return;
    }
    var relation := GetRelationByUserIDs(db.State(), userID, toUserID, PairLookup in f);
    if relation.Err? {
      return Stop(relation.error);
    }
    if (relation.value.None? && redisAt == "1") || (relation.value.Some? && redisAt == "2") {
      var err;
      if redisAt == "1" {
        err := CreateRelation(db, userID, toUserID, TxFaults(f));
      } else {
        err := DelRelationByUserIDs(db, userID, toUserID, TxFaults(f));
      }
      end := DeleteRound(r, r.relationMutex, key, f, 1, err);
      if end.Stop? {
        return;
      }
    }
    end := DeleteRound(r, r.relationMutex, key, f, 2, None);
  }

  // ---------------------------------------------------------------- properties

  lemma RelationRoundIsLocal(w: World, key: string, f: set<SweepSite>)
    ensures RoundIsLocal(RelationStep, w, key, f)
  {
  }

  lemma RelationRoundsAreLocal()
    ensures RoundsAreLocal(RelationStep)
  {
    forall w, key, f
      ensures RoundIsLocal(RelationStep, w, key, f)
    {
      RelationRoundIsLocal(w, key, f);
    }
  }

  /** The follow sweep deletes only follow write views, changes no entry it keeps, and a
      sweep that returns nil has deleted them all. */
  lemma RelationSweepDeletesOnlyWriteViews(w: World, order: seq<string>, faults: map<string, set<SweepSite>>)
    requires forall k :: k in order <==> k in w.cache.store && GlobMatch(RelationCache.RelationPattern(), k)
    ensures var (res, w') := RelationMoveToDBSpec(w, false, order, faults);
            && (forall k :: k in w'.cache.store ==> k in w.cache.store && w'.cache.store[k] == w.cache.store[k])
            && (forall k :: k in w.cache.store && !GlobMatch(RelationCache.RelationPattern(), k) ==> k in w'.cache.store)
            && (res == Finished(None) ==> forall k :: k in w'.cache.store ==> !GlobMatch(RelationCache.RelationPattern(), k))
  {
    RelationRoundsAreLocal();
    SweepOnlyDeletesSweptKeys(RelationStep, w, order, faults);
    if RelationMoveToDBSpec(w, false, order, faults).0 == Finished(None) {
      CleanSweepClearsKeys(RelationStep, w, order, faults);
    }
  }

  /** Every failed GET panics the job, a key gone since KEYS (redis.Nil) among them: the
      error check after the split is never reached. */
  lemma RelationRoundPanicsOnGetError(w: World, key: string, f: set<SweepSite>)
    requires Get in f || key !in w.cache.store
    ensures RelationStep(w, key, f) == (Crash, w)
  {
    SplitNoColon("");
  }

  /** The world a round starts from: the write view holds `ct::at` and the mutex is free. */
  ghost predicate Cached(w: World, userID: U64, toUserID: U64, ct: U64, at: U64)
  {
    var key := RelationCache.RelationKey(userID, toUserID, "w");
    && userID < TwoTo63 && toUserID < TwoTo63
    && key in w.cache.store && w.cache.store[key].value == Reconcile.ViewValue(ct, at)
    && !w.cache.held
  }

  /** With the GET going through, a round on a write view an update wrote goes straight to
      the checks against the tables with the parsed pair. */
  lemma RelationRoundReachesTables(w: World, userID: U64, toUserID: U64, ct: U64, at: U64, f: set<SweepSite>)
    requires userID < TwoTo63 && toUserID < TwoTo63
    requires RelationCache.RelationKey(userID, toUserID, "w") in w.cache.store
    requires w.cache.store[RelationCache.RelationKey(userID, toUserID, "w")].value == Reconcile.ViewValue(ct, at)
    requires Get !in f
    ensures RelationStep(w, RelationCache.RelationKey(userID, toUserID, "w"), f)
         == RelationApply(w, RelationCache.RelationKey(userID, toUserID, "w"), userID, toUserID, NatToString(at), f)
  {
    var key := RelationCache.RelationKey(userID, toUserID, "w");
    var v := Reconcile.ViewValue(ct, at);
    assert |Split(v)| >= 2 && Split(v)[1] == NatToString(at) by {
      Reconcile.ViewSplit(ct, at);
    }
    assert |Split(key)| >= 4 && ParseInt64(Split(key)[1]) == Some(userID as I64) && ParseInt64(Split(key)[3]) == Some(toUserID as I64) by {
      ParsePairKey("user", userID, "to_user", toUserID, "w");
    }
    RelationStepParses(w, key, f, v, userID, toUserID);
  }

  /** When the mutex is free and no delete call fails, the write deletes the key (the
      second delete finds it gone) and ends with the transaction's error. */
  lemma WriteOnFreeMutex(w: World, key: string, userID: I64, toUserID: I64, follow: bool, f: set<SweepSite>)
    requires !w.cache.held
    requires DelLock(1) !in f && Del(1) !in f && DelUnlock(1) !in f
    requires DelLock(2) !in f && Del(2) !in f && DelUnlock(2) !in f
    ensures var (err, db') :=
              if follow then CreateRelationTx(w.db, userID, toUserID, TxFaults(f))
              else DelRelationByUserIDsTx(w.db, userID, toUserID, TxFaults(f));
            RelationWrite(w, key, userID, toUserID, follow, f)
            == (if err.Some? then Stop(err.value) else Next, World(CacheState(w.cache.store - {key}, false), db'))
  {
    var (err, db') :=
      if follow then CreateRelationTx(w.db, userID, toUserID, TxFaults(f))
      else DelRelationByUserIDsTx(w.db, userID, toUserID, TxFaults(f));
    CleanDelete(w.cache, key, f, 1, err);
    var c1 := CacheState(w.cache.store - {key}, false);
    CleanDelete(c1, key, f, 2, None);
    assert c1.store - {key} == c1.store;
  }

  /** The round of a key whose GET, value split and id parses go through. */
  lemma RelationStepParses(w: World, key: string, f: set<SweepSite>, v: string, userID: I64, toUserID: I64)
    requires GetReply(w.cache.store, key, Get in f) == Ok(v) && |Split(v)| >= 2
    requires |Split(key)| >= 4 && ParseInt64(Split(key)[1]) == Some(userID) && ParseInt64(Split(key)[3]) == Some(toUserID)
    ensures RelationStep(w, key, f) == RelationApply(w, key, userID, toUserID, Split(v)[1], f)
  {
  }

  /** A round on a cached follow the tables lack, or a cached unfollow they have, runs the
      write when its lookups go through. */
  lemma RelationStepWrites(w: World, userID: U64, toUserID: U64, ct: U64, at: U64, f: set<SweepSite>)
    requires Cached(w, userID, toUserID, ct, at)
    requires Get !in f && UserLookup !in f && ToUserLookup !in f && PairLookup !in f
    requires userID in w.db.users && toUserID in w.db.users
    requires (at == 1 && CountPair(w.db.relations, userID, toUserID) == 0)
          || (at == 2 && CountPair(w.db.relations, userID, toUserID) > 0)
    ensures var key := RelationCache.RelationKey(userID, toUserID, "w");
            RelationStep(w, key, f) == RelationWrite(w, key, userID, toUserID, at == 1, f)
  {
    RelationRoundReachesTables(w, userID, toUserID, ct, at, f);
    assert NatToString(1) == "1" && NatToString(2) == "2";
  }

  /** A cached follow with no row in the tables is committed, and its key deleted. */
  lemma RelationRoundCommitsFollow(w: World, userID: U64, toUserID: U64, ct: U64)
    requires Cached(w, userID, toUserID, ct, 1)
    requires userID in w.db.users && toUserID in w.db.users
    requires CountPair(w.db.relations, userID, toUserID) == 0
    ensures var key := RelationCache.RelationKey(userID, toUserID, "w");
            var (end, w') := RelationStep(w, key, {});
            && end == Next
            && w'.db == CreateRelationTx(w.db, userID, toUserID, {}).1
            && w'.db.relations == w.db.relations + [FollowRow(w.db.nextRelationID, userID, toUserID)]
            && w'.cache == CacheState(w.cache.store - {key}, false)
  {
    var key := RelationCache.RelationKey(userID, toUserID, "w");
    RelationStepWrites(w, userID, toUserID, ct, 1, {});
    assert TxFaults({}) == {};
    CreateRelationCommits(w.db, userID, toUserID);
    WriteOnFreeMutex(w, key, userID, toUserID, true, {});
  }

  /** The write-behind loses the event when the transaction fails: the key is deleted all
      the same, the rows are as before (only the follow id counter stays advanced), and
      the sweep returns the error. */
  lemma RelationRoundLosesFailedFollow(w: World, userID: U64, toUserID: U64, ct: U64)
    requires Cached(w, userID, toUserID, ct, 1)
    requires userID in w.db.users && toUserID in w.db.users
    requires CountPair(w.db.relations, userID, toUserID) == 0
    ensures var key := RelationCache.RelationKey(userID, toUserID, "w");
            RelationStep(w, key, {Tx(Commit)})
            == (Stop(DbFailed), World(CacheState(w.cache.store - {key}, false), w.db.(nextRelationID := w.db.nextRelationID + 1)))
  {
    var key := RelationCache.RelationKey(userID, toUserID, "w");
    var f := {Tx(Commit)};
    RelationStepWrites(w, userID, toUserID, ct, 1, f);
    assert TxFaults(f) == {Commit};
    CreateRelationFailedCommitRollsBack(w.db, userID, toUserID);
    var db' := w.db.(nextRelationID := w.db.nextRelationID + 1);
    assert CreateRelationTx(w.db, userID, toUserID, TxFaults(f)) == (Some(DbFailed), db');
    WriteOnFreeMutex(w, key, userID, toUserID, true, f);
    assert RelationWrite(w, key, userID, toUserID, true, f) == (Stop(DbFailed), World(CacheState(w.cache.store - {key}, false), db'));
  }

  /** A cached unfollow is applied to a pair that has a row, and its key deleted. */
  lemma RelationRoundAppliesUnfollow(w: World, userID: U64, toUserID: U64, ct: U64)
    requires Cached(w, userID, toUserID, ct, 2)
    requires userID in w.db.users && toUserID in w.db.users
    requires CountPair(w.db.relations, userID, toUserID) > 0
    ensures var key := RelationCache.RelationKey(userID, toUserID, "w");
            var (end, w') := RelationStep(w, key, {});
            && w'.db == DelRelationByUserIDsTx(w.db, userID, toUserID, {}).1
            && w'.cache == CacheState(w.cache.store - {key}, false)
  {
    var key := RelationCache.RelationKey(userID, toUserID, "w");
    RelationStepWrites(w, userID, toUserID, ct, 2, {});
    assert TxFaults({}) == {};
    WriteOnFreeMutex(w, key, userID, toUserID, false, {});
  }

  /** A cached state the tables already have, or any other action, leaves the tables alone;
      the key is deleted. */
  lemma RelationRoundSettled(w: World, userID: U64, toUserID: U64, ct: U64, at: U64)
    requires Cached(w, userID, toUserID, ct, at)
    requires userID in w.db.users && toUserID in w.db.users
    requires at == 1 ==> CountPair(w.db.relations, userID, toUserID) > 0
    requires at == 2 ==> CountPair(w.db.relations, userID, toUserID) == 0
    ensures var key := RelationCache.RelationKey(userID, toUserID, "w");
            RelationStep(w, key, {}) == (Next, World(CacheState(w.cache.store - {key}, false), w.db))
  {
    RelationRoundReachesTables(w, userID, toUserID, ct, at, {});
    assert NatToString(1) == "1" && NatToString(2) == "2";
    if NatToString(at) == "1" {
      Reconcile.NatToStringInjective(at, 1);
    }
    if NatToString(at) == "2" {
      Reconcile.NatToStringInjective(at, 2);
    }
  }

  /** A pair one of whose users is gone: the key is deleted and the tables are left alone. */
  lemma RelationRoundDropsUnknownPair(w: World, userID: U64, toUserID: U64, ct: U64, at: U64)
    requires Cached(w, userID, toUserID, ct, at)
    requires userID !in w.db.users || toUserID !in w.db.users
    ensures var key := RelationCache.RelationKey(userID, toUserID, "w");
            RelationStep(w, key, {}) == (Next, World(CacheState(w.cache.store - {key}, false), w.db))
  {
    RelationRoundReachesTables(w, userID, toUserID, ct, at, {});
  }

  /** The GET takes no lock: while an update holds the follow mutex, the round still commits
      the follow, but its delete cannot take the lock, so the key stays and the sweep
      returns the lock error. */
  lemma RelationRoundWritesUnderHeldMutex(w: World, userID: U64, toUserID: U64, ct: U64)
    requires userID < TwoTo63 && toUserID < TwoTo63
    requires RelationCache.RelationKey(userID, toUserID, "w") in w.cache.store
    requires w.cache.store[RelationCache.RelationKey(userID, toUserID, "w")].value == Reconcile.ViewValue(ct, 1)
    requires w.cache.held
    requires userID in w.db.users && toUserID in w.db.users
    requires CountPair(w.db.relations, userID, toUserID) == 0
    ensures var key := RelationCache.RelationKey(userID, toUserID, "w");
            var (end, w') := RelationStep(w, key, {});
            && end == Stop(LockFailed)
            && w'.db.relations == w.db.relations + [FollowRow(w.db.nextRelationID, userID, toUserID)]
            && w'.cache == w.cache
  {
    RelationRoundReachesTables(w, userID, toUserID, ct, 1, {});
    assert NatToString(1) == "1";
    assert TxFaults({}) == {};
    CreateRelationCommits(w.db, userID, toUserID);
  }

  /** The second delete of a round that ran a transaction finds the key gone: when its
      calls go through it changes nothing and the round goes on. */
  lemma RelationSecondDeleteIsHarmless(w: World, key: string, f: set<SweepSite>, err: Option<Error>)
    requires DeleteVerdict(w.cache, key, f, 1, err).0 == Next
    requires DelLock(2) !in f && Del(2) !in f && DelUnlock(2) !in f
    ensures var c1 := DeleteVerdict(w.cache, key, f, 1, err).1;
            DeleteVerdict(c1, key, f, 2, None) == (Next, c1)
  {
    var c1 := DeleteVerdict(w.cache, key, f, 1, err).1;
    assert c1.store - {key} == c1.store;
  }
}
