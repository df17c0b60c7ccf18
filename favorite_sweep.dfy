/**
 * `FavoriteMoveToDB` of dal/redis/common.go: every `frequency` seconds, each cached like
 * write view is read back, checked against the tables, applied as a like transaction
 * when it disagrees with them, and deleted.
 */
module FavoriteSweep {
  import opened Errs
  import opened GoText
  import opened RedisInit
  import opened RedisCommon
  import opened DbTables
  import opened DbFavorite
  import opened SweepCore
  import opened CacheKeys
  import Reconcile
  import FavoriteCache

  /** Seconds between sweeps. */
  const Frequency: nat := 10

  /** The round of one key, from the GET to the end of the loop body. */
  function FavoriteStep(w: World, key: string, f: set<SweepSite>): (StepEnd, World)
  {
    // the results of the lock and the unlock around the GET are not looked at
    var (_, held1) := TryLock(w.cache.held, Lock in f);
    var res := GetReply(w.cache.store, key, Get in f);
    var (_, held2) := TryUnlock(held1, Unlock in f);
    var w1 := w.(cache := w.cache.(held := held2));
    if res.Err? then (Stop(res.error), w1)
    else
      var vSplit := Split(res.value);
      if |vSplit| < 2 then (Crash, w1)
      else
        var kSplit := Split(key);
        if |kSplit| < 4 then (Crash, w1)
        else
          match (ParseInt64(kSplit[1]), ParseInt64(kSplit[3]))
          case (None, _) => (Stop(ParseFailed), w1)
          case (_, None) => (Stop(ParseFailed), w1)
          case (Some(videoID), Some(userID)) => FavoriteApply(w1, key, videoID, userID, vSplit[1], f)
  }

  /** The checks against the tables and the transaction they call for. */
  function FavoriteApply(w: World, key: string, videoID: I64, userID: I64, redisAt: string, f: set<SweepSite>)
    : (StepEnd, World)
  {
    var v := GetVideoById(w.db, videoID, VideoLookup in f);
    if v.Err? then (Stop(v.error), w)
    else
      var u := GetUserByID(w.db, userID, UserLookup in f);
      if u.Err? then (Stop(u.error), w)
      else if v.value.None? || u.value.None? then DeleteThen(w, key, f, 1, None)
      else
        var favorite := GetFavoriteVideoRelationByUserVideoID(w.db, userID, videoID, PairLookup in f);
        if favorite.Err? then (Stop(favorite.error), w)
        else if (favorite.value.None? && redisAt == "1") || (favorite.value.Some? && redisAt == "2") then
          var video := GetVideoById(w.db, videoID, AuthorLookup in f);
          if video.Err? then (Stop(video.error), w)
          else
            var authorID := AsInt64(video.value.value.authorID);
            var (err, db') :=
              if redisAt == "1" then CreateVideoFavoriteTx(w.db, userID, videoID, authorID, TxFaults(f))
              else DelFavoriteByUserVideoIDTx(w.db, userID, videoID, authorID, TxFaults(f));
            DeleteThen(w.(db := db'), key, f, 1, err)
        else DeleteThen(w, key, f, 1, None)
  }

  function FavoriteMoveToDBSpec(w: World, keysFail: bool, order: seq<string>, faults: map<string, set<SweepSite>>)
    : (SweepResult, World)
  {
    if keysFail then (Finished(Some(RedisFailed)), w)
    else Sweep(FavoriteStep, w, order, faults)
  }

  function WorldOf(r: RedisHelper, db: Database): World
    reads r, r.favoriteMutex, db
  {
    World(CacheState(r.store, r.favoriteMutex.held), db.State())
  }

  method FavoriteMoveToDB(r: RedisHelper, db: Database, keysFail: bool, faults: map<string, set<SweepSite>>)
    returns (res: SweepResult, ghost order: seq<string>)
    requires r.Valid()
    modifies r, r.favoriteMutex, db
    ensures !keysFail ==> forall k :: k in order <==> k in old(r.store) && GlobMatch(FavoriteCache.FavoritePattern(), k)
    ensures (res, WorldOf(r, db)) == FavoriteMoveToDBSpec(old(WorldOf(r, db)), keysFail, order, faults)
  {
    var keys := GetKeys(r, FavoriteCache.FavoritePattern(), keysFail);
    if keys.Err? {
      order := [];
      return Finished(Some(RedisFailed)), order;
    }
    var ks := keys.value;
    order := ks;
    ghost var w0 := WorldOf(r, db);
    var i := 0;
    while i < |ks|
      invariant 0 <= i <= |ks|
      invariant r.Valid()
      invariant Sweep(FavoriteStep, w0, ks, faults) == Sweep(FavoriteStep, WorldOf(r, db), ks[i..], faults)
    {
      var key := ks[i];
      var end := FavoriteRound(r, db, key, FaultsAt(faults, key));
      match end {
        case Next =>
          assert ks[i..][1..] == ks[i + 1..];
          i := i + 1;
        case Stop(e) =>
          return Finished(Some(e)), order;
        case Crash =>
          return Panicked, order;
      }
    }
    return Finished(None), order;
  }

  method FavoriteRound(r: RedisHelper, db: Database, key: string, f: set<SweepSite>) returns (end: StepEnd)
    requires r.Valid()
    modifies r, r.favoriteMutex, db
    ensures r.Valid()
    ensures (end, WorldOf(r, db)) == FavoriteStep(old(WorldOf(r, db)), key, f)
  {
    var m := r.favoriteMutex;
    var lockErr := m.LockByMutex(Lock in f);
    var res := r.Get(key, Get in f);
    var unlockErr := m.UnlockByMutex(Unlock in f);
    if res.Err? {
      return Stop(res.error);
    }
    var vSplit := Split(res.value);
    if |vSplit| < 2 {
      return Crash;
    }
    var kSplit := Split(key);
    if |kSplit| < 4 {
      return Crash;
    }
    var vid := ParseInt64(kSplit[1]);
    if vid.None? {
      return Stop(ParseFailed);
    }
    var uid := ParseInt64(kSplit[3]);
    if uid.None? {
      return Stop(ParseFailed);
    }
    end := FavoriteApplyRound(r, db, key, vid.value, uid.value, vSplit[1], f);
  }

  method FavoriteApplyRound(r: RedisHelper, db: Database, key: string, videoID: I64, userID: I64,
                            redisAt: string, f: set<SweepSite>) returns (end: StepEnd)
    requires r.Valid()
    modifies r, r.favoriteMutex, db
    ensures r.Valid()
    ensures (end, WorldOf(r, db)) == FavoriteApply(old(WorldOf(r, db)), key, videoID, userID, redisAt, f)
  {
    var v := GetVideoById(db.State(), videoID, VideoLookup in f);
    if v.Err? {
      return Stop(v.error);
    }
    var u := GetUserByID(db.State(), userID, UserLookup in f);
    if u.Err? {
      return Stop(u.error);
    }
    if v.value.None? || u.value.None? {
      end := DeleteRound(r, r.favoriteMutex, key, f, 1, None);
      return;
    }
    var favorite := GetFavoriteVideoRelationByUserVideoID(db.State(), userID, videoID, PairLookup in f);
    if favorite.Err? {
      return Stop(favorite.error);
    }
    if (favorite.value.None? && redisAt == "1") || (favorite.value.Some? && redisAt == "2") {
      var video := GetVideoById(db.State(), videoID, AuthorLookup in f);
      if video.Err? {
        return Stop(video.error);
      }
      var authorID := AsInt64(video.value.value.authorID);
      var err;
      if redisAt == "1" {
        err := CreateVideoFavorite(db, userID, videoID, authorID, TxFaults(f));
      } else {
        err := DelFavoriteByUserVideoID(db, userID, videoID, authorID, TxFaults(f));
      }
      end := DeleteRound(r, r.favoriteMutex, key, f, 1, err);
    } else {
      end := DeleteRound(r, r.favoriteMutex, key, f, 1, None);
    }
  }

  // ---------------------------------------------------------------- properties

  lemma FavoriteRoundIsLocal(w: World, key: string, f: set<SweepSite>)
    ensures RoundIsLocal(FavoriteStep, w, key, f)
  {
  }

  lemma FavoriteRoundsAreLocal()
    ensures RoundsAreLocal(FavoriteStep)
  {
    forall w, key, f
      ensures RoundIsLocal(FavoriteStep, w, key, f)
    {
      FavoriteRoundIsLocal(w, key, f);
    }
  }

  /** The like sweep deletes only like write views, changes no entry it keeps, and a sweep
      that returns nil has deleted them all. Read views and follow views stay. */
  lemma FavoriteSweepDeletesOnlyWriteViews(w: World, order: seq<string>, faults: map<string, set<SweepSite>>)
    requires forall k :: k in order <==> k in w.cache.store && GlobMatch(FavoriteCache.FavoritePattern(), k)
    ensures var (res, w') := FavoriteMoveToDBSpec(w, false, order, faults);
            && (forall k :: k in w'.cache.store ==> k in w.cache.store && w'.cache.store[k] == w.cache.store[k])
            && (forall k :: k in w.cache.store && !GlobMatch(FavoriteCache.FavoritePattern(), k) ==> k in w'.cache.store)
            && (res == Finished(None) ==> forall k :: k in w'.cache.store ==> !GlobMatch(FavoriteCache.FavoritePattern(), k))
  {
    FavoriteRoundsAreLocal();
    SweepOnlyDeletesSweptKeys(FavoriteStep, w, order, faults);
    if FavoriteMoveToDBSpec(w, false, order, faults).0 == Finished(None) {
      CleanSweepClearsKeys(FavoriteStep, w, order, faults);
    }
  }

  /** What the round reads back from a write view that an update wrote. */
  lemma RoundReadsBack(w: World, videoID: U64, userID: U64, ct: U64, at: U64)
    requires videoID < TwoTo63 && userID < TwoTo63
    ensures var key := FavoriteCache.FavoriteKey(videoID, userID, "w");
            var kSplit := Split(key);
            && Split(Reconcile.ViewValue(ct, at)) == [NatToString(ct), NatToString(at)]
            && |kSplit| == 5 && ParseInt64(kSplit[1]) == Some(videoID) && ParseInt64(kSplit[3]) == Some(userID)
  {
    Reconcile.ViewSplit(ct, at);
    ParsePairKey("video", videoID, "user", userID, "w");
  }

  /** The world a round starts from: the write view holds `ct::at` and the mutex is free. */
  ghost predicate Cached(w: World, videoID: U64, userID: U64, ct: U64, at: U64)
  {
    var key := FavoriteCache.FavoriteKey(videoID, userID, "w");
    && videoID < TwoTo63 && userID < TwoTo63
    && key in w.cache.store && w.cache.store[key].value == Reconcile.ViewValue(ct, at)
    && !w.cache.held
  }

  /** With the GET and the redsync calls around it going through, a round on a write view an
      update wrote goes straight to the checks against the tables with the parsed pair. */
  lemma FavoriteRoundReachesTables(w: World, videoID: U64, userID: U64, ct: U64, at: U64, f: set<SweepSite>)
    requires Cached(w, videoID, userID, ct, at)
    requires SweepSite.Lock !in f && SweepSite.Get !in f && SweepSite.Unlock !in f
    ensures FavoriteStep(w, FavoriteCache.FavoriteKey(videoID, userID, "w"), f)
         == FavoriteApply(w.(cache := w.cache.(held := false)), FavoriteCache.FavoriteKey(videoID, userID, "w"),
                          videoID, userID, NatToString(at), f)
  {
    RoundReadsBack(w, videoID, userID, ct, at);
  }

  /** A cached like with no row in the tables is committed, and its key deleted. */
  lemma FavoriteRoundCommitsLike(w: World, videoID: U64, userID: U64, ct: U64)
    requires Cached(w, videoID, userID, ct, 1)
    requires videoID in w.db.videos && userID in w.db.users
    requires PairRows(w.db.favorites, userID, videoID) == 0
    ensures var key := FavoriteCache.FavoriteKey(videoID, userID, "w");
            var (end, w') := FavoriteStep(w, key, {});
            var authorID := AsInt64(w.db.videos[videoID].authorID);
            && end == (if CreateVideoFavoriteTx(w.db, userID, videoID, authorID, {}).0 == None then Next
                       else Stop(CreateVideoFavoriteTx(w.db, userID, videoID, authorID, {}).0.value))
            && w'.db == CreateVideoFavoriteTx(w.db, userID, videoID, authorID, {}).1
            && w'.cache == CacheState(w.cache.store - {key}, false)
  {
    FavoriteRoundReachesTables(w, videoID, userID, ct, 1, {});
    assert NatToString(1) == "1";
  }

  /** The write-behind loses the event when the transaction fails: the key is deleted all the
      same, the tables are as before, and nothing records the like any more. */
  lemma FavoriteRoundLosesFailedLike(w: World, videoID: U64, userID: U64, ct: U64)
    requires Cached(w, videoID, userID, ct, 1)
    requires videoID in w.db.videos && userID in w.db.users
    requires PairRows(w.db.favorites, userID, videoID) == 0
    ensures var key := FavoriteCache.FavoriteKey(videoID, userID, "w");
            var (end, w') := FavoriteStep(w, key, {Tx(Commit)});
            end.Stop? && w' == World(CacheState(w.cache.store - {key}, false), w.db)
  {
    FavoriteRoundReachesTables(w, videoID, userID, ct, 1, {Tx(Commit)});
    assert NatToString(1) == "1";
    assert TxFaults({Tx(Commit)}) == {Commit};
  }

  /** A cached unlike is applied to a pair that has a row, and its key deleted. */
  lemma FavoriteRoundAppliesUnlike(w: World, videoID: U64, userID: U64, ct: U64)
    requires Cached(w, videoID, userID, ct, 2)
    requires videoID in w.db.videos && userID in w.db.users
    requires PairRows(w.db.favorites, userID, videoID) > 0
    ensures var key := FavoriteCache.FavoriteKey(videoID, userID, "w");
            var (end, w') := FavoriteStep(w, key, {});
            var authorID := AsInt64(w.db.videos[videoID].authorID);
            && w'.db == DelFavoriteByUserVideoIDTx(w.db, userID, videoID, authorID, {}).1
            && w'.cache == CacheState(w.cache.store - {key}, false)
  {
    var key := FavoriteCache.FavoriteKey(videoID, userID, "w");
    FavoriteRoundReachesTables(w, videoID, userID, ct, 2, {});
    assert NatToString(2) == "2";
    var w0 := w.(cache := w.cache.(held := false));
    var authorID := AsInt64(w.db.videos[videoID].authorID);
    assert TxFaults({}) == {};
    var (err, db') := DelFavoriteByUserVideoIDTx(w.db, userID, videoID, authorID, {});
    assert GetFavoriteVideoRelationByUserVideoID(w.db, userID, videoID, false).value.Some?;
    assert FavoriteApply(w0, key, videoID, userID, "2", {}) == DeleteThen(w0.(db := db'), key, {}, 1, err);
  }

  /** A cached state the tables already have (a like on a pair with a row, an unlike on one
      without), or any other action, leaves the tables alone; the key is deleted. */
  lemma FavoriteRoundSettled(w: World, videoID: U64, userID: U64, ct: U64, at: U64)
    requires Cached(w, videoID, userID, ct, at)
    requires videoID in w.db.videos && userID in w.db.users
    requires at == 1 ==> PairRows(w.db.favorites, userID, videoID) > 0
    requires at == 2 ==> PairRows(w.db.favorites, userID, videoID) == 0
    ensures var key := FavoriteCache.FavoriteKey(videoID, userID, "w");
            FavoriteStep(w, key, {}) == (Next, World(CacheState(w.cache.store - {key}, false), w.db))
  {
    FavoriteRoundReachesTables(w, videoID, userID, ct, at, {});
    assert NatToString(1) == "1" && NatToString(2) == "2";
    if NatToString(at) == "1" {
      Reconcile.NatToStringInjective(at, 1);
    }
    if NatToString(at) == "2" {
      Reconcile.NatToStringInjective(at, 2);
    }
  }

  /** A pair whose video or user is gone: the key is deleted and the tables are left alone. */
  lemma FavoriteRoundDropsUnknownPair(w: World, videoID: U64, userID: U64, ct: U64, at: U64)
    requires Cached(w, videoID, userID, ct, at)
    requires videoID !in w.db.videos || userID !in w.db.users
    ensures var key := FavoriteCache.FavoriteKey(videoID, userID, "w");
            FavoriteStep(w, key, {}) == (Next, World(CacheState(w.cache.store - {key}, false), w.db))
  {
    FavoriteRoundReachesTables(w, videoID, userID, ct, at, {});
  }

  /** A key gone between KEYS and GET (redis.Nil) ends the whole sweep with that error. */
  lemma FavoriteRoundStopsOnMissingKey(w: World, key: string)
    requires key !in w.cache.store && !w.cache.held
    ensures FavoriteStep(w, key, {}) == (Stop(RedisNil), w)
  {
  }

  /** The round reads the view whether or not its lock was granted: with the mutex already
      held it does exactly what it does with the mutex free, and it leaves the mutex free. */
  lemma FavoriteRoundIgnoresHeldMutex(w: World, key: string)
    ensures FavoriteStep(w.(cache := w.cache.(held := true)), key, {})
         == FavoriteStep(w.(cache := w.cache.(held := false)), key, {})
  {
  }

  /** A value that is not two `::`-separated parts makes the round panic. */
  lemma FavoriteRoundPanicsOnBadValue(w: World, key: string)
    requires key in w.cache.store && |Split(w.cache.store[key].value)| < 2
    ensures FavoriteStep(w, key, {}).0 == Crash
  {
  }
}
