/**
 * `FavoriteCache` and `UpdateFavorite` of dal/redis/favorite.go: the like domain of the
 * cache, keyed `video::<vid>::user::<uid>::r|w` and guarded by "mutex-favorite".
 */
module FavoriteCache {
  import opened Errs
  import opened GoText
  import opened RedisInit
  import opened Reconcile
  import opened CacheKeys

  /** One like (action 1) or unlike (action 2) event; all four fields are Go `uint`s. */
  datatype FavoriteCache = FavoriteCache(videoID: U64, userID: U64, actionType: U64, createdAt: U64)

  /** `video::%d::user::%d::<view>`. */
  function FavoriteKey(videoID: U64, userID: U64, view: string): string
  {
    PairKey("video", videoID, "user", userID, view)
  }

  /** The KEYS pattern of the like sweep. */
  function FavoritePattern(): string
  {
    SweepPattern("video", "user")
  }

  /** `UpdateFavorite`: the shared update rule on the pair's two views, under the like mutex.
      The follow mutex is not touched. */
  method UpdateFavorite(r: RedisHelper, favorite: FavoriteCache, f: set<Site>) returns (st: Status)
    requires r.Valid()
    modifies r, r.favoriteMutex
    ensures (st, CacheState(r.store, r.favoriteMutex.held))
         == Update(CacheState(old(r.store), old(r.favoriteMutex.held)),
                   FavoriteKey(favorite.videoID, favorite.userID, "r"),
                   FavoriteKey(favorite.videoID, favorite.userID, "w"),
                   favorite.createdAt, favorite.actionType, f)
    ensures r.relationMutex.held == old(r.relationMutex.held)
  {
    st := UpdateViews(r, r.favoriteMutex,
                      FavoriteKey(favorite.videoID, favorite.userID, "r"),
                      FavoriteKey(favorite.videoID, favorite.userID, "w"),
                      favorite.createdAt, favorite.actionType, f);
  }

  /** The read view and the write view of a pair are two keys, and no two pairs share one. */
  lemma FavoriteKeysDistinct(v1: U64, u1: U64, view1: string, v2: U64, u2: U64, view2: string)
    requires NoColon(view1) && NoColon(view2)
    requires (v1, u1, view1) != (v2, u2, view2)
    ensures FavoriteKey(v1, u1, view1) != FavoriteKey(v2, u2, view2)
  {
    if FavoriteKey(v1, u1, view1) == FavoriteKey(v2, u2, view2) {
      PairKeyInjective("video", v1, "user", u1, view1, v2, u2, view2);
    }
  }

  /** The like sweep visits every write view and no read view. */
  lemma FavoriteSweepSelectsWriteViews(videoID: U64, userID: U64)
    ensures FavoritePattern() == "video::*::user::*::w"
    ensures GlobMatch(FavoritePattern(), FavoriteKey(videoID, userID, "w"))
    ensures !GlobMatch(FavoritePattern(), FavoriteKey(videoID, userID, "r"))
  {
    WriteKeyMatches("video", videoID, "user", userID);
    ReadKeyNotSwept("video", videoID, "user", userID, "video", "user");
  }

  /** An update touches only its own pair's views: every other pair's views are as before. */
  lemma UpdateFavoriteIsLocal(s: CacheState, favorite: FavoriteCache, f: set<Site>,
                              videoID: U64, userID: U64, view: string)
    requires NoColon(view) && (videoID, userID) != (favorite.videoID, favorite.userID)
    ensures var k := FavoriteKey(videoID, userID, view);
            var s1 := Update(s, FavoriteKey(favorite.videoID, favorite.userID, "r"),
                             FavoriteKey(favorite.videoID, favorite.userID, "w"),
                             favorite.createdAt, favorite.actionType, f).1;
            (k in s1.store <==> k in s.store) && (k in s.store ==> s1.store[k] == s.store[k])
  {
    FavoriteKeysDistinct(videoID, userID, view, favorite.videoID, favorite.userID, "r");
    FavoriteKeysDistinct(videoID, userID, view, favorite.videoID, favorite.userID, "w");
  }

  /** A like followed by an unlike, both stamped 0 as the producers send them: the unlike
      is dropped and the like stays cached. */
  lemma LikeThenUnlikeKeepsLike(s: CacheState, videoID: U64, userID: U64)
    requires !s.held && FavoriteKey(videoID, userID, "w") !in s.store
    ensures var rk, wk := FavoriteKey(videoID, userID, "r"), FavoriteKey(videoID, userID, "w");
            var s1 := Update(s, rk, wk, 0, 1, {}).1;
            Update(s1, rk, wk, 0, 2, {}) == (Done(None), s1) && s1.store[wk].value == "0::1"
  {
    var rk, wk := FavoriteKey(videoID, userID, "r"), FavoriteKey(videoID, userID, "w");
    FavoriteKeysDistinct(videoID, userID, "r", videoID, userID, "w");
    UpdateAbsentWritesBoth(s, rk, wk, 0, 1);
    var s1 := CacheState(Written(s.store, rk, wk, 0, 1), false);
    ZeroTimestampFirstWins(s1, rk, wk, 1, 2);
    assert NatToString(0) == "0" && NatToString(1) == "1";
  }
}
