/**
 * `RelationCache` and `UpdateRelation` of dal/redis/relation.go: the follow domain of the
 * cache, keyed `user::<uid>::to_user::<tid>::r|w` and guarded by "mutex-relation".
 */
module RelationCache {
  import opened Errs
  import opened GoText
  import opened RedisInit
  import opened Reconcile
  import opened CacheKeys
  import FavoriteCache

  /** One follow (action 1) or unfollow (action 2) event; all four fields are Go `uint`s. */
  datatype RelationCache = RelationCache(userID: U64, toUserID: U64, actionType: U64, createdAt: U64)

  /** `user::%d::to_user::%d::<view>`. */
  function RelationKey(userID: U64, toUserID: U64, view: string): string
  {
    PairKey("user", userID, "to_user", toUserID, view)
  }

  /** The KEYS pattern of the follow sweep. */
  function RelationPattern(): string
  {
    SweepPattern("user", "to_user")
  }

  /** `UpdateRelation`: the shared update rule on the pair's two views, under the follow
      mutex. The like mutex is not touched. */
  method UpdateRelation(r: RedisHelper, relation: RelationCache, f: set<Site>) returns (st: Status)
    requires r.Valid()
    modifies r, r.relationMutex
    ensures (st, CacheState(r.store, r.relationMutex.held))
         == Update(CacheState(old(r.store), old(r.relationMutex.held)),
                   RelationKey(relation.userID, relation.toUserID, "r"),
                   RelationKey(relation.userID, relation.toUserID, "w"),
                   relation.createdAt, relation.actionType, f)
    ensures r.favoriteMutex.held == old(r.favoriteMutex.held)
  {
    st := UpdateViews(r, r.relationMutex,
                      RelationKey(relation.userID, relation.toUserID, "r"),
                      RelationKey(relation.userID, relation.toUserID, "w"),
                      relation.createdAt, relation.actionType, f);
  }

  /** The read view and the write view of a pair are two keys, and no two pairs share one. */
  lemma RelationKeysDistinct(u1: U64, t1: U64, view1: string, u2: U64, t2: U64, view2: string)
    requires NoColon(view1) && NoColon(view2)
    requires (u1, t1, view1) != (u2, t2, view2)
    ensures RelationKey(u1, t1, view1) != RelationKey(u2, t2, view2)
  {
    if RelationKey(u1, t1, view1) == RelationKey(u2, t2, view2) {
      PairKeyInjective("user", u1, "to_user", t1, view1, u2, t2, view2);
    }
  }

  /** The follow sweep visits every write view and no read view. */
  lemma RelationSweepSelectsWriteViews(userID: U64, toUserID: U64)
    ensures RelationPattern() == "user::*::to_user::*::w"
    ensures GlobMatch(RelationPattern(), RelationKey(userID, toUserID, "w"))
    ensures !GlobMatch(RelationPattern(), RelationKey(userID, toUserID, "r"))
  {
    WriteKeyMatches("user", userID, "to_user", toUserID);
    ReadKeyNotSwept("user", userID, "to_user", toUserID, "user", "to_user");
  }

  /** Neither sweep picks up the other domain's keys. */
  lemma SweepsAreDisjoint(videoID: U64, userID: U64, toUserID: U64, view1: string, view2: string)
    ensures !GlobMatch(RelationPattern(), FavoriteCache.FavoriteKey(videoID, userID, view1))
    ensures !GlobMatch(FavoriteCache.FavoritePattern(), RelationKey(userID, toUserID, view2))
  {
    FirstCharDecides(RelationPattern(), FavoriteCache.FavoriteKey(videoID, userID, view1));
    FirstCharDecides(FavoriteCache.FavoritePattern(), RelationKey(userID, toUserID, view2));
  }

  /** An update touches only its own pair's views: every other pair's views are as before. */
  lemma UpdateRelationIsLocal(s: CacheState, relation: RelationCache, f: set<Site>,
                              userID: U64, toUserID: U64, view: string)
    requires NoColon(view) && (userID, toUserID) != (relation.userID, relation.toUserID)
    ensures var k := RelationKey(userID, toUserID, view);
            var s1 := Update(s, RelationKey(relation.userID, relation.toUserID, "r"),
                             RelationKey(relation.userID, relation.toUserID, "w"),
                             relation.createdAt, relation.actionType, f).1;
            (k in s1.store <==> k in s.store) && (k in s.store ==> s1.store[k] == s.store[k])
  {
    RelationKeysDistinct(userID, toUserID, view, relation.userID, relation.toUserID, "r");
    RelationKeysDistinct(userID, toUserID, view, relation.userID, relation.toUserID, "w");
  }
}
