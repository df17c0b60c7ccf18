# Write-behind like/follow engine of the tiktok backend

This project models the part of the tiktok backend that records likes and follows. It
also covers the small rules around that part.

- **Queue to cache.** A like or follow action arrives on a RabbitMQ queue. A consumer
  (`consume` in `cmd/favorite/service/timer.go` and `cmd/relation/service/timer.go`)
  decodes it and passes it to `UpdateFavorite` or `UpdateRelation`.
- **Two views per pair.** Under its domain's redsync mutex, the update writes two views
  for each pair:
  - a *read view* `…::r`, which expires after `ExpireTime` (6 s);
  - a *write view* `…::w`, which never expires.
- **Conflicts.** The cached `"<createdAt>::<actionType>"` value wins or loses by the
  rule in `Reconcile`.
- **Sweep to MySQL.** Every `frequency` seconds a sweep (`FavoriteMoveToDB`,
  `RelationMoveToDB`) does the following:
  - lists the write views;
  - parses the ids back out of each key and the action out of its value;
  - checks that the video and users exist;
  - runs a transaction that inserts or deletes a row and adjusts the denormalised
    counters;
  - deletes the key.
- **Other DB transactions.** The transactions of `dal/db` for comments and for publishing
  are modelled too.
- **Small rules.** The model also covers:
  - the per-token token-bucket limiter of `pkg/middleware/limit_init.go`;
  - the etcd key layout and the resolver loop of `pkg/etcd`;
  - the decision table of `TokenAuthMiddleware`.

## How the model is built

- **Stateful objects are classes.** The Redis client with its key space
  (`RedisInit.RedisHelper`), each redsync mutex (`RedisInit.Mutex`), the MySQL tables
  (`DbTables.Database`) and the token buckets (`RateLimit.TokenBucket`,
  `RateLimit.TokenBuckets`) are classes. Their methods update fields under `modifies`
  clauses.
- **Each method is tied to a function.** Every imperative operation is a method whose
  `ensures` equates its result and its new state with a function of the old state, for
  example `Reconcile.Update`, `FavoriteSweep.FavoriteMoveToDBSpec` or
  `DbFavorite.CreateVideoFavoriteTx`. The lemmas then state what the source promises
  about that function.
- **Failures are parameters.** Every external call can fail: a Redis command, a redsync
  lock, a gorm statement, an AMQP ack. Each operation takes the set of its call sites
  that fail, and the empty set gives a fault-free run.
- **Panics are modelled.** A Go panic (an index past the end of a `strings.Split`
  result) is a result of its own (`Panicked`, `Crash`, `Aborted`). The mutex then stays
  held until its expiry, which `Mutex.Expire` stands for.
- **Integers follow Go.** Go's integer conversions are written out:
  - `uint(int64)` wraps negatives to 2^64 + x;
  - `int64(uint)` and `int(uint)` make values from 2^63 up negative;
  - the bucket's `int64` arithmetic wraps.
- **Counters and text.** Counter columns are unsigned, so lowering a 0 is a failed
  statement. `strconv.ParseInt` rejects values outside the `int64` range. The
  "newer" test is Go's string comparison, byte by byte.

In several places the code does something other than what its comments or the
project's description suggest. The model follows the code, and lemmas show the
consequence:
- **Timestamps order wrongly across widths.** "Newer" compares decimal text, so 10 is
  older than 9 (`GoText.TextOrderIsNotNumeric`, `Reconcile.OlderEventWinsAcrossWidths`).
- **The first action wins.** The producers never set `CreatedAt`, so every event
  carries 0 and the first action cached is never replaced
  (`Reconcile.ZeroTimestampFirstWins`, `FavoriteCache.LikeThenUnlikeKeepsLike`).
- **Failed transactions lose the event.** The sweep deletes the cache key even when the
  transaction failed (`FavoriteSweep.FavoriteRoundLosesFailedLike`).
- **Only the write view is swept.** The sweep deletes the write view and leaves the
  read view to expire.
- **Like rows are not unique.** Nothing makes (user, video) unique in the like table.
  A delete removes every matching row but lowers each counter by one
  (`DbFavorite.DelFavoriteDuplicatesBreakCounters`).
- **The relation sweep panics on a failed GET.** It splits the reply before it checks
  the error, so a failed GET always panics
  (`RelationSweep.RelationRoundPanicsOnGetError`).
- **Relation keys are deleted twice.** The relation sweep deletes its key a second time
  after every transaction (`RelationSweep.RelationSecondDeleteIsHarmless`).
- **The wrong video's comment count drops.** `DelCommentByID` lowers the comment counter
  of its `vid` argument, not that of the comment's own video
  (`DbComment.DelCommentWrongVideoBreaksCounters`).
- **Some counter errors are masked.** A failed user or author counter update returns
  the earlier, nil `err`, so the transaction commits partly updated
  (`DbFavorite.CreateVideoFavoriteMaskedCommit`, `DbPublish.CreateVideoMaskedCommit`).
- **Weights leak between etcd entries.** The resolver reuses one `instanceInfo`, so an
  entry without a weight inherits the previous entry's weight
  (`EtcdDiscovery.WeightLeaksFromPreviousEntry`). An entry with a mistyped member
  yields no instance, but the members decoded before and after the mistake stay in
  `info` (`EtcdDiscovery.MistypedEntryLeaks`).
- **Tags are shared between etcd instances.** `json.Unmarshal` adds an object into the
  map `info.Tags` already holds, and `NewInstance` keeps that map. So all instances share
  one map holding every entry's tags, until a `"tags": null` starts a new one
  (`EtcdDiscovery.TagsAccumulateAcrossEntries`, `EtcdDiscovery.NullStartsNewTags`).
- **Foreign keys guard the inserts.** `AutoMigrate` gives every belongs-to field a foreign
  key. So a like, follow, comment or video naming a missing user or video fails at its
  INSERT with the driver's error, not later at a counter (`DbComment.CreateCommentMissingVideoRollsBack`).
  The author of a liked video has no such key, so a missing author fails at its counter with
  `ErrDatabase` (`DbFavorite.CreateVideoFavoriteMissingRollsBack`).
- **A rollback keeps the ids used.** InnoDB does not give back auto-increment values, so
  after a rollback the next id stays advanced (`DbTables.RolledBack`).
- **The etcd prefix is too loose.** The prefix `kitex/registry-etcd/<name>` also matches
  services whose names extend `<name>` (`EtcdDiscovery.ResolveFetchesLongerNames`).

## Model

| member | source | states |
|---|---|---|
| GoText.Wrap64 | pkg/middleware/limit_init.go:23 | the result is in the int64 range, equals the input when that fits, and is congruent to it modulo 2^64 |
| GoText.NatToString | dal/redis/favorite.go:55-57 | `%d` of an unsigned id is a non-empty digit string without ':' whose decimal value is the number, with no leading zero |
| GoText.Itoa | dal/redis/favorite.go:91 | `strconv.Itoa` gives the digits of a non-negative int and a '-'-led string for a negative one, never containing ':' |
| GoText.GoInt | dal/redis/favorite.go:91 | `int(x)` of a uint keeps values below 2^63 and turns larger ones negative |
| GoText.ParseInt64 | dal/redis/common.go:85-94 | an accepted text lies in the int64 range and is a signed or plain digit string |
| GoText.ParseNatToString | dal/redis/common.go:85-94 | parsing the `%d` text of an id below 2^63 gives the id back |
| GoText.ParseRejectsWideIds | dal/redis/common.go:85-94 | an id from 2^63 up is rejected by `ParseInt`, so its key stops the sweep |
| GoText.Split | dal/redis/favorite.go:89 | `strings.Split(s, "::")` always returns at least one piece |
| GoText.SplitJoin | dal/redis/favorite.go:89-90 | splitting the "::"-join of colon-free pieces gives back exactly those pieces |
| GoText.Join | dal/redis/favorite.go:55-57 | definition: the "::"-join in which keys and values are written; `GoText.SplitJoin` states that `Split` inverts it |
| GoText.TextOrderIsNumericForEqualWidth | dal/redis/favorite.go:99 | for timestamps written with the same number of digits, the string `>` agrees with numeric order, in both directions |
| GoText.TextOrderIsNotNumeric | dal/redis/favorite.go:99 | 9 < 10 but "10" < "9" as text, so the newer-than test is not numeric |
| GoText.Less | dal/redis/favorite.go:99 | definition: Go's `<` on strings, byte by byte with a proper prefix first; `GoText.TextOrderIsNumericForEqualWidth` and `GoText.TextOrderIsNotNumeric` state how it relates to numeric order |
| GoText.Contains | pkg/middleware/auth.go:29 | definition: `strings.Contains`; `GoText.ContainsIffOccurs` states that it holds iff the substring occurs at some offset |
| GoText.ContainsIffOccurs | pkg/middleware/auth.go:29 | `Contains(s, sub)` holds iff `sub` occurs in `s` at some offset, in both directions |
| GoText.GlobMatch | dal/redis/common.go:20 | definition: Redis glob matching for patterns of literal characters and `*`; `CacheKeys.WriteKeyMatches` and `CacheKeys.ReadKeyNotSwept` state what the sweep patterns select |
| CacheKeys.PairKeyIsJoin | dal/redis/favorite.go:55-56 | a view key is the "::"-join of its five fields |
| CacheKeys.PairKey | dal/redis/favorite.go:55-56 | definition: the `Sprintf` key shape `<a>::%d::<b>::%d::<view>`; `CacheKeys.PairKeySplit`, `CacheKeys.PairKeyInjective` and `CacheKeys.ParsePairKey` state its properties |
| CacheKeys.SweepPattern | dal/redis/common.go:66 | definition: the KEYS pattern `<a>::*::<b>::*::w`; `CacheKeys.WriteKeyMatches` and `CacheKeys.ReadKeyNotSwept` state what it matches |
| CacheKeys.PairKeySplit | dal/redis/common.go:83-84 | splitting a view key on "::" yields its five fields in order |
| CacheKeys.PairKeyInjective | dal/redis/favorite.go:55-56 | two keys of one domain are equal only if both ids and the view agree |
| CacheKeys.WriteKeyMatches | dal/redis/common.go:66 | every write-view key of a domain matches that domain's KEYS pattern |
| CacheKeys.ReadKeyNotSwept | dal/redis/common.go:66 | a read-view key matches no sweep pattern, since the pattern ends in `w` |
| CacheKeys.ParsePairKey | dal/redis/common.go:83-94 | segments 1 and 3 of a key with ids below 2^63 parse back to those ids |
| RedisInit.TtlOf | dal/redis/common.go:49 | an expiration of 0 stores a persistent key, a positive one a key expiring after that many seconds |
| RedisInit.TryLock | dal/redis/init.go:36-41 | the lock succeeds iff the mutex was free and the call did not fail; it then holds the mutex; a failure returns the error and leaves the mutex as it was |
| RedisInit.TryUnlock | dal/redis/init.go:44-49 | the unlock succeeds iff the mutex was held and the call did not fail; it then frees it; a failure leaves the mutex as it was |
| RedisInit.LockExcludes | dal/redis/init.go:35-41 | after a successful lock every further lock of the same mutex fails until it is unlocked |
| RedisInit.Mutex.constructor | dal/redis/init.go:92-93 | a new mutex carries its name and is free |
| RedisInit.Mutex.LockByMutex | dal/redis/init.go:36-41 | the error returned and the new held flag are those of `TryLock` |
| RedisInit.Mutex.UnlockByMutex | dal/redis/init.go:44-49 | the error returned and the new held flag are those of `TryUnlock` |
| RedisInit.Mutex.Expire | dal/redis/init.go:92-93 | a redsync lock that outlives its expiry is free again |
| RedisInit.GetReply | dal/redis/common.go:73 | GET returns the stored value iff the key exists and the call succeeds, `redis.Nil` for a missing key, the error for a failed call |
| RedisInit.SetReply | dal/redis/common.go:49 | a successful SET stores the value with the given TTL and touches no other key; a failed one changes nothing |
| RedisInit.DelReply | dal/redis/common.go:34 | a successful DEL removes exactly that key; a failed one changes nothing |
| RedisInit.RedisHelper.constructor | dal/redis/init.go:72-94 | the client starts with an empty key space and two distinct, free mutexes named "mutex-favorite" and "mutex-relation" |
| RedisInit.RedisHelper.Exists | dal/redis/favorite.go:59 | EXISTS reports whether the key is present, or the call's error |
| RedisInit.RedisHelper.Get | dal/redis/common.go:73 | the reply is `GetReply` of the current key space |
| RedisInit.RedisHelper.Set | dal/redis/common.go:49 | the reply and the new key space are those of `SetReply` |
| RedisInit.RedisHelper.Del | dal/redis/common.go:34 | the reply and the new key space are those of `DelReply` |
| RedisInit.RedisHelper.Keys | dal/redis/common.go:20 | KEYS returns each stored key matching the glob pattern exactly once, or the call's error |
| RedisInit.RedisHelper.ExpireKey | dal/redis/init.go:16 | once its TTL runs out a key with an expiry disappears; a persistent key stays |
| RedisCommon.SetKeySpec | dal/redis/common.go:47-60 | `setKey` always issues the SET and then always unlocks; the unlock error takes priority over the SET error, and nil means both succeeded |
| RedisCommon.SetKey | dal/redis/common.go:47-60 | the method's error, key space and mutex flag are those of `SetKeySpec` |
| RedisCommon.DeleteKeysSpec | dal/redis/common.go:27-45 | a failed lock deletes nothing; otherwise DEL runs, the mutex is released, and an unlock error takes priority over a DEL error |
| RedisCommon.DeleteKeys | dal/redis/common.go:27-45 | the method's error, key space and mutex flag are those of `DeleteKeysSpec` |
| RedisCommon.DeleteKeysTwice | dal/redis/common.go:27-45 | a second fault-free delete of the same key succeeds and changes nothing |
| RedisCommon.GetKeys | dal/redis/common.go:18-25 | on success the keys are exactly the stored keys matching the pattern, without repeats; on failure the error |
| Reconcile.ViewValue | dal/redis/favorite.go:57 | the stored value `"<createdAt>::<actionType>"` has at least three characters |
| Reconcile.WriteBoth | dal/redis/favorite.go:69-86 | writing both views returns without panic and changes no key other than the pair's two views |
| Reconcile.Update | dal/redis/favorite.go:48-126 | only the pair's two views can change; a held mutex or a failed lock returns the lock error with no change; a panic leaves the store as it was with the mutex held |
| Reconcile.UpdateViews | dal/redis/favorite.go:48-126 | the imperative update on the client and mutex yields the status, key space and mutex flag that `Update` gives |
| Reconcile.ViewSplit | dal/redis/favorite.go:89-90 | splitting a stored value gives back its createdAt and actionType texts |
| Reconcile.Decide | dal/redis/favorite.go:88-123 | definition: the split of the cached read view and the two comparisons that follow; `Reconcile.DecideOnView` states the decision for every intact cached value and `Reconcile.UpdateExpiredReadPanics` the crash |
| Reconcile.NatToStringInjective | dal/redis/favorite.go:91 | distinct numbers have distinct decimal texts, so the same-action test compares the actions themselves |
| Reconcile.DecideOnView | dal/redis/favorite.go:88-123 | against an intact cached value the decision is: same action keeps it, otherwise a text-greater createdAt overwrites it, otherwise the event is discarded |
| Reconcile.WideActionNeverKeeps | dal/redis/favorite.go:91 | an action from 2^63 up prints negative through `int`, so it never equals a cached action |
| Reconcile.UpdateAbsentWritesBoth | dal/redis/favorite.go:69-86 | with no write view, a fault-free update writes the read view with the 6 s TTL and the write view without TTL, returns nil and frees the mutex |
| Reconcile.UpdateSameActionKeeps | dal/redis/favorite.go:91-98 | an event repeating the cached action returns nil and leaves the cache unchanged |
| Reconcile.UpdateNewerOverwrites | dal/redis/favorite.go:99-116 | a different action with a text-greater createdAt overwrites both views and returns nil |
| Reconcile.UpdateStaleDiscards | dal/redis/favorite.go:117-123 | a different action whose createdAt is not text-greater is dropped: nil, cache unchanged |
| Reconcile.UpdateExpiredReadPanics | dal/redis/favorite.go:88-90 | when the write view exists but the read view has expired or GET fails, the update panics with the mutex held and nothing written |
| Reconcile.PanicBlocksDomain | dal/redis/favorite.go:48-52 | after a panicked update the mutex stays held, so every later update of the domain fails to lock and changes nothing until the mutex expires (`RedisInit.Mutex.Expire`) |
| Reconcile.UpdateExistsErrorNoWrite | dal/redis/relation.go:58-67 | an EXISTS error writes nothing, unlocks, and returns the unlock error if that fails, else the EXISTS error |
| Reconcile.UpdateRelockFailureHalfWritten | dal/redis/favorite.go:69-80 | when the relock between the two writes fails, only the read view is written and the lock error is returned |
| Reconcile.UpdateReleasesLock | dal/redis/favorite.go:59-124 | when no unlock call fails, every return path that does not panic ends with the mutex free |
| Reconcile.UpdateNilMeansSettled | dal/redis/favorite.go:69-126 | a nil result means either both views were written with the event, or the cached value already decides to keep or discard it |
| Reconcile.UpdateIdempotent | dal/redis/favorite.go:91-98 | applying the same event twice leaves the cache as applying it once |
| Reconcile.WrittenTwice | dal/redis/favorite.go:99-116 | a second overwrite of both views replaces the first entirely |
| Reconcile.LaterArrivesLast | dal/redis/favorite.go:99-116 | when a text-newer event arrives after an older one, the newer one is cached |
| Reconcile.LaterArrivesFirst | dal/redis/favorite.go:117-123 | when a text-newer event arrives first, the older one arriving later is discarded |
| Reconcile.LastWriterWinsEqualWidth | dal/redis/favorite.go:88-123 | for two different actions with equal-width timestamps the numerically later one is cached whatever the arrival order |
| Reconcile.OlderEventWinsAcrossWidths | dal/redis/favorite.go:99 | an event at time 9 arriving after one at time 10 overwrites it |
| Reconcile.ZeroTimestampFirstWins | dal/redis/favorite.go:99-123 | with createdAt 0 on both sides no later event replaces the cached one |
| FavoriteCache.UpdateFavorite | dal/redis/favorite.go:23-127 | the like update runs the rule of `Update` on `video::<vid>::user::<uid>::r/w` under the like mutex, and leaves the follow mutex alone |
| FavoriteCache.FavoriteKey | dal/redis/favorite.go:55-56 | definition: `video::%d::user::%d::<view>`; `FavoriteCache.FavoriteKeysDistinct` states that distinct triples give distinct keys |
| FavoriteCache.FavoritePattern | dal/redis/common.go:66 | definition: `video::*::user::*::w`; `FavoriteCache.FavoriteSweepSelectsWriteViews` states what it matches |
| FavoriteCache.FavoriteKeysDistinct | dal/redis/favorite.go:55-56 | different (video, user, view) triples give different like keys |
| FavoriteCache.FavoriteSweepSelectsWriteViews | dal/redis/common.go:66 | the like sweep pattern is `video::*::user::*::w`; it matches every like write view and no like read view |
| FavoriteCache.UpdateFavoriteIsLocal | dal/redis/favorite.go:55-56 | a like update leaves the views of every other (video, user) pair untouched |
| FavoriteCache.LikeThenUnlikeKeepsLike | dal/redis/favorite.go:91-123 | with the producers' createdAt of 0, an unlike after a like is discarded and the cached value stays "0::1" |
| RelationCache.UpdateRelation | dal/redis/relation.go:18-126 | the follow update runs the rule of `Update` on `user::<uid>::to_user::<tid>::r/w` under the follow mutex, and leaves the like mutex alone |
| RelationCache.RelationKey | dal/redis/relation.go:54-55 | definition: `user::%d::to_user::%d::<view>`; `RelationCache.RelationKeysDistinct` states that distinct triples give distinct keys |
| RelationCache.RelationPattern | dal/redis/common.go:174 | definition: `user::*::to_user::*::w`; `RelationCache.RelationSweepSelectsWriteViews` and `RelationCache.SweepsAreDisjoint` state what it matches |
| RelationCache.RelationKeysDistinct | dal/redis/relation.go:54-55 | different (user, to-user, view) triples give different follow keys |
| RelationCache.RelationSweepSelectsWriteViews | dal/redis/common.go:174 | the follow sweep pattern is `user::*::to_user::*::w`; it matches every follow write view and no follow read view |
| RelationCache.SweepsAreDisjoint | dal/redis/common.go:174 | the follow pattern matches no like key, and the like pattern of line 66 matches no follow key |
| RelationCache.UpdateRelationIsLocal | dal/redis/relation.go:54-55 | a follow update leaves the views of every other pair untouched |
| Consumers.Deliver | cmd/favorite/service/timer.go:21-62 | for one message: an undecodable body changes nothing and is not acked; an update error skips it unacked; a panic aborts the loop; a nil update is acked when acking is on, and a failed ack ends the loop |
| Consumers.Drain | cmd/favorite/service/timer.go:21-64 | the loop never blocks, acks nothing when acking is off, and returns an error only for a failed ack |
| Consumers.FavoriteConsumeSpec | cmd/favorite/service/timer.go:14-65 | definition: a failed `ConsumeSimple` blocks; otherwise the deliveries are drained with acking on iff auto-ack is off; `Consumers.FavoriteConsume` is proved against it and `Consumers.AutoAckNeverAcks` and `Consumers.ConsumeErrorBlocks` state its properties |
| Consumers.RelationConsumeSpec | cmd/relation/service/timer.go:15-35 | definition: a failed `ConsumeSimple` blocks; otherwise the deliveries are drained with acking off; `Consumers.RelationConsume` is proved against it and `Consumers.RelationConsumeNeverAcks` states its properties |
| Consumers.FavoriteConsume | cmd/favorite/service/timer.go:14-65 | the like consumer's end, cache, mutex flag and acked tags are those of the spec over its deliveries, and the follow mutex is untouched |
| Consumers.FavoriteDeliver | cmd/favorite/service/timer.go:27-62 | one pass of the like loop matches `Deliver`, with acking on exactly when auto-ack is off |
| Consumers.RelationDeliver | cmd/relation/service/timer.go:23-33 | one pass of the follow loop matches `Deliver` with acking off, and acks nothing |
| Consumers.RelationConsume | cmd/relation/service/timer.go:15-35 | the follow consumer's end, cache and mutex flag are those of the spec, with no acks, and the like mutex is untouched |
| Consumers.DrainConcat | cmd/favorite/service/timer.go:21 | messages are applied in arrival order: a batch that ends normally, followed by more, is the same as draining the first batch and then continuing from its state |
| Consumers.UndecodableIsSkipped | cmd/favorite/service/timer.go:27-38 | inserting an undecodable message anywhere changes neither the cache, the acks nor the end |
| Consumers.FailedUpdateIsSkipped | cmd/favorite/service/timer.go:41-50 | after an update error the loop continues with the next message from the state the update left |
| Consumers.AppliedIsAcked | cmd/favorite/service/timer.go:56-62 | with acking on, a nil update acks the message's tag, and a failed ack ends the loop with that error |
| Consumers.AcksAreOfDecodedDeliveries | cmd/favorite/service/timer.go:56-62 | every acked tag belongs to a delivered message that decoded and whose ack succeeded |
| Consumers.AutoAckNeverAcks | cmd/favorite/service/timer.go:56 | with auto-ack on, the like consumer acks nothing and never returns an ack error |
| Consumers.RelationConsumeNeverAcks | cmd/relation/service/timer.go:21-34 | the follow consumer acks nothing and never returns an error |
| Consumers.ConsumeErrorBlocks | cmd/favorite/service/timer.go:15-19 | a `ConsumeSimple` error is only logged: the loop then ranges over a nil channel and blocks, with the cache unchanged |
| DbTables.AsUint | dal/db/favorite.go:60 | `uint(x)` keeps non-negative values and wraps negative ones to 2^63 or more |
| DbTables.AsInt64 | dal/redis/common.go:128 | `int64(x)` of a uint keeps values below 2^63 |
| DbTables.WithUserField | dal/db/favorite.go:77-83 | setting one user counter column changes that column only |
| DbTables.WithVideoField | dal/db/favorite.go:66-74 | setting one video counter column changes that column only and keeps the author |
| DbTables.UserCounterUpdate | dal/db/favorite.go:77-83 | `Update(col, gorm.Expr("col + ?", delta))` on a user affects one row iff the user exists and the unsigned result is not negative, then changes only that column; no row is affected for a missing user |
| DbTables.VideoCounterUpdate | dal/db/favorite.go:66-74 | the same for a video counter column |
| DbTables.CounterStep | dal/db/favorite.go:66-74 | the transaction continues iff exactly one row was affected; otherwise it returns `ErrDatabase` or the statement's error value with the tables it had before |
| DbTables.UserCounter | dal/db/favorite.go:77-83 | definition: a user counter statement followed by its `RowsAffected` check; the transaction lemmas of each file state its effect |
| DbTables.VideoCounter | dal/db/favorite.go:66-74 | definition: a video counter statement followed by its `RowsAffected` check; the transaction lemmas of each file state its effect |
| DbTables.RolledBack | dal/db/favorite.go:56 | after a rollback the rows are those of the transaction's start and the auto-increment counters those the body reached |
| DbTables.Transaction | dal/db/favorite.go:56-97 | a transaction commits the body's tables iff it begins, its body returns nil and the commit succeeds; a failed BEGIN changes nothing; any other error rolls the rows back while the auto-increment counters keep what the body took |
| DbTables.GetVideoById | dal/db/feed.go:71-80 | a lookup returns the video iff it exists, nil for a missing one, and the error of a failed query |
| DbTables.GetUserByID | dal/db/user.go:68-77 | the same for users |
| DbTables.Database.constructor | dal/db/favorite.go:56 | the store starts with the given tables |
| DbTables.Database.Restore | dal/db/favorite.go:56 | a rollback puts back the rows of the transaction's start and leaves the auto-increment counters where they are |
| DbTables.Database.AddToUser | dal/db/favorite.go:77-83 | the statement's outcome and the new users table are those of `UserCounterUpdate`; no other table changes |
| DbTables.Database.AddToVideo | dal/db/favorite.go:66-74 | the statement's outcome and the new videos table are those of `VideoCounterUpdate`; no other table changes |
| DbTables.Database.SetFavorites | dal/db/favorite.go:60-63 | only the like rows change |
| DbTables.Database.SetRelations | dal/db/relation.go:66-69 | only the follow rows and their id counter change |
| DbTables.Database.SetComments | dal/db/comment.go:52-55 | only the comment rows and their id counter change |
| DbTables.Database.InsertVideo | dal/db/publish.go:29-32 | the video is stored under the next id, which advances by one |
| DbTables.Database.SkipVideoID | dal/db/publish.go:29-33 | an INSERT the foreign key refuses still uses up the next video id, and changes nothing else |
| DbFavorite.WithoutPair | dal/db/favorite.go:141-144 | the hard delete removes every row of the (user, video) pair and keeps every other row |
| DbFavorite.GetFavoriteVideoRelationByUserVideoID | dal/db/favorite.go:108-117 | the lookup returns a row of the pair iff one exists, nil if none does, and the error of a failed query |
| DbFavorite.FirstPair | dal/db/favorite.go:132-136 | `First` in the delete finds a row of the pair iff there is one |
| DbFavorite.CreateVideoFavoriteBody | dal/db/favorite.go:60-92 | definition: the closure's statements in order: the INSERT, which the foreign keys refuse when the user or video is missing, then the three counters with the masked `return err`; `DbFavorite.CreateVideoFavoriteClosure` is proved against it |
| DbFavorite.CreateVideoFavoriteTx | dal/db/favorite.go:56-97 | definition: the closure run inside `Transaction`; `DbFavorite.CreateVideoFavoriteCommits`, `DbFavorite.CreateVideoFavoriteDanglingFails`, `DbFavorite.CreateVideoFavoriteMissingRollsBack`, `DbFavorite.CreateVideoFavoriteMaskedCommit` and `DbFavorite.CreateVideoFavoritePreservesCounters` state its outcomes |
| DbFavorite.DelFavoriteBody | dal/db/favorite.go:132-173 | definition: First, the Unscoped delete and the three counters in order; `DbFavorite.DelFavoriteClosure` is proved against it |
| DbFavorite.DelFavoriteByUserVideoIDTx | dal/db/favorite.go:128-178 | definition: the closure run inside `Transaction`; `DbFavorite.DelFavoriteMissingRowFails`, `DbFavorite.DelFavoriteRemovesAllRows` and `DbFavorite.DelFavoritePreservesCountersWhenUnique` state its outcomes |
| DbFavorite.CreateVideoFavorite | dal/db/favorite.go:56-97 | the method's error and resulting tables are those of the transaction function |
| DbFavorite.CreateVideoFavoriteClosure | dal/db/favorite.go:60-92 | the statements of the closure, run in order, give the body's error and tables |
| DbFavorite.DelFavoriteByUserVideoID | dal/db/favorite.go:128-178 | the method's error and resulting tables are those of the transaction function |
| DbFavorite.DelFavoriteClosure | dal/db/favorite.go:132-173 | the statements of the closure, run in order, give the body's error and tables |
| DbFavorite.CreateVideoFavoriteCommits | dal/db/favorite.go:56-97 | with the video, user and author present, a like appends the row and adds 1 to the video's favorite_count, the user's favorite_count and the author's total_favorited, touching nothing else |
| DbFavorite.CreateVideoFavoriteDanglingFails | dal/db/favorite.go:60-63 | if the user or the video is missing, the INSERT fails with the foreign-key error (MySQL 1452) and the transaction returns it and changes nothing |
| DbFavorite.CreateVideoFavoriteMissingRollsBack | dal/db/favorite.go:66-92 | once the INSERT has passed its foreign keys, a video, user or author that a counter UPDATE does not find gives `ErrDatabase` and changes nothing; for non-negative ids that is a missing author |
| DbFavorite.CreateVideoFavoriteMaskedCommit | dal/db/favorite.go:77-80 | with the video and user present, a failed user-counter statement returns nil: the row and the video counter commit, and the users table is unchanged |
| DbFavorite.CreateVideoFavoritePreservesCounters | dal/db/favorite.go:56-97 | unless a user or author statement fails, a like keeps all three like counters equal to the counts of like rows |
| DbFavorite.CreateVideoFavoriteMaskedBreaksCounters | dal/db/favorite.go:77-80 | a masked user-counter failure leaves the counters disagreeing with the rows |
| DbFavorite.DelFavoriteMissingRowFails | dal/db/favorite.go:132-136 | a delete with no matching row returns the not-found error and changes nothing; the branch that would return nil is never taken |
| DbFavorite.DelFavoriteRemovesAllRows | dal/db/favorite.go:141-155 | a delete that commits removes every row of the pair, of which there was at least one, and lowers the video's counter by exactly 1 |
| DbFavorite.DelFavoriteCommitShape | dal/db/favorite.go:141-173 | a committed delete lowers exactly the video's favorite_count, the user's favorite_count and the author's total_favorited by 1 each |
| DbFavorite.DelFavoritePreservesCountersWhenUnique | dal/db/favorite.go:141-173 | with at most one row for the pair, a delete keeps the counters equal to the row counts |
| DbFavorite.DelFavoriteDuplicatesBreakCounters | dal/db/favorite.go:22-27 | with duplicate rows for a pair, a committed delete leaves the video's favorite_count above its number of like rows |
| DbRelation.FirstFollow | dal/db/relation.go:108-112 | `First` finds the earliest row of the pair, and none iff no row of the pair exists |
| DbRelation.GetRelationByUserIDs | dal/db/relation.go:43-52 | the lookup returns a row of the pair iff one exists, nil if none, and the error of a failed query |
| DbRelation.CreateRelationBody | dal/db/relation.go:66-89 | definition: the INSERT, which the foreign keys refuse when either user is missing after it has taken its id, then the two counters in order; `DbRelation.CreateRelationClosure` is proved against it |
| DbRelation.CreateRelationTx | dal/db/relation.go:62-94 | definition: the closure run inside `Transaction`; `DbRelation.CreateRelationCommits`, `DbRelation.CreateRelationMissingUserRollsBack` and `DbRelation.CreateRelationPreservesCounters` state its outcomes |
| DbRelation.DelRelationBody | dal/db/relation.go:108-141 | definition: First, the Unscoped delete of that row and the two counters in order; `DbRelation.DelRelationClosure` is proved against it |
| DbRelation.DelRelationByUserIDsTx | dal/db/relation.go:104-146 | definition: the closure run inside `Transaction`; `DbRelation.DelRelationMissingRowFails`, `DbRelation.DelRelationRemovesFirst` and `DbRelation.DelRelationPreservesCounters` state its outcomes |
| DbRelation.CreateRelation | dal/db/relation.go:62-94 | the method's error and resulting tables are those of the transaction function |
| DbRelation.CreateRelationClosure | dal/db/relation.go:66-89 | the statements of the closure, run in order, give the body's error and tables |
| DbRelation.DelRelationByUserIDs | dal/db/relation.go:104-146 | the method's error and resulting tables are those of the transaction function |
| DbRelation.DelRelationClosure | dal/db/relation.go:108-141 | the statements of the closure, run in order, give the body's error and tables |
| DbRelation.FollowingRows | dal/db/relation.go:158 | `Where user_id = ?` selects exactly the rows of that follower, as many as it follows |
| DbRelation.FollowerRows | dal/db/relation.go:175 | `Where to_user_id = ?` selects exactly the rows of that followee, as many as follow it |
| DbRelation.GetFollowingListByUserID | dal/db/relation.go:156-163 | the following list is exactly the rows whose user_id is the id, or the query's error |
| DbRelation.GetFollowerListByUserID | dal/db/relation.go:173-180 | the follower list is exactly the rows whose to_user_id is the id, or the query's error |
| DbRelation.FriendRows | dal/db/relation.go:184 | the raw query returns, without ids, exactly the rows from the user to a followee who follows the user back |
| DbRelation.GetFriendList | dal/db/relation.go:182-189 | the friend list is the friend query's rows, or the query's error |
| DbRelation.CreateRelationCommits | dal/db/relation.go:62-94 | with both users present, a follow appends a row with the next id and adds 1 to following_count and follower_count |
| DbRelation.CreateRelationFailedCommitRollsBack | dal/db/relation.go:62-94 | a failed commit returns its error and leaves the rows unchanged; the follow id the insert took is not given back |
| DbRelation.CreateRelationMissingUserRollsBack | dal/db/relation.go:66-70 | if either user is missing, the INSERT fails with the foreign-key error (MySQL 1452) and the transaction returns it with the rows unchanged and the follow id used up |
| DbRelation.CreateRelationPreservesCounters | dal/db/relation.go:62-94 | under any failures, a follow keeps both counters equal to the row counts |
| DbRelation.CreateRelationPreservesIds | dal/db/relation.go:66-69 | row ids stay increasing and below the next id |
| DbRelation.FollowTwiceDuplicates | dal/db/relation.go:66-69 | nothing stops a second follow of the same pair: after two fault-free follows there are two more rows |
| DbRelation.DelRelationMissingRowFails | dal/db/relation.go:108-112 | an unfollow with no row returns the not-found error and changes nothing |
| DbRelation.DelRelationRemovesFirst | dal/db/relation.go:117-141 | a committed unfollow hard-deletes exactly one row of the pair and lowers both counters by 1 |
| DbRelation.DelRelationPreservesCounters | dal/db/relation.go:104-146 | under any failures, an unfollow keeps both counters equal to the row counts |
| DbRelation.DelRelationPreservesIds | dal/db/relation.go:117-121 | removing the row keeps ids increasing and below the next id |
| DbRelation.ListsMatchCounters | dal/db/relation.go:156-180 | while the counters agree with the rows, the lengths of the following and follower lists equal the user's two counters |
| DbRelation.FriendListIsMutual | dal/db/relation.go:182-189 | another user is in the friend list iff each of the two follows the other |
| DbRelation.FriendshipIsSymmetric | dal/db/relation.go:182-189 | a is in b's friend list iff b is in a's |
| DbComment.FindComment | dal/db/comment.go:85-89 | `First` by id skips soft-deleted rows: it finds a live row with the id, and none iff there is no such row |
| DbComment.CreateCommentBody | dal/db/comment.go:52-66 | definition: the INSERT, which the foreign keys refuse when the video or user is missing after it has taken its id, then the video counter; `DbComment.CreateCommentClosure` is proved against it |
| DbComment.CreateCommentTx | dal/db/comment.go:48-71 | definition: the closure run inside `Transaction`; `DbComment.CreateCommentCommits`, `DbComment.CreateCommentMissingVideoRollsBack` and `DbComment.CreateCommentPreservesCounters` state its outcomes |
| DbComment.DelCommentBody | dal/db/comment.go:85-107 | definition: the lookup, the soft delete and the counter of `vid` in order; `DbComment.DelCommentClosure` is proved against it |
| DbComment.DelCommentByIDTx | dal/db/comment.go:81-112 | definition: the closure run inside `Transaction`; `DbComment.DelCommentMissingFails`, `DbComment.DelCommentPreservesCounters` and `DbComment.DelCommentWrongVideoBreaksCounters` state its outcomes |
| DbComment.CreateComment | dal/db/comment.go:48-71 | the method's error and resulting tables are those of the transaction function |
| DbComment.CreateCommentClosure | dal/db/comment.go:52-66 | the statements of the closure, run in order, give the body's error and tables |
| DbComment.DelCommentByID | dal/db/comment.go:81-112 | the method's error and resulting tables are those of the transaction function |
| DbComment.DelCommentClosure | dal/db/comment.go:85-107 | the statements of the closure, run in order, give the body's error and tables |
| DbComment.SelectComments | dal/db/comment.go:124 | `Where(&Comment{VideoID})` selects exactly the live comments of the video (all live comments for id 0), never inventing rows, and as many as the video's live comments |
| DbComment.InsertByNewest | dal/db/comment.go:124 | inserting into a newest-first list keeps it newest-first and adds exactly the one comment |
| DbComment.SortByNewest | dal/db/comment.go:124 | `ORDER BY created_at DESC` yields a newest-first permutation of the rows |
| DbComment.GetVideoCommentListByVideoID | dal/db/comment.go:122-129 | the list holds exactly the selected comments, newest first, or the query's error |
| DbComment.CreateCommentCommits | dal/db/comment.go:48-71 | with the video and the user present, a comment is appended with the next id and the video's comment_count rises by 1 |
| DbComment.CreateCommentMissingVideoRollsBack | dal/db/comment.go:52-56 | for a missing video or user the INSERT fails with the foreign-key error (MySQL 1452): the transaction returns it with the rows unchanged and the comment id used up |
| DbComment.CreateCommentPreservesCounters | dal/db/comment.go:48-71 | under any failures, comment_count stays equal to the number of live comments of each video |
| DbComment.CreateCommentPreservesIds | dal/db/comment.go:52-55 | comment ids stay increasing and below the next id |
| DbComment.DelCommentMissingFails | dal/db/comment.go:85-89 | deleting a comment that is missing or already deleted returns the not-found error and changes nothing |
| DbComment.DelCommentTwiceNotFound | dal/db/comment.go:91-96 | the delete is soft: the row stays, and a second delete of it is not found |
| DbComment.DelCommentPreservesCounters | dal/db/comment.go:81-112 | when `vid` is the comment's own video, a delete keeps the counters equal to the live counts |
| DbComment.DelCommentWrongVideoBreaksCounters | dal/db/comment.go:99-107 | with `vid` not the comment's video, the delete commits and lowers the wrong video's counter below its live count |
| DbComment.CommentListMatchesCounter | dal/db/comment.go:122-129 | while the counters agree, a video's comment list is as long as its comment_count |
| DbPublish.CreateVideo | dal/db/publish.go:26-45 | the method's error and resulting tables are those of the transaction function |
| DbPublish.CreateVideoClosure | dal/db/publish.go:29-40 | the statements of the closure, run in order, give the body's error and tables |
| DbPublish.CreateVideoBody | dal/db/publish.go:29-40 | definition: the INSERT, which the foreign key refuses when the author is missing after it has taken its id, then work_count with the masked return; `DbPublish.CreateVideoClosure` is proved against it |
| DbPublish.CreateVideoTx | dal/db/publish.go:26-45 | definition: the closure run inside `Transaction`; `DbPublish.CreateVideoCommits`, `DbPublish.CreateVideoMissingAuthorRollsBack`, `DbPublish.CreateVideoMaskedCommit` and `DbPublish.CreateVideoPreservesCounters` state its outcomes |
| DbPublish.GetVideosByUserID | dal/db/publish.go:55-62 | the list is exactly the videos of the author (every video for id 0), or the query's error |
| DbPublish.CreateVideoCommits | dal/db/publish.go:26-45 | with the author present, the video is stored under the next id and the author's work_count rises by 1 |
| DbPublish.CreateVideoMissingAuthorRollsBack | dal/db/publish.go:29-33 | for a missing author the INSERT fails with the foreign-key error (MySQL 1452): the transaction returns it with the rows unchanged and the video id used up |
| DbPublish.CreateVideoMaskedCommit | dal/db/publish.go:34-37 | with the author present, a failed work_count statement returns nil: the video commits and work_count stays |
| DbPublish.CreateVideoPreservesCounters | dal/db/publish.go:26-45 | unless the counter statement fails, work_count stays equal to the number of the author's videos |
| DbPublish.CreateVideoPreservesIds | dal/db/publish.go:29-32 | video ids stay below the next id |
| DbPublish.CreateVideoMaskedBreaksCounters | dal/db/publish.go:34-37 | after a masked failure the author has one more video than work_count says |
| DbPublish.VideoListMatchesCounter | dal/db/publish.go:55-62 | while the counters agree, an author's video list is as long as its work_count |
| SweepCore.DeleteVerdict | dal/redis/common.go:130-137 | a round's `deleteKeys` either deletes the key or leaves the key space unchanged; the round goes on only if the key is gone and the transaction returned nil |
| SweepCore.DeleteRound | dal/redis/common.go:130-137 | the imperative delete-and-return matches `DeleteVerdict` |
| SweepCore.DeleteThen | dal/redis/common.go:130-137 | definition: `DeleteVerdict` on the cache part of the world; `SweepCore.DeleteVerdict` states its outcomes |
| SweepCore.Sweep | dal/redis/common.go:71-167 | definition: the rounds over the keys in order, up to the first that returns or panics; `SweepCore.SweepOnlyDeletesSweptKeys`, `SweepCore.CleanSweepClearsKeys` and `SweepCore.StoppedSweepKeepsLaterKeys` state its properties |
| SweepCore.SweepOnlyDeletesSweptKeys | dal/redis/common.go:71-167 | a sweep only removes keys and changes no value; every key it did not visit survives |
| SweepCore.CleanSweepClearsKeys | dal/redis/common.go:71-167 | a sweep that returns nil has deleted every key it visited |
| SweepCore.StoppedSweepKeepsLaterKeys | dal/redis/common.go:75-106 | a round that returns an error or panics ends the sweep, and every later key stays in the cache |
| FavoriteSweep.FavoriteMoveToDB | dal/redis/common.go:62-168 | the like sweep visits exactly the keys matching `video::*::user::*::w`, and its result, cache and tables are those of the sweep over them |
| FavoriteSweep.FavoriteMoveToDBSpec | dal/redis/common.go:62-168 | definition: a failed KEYS returns its error, otherwise `Sweep` of `FavoriteStep` over the keys; `FavoriteSweep.FavoriteMoveToDB` is proved against it and `FavoriteSweep.FavoriteSweepDeletesOnlyWriteViews` states its properties |
| FavoriteSweep.FavoriteStep | dal/redis/common.go:72-166 | definition: one pass of the loop body; `FavoriteSweep.FavoriteRound` is proved against it and the `FavoriteSweep.FavoriteRound…` lemmas state each outcome |
| FavoriteSweep.FavoriteApply | dal/redis/common.go:97-165 | definition: the lookups, the branch on the cached action and the transaction; `FavoriteSweep.FavoriteApplyRound` is proved against it |
| FavoriteSweep.FavoriteRound | dal/redis/common.go:72-166 | one pass of the loop (lock, GET, unlock, split, parse, lookups, transaction, delete) matches its spec function and keeps both mutexes distinct |
| FavoriteSweep.FavoriteApplyRound | dal/redis/common.go:97-165 | the lookups, branch, transaction and delete of one like key match their spec function |
| FavoriteSweep.FavoriteRoundIsLocal | dal/redis/common.go:72-166 | one like round at most deletes its own key and changes no other cache entry |
| FavoriteSweep.FavoriteRoundsAreLocal | dal/redis/common.go:72-166 | every like round is local in that sense |
| FavoriteSweep.FavoriteSweepDeletesOnlyWriteViews | dal/redis/common.go:66-168 | the like sweep deletes only like write views; a sweep returning nil removes all of them |
| FavoriteSweep.RoundReadsBack | dal/redis/common.go:80-94 | value and key written by the cache parse back to the action text and the two ids |
| FavoriteSweep.FavoriteRoundReachesTables | dal/redis/common.go:72-94 | for a cached like of ids below 2^63 the round reaches the table phase with the parsed ids and action |
| FavoriteSweep.FavoriteRoundCommitsLike | dal/redis/common.go:121-138 | a cached like without a row runs `CreateVideoFavorite` with the video's author, deletes the key, and stops with the transaction's error, if any |
| FavoriteSweep.FavoriteRoundLosesFailedLike | dal/redis/common.go:128-138 | if that transaction fails, the key is still deleted and the tables are unchanged: the like is lost |
| FavoriteSweep.FavoriteRoundAppliesUnlike | dal/redis/common.go:139-156 | a cached unlike of an existing row runs `DelFavoriteByUserVideoID` and deletes the key |
| FavoriteSweep.FavoriteRoundSettled | dal/redis/common.go:157-165 | a like already in the tables, or an unlike without a row, only deletes the key |
| FavoriteSweep.FavoriteRoundDropsUnknownPair | dal/redis/common.go:107-114 | a missing video or user deletes the key, leaves the tables unchanged, and the sweep continues |
| FavoriteSweep.FavoriteRoundStopsOnMissingKey | dal/redis/common.go:73-78 | a key gone between KEYS and GET stops the sweep with `redis.Nil` and changes nothing |
| FavoriteSweep.FavoriteRoundIgnoresHeldMutex | dal/redis/common.go:72-74 | the round ignores its lock's result: a held mutex gives the same round as a free one |
| FavoriteSweep.FavoriteRoundPanicsOnBadValue | dal/redis/common.go:80-81 | a value without "::" makes the round panic |
| RelationSweep.RelationApply | dal/redis/common.go:202-258 | one follow key's table phase at most deletes that key, and goes on only when the key is gone |
| RelationSweep.RelationWrite | dal/redis/common.go:226-258 | the transaction-then-two-deletes path at most deletes the key, and goes on only when it is gone |
| RelationSweep.RelationMoveToDB | dal/redis/common.go:170-261 | the follow sweep visits exactly the keys matching `user::*::to_user::*::w`, and its result, cache and tables are those of the sweep over them |
| RelationSweep.RelationMoveToDBSpec | dal/redis/common.go:170-261 | definition: a failed KEYS returns its error, otherwise `Sweep` of `RelationStep` over the keys; `RelationSweep.RelationMoveToDB` is proved against it and `RelationSweep.RelationSweepDeletesOnlyWriteViews` states its properties |
| RelationSweep.RelationStep | dal/redis/common.go:179-259 | definition: one pass of the loop body; `RelationSweep.RelationRound` is proved against it and the `RelationSweep.RelationRound…` lemmas state each outcome |
| RelationSweep.RelationRound | dal/redis/common.go:179-259 | one pass of the loop (GET, split, parse, lookups, transaction, deletes) matches its spec function |
| RelationSweep.RelationApplyRound | dal/redis/common.go:202-258 | the lookups, branch, transaction and deletes of one follow key match their spec function |
| RelationSweep.RelationRoundIsLocal | dal/redis/common.go:179-259 | one follow round at most deletes its own key |
| RelationSweep.RelationRoundsAreLocal | dal/redis/common.go:179-259 | every follow round is local in that sense |
| RelationSweep.RelationSweepDeletesOnlyWriteViews | dal/redis/common.go:174-261 | the follow sweep deletes only follow write views; a sweep returning nil removes all of them |
| RelationSweep.RelationRoundPanicsOnGetError | dal/redis/common.go:180-186 | the reply is split before its error is checked, so a failed or missing GET always panics and the error return is never reached |
| RelationSweep.RelationRoundReachesTables | dal/redis/common.go:180-199 | for a cached event of ids below 2^63 the round reaches the table phase with the parsed ids and action |
| RelationSweep.RelationRoundCommitsFollow | dal/redis/common.go:226-238 | a cached follow without a row runs `CreateRelation`, appends the row, and deletes the key |
| RelationSweep.RelationRoundLosesFailedFollow | dal/redis/common.go:226-238 | if that transaction fails, the key is still deleted, the rows are unchanged (the follow id stays used up), and the sweep stops with the error |
| RelationSweep.RelationRoundAppliesUnfollow | dal/redis/common.go:239-251 | a cached unfollow of an existing row runs `DelRelationByUserIDs` and deletes the key |
| RelationSweep.RelationRoundSettled | dal/redis/common.go:253-258 | a follow already in the tables, or an unfollow without a row, only deletes the key |
| RelationSweep.RelationRoundDropsUnknownPair | dal/redis/common.go:212-219 | a missing user deletes the key, leaves the tables unchanged, and the sweep continues |
| RelationSweep.RelationRoundWritesUnderHeldMutex | dal/redis/common.go:226-238 | without locking around its GET, the round commits a follow even while the mutex is held, then fails to delete the key and stops with the lock error |
| RelationSweep.RelationSecondDeleteIsHarmless | dal/redis/common.go:253-258 | after a successful first delete, the unconditional second one succeeds and changes nothing |
| RateLimit.AllowSpec | pkg/middleware/limit_init.go:19-33 | `Allow` refills by elapsed seconds times rate (wrapping), clamps to capacity, stamps the time, and grants iff a token remains, taking it; rate and capacity never change |
| RateLimit.Refilled | pkg/middleware/limit_init.go:23 | definition: `Tokens + (now - LastTokenSec) * Rate` with each operation wrapping; `RateLimit.RefillWithoutOverflow` and `RateLimit.RefillOverflowRejects` state when it is the plain sum |
| RateLimit.MakeBucket | pkg/middleware/limit_init.go:35-42 | a new bucket has the given capacity and rate, the configured initial tokens unclamped, and the current time |
| RateLimit.BucketsAllowSpec | pkg/middleware/limit_init.go:60-69 | the token's bucket handles the call; on first use it is made with the shared capacity and rate, stamped with the clock as `MakeTokenBucket` read it, and `Allow` then reads the clock again; the table gains at most that token and no other bucket changes |
| RateLimit.TokenBucket.constructor | pkg/middleware/limit_init.go:35-42 | `MakeTokenBucket` gives the bucket of `MakeBucket` |
| RateLimit.TokenBucket.Allow | pkg/middleware/limit_init.go:19-33 | the in-place update of the fields and the answer are those of `AllowSpec` |
| RateLimit.TokenBuckets.constructor | pkg/middleware/limit_init.go:52-58 | `MakeTokenBuckets` gives an empty table with the given capacity, rate and initial tokens |
| RateLimit.TokenBuckets.Allow | pkg/middleware/limit_init.go:60-69 | the call keeps one bucket per token, and its answer and new buckets are those of `BucketsAllowSpec` for the two clock reads |
| RateLimit.RefillWithoutOverflow | pkg/middleware/limit_init.go:23 | without overflow the refill is the plain non-negative sum |
| RateLimit.AllowKeepsTokensInRange | pkg/middleware/limit_init.go:23-32 | with non-negative numbers, time not going back and no overflow, a call leaves between 0 and capacity tokens |
| RateLimit.RefillOverflowRejects | pkg/middleware/limit_init.go:23 | a refill past the int64 range turns the tokens negative and a full bucket rejects the call |
| RateLimit.BurstIsTokensHeld | pkg/middleware/limit_init.go:19-33 | of n calls within one second, exactly min(n, tokens) are allowed |
| RateLimit.NewBucketClampsOnFirstCall | pkg/middleware/limit_init.go:35-42 | initial tokens above capacity stay above it until the first call clamps them |
| RateLimit.FirstRequestMakesBucket | pkg/middleware/limit_init.go:35-69 | a first request creates a bucket with the shared capacity and rate whose answer is `AllowSpec` of the bucket made at the first clock read, taken at the second; when both reads fall in one second it is granted iff the initial tokens are positive, and takes one |
| RateLimit.FirstRequestAcrossSecondBoundary | pkg/middleware/limit_init.go:22-40 | an empty bucket with rate 1, made at second s and first asked at s + 1, has already refilled one token and grants the request |
| EtcdKeys.ServiceKeyPrefix | pkg/etcd/common.go:3-9 | the prefix is `kitex/registry-etcd/` followed by exactly the service name |
| EtcdKeys.ServiceKey | pkg/etcd/common.go:12-14 | a service key is its service's prefix, then '/', then exactly the address |
| EtcdKeys.ServiceKeyInjective | pkg/etcd/common.go:12-14 | for one service, distinct addresses give distinct keys |
| EtcdKeys.ServiceKeyPrefixInjective | pkg/etcd/common.go:7-9 | distinct service names give distinct prefixes |
| EtcdKeys.LongerNameSharesPrefix | pkg/etcd/common.go:7-9 | the key of a service whose name extends another's starts with the other's prefix |
| EtcdKeys.SlashMakesKeysCollide | pkg/etcd/common.go:12-14 | with '/' in a name or address, two different (service, address) pairs share a key |
| EtcdDiscovery.Target | pkg/etcd/discovery.go:43-45 | the description resolves to the same prefix as the service name |
| EtcdDiscovery.Fetch | pkg/etcd/discovery.go:51-52 | the prefix Get returns exactly the stored entries whose key starts with the prefix; `EtcdDiscovery.FetchConcat` and `EtcdDiscovery.FetchKeepsKeyOrder` state that it keeps their order |
| EtcdDiscovery.FetchConcat | pkg/etcd/discovery.go:51-52 | fetching a store split in two gives the first part's entries and then the second's, so the store's order is kept |
| EtcdDiscovery.FetchKeepsKeyOrder | pkg/etcd/discovery.go:51-52 | from a store in etcd's ascending key order the entries come back in ascending key order |
| EtcdDiscovery.DecodeTags | pkg/etcd/discovery.go:61 | decoding `"tags"`: `null` makes the field nil; an object is added into the map the field holds, which stays the same map, or into a newly allocated one when it was nil; no other map changes |
| EtcdDiscovery.Unmarshal | pkg/etcd/discovery.go:61 | a syntax error leaves `info` as it was; otherwise each member of the right type overwrites its field, absent or mistyped ones keep the earlier values, and the error is nil only when no member was mistyped |
| EtcdDiscovery.Weighted | pkg/etcd/discovery.go:67-70 | a weight of at most 0 becomes 10; a positive weight is kept |
| EtcdDiscovery.MadeOf | pkg/etcd/discovery.go:67-71 | definition: `discovery.NewInstance` of `info`, keeping its tags by reference; `EtcdDiscovery.DecodeEntry` and `EtcdDiscovery.CompleteEntriesKeepOrder` state what it yields |
| EtcdDiscovery.Collect | pkg/etcd/discovery.go:60-72 | the loop yields exactly one instance per entry that decodes with a nil error, each with a positive weight and a tags map that exists |
| EtcdDiscovery.CleanCount | pkg/etcd/discovery.go:61-65 | the entries that decode with a nil error: at most all of them, and none exactly when no entry does |
| EtcdDiscovery.Instances | pkg/etcd/discovery.go:71-80 | the instances as a caller reads them, one per instance made, each with what its tags map holds once the loop is over |
| EtcdDiscovery.ResolveSpec | pkg/etcd/discovery.go:48-81 | a failed Get returns its error; "no instance remains" exactly when no fetched entry decodes with a nil error; otherwise a cacheable result keyed by the description holding one instance per such entry, each with the tags its shared map holds once the loop is over |
| EtcdDiscovery.Resolve | pkg/etcd/discovery.go:48-81 | the method returns what `ResolveSpec` gives |
| EtcdDiscovery.CollectInstances | pkg/etcd/discovery.go:56-72 | the loop reusing one `info` variable, and the maps its `Tags` field has pointed to, yields the instances and maps of `Collect` from the zero value |
| EtcdDiscovery.DecodeEntry | pkg/etcd/discovery.go:61-71 | one pass decodes into `info` and the maps, and yields an instance holding `info`'s tags reference iff the error is nil |
| EtcdDiscovery.InvalidEntryIsSkipped | pkg/etcd/discovery.go:60-66 | removing an entry with a syntax error changes no result, whatever `info` and the maps hold |
| EtcdDiscovery.MistypedEntryLeaks | pkg/etcd/discovery.go:61-65 | an entry with a mistyped member yields no instance, yet its well-typed address reaches the next entry's instance |
| EtcdDiscovery.CompleteEntriesKeepOrder | pkg/etcd/discovery.go:60-72 | when each decodable entry names all its fields, there is one instance per such entry, in key order, with its own network, address and weight, and all of them hold the one map into which every entry's tags were merged, a later key winning |
| EtcdDiscovery.TagsAccumulateAcrossEntries | pkg/etcd/discovery.go:61-71 | two entries registered with tags {a: 1} and {b: 2} give two instances that both read {a: 1, b: 2} |
| EtcdDiscovery.NullStartsNewTags | pkg/etcd/discovery.go:61-71 | a `"tags": null` between them makes its own instance read no tags and the next object start a new map |
| EtcdDiscovery.WeightLeaksFromPreviousEntry | pkg/etcd/discovery.go:56-61 | an entry without a weight gets the previous entry's weight 5, not the default 10 |
| EtcdDiscovery.ResolveFetchesRegisteredKeys | pkg/etcd/discovery.go:51-52 | every key registered for the service is fetched |
| EtcdDiscovery.ResolveFetchesLongerNames | pkg/etcd/discovery.go:51-52 | keys of services whose names extend the resolved one are fetched too |
| Auth.TokenOf | pkg/middleware/auth.go:26-39 | GET reads the token from the query; POST reads it from the form when the content type contains multipart/form-data and from the query otherwise; other methods have no token source |
| Auth.Param | pkg/middleware/auth.go:27-32 | definition: `c.Query` and `c.PostForm`, the empty string for a missing key; `Auth.TokenAuth` states how an empty token is refused |
| Auth.TokenAuth | pkg/middleware/auth.go:12-61 | a skipped route proceeds with nothing set; another method gives 400 "bad request"; an empty token gives 401 "token required"; every refusal is 400 or 401 |
| Auth.ProceedsIffSkippedOrValid | pkg/middleware/auth.go:17-59 | the chain continues iff the route is skipped or a non-empty token parses; after a check, "Token" and "Id" hold the token and its id |
| Auth.InvalidTokenRefused | pkg/middleware/auth.go:47-53 | a token the parser rejects gives 401 with the parser's message |
| Auth.MultipartIgnoresQuery | pkg/middleware/auth.go:28-31 | for a multipart POST the query string has no effect on the decision |
| Auth.MultipartMatchedBySubstring | pkg/middleware/auth.go:28-30 | every POST whose content type contains `multipart/form-data` anywhere, with anything before or after it, reads its token from the form |

## Left out

- Concurrency is left out: goroutines, the gocron schedule of the sweeps (`frequency`,
  10 s) and real TTL expiry. Calls are taken one at a time. `RedisHelper.ExpireKey` and
  `Mutex.Expire` are explicit steps standing for expiry.
- The lock is a held/free flag per named mutex. redsync's ownership check (only the
  holder's value can unlock) is not modelled, so any in-process caller can unlock. The
  `sync.Mutex` inside each token bucket and inside the bucket table is left out.
- I/O is left out: the Redis, MySQL, etcd and RabbitMQ connections. Each call's failure
  is a parameter. So are the clock (`now` of the limiter and of comment creation), the
  configuration values (`limiterTokenInit`, `autoAck`) and the JWT parser.
- For the queue messages, `json.Unmarshal` is a given decoding per message: an event, or
  a failure. A type mismatch that fills some fields before failing, and a `null` body,
  are not modelled there. The etcd loop does model both. In both places the JSON text is
  left out, and so is Go's case-insensitive matching of member names.
- An unrecovered panic in a gocron job ends the whole process in the running service.
  The model keeps the state after the panic, so that the mutex left held is visible.
  That mutex is released only by `Mutex.Expire`, which stands for redsync's 8-second
  expiry.
- redsync's `LockContext` retries a held lock up to 32 times before it fails. The model
  takes one attempt, whose failure is what the retries end in when the holder keeps the
  lock.
- `DbTables.UserCounterUpdate`: gorm's `Update` also runs the model hooks and writes
  `updated_at`. The timestamps are not tracked, so the model changes only the counter
  column.
- An INSERT whose call fails (the `Stmt(1)` site) is taken to fail before the server
  takes an id, so it uses up none. An INSERT that the foreign keys refuse, and a
  rolled-back transaction, keep the ids they took.
- Users and videos are never deleted in the model, so the foreign keys are checked
  against the rows present. The model does not say how `ON DELETE` acts on them.
- The RabbitMQ broker is left out. Only the tags acked are recorded, so redelivery and
  `Ack(multiple)` are not modelled.
- The etcd server is left out. The store stands for its key space, which it keeps in
  ascending byte order of the keys (`EtcdDiscovery.KeysAscending`); a range Get returns
  that order.
- Read replicas (`dbresolver.Read`) are left out. The model has a single store.
- `GetAllUserIDs`, `GetUsersFavorites`, `GetFollowerIDs` and the other read helpers of
  `dal/redis` are not part of this model. They read keys the update never writes.
- The other `dal/db` queries and the handlers that produce the queue messages are left
  out. The producers are reflected only in the lemmas about a createdAt of 0.
- KEYS returns matching keys in an unspecified order. The sweeps take the order as a
  parameter, and their method returns it as a ghost result.
- Row ordering of `First` without `ORDER BY` is taken to be insertion order.
- Go's `int` is taken to be 64 bits wide, as on the platforms the services run on.
- `DbRelation.GetFriendList`: its own contract states only the error case. What the
  list holds is stated by `DbRelation.FriendRows`, `DbRelation.FriendListIsMutual` and
  `DbRelation.FriendshipIsSymmetric`.
