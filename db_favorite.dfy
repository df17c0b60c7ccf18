/**
 * The like transactions of dal/db/favorite.go. A like is a (user, video) row; three
 * counters mirror the rows: the video's `favorite_count`, the liker's `favorite_count` and
 * the author's `total_favorited`. `LikeCountersAgree` states that mirror; the lemmas say
 * which runs of the transactions keep it.
 */
module DbFavorite {
  import opened Errs
  import opened GoText
  import opened DbTables

  predicate IsPair(r: FavoriteRow, userID: int, videoID: int)
  {
    r.userID == userID && r.videoID == videoID
  }

  /** The number of rows for the pair (user, video). */
  function PairRows(favs: seq<FavoriteRow>, userID: int, videoID: int): nat
  {
    if favs == [] then 0
    else PairRows(favs[..|favs| - 1], userID, videoID) + (if IsPair(favs[|favs| - 1], userID, videoID) then 1 else 0)
  }

  /** The likes of one video. */
  function VideoLikes(favs: seq<FavoriteRow>, videoID: int): nat
  {
    if favs == [] then 0
    else VideoLikes(favs[..|favs| - 1], videoID) + (if favs[|favs| - 1].videoID == videoID then 1 else 0)
  }

  /** The likes one user has given. */
  function UserLikes(favs: seq<FavoriteRow>, userID: int): nat
  {
    if favs == [] then 0
    else UserLikes(favs[..|favs| - 1], userID) + (if favs[|favs| - 1].userID == userID then 1 else 0)
  }

  predicate AuthoredBy(videos: map<int, Video>, videoID: int, authorID: int)
  {
    videoID in videos && videos[videoID].authorID == authorID
  }

  /** The likes received by the videos of one author. */
  function LikesReceived(favs: seq<FavoriteRow>, videos: map<int, Video>, authorID: int): nat
  {
    if favs == [] then 0
    else LikesReceived(favs[..|favs| - 1], videos, authorID)
         + (if AuthoredBy(videos, favs[|favs| - 1].videoID, authorID) then 1 else 0)
  }

  /** `DELETE FROM user_favorite_videos WHERE user_id = ? AND video_id = ?`: every row of the pair. */
  function WithoutPair(favs: seq<FavoriteRow>, userID: int, videoID: int): (rest: seq<FavoriteRow>)
    ensures PairRows(rest, userID, videoID) == 0
    ensures forall r :: r in rest <==> r in favs && !IsPair(r, userID, videoID)
  {
    if favs == [] then []
    else
      var init := WithoutPair(favs[..|favs| - 1], userID, videoID);
      var last := favs[|favs| - 1];
      assert favs == favs[..|favs| - 1] + [last];
      if IsPair(last, userID, videoID) then init
      else
        assert (init + [last])[..|init + [last]| - 1] == init;
        init + [last]
  }

  /** The three counters mirror the like rows. */
  ghost predicate LikeCountersAgree(t: Tables)
  {
    && (forall v :: v in t.videos ==> t.videos[v].favoriteCount == VideoLikes(t.favorites, v))
    && (forall u :: u in t.users ==> t.users[u].favoriteCount == UserLikes(t.favorites, u))
    && (forall u :: u in t.users ==> t.users[u].totalFavorited == LikesReceived(t.favorites, t.videos, u))
  }

  // ---------------------------------------------------------------- GetFavoriteVideoRelationByUserVideoID

  /** The pair's row, nil for none, or the query's error. */
  function GetFavoriteVideoRelationByUserVideoID(t: Tables, userID: I64, videoID: I64, fail: bool)
    : (r: Result<Option<FavoriteRow>>)
    ensures r.Err? <==> fail
    ensures r.Ok? ==> (r.value.Some? <==> PairRows(t.favorites, userID, videoID) > 0)
    ensures r.Ok? && r.value.Some? ==> r.value.value in t.favorites && IsPair(r.value.value, userID, videoID)
  {
    if fail then Err(DbFailed)
    else FirstPair(t.favorites, userID, videoID)
  }

  function FirstPair(favs: seq<FavoriteRow>, userID: int, videoID: int): (r: Result<Option<FavoriteRow>>)
    ensures r.Ok? && (r.value.Some? <==> PairRows(favs, userID, videoID) > 0)
    ensures r.value.Some? ==> r.value.value in favs && IsPair(r.value.value, userID, videoID)
  {
    if favs == [] then Ok(None)
    else
      var last := favs[|favs| - 1];
      var init := FirstPair(favs[..|favs| - 1], userID, videoID);
      if init.value.Some? then init
      else if IsPair(last, userID, videoID) then Ok(Some(last))
      else Ok(None)
  }

  // ---------------------------------------------------------------- CreateVideoFavorite

  /** The closure of `CreateVideoFavorite`. The INSERT fails on the foreign keys when the
      user or the video is missing; the author has none. The user and author updates
      return the stale `err` of the insert, which is nil, when they fail. */
  function CreateVideoFavoriteBody(t: Tables, userID: I64, videoID: I64, authorID: I64, f: set<TxSite>): Flow
  {
    if Stmt(1) in f then Return(Some(DbFailed), t)
    else if !UserPresent(t, AsUint(userID)) || !VideoPresent(t, AsUint(videoID)) then Return(Some(ForeignKeyFailed), t)
    else
      var t1 := t.(favorites := t.favorites + [FavoriteRow(AsUint(userID), AsUint(videoID))]);
      match VideoCounter(t1, videoID, VideoFavoriteCount, 1, Stmt(2) in f, Some(DbFailed))
      case Return(e, t2) => Return(e, t2)
      case Continue(t2) =>
        match UserCounter(t2, userID, FavoriteCount, 1, Stmt(3) in f, None)
        case Return(e, t3) => Return(e, t3)
        case Continue(t3) => UserCounter(t3, authorID, TotalFavorited, 1, Stmt(4) in f, None)
  }

  function CreateVideoFavoriteTx(t: Tables, userID: I64, videoID: I64, authorID: I64, f: set<TxSite>)
    : (r: (Option<Error>, Tables))
  {
    Transaction(t, CreateVideoFavoriteBody(t, userID, videoID, authorID, f), f)
  }

  method CreateVideoFavorite(db: Database, userID: I64, videoID: I64, authorID: I64, f: set<TxSite>)
    returns (err: Option<Error>)
    modifies db
    ensures (err, db.State()) == CreateVideoFavoriteTx(old(db.State()), userID, videoID, authorID, f)
  {
    if Begin in f {
      return Some(DbFailed);
    }
    var snapshot := db.State();
    err := CreateVideoFavoriteClosure(db, userID, videoID, authorID, f);
    if err.Some? {
      db.Restore(snapshot);
    } else if Commit in f {
      db.Restore(snapshot);
      err := Some(DbFailed);
    }
  }

  method CreateVideoFavoriteClosure(db: Database, userID: I64, videoID: I64, authorID: I64, f: set<TxSite>)
    returns (err: Option<Error>)
    modifies db
    ensures var fl := CreateVideoFavoriteBody(old(db.State()), userID, videoID, authorID, f);
            err == (if fl.Return? then fl.err else None) && db.State() == fl.t
  {
    if Stmt(1) in f {
      return Some(DbFailed);
    }
    if AsUint(userID) !in db.users || AsUint(videoID) !in db.videos {
      return Some(ForeignKeyFailed);
    }
    db.SetFavorites(db.favorites + [FavoriteRow(AsUint(userID), AsUint(videoID))]);
    var res := db.AddToVideo(videoID, VideoFavoriteCount, 1, Stmt(2) in f);
    if res.ExecFailed? {
      return Some(DbFailed);
    } else if res.rows != 1 {
      return Some(ErrDatabase);
    }
    res := db.AddToUser(userID, FavoriteCount, 1, Stmt(3) in f);
    if res.ExecFailed? {
      return None;
    } else if res.rows != 1 {
      return Some(ErrDatabase);
    }
    res := db.AddToUser(authorID, TotalFavorited, 1, Stmt(4) in f);
    if res.ExecFailed? {
      return None;
    } else if res.rows != 1 {
      return Some(ErrDatabase);
    }
    return None;
  }

  // ---------------------------------------------------------------- DelFavoriteByUserVideoID

  /** The closure of `DelFavoriteByUserVideoID`. `First` reports a missing row as an error,
      so the `ErrRecordNotFound` branch after it is never taken. */
  function DelFavoriteBody(t: Tables, userID: I64, videoID: I64, authorID: I64, f: set<TxSite>): Flow
  {
    if Stmt(1) in f then Return(Some(DbFailed), t)
    else if PairRows(t.favorites, userID, videoID) == 0 then Return(Some(RecordNotFound), t)
    else if Stmt(2) in f then Return(Some(DbFailed), t)
    else
      var t1 := t.(favorites := WithoutPair(t.favorites, userID, videoID));
      match VideoCounter(t1, videoID, VideoFavoriteCount, -1, Stmt(3) in f, Some(DbFailed))
      case Return(e, t2) => Return(e, t2)
      case Continue(t2) =>
        match UserCounter(t2, userID, FavoriteCount, -1, Stmt(4) in f, None)
        case Return(e, t3) => Return(e, t3)
        case Continue(t3) => UserCounter(t3, authorID, TotalFavorited, -1, Stmt(5) in f, None)
  }

  function DelFavoriteByUserVideoIDTx(t: Tables, userID: I64, videoID: I64, authorID: I64, f: set<TxSite>)
    : (r: (Option<Error>, Tables))
  {
    Transaction(t, DelFavoriteBody(t, userID, videoID, authorID, f), f)
  }

  method DelFavoriteByUserVideoID(db: Database, userID: I64, videoID: I64, authorID: I64, f: set<TxSite>)
    returns (err: Option<Error>)
    modifies db
    ensures (err, db.State()) == DelFavoriteByUserVideoIDTx(old(db.State()), userID, videoID, authorID, f)
  {
    if Begin in f {
      return Some(DbFailed);
    }
    var snapshot := db.State();
    err := DelFavoriteClosure(db, userID, videoID, authorID, f);
    if err.Some? {
      db.Restore(snapshot);
    } else if Commit in f {
      db.Restore(snapshot);
      err := Some(DbFailed);
    }
  }

  method DelFavoriteClosure(db: Database, userID: I64, videoID: I64, authorID: I64, f: set<TxSite>)
    returns (err: Option<Error>)
    modifies db
    ensures var fl := DelFavoriteBody(old(db.State()), userID, videoID, authorID, f);
            err == (if fl.Return? then fl.err else None) && db.State() == fl.t
  {
    var found := GetFavoriteVideoRelationByUserVideoID(db.State(), userID, videoID, Stmt(1) in f);
    if found.Err? {
      return Some(DbFailed);
    } else if found.value.None? {
      return Some(RecordNotFound);
    }
    if Stmt(2) in f {
      return Some(DbFailed);
    }
    db.SetFavorites(WithoutPair(db.favorites, userID, videoID));
    var res := db.AddToVideo(videoID, VideoFavoriteCount, -1, Stmt(3) in f);
    if res.ExecFailed? {
      return Some(DbFailed);
    } else if res.rows != 1 {
      return Some(ErrDatabase);
    }
    res := db.AddToUser(userID, FavoriteCount, -1, Stmt(4) in f);
    if res.ExecFailed? {
      return None;
    } else if res.rows != 1 {
      return Some(ErrDatabase);
    }
    res := db.AddToUser(authorID, TotalFavorited, -1, Stmt(5) in f);
    if res.ExecFailed? {
      return None;
    } else if res.rows != 1 {
      return Some(ErrDatabase);
    }
    return None;
  }

  // ---------------------------------------------------------------- counting

  lemma {:induction false} LikesReceivedIgnoresCounters(favs: seq<FavoriteRow>, videos: map<int, Video>,
                                                         videos': map<int, Video>, authorID: int)
    requires videos.Keys == videos'.Keys
    requires forall v :: v in videos ==> videos'[v].authorID == videos[v].authorID
    ensures LikesReceived(favs, videos', authorID) == LikesReceived(favs, videos, authorID)
  {
    if favs != [] {
      LikesReceivedIgnoresCounters(favs[..|favs| - 1], videos, videos', authorID);
    }
  }

  lemma AppendCounts(favs: seq<FavoriteRow>, row: FavoriteRow, videos: map<int, Video>, id: int)
    ensures var favs' := favs + [row];
            && VideoLikes(favs', id) == VideoLikes(favs, id) + (if row.videoID == id then 1 else 0)
            && UserLikes(favs', id) == UserLikes(favs, id) + (if row.userID == id then 1 else 0)
            && LikesReceived(favs', videos, id) == LikesReceived(favs, videos, id) + (if AuthoredBy(videos, row.videoID, id) then 1 else 0)
  {
    assert (favs + [row])[..|favs|] == favs;
  }

  /** Removing the pair's rows lowers each count by the number of rows of the pair it
      counted. */
  lemma {:induction false} WithoutPairCounts(favs: seq<FavoriteRow>, userID: int, videoID: int,
                                             videos: map<int, Video>, id: int)
    ensures var rest := WithoutPair(favs, userID, videoID);
            var n := PairRows(favs, userID, videoID);
            && VideoLikes(rest, id) == VideoLikes(favs, id) - (if videoID == id then n else 0)
            && UserLikes(rest, id) == UserLikes(favs, id) - (if userID == id then n else 0)
            && LikesReceived(rest, videos, id) == LikesReceived(favs, videos, id) - (if AuthoredBy(videos, videoID, id) then n else 0)
  {
    if favs != [] {
      var init, last := favs[..|favs| - 1], favs[|favs| - 1];
      WithoutPairCounts(init, userID, videoID, videos, id);
      if !IsPair(last, userID, videoID) {
        AppendCounts(WithoutPair(init, userID, videoID), last, videos, id);
      }
    }
  }

  // ---------------------------------------------------------------- CreateVideoFavorite: properties

  /** A like commits exactly when no call fails but a masked one and the video, the liker
      and the author exist; then it adds the row and raises the three counters by one. */
  lemma CreateVideoFavoriteCommits(t: Tables, userID: I64, videoID: I64, authorID: I64)
    requires userID >= 0 && videoID >= 0
    requires videoID in t.videos && userID in t.users && authorID in t.users
    ensures var (err, t') := CreateVideoFavoriteTx(t, userID, videoID, authorID, {});
            && err == None
            && t'.favorites == t.favorites + [FavoriteRow(userID, videoID)]
            && t'.videos == t.videos[videoID := t.videos[videoID].(favoriteCount := t.videos[videoID].favoriteCount + 1)]
            && t'.users[userID].favoriteCount == t.users[userID].favoriteCount + 1
            && t'.users[authorID].totalFavorited == t.users[authorID].totalFavorited + 1
            && t'.relations == t.relations && t'.comments == t.comments
  {
  }

  /** A missing video or liker: the foreign keys refuse the INSERT, and the like rolls back. */
  lemma CreateVideoFavoriteDanglingFails(t: Tables, userID: I64, videoID: I64, authorID: I64)
    requires AsUint(videoID) !in t.videos || AsUint(userID) !in t.users
    ensures CreateVideoFavoriteTx(t, userID, videoID, authorID, {}) == (Some(ForeignKeyFailed), t)
  {
  }

  /** Past the foreign keys, a missing video, liker or author makes a counter UPDATE touch
      0 rows: ErrDatabase and a rollback. Only the author has no foreign key, so for
      non-negative ids that is the one case left. */
  lemma CreateVideoFavoriteMissingRollsBack(t: Tables, userID: I64, videoID: I64, authorID: I64)
    requires AsUint(videoID) in t.videos && AsUint(userID) in t.users
    requires videoID !in t.videos || userID !in t.users || authorID !in t.users
    ensures CreateVideoFavoriteTx(t, userID, videoID, authorID, {}) == (Some(ErrDatabase), t)
  {
  }

  /** The masked error: when the liker's counter UPDATE fails, the closure returns nil and
      the row and the video's counter commit without the two user counters. */
  lemma CreateVideoFavoriteMaskedCommit(t: Tables, userID: I64, videoID: I64, authorID: I64)
    requires userID >= 0 && videoID >= 0 && videoID in t.videos && userID in t.users
    ensures var (err, t') := CreateVideoFavoriteTx(t, userID, videoID, authorID, {Stmt(3)});
            && err == None
            && t'.favorites == t.favorites + [FavoriteRow(userID, videoID)]
            && t'.videos[videoID].favoriteCount == t.videos[videoID].favoriteCount + 1
            && t'.users == t.users
  {
  }

  /** Without a masked failure, and with the video's own author passed as `authorID`, a like
      keeps the counters in agreement with the rows, whatever else fails. */
  lemma CreateVideoFavoritePreservesCounters(t: Tables, userID: I64, videoID: I64, authorID: I64, f: set<TxSite>)
    requires LikeCountersAgree(t)
    requires userID >= 0 && videoID >= 0
    requires videoID in t.videos ==> t.videos[videoID].authorID == authorID
    requires Stmt(3) !in f && Stmt(4) !in f
    ensures LikeCountersAgree(CreateVideoFavoriteTx(t, userID, videoID, authorID, f).1)
  {
    var (err, t') := CreateVideoFavoriteTx(t, userID, videoID, authorID, f);
    if err == None {
      assert UserPresent(t, AsUint(userID)) && VideoPresent(t, AsUint(videoID));
      var row := FavoriteRow(userID, videoID);
      assert t'.favorites == t.favorites + [row];
      LikesReceivedIgnoresCounters(t.favorites + [row], t.videos, t'.videos, authorID);
      forall v | v in t'.videos
        ensures t'.videos[v].favoriteCount == VideoLikes(t'.favorites, v)
      {
        AppendCounts(t.favorites, row, t.videos, v);
      }
      forall u | u in t'.users
        ensures t'.users[u].favoriteCount == UserLikes(t'.favorites, u)
        ensures t'.users[u].totalFavorited == LikesReceived(t'.favorites, t'.videos, u)
      {
        AppendCounts(t.favorites, row, t.videos, u);
        LikesReceivedIgnoresCounters(t'.favorites, t.videos, t'.videos, u);
      }
    }
  }

  /** With the masked failure, the committed like leaves the liker's counter one short. */
  lemma CreateVideoFavoriteMaskedBreaksCounters(t: Tables, userID: I64, videoID: I64, authorID: I64)
    requires LikeCountersAgree(t)
    requires userID >= 0 && videoID >= 0 && videoID in t.videos && userID in t.users
    ensures !LikeCountersAgree(CreateVideoFavoriteTx(t, userID, videoID, authorID, {Stmt(3)}).1)
  {
    var t' := CreateVideoFavoriteTx(t, userID, videoID, authorID, {Stmt(3)}).1;
    CreateVideoFavoriteMaskedCommit(t, userID, videoID, authorID);
    AppendCounts(t.favorites, FavoriteRow(userID, videoID), t.videos, userID);
    assert t'.users[userID].favoriteCount + 1 == UserLikes(t'.favorites, userID);
  }

  // ---------------------------------------------------------------- DelFavoriteByUserVideoID: properties

  /** Unliking a pair with no row fails with the not-found error and changes nothing. */
  lemma DelFavoriteMissingRowFails(t: Tables, userID: I64, videoID: I64, authorID: I64, f: set<TxSite>)
    requires PairRows(t.favorites, userID, videoID) == 0 && Begin !in f && Stmt(1) !in f
    ensures DelFavoriteByUserVideoIDTx(t, userID, videoID, authorID, f) == (Some(RecordNotFound), t)
  {
  }

  /** A committed unlike removes every row of the pair and lowers each counter by one. */
  lemma DelFavoriteRemovesAllRows(t: Tables, userID: I64, videoID: I64, authorID: I64, f: set<TxSite>)
    requires Stmt(4) !in f && Stmt(5) !in f
    requires DelFavoriteByUserVideoIDTx(t, userID, videoID, authorID, f).0 == None
    ensures var t' := DelFavoriteByUserVideoIDTx(t, userID, videoID, authorID, f).1;
            && PairRows(t.favorites, userID, videoID) >= 1
            && t'.favorites == WithoutPair(t.favorites, userID, videoID)
            && t'.videos[videoID].favoriteCount + 1 == t.videos[videoID].favoriteCount
  {
  }

  /** The tables a committed unlike leaves, field by field. */
  lemma DelFavoriteCommitShape(t: Tables, userID: I64, videoID: I64, authorID: I64, f: set<TxSite>)
    requires LikeCountersAgree(t)
    requires videoID in t.videos ==> t.videos[videoID].authorID == authorID
    requires Stmt(4) !in f && Stmt(5) !in f
    requires DelFavoriteByUserVideoIDTx(t, userID, videoID, authorID, f).0 == None
    ensures var t' := DelFavoriteByUserVideoIDTx(t, userID, videoID, authorID, f).1;
            && t'.favorites == WithoutPair(t.favorites, userID, videoID)
            && videoID in t.videos && t'.videos.Keys == t.videos.Keys
            && (forall v :: v in t.videos ==> t'.videos[v].authorID == t.videos[v].authorID)
            && (forall v :: v in t.videos ==> t'.videos[v].favoriteCount + (if v == videoID then 1 else 0) == t.videos[v].favoriteCount)
            && t'.users.Keys == t.users.Keys
            && (forall u :: u in t.users ==> t'.users[u].favoriteCount + (if u == userID then 1 else 0) == t.users[u].favoriteCount)
            && (forall u :: u in t.users ==> t'.users[u].totalFavorited + (if u == authorID then 1 else 0) == t.users[u].totalFavorited)
  {
    PairRowsBelowCounts(t.favorites, userID, videoID, t.videos, authorID);
    var body := DelFavoriteBody(t, userID, videoID, authorID, f);
    assert body.Continue?;
    var t1 := t.(favorites := WithoutPair(t.favorites, userID, videoID));
    var (e2, v2) := VideoCounterUpdate(t1.videos, videoID, VideoFavoriteCount, -1, Stmt(3) in f);
    assert e2 == Affected(1);
    var t2 := t1.(videos := v2);
    var (e3, u3) := UserCounterUpdate(t2.users, userID, FavoriteCount, -1, false);
    assert e3 == Affected(1);
    var t3 := t2.(users := u3);
    var (e4, u4) := UserCounterUpdate(t3.users, authorID, TotalFavorited, -1, false);
    assert e4 == Affected(1);
    assert body.t == t3.(users := u4);
  }

  /** Every row of a pair is counted by the video, by the liker, and by the video's author. */
  lemma {:induction false} PairRowsBelowCounts(favs: seq<FavoriteRow>, userID: int, videoID: int,
                                               videos: map<int, Video>, authorID: int)
    ensures PairRows(favs, userID, videoID) <= VideoLikes(favs, videoID)
    ensures PairRows(favs, userID, videoID) <= UserLikes(favs, userID)
    ensures AuthoredBy(videos, videoID, authorID) ==> PairRows(favs, userID, videoID) <= LikesReceived(favs, videos, authorID)
  {
    if favs != [] {
      PairRowsBelowCounts(favs[..|favs| - 1], userID, videoID, videos, authorID);
    }
  }

  /** With exactly one row for the pair, no masked failure and the video's own author, an
      unlike keeps the counters in agreement with the rows. */
  lemma DelFavoritePreservesCountersWhenUnique(t: Tables, userID: I64, videoID: I64, authorID: I64, f: set<TxSite>)
    requires LikeCountersAgree(t)
    requires PairRows(t.favorites, userID, videoID) <= 1
    requires videoID in t.videos ==> t.videos[videoID].authorID == authorID
    requires Stmt(4) !in f && Stmt(5) !in f
    ensures LikeCountersAgree(DelFavoriteByUserVideoIDTx(t, userID, videoID, authorID, f).1)
  {
    var (err, t') := DelFavoriteByUserVideoIDTx(t, userID, videoID, authorID, f);
    if err == None {
      DelFavoriteCommitShape(t, userID, videoID, authorID, f);
      forall v | v in t'.videos
        ensures t'.videos[v].favoriteCount == VideoLikes(t'.favorites, v)
      {
        WithoutPairCounts(t.favorites, userID, videoID, t.videos, v);
      }
      forall u | u in t'.users
        ensures t'.users[u].favoriteCount == UserLikes(t'.favorites, u)
        ensures t'.users[u].totalFavorited == LikesReceived(t'.favorites, t'.videos, u)
      {
        WithoutPairCounts(t.favorites, userID, videoID, t.videos, u);
        LikesReceivedIgnoresCounters(t'.favorites, t.videos, t'.videos, u);
      }
    }
  }

  /** Duplicate rows for a pair, which nothing forbids: the unlike removes them all but
      lowers the video's counter by one, so it no longer matches the rows. */
  lemma DelFavoriteDuplicatesBreakCounters(t: Tables, userID: I64, videoID: I64, authorID: I64)
    requires LikeCountersAgree(t)
    requires PairRows(t.favorites, userID, videoID) >= 2
    requires DelFavoriteByUserVideoIDTx(t, userID, videoID, authorID, {}).0 == None
    ensures var t' := DelFavoriteByUserVideoIDTx(t, userID, videoID, authorID, {}).1;
            t'.videos[videoID].favoriteCount > VideoLikes(t'.favorites, videoID)
  {
    WithoutPairCounts(t.favorites, userID, videoID, t.videos, videoID);
  }
}
