/**
 * The relational store behind `dal/db`: the users and videos tables with their
 * denormalised counters, and the like, follow and comment tables. The counter columns are
 * unsigned, so decrementing a 0 is an error of the statement (MySQL strict mode), not a
 * wrap-around. Every statement may fail (`TxSite`); a failed or rolled-back transaction
 * leaves the rows as they were, and the auto-increment counters as far as it advanced them.
 *
 * Read queries go through gorm's `dbresolver.Read` replicas; the model has one store.
 */
module DbTables {
  import opened Errs
  import opened GoText

  /** Go's conversion `uint(x)` of an `int64`: negative values wrap to 2^64 + x. */
  function AsUint(x: I64): (u: nat)
    ensures x >= 0 ==> u == x
    ensures x < 0 ==> u >= TwoTo63
  {
    if x >= 0 then x else x + TwoTo64
  }

  /** Go's conversion `int64(x)` of a `uint` column value: from 2^63 up it wraps to negatives. */
  function AsInt64(x: nat): (i: I64)
    ensures x < TwoTo63 ==> i == x
  {
    Wrap64(x)
  }

  datatype User = User(followingCount: nat, followerCount: nat, workCount: nat,
                       favoriteCount: nat, totalFavorited: nat)

  datatype Video = Video(authorID: nat, favoriteCount: nat, commentCount: nat)

  /** `FavoriteVideoRelation`: no primary key, and nothing makes (user, video) unique. */
  datatype FavoriteRow = FavoriteRow(userID: nat, videoID: nat)

  /** `FollowRelation`: `gorm.Model` gives it an auto-increment id. */
  datatype FollowRow = FollowRow(id: nat, userID: nat, toUserID: nat)

  /** `Comment`, soft-deletable through `DeletedAt`. */
  datatype CommentRow = CommentRow(id: nat, videoID: nat, userID: nat, content: string,
                                   createdAt: int, deleted: bool)

  /** The tables, and the next value of each auto-increment id. Rows are kept in id order. */
  datatype Tables = Tables(
    users: map<int, User>,
    videos: map<int, Video>,
    favorites: seq<FavoriteRow>,
    relations: seq<FollowRow>,
    comments: seq<CommentRow>,
    nextRelationID: nat,
    nextCommentID: nat,
    nextVideoID: nat)

  /** Ids are issued in increasing order and never reused. */
  ghost predicate IdsWellFormed(t: Tables)
  {
    && (forall i, j :: 0 <= i < j < |t.relations| ==> t.relations[i].id < t.relations[j].id)
    && (forall i :: 0 <= i < |t.relations| ==> 1 <= t.relations[i].id < t.nextRelationID)
    && (forall i, j :: 0 <= i < j < |t.comments| ==> t.comments[i].id < t.comments[j].id)
    && (forall i :: 0 <= i < |t.comments| ==> 1 <= t.comments[i].id < t.nextCommentID)
    && (forall v :: v in t.videos ==> 1 <= v < t.nextVideoID)
    && t.nextRelationID >= 1 && t.nextCommentID >= 1 && t.nextVideoID >= 1
  }

  // ---------------------------------------------------------------- counter columns

  datatype UserColumn = FollowingCount | FollowerCount | WorkCount | FavoriteCount | TotalFavorited

  datatype VideoColumn = VideoFavoriteCount | CommentCount

  function UserField(u: User, c: UserColumn): nat
  {
    match c
    case FollowingCount => u.followingCount
    case FollowerCount => u.followerCount
    case WorkCount => u.workCount
    case FavoriteCount => u.favoriteCount
    case TotalFavorited => u.totalFavorited
  }

  function WithUserField(u: User, c: UserColumn, n: nat): (u': User)
    ensures UserField(u', c) == n
    ensures forall d :: d != c ==> UserField(u', d) == UserField(u, d)
  {
    match c
    case FollowingCount => u.(followingCount := n)
    case FollowerCount => u.(followerCount := n)
    case WorkCount => u.(workCount := n)
    case FavoriteCount => u.(favoriteCount := n)
    case TotalFavorited => u.(totalFavorited := n)
  }

  function VideoField(v: Video, c: VideoColumn): nat
  {
    match c
    case VideoFavoriteCount => v.favoriteCount
    case CommentCount => v.commentCount
  }

  function WithVideoField(v: Video, c: VideoColumn, n: nat): (v': Video)
    ensures VideoField(v', c) == n && v'.authorID == v.authorID
    ensures forall d :: d != c ==> VideoField(v', d) == VideoField(v, d)
  {
    match c
    case VideoFavoriteCount => v.(favoriteCount := n)
    case CommentCount => v.(commentCount := n)
  }

  /** The outcome of an UPDATE: the number of rows it affected, or its error. */
  datatype Exec = Affected(rows: nat) | ExecFailed

  /** `UPDATE users SET c = c + delta WHERE id = id`. */
  function UserCounterUpdate(users: map<int, User>, id: int, c: UserColumn, delta: int, fail: bool)
    : (r: (Exec, map<int, User>))
    ensures r.0 == Affected(1) <==> !fail && id in users && UserField(users[id], c) + delta >= 0
    ensures r.0 == Affected(0) <==> !fail && id !in users
    ensures r.0 == Affected(1) ==> r.1 == users[id := WithUserField(users[id], c, UserField(users[id], c) + delta)]
    ensures r.0 != Affected(1) ==> r.1 == users
  {
    if fail then (ExecFailed, users)
    else if id !in users then (Affected(0), users)
    else if UserField(users[id], c) + delta < 0 then (ExecFailed, users)
    else (Affected(1), users[id := WithUserField(users[id], c, UserField(users[id], c) + delta)])
  }

  /** `UPDATE videos SET c = c + delta WHERE id = id`. */
  function VideoCounterUpdate(videos: map<int, Video>, id: int, c: VideoColumn, delta: int, fail: bool)
    : (r: (Exec, map<int, Video>))
    ensures r.0 == Affected(1) <==> !fail && id in videos && VideoField(videos[id], c) + delta >= 0
    ensures r.0 == Affected(0) <==> !fail && id !in videos
    ensures r.0 == Affected(1) ==> r.1 == videos[id := WithVideoField(videos[id], c, VideoField(videos[id], c) + delta)]
    ensures r.0 != Affected(1) ==> r.1 == videos
  {
    if fail then (ExecFailed, videos)
    else if id !in videos then (Affected(0), videos)
    else if VideoField(videos[id], c) + delta < 0 then (ExecFailed, videos)
    else (Affected(1), videos[id := WithVideoField(videos[id], c, VideoField(videos[id], c) + delta)])
  }

  // ---------------------------------------------------------------- foreign keys

  /** `AutoMigrate` gives every belongs-to field a foreign key, so an INSERT naming a user
      or video that is not there fails with MySQL error 1452. InnoDB takes the row's
      auto-increment id before it checks the key, so a refused INSERT still uses one up. */
  predicate UserPresent(t: Tables, id: nat)
  {
    id in t.users
  }

  predicate VideoPresent(t: Tables, id: nat)
  {
    id in t.videos
  }

  // ---------------------------------------------------------------- transactions

  /** The calls of one transaction that may fail: BEGIN, its n-th statement, COMMIT. */
  datatype TxSite = Begin | Stmt(n: nat) | Commit

  /** Where the transaction's closure stands: still running, or returned with an error value. */
  datatype Flow = Continue(t: Tables) | Return(err: Option<Error>, t: Tables)

  /** An UPDATE of a counter inside a closure: a DB error returns `onError` (nil where the
      code returns a stale `err`), a row count other than 1 returns `errno.ErrDatabase`. */
  function CounterStep(exec: Exec, onError: Option<Error>, before: Tables, after: Tables): (fl: Flow)
    ensures fl.Continue? <==> exec == Affected(1)
    ensures fl.Continue? ==> fl.t == after
    ensures fl.Return? ==> fl.t == before
    ensures exec.Affected? && exec.rows != 1 ==> fl == Return(Some(ErrDatabase), before)
  {
    if exec.ExecFailed? then Return(onError, before)
    else if exec.rows != 1 then Return(Some(ErrDatabase), before)
    else Continue(after)
  }

  function UserCounter(t: Tables, id: int, c: UserColumn, delta: int, fail: bool, onError: Option<Error>): Flow
  {
    var (exec, users) := UserCounterUpdate(t.users, id, c, delta, fail);
    CounterStep(exec, onError, t, t.(users := users))
  }

  function VideoCounter(t: Tables, id: int, c: VideoColumn, delta: int, fail: bool, onError: Option<Error>): Flow
  {
    var (exec, videos) := VideoCounterUpdate(t.videos, id, c, delta, fail);
    CounterStep(exec, onError, t, t.(videos := videos))
  }

  /** ROLLBACK: the rows of `start`, with the auto-increment counters where `now` left them;
      InnoDB does not give back the ids that a rolled-back INSERT took. */
  function RolledBack(start: Tables, now: Tables): (r: Tables)
    ensures r.users == start.users && r.videos == start.videos && r.favorites == start.favorites
    ensures r.relations == start.relations && r.comments == start.comments
    ensures r.nextRelationID == now.nextRelationID && r.nextCommentID == now.nextCommentID
    ensures r.nextVideoID == now.nextVideoID
  {
    start.(nextRelationID := now.nextRelationID, nextCommentID := now.nextCommentID, nextVideoID := now.nextVideoID)
  }

  /** gorm's `Transaction(fc)`: BEGIN, run the closure, COMMIT if it returned nil, otherwise
      ROLLBACK and return its error. A failed BEGIN runs nothing. */
  function Transaction(t: Tables, body: Flow, f: set<TxSite>): (r: (Option<Error>, Tables))
    ensures Begin in f ==> r == (Some(DbFailed), t)
    ensures r.0.Some? && Begin !in f ==> r.1 == RolledBack(t, body.t)
    ensures r.0 == None <==> Begin !in f && Commit !in f && (body.Continue? || body.err == None)
    ensures r.0 == None ==> r.1 == body.t
  {
    if Begin in f then (Some(DbFailed), t)
    else if body.Return? && body.err.Some? then (body.err, RolledBack(t, body.t))
    else if Commit in f then (Some(DbFailed), RolledBack(t, body.t))
    else (None, body.t)
  }

  // ---------------------------------------------------------------- context lookups

  /** `GetVideoById` (dal/db/feed.go) and `GetUserByID` (dal/db/user.go): found, missing
      (nil, nil) or an error. */
  function GetVideoById(t: Tables, id: I64, fail: bool): (r: Result<Option<Video>>)
    ensures r.Err? <==> fail
    ensures r.Ok? ==> (r.value.Some? <==> id in t.videos)
    ensures r.Ok? && r.value.Some? ==> r.value.value == t.videos[id]
  {
    if fail then Err(DbFailed) else if id in t.videos then Ok(Some(t.videos[id])) else Ok(None)
  }

  function GetUserByID(t: Tables, id: I64, fail: bool): (r: Result<Option<User>>)
    ensures r.Err? <==> fail
    ensures r.Ok? ==> (r.value.Some? <==> id in t.users)
    ensures r.Ok? && r.value.Some? ==> r.value.value == t.users[id]
  {
    if fail then Err(DbFailed) else if id in t.users then Ok(Some(t.users[id])) else Ok(None)
  }

  // ---------------------------------------------------------------- the store

  /** The database `GetDB()` returns; each method is one SQL statement. */
  class Database {
    var users: map<int, User>
    var videos: map<int, Video>
    var favorites: seq<FavoriteRow>
    var relations: seq<FollowRow>
    var comments: seq<CommentRow>
    var nextRelationID: nat
    var nextCommentID: nat
    var nextVideoID: nat

    function State(): Tables
      reads this
    {
      Tables(users, videos, favorites, relations, comments, nextRelationID, nextCommentID, nextVideoID)
    }

    constructor (t: Tables)
      ensures State() == t
    {
      users, videos, favorites, relations, comments := t.users, t.videos, t.favorites, t.relations, t.comments;
      nextRelationID, nextCommentID, nextVideoID := t.nextRelationID, t.nextCommentID, t.nextVideoID;
    }

    /** ROLLBACK: back to the rows of the snapshot taken at BEGIN; the id counters stay. */
    method Restore(t: Tables)
      modifies this
      ensures State() == RolledBack(t, old(State()))
    {
      users, videos, favorites, relations, comments := t.users, t.videos, t.favorites, t.relations, t.comments;
    }

    method AddToUser(id: int, c: UserColumn, delta: int, fail: bool) returns (exec: Exec)
      modifies this
      ensures (exec, State()) == (UserCounterUpdate(old(users), id, c, delta, fail).0,
                                  old(State()).(users := UserCounterUpdate(old(users), id, c, delta, fail).1))
    {
      if fail {
        exec := ExecFailed;
      } else if id !in users {
        exec := Affected(0);
      } else if UserField(users[id], c) + delta < 0 {
        exec := ExecFailed;
      } else {
        users := users[id := WithUserField(users[id], c, UserField(users[id], c) + delta)];
        exec := Affected(1);
      }
    }

    method AddToVideo(id: int, c: VideoColumn, delta: int, fail: bool) returns (exec: Exec)
      modifies this
      ensures (exec, State()) == (VideoCounterUpdate(old(videos), id, c, delta, fail).0,
                                  old(State()).(videos := VideoCounterUpdate(old(videos), id, c, delta, fail).1))
    {
      if fail {
        exec := ExecFailed;
      } else if id !in videos {
        exec := Affected(0);
      } else if VideoField(videos[id], c) + delta < 0 {
        exec := ExecFailed;
      } else {
        videos := videos[id := WithVideoField(videos[id], c, VideoField(videos[id], c) + delta)];
        exec := Affected(1);
      }
    }

    method SetFavorites(rows: seq<FavoriteRow>)
      modifies this
      ensures State() == old(State()).(favorites := rows)
    {
      favorites := rows;
    }

    method SetRelations(rows: seq<FollowRow>, nextID: nat)
      modifies this
      ensures State() == old(State()).(relations := rows, nextRelationID := nextID)
    {
      relations, nextRelationID := rows, nextID;
    }

    method SetComments(rows: seq<CommentRow>, nextID: nat)
      modifies this
      ensures State() == old(State()).(comments := rows, nextCommentID := nextID)
    {
      comments, nextCommentID := rows, nextID;
    }

    /** An INSERT into videos that the foreign key refuses: InnoDB has already taken the id. */
    method SkipVideoID()
      modifies this
      ensures State() == old(State()).(nextVideoID := old(nextVideoID) + 1)
    {
      nextVideoID := nextVideoID + 1;
    }

    method InsertVideo(v: Video)
      modifies this
      ensures State() == old(State()).(videos := old(videos)[old(nextVideoID) := v], nextVideoID := old(nextVideoID) + 1)
    {
      videos := videos[nextVideoID := v];
      nextVideoID := nextVideoID + 1;
    }
  }
}
