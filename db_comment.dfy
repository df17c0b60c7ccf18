/**
 * The comment transactions and query of dal/db/comment.go. Comments are soft-deleted;
 * a video's `comment_count` mirrors its live comments, which `CommentCountersAgree`
 * states.
 */
module DbComment {
  import opened Errs
  import opened DbTables
  import opened GoText

  predicate LiveOn(c: CommentRow, videoID: int)
  {
    !c.deleted && c.videoID == videoID
  }

  /** The live comments of one video. */
  function LiveCount(cs: seq<CommentRow>, videoID: int): nat
  {
    if cs == [] then 0
    else LiveCount(cs[..|cs| - 1], videoID) + (if LiveOn(cs[|cs| - 1], videoID) then 1 else 0)
  }

  ghost predicate CommentCountersAgree(t: Tables)
  {
    forall v :: v in t.videos ==> t.videos[v].commentCount == LiveCount(t.comments, v)
  }

  lemma AppendLiveCount(cs: seq<CommentRow>, c: CommentRow, videoID: int)
    ensures LiveCount(cs + [c], videoID) == LiveCount(cs, videoID) + (if LiveOn(c, videoID) then 1 else 0)
  {
    assert (cs + [c])[..|cs|] == cs;
  }

  /** Replacing one row changes the count by that row's contribution only. */
  lemma {:induction false} UpdateLiveCount(cs: seq<CommentRow>, i: nat, c: CommentRow, videoID: int)
    requires i < |cs|
    ensures LiveCount(cs[i := c], videoID) + (if LiveOn(cs[i], videoID) then 1 else 0)
            == LiveCount(cs, videoID) + (if LiveOn(c, videoID) then 1 else 0)
  {
    var n := |cs| - 1;
    if i == n {
      assert cs[i := c][..n] == cs[..n];
    } else {
      UpdateLiveCount(cs[..n], i, c, videoID);
      assert cs[i := c][..n] == cs[..n][i := c];
    }
  }

  // ---------------------------------------------------------------- lookup by primary key

  /** `First(&comment, id)`: the live comment with that id; soft-deleted rows are invisible. */
  function FindComment(cs: seq<CommentRow>, id: int): (i: Option<nat>)
    ensures i.Some? ==> i.value < |cs| && cs[i.value].id == id && !cs[i.value].deleted
    ensures i.None? <==> forall j :: 0 <= j < |cs| ==> cs[j].id != id || cs[j].deleted
  {
    if cs == [] then None
    else if cs[0].id == id && !cs[0].deleted then Some(0)
    else
      var rest := FindComment(cs[1..], id);
      assert forall j :: 1 <= j < |cs| ==> cs[j] == cs[1..][j - 1];
      if rest.None? then None else Some(rest.value + 1)
  }

  // ---------------------------------------------------------------- CreateComment

  /** The comment the service passes in, before the database gives it an id. */
  datatype NewComment = NewComment(videoID: nat, userID: nat, content: string)

  /** The closure of `CreateComment`; `now` is the clock gorm stamps `CreatedAt` with. The
      INSERT fails on the foreign keys when the video or the user is missing, after taking
      its id. */
  function CreateCommentBody(t: Tables, comment: NewComment, now: int, f: set<TxSite>): Flow
  {
    if Stmt(1) in f then Return(Some(DbFailed), t)
    else if !VideoPresent(t, comment.videoID) || !UserPresent(t, comment.userID) then
      Return(Some(ForeignKeyFailed), t.(nextCommentID := t.nextCommentID + 1))
    else
      var row := CommentRow(t.nextCommentID, comment.videoID, comment.userID, comment.content, now, false);
      var t1 := t.(comments := t.comments + [row], nextCommentID := t.nextCommentID + 1);
      VideoCounter(t1, comment.videoID, CommentCount, 1, Stmt(2) in f, Some(DbFailed))
  }

  function CreateCommentTx(t: Tables, comment: NewComment, now: int, f: set<TxSite>): (Option<Error>, Tables)
  {
    Transaction(t, CreateCommentBody(t, comment, now, f), f)
  }

  method CreateComment(db: Database, comment: NewComment, now: int, f: set<TxSite>) returns (err: Option<Error>)
    modifies db
    ensures (err, db.State()) == CreateCommentTx(old(db.State()), comment, now, f)
  {
    if Begin in f {
      return Some(DbFailed);
    }
    var snapshot := db.State();
    err := CreateCommentClosure(db, comment, now, f);
    if err.Some? {
      db.Restore(snapshot);
    } else if Commit in f {
      db.Restore(snapshot);
      err := Some(DbFailed);
    }
  }

  method CreateCommentClosure(db: Database, comment: NewComment, now: int, f: set<TxSite>) returns (err: Option<Error>)
    modifies db
    ensures var fl := CreateCommentBody(old(db.State()), comment, now, f);
            err == (if fl.Return? then fl.err else None) && db.State() == fl.t
  {
    if Stmt(1) in f {
      return Some(DbFailed);
    }
    if comment.videoID !in db.videos || comment.userID !in db.users {
      db.SetComments(db.comments, db.nextCommentID + 1);
      return Some(ForeignKeyFailed);
    }
    var row := CommentRow(db.nextCommentID, comment.videoID, comment.userID, comment.content, now, false);
    db.SetComments(db.comments + [row], db.nextCommentID + 1);
    var res := db.AddToVideo(comment.videoID, CommentCount, 1, Stmt(2) in f);
    if res.ExecFailed? {
      return Some(DbFailed);
    } else if res.rows != 1 {
      return Some(ErrDatabase);
    }
    return None;
  }

  // ---------------------------------------------------------------- DelCommentByID

  /** The closure of `DelCommentByID`. The counter lowered is that of the `vid` argument,
      not of the comment's own video. */
  function DelCommentBody(t: Tables, commentID: I64, vid: I64, f: set<TxSite>): Flow
  {
    if Stmt(1) in f then Return(Some(DbFailed), t)
    else
      match FindComment(t.comments, commentID)
      case None => Return(Some(RecordNotFound), t)
      case Some(i) =>
        if Stmt(2) in f then Return(Some(DbFailed), t)
        else
          var t1 := t.(comments := t.comments[i := t.comments[i].(deleted := true)]);
          VideoCounter(t1, vid, CommentCount, -1, Stmt(3) in f, Some(DbFailed))
  }

  function DelCommentByIDTx(t: Tables, commentID: I64, vid: I64, f: set<TxSite>): (Option<Error>, Tables)
  {
    Transaction(t, DelCommentBody(t, commentID, vid, f), f)
  }

  method DelCommentByID(db: Database, commentID: I64, vid: I64, f: set<TxSite>) returns (err: Option<Error>)
    modifies db
    ensures (err, db.State()) == DelCommentByIDTx(old(db.State()), commentID, vid, f)
  {
    if Begin in f {
      return Some(DbFailed);
    }
    var snapshot := db.State();
    err := DelCommentClosure(db, commentID, vid, f);
    if err.Some? {
      db.Restore(snapshot);
    } else if Commit in f {
      db.Restore(snapshot);
      err := Some(DbFailed);
    }
  }

  method DelCommentClosure(db: Database, commentID: I64, vid: I64, f: set<TxSite>) returns (err: Option<Error>)
    modifies db
    ensures var fl := DelCommentBody(old(db.State()), commentID, vid, f);
            err == (if fl.Return? then fl.err else None) && db.State() == fl.t
  {
    if Stmt(1) in f {
      return Some(DbFailed);
    }
    var found := FindComment(db.comments, commentID);
    if found.None? {
      return Some(RecordNotFound);
    }
    if Stmt(2) in f {
      return Some(DbFailed);
    }
    var i := found.value;
    db.SetComments(db.comments[i := db.comments[i].(deleted := true)], db.nextCommentID);
    var res := db.AddToVideo(vid, CommentCount, -1, Stmt(3) in f);
    if res.ExecFailed? {
      return Some(DbFailed);
    } else if res.rows != 1 {
      return Some(ErrDatabase);
    }
    return None;
  }

  // ---------------------------------------------------------------- GetVideoCommentListByVideoID

  /** `Where(&Comment{VideoID: uint(videoID)})`: a zero field adds no condition, so video
      id 0 selects every live comment. */
  predicate Selected(c: CommentRow, videoID: I64)
  {
    !c.deleted && (AsUint(videoID) == 0 || c.videoID == AsUint(videoID))
  }

  function SelectComments(cs: seq<CommentRow>, videoID: I64): (rows: seq<CommentRow>)
    ensures forall c :: c in rows <==> c in cs && Selected(c, videoID)
    ensures multiset(rows) <= multiset(cs)
    ensures videoID > 0 ==> |rows| == LiveCount(cs, videoID)
  {
    if cs == [] then []
    else
      var last := cs[|cs| - 1];
      assert cs == cs[..|cs| - 1] + [last];
      SelectComments(cs[..|cs| - 1], videoID) + (if Selected(last, videoID) then [last] else [])
  }

  predicate NewestFirst(s: seq<CommentRow>)
  {
    forall i, j :: 0 <= i < j < |s| ==> s[i].createdAt >= s[j].createdAt
  }

  /** The row goes in front when it is at least as new as the head. */
  lemma InsertInFront(c: CommentRow, s: seq<CommentRow>)
    requires NewestFirst(s) && (s == [] || c.createdAt >= s[0].createdAt)
    ensures NewestFirst([c] + s)
  {
    var r := [c] + s;
    forall i, j | 0 <= i < j < |r|
      ensures r[i].createdAt >= r[j].createdAt
    {
      assert r[j] == s[j - 1];
      if i > 0 {
        assert r[i] == s[i - 1];
      } else {
        assert s[0].createdAt >= s[j - 1].createdAt;
      }
    }
  }

  /** The row goes behind the head when it is older; `rest` is its insertion into the tail. */
  lemma InsertBehind(c: CommentRow, s: seq<CommentRow>, rest: seq<CommentRow>)
    requires NewestFirst(s) && s != [] && c.createdAt < s[0].createdAt
    requires NewestFirst(rest) && multiset(rest) == multiset(s[1..]) + multiset{c}
    requires forall k :: 0 <= k < |rest| ==> rest[k] == c || rest[k] in s[1..]
    ensures var r := [s[0]] + rest;
            && NewestFirst(r) && multiset(r) == multiset(s) + multiset{c}
            && (forall k :: 0 <= k < |r| ==> r[k] == c || r[k] in s)
  {
    var r := [s[0]] + rest;
    forall i, j | 0 <= i < j < |r|
      ensures r[i].createdAt >= r[j].createdAt
    {
      assert r[j] == rest[j - 1];
      if i > 0 {
        assert r[i] == rest[i - 1];
      } else if rest[j - 1] != c {
        var k :| 0 <= k < |s[1..]| && s[1..][k] == rest[j - 1];
        assert s[k + 1] == rest[j - 1];
      }
    }
    assert s == [s[0]] + s[1..];
    assert multiset(r) == multiset([s[0]]) + multiset(rest);
    forall k | 0 <= k < |r|
      ensures r[k] == c || r[k] in s
    {
      if k > 0 {
        assert r[k] == rest[k - 1];
      }
    }
  }

  function InsertByNewest(c: CommentRow, s: seq<CommentRow>): (r: seq<CommentRow>)
    requires NewestFirst(s)
    ensures NewestFirst(r) && multiset(r) == multiset(s) + multiset{c}
    ensures forall k :: 0 <= k < |r| ==> r[k] == c || r[k] in s
  {
    if s == [] || c.createdAt >= s[0].createdAt then
      InsertInFront(c, s);
      [c] + s
    else
      var rest := InsertByNewest(c, s[1..]);
      InsertBehind(c, s, rest);
      [s[0]] + rest
  }

  /** `ORDER BY created_at DESC`. */
  function SortByNewest(s: seq<CommentRow>): (r: seq<CommentRow>)
    ensures NewestFirst(r) && multiset(r) == multiset(s)
  {
    if s == [] then []
    else
      assert s == [s[0]] + s[1..];
      InsertByNewest(s[0], SortByNewest(s[1..]))
  }

  function GetVideoCommentListByVideoID(t: Tables, videoID: I64, fail: bool): (r: Result<seq<CommentRow>>)
    ensures r.Err? <==> fail
    ensures r.Ok? ==> NewestFirst(r.value)
    ensures r.Ok? ==> forall c :: c in r.value <==> c in t.comments && Selected(c, videoID)
  {
    if fail then Err(DbFailed)
    else
      var rows := SelectComments(t.comments, videoID);
      var sorted := SortByNewest(rows);
      assert forall c :: c in sorted <==> c in multiset(rows);
      Ok(sorted)
  }

  // ---------------------------------------------------------------- properties

  /** A comment commits when nothing fails and its video and user exist: one live row with
      the next id, and the video's counter one higher. */
  lemma CreateCommentCommits(t: Tables, comment: NewComment, now: int)
    requires comment.videoID in t.videos && comment.userID in t.users
    ensures var (err, t') := CreateCommentTx(t, comment, now, {});
            && err == None
            && t'.comments == t.comments + [CommentRow(t.nextCommentID, comment.videoID, comment.userID, comment.content, now, false)]
            && t'.videos[comment.videoID].commentCount == t.videos[comment.videoID].commentCount + 1
  {
  }

  /** A missing video or user: the foreign keys refuse the INSERT, and the id it took stays
      used. */
  lemma CreateCommentMissingVideoRollsBack(t: Tables, comment: NewComment, now: int)
    requires comment.videoID !in t.videos || comment.userID !in t.users
    ensures CreateCommentTx(t, comment, now, {}) == (Some(ForeignKeyFailed), t.(nextCommentID := t.nextCommentID + 1))
  {
  }

  lemma CreateCommentPreservesCounters(t: Tables, comment: NewComment, now: int, f: set<TxSite>)
    requires CommentCountersAgree(t)
    ensures CommentCountersAgree(CreateCommentTx(t, comment, now, f).1)
  {
    var (err, t') := CreateCommentTx(t, comment, now, f);
    if err == None {
      assert Stmt(1) !in f && VideoPresent(t, comment.videoID) && UserPresent(t, comment.userID);
      var row := CommentRow(t.nextCommentID, comment.videoID, comment.userID, comment.content, now, false);
      var t1 := t.(comments := t.comments + [row], nextCommentID := t.nextCommentID + 1);
      assert t' == VideoCounter(t1, comment.videoID, CommentCount, 1, Stmt(2) in f, Some(DbFailed)).t;
      assert t'.comments == t.comments + [row];
      forall v | v in t'.videos
        ensures t'.videos[v].commentCount == LiveCount(t'.comments, v)
      {
        AppendLiveCount(t.comments, row, v);
      }
    } else {
      assert t'.comments == t.comments && t'.videos == t.videos;
    }
  }

  lemma CreateCommentPreservesIds(t: Tables, comment: NewComment, now: int, f: set<TxSite>)
    requires IdsWellFormed(t)
    ensures IdsWellFormed(CreateCommentTx(t, comment, now, f).1)
  {
  }

  /** Deleting an id with no live comment fails with the not-found error and changes nothing. */
  lemma DelCommentMissingFails(t: Tables, commentID: I64, vid: I64, f: set<TxSite>)
    requires FindComment(t.comments, commentID).None? && Begin !in f && Stmt(1) !in f
    ensures DelCommentByIDTx(t, commentID, vid, f) == (Some(RecordNotFound), t)
  {
  }

  /** A deleted comment stays in the table, hidden: deleting it again is not found. */
  lemma DelCommentTwiceNotFound(t: Tables, commentID: I64, vid: I64)
    requires IdsWellFormed(t)
    requires DelCommentByIDTx(t, commentID, vid, {}).0 == None
    ensures var t1 := DelCommentByIDTx(t, commentID, vid, {}).1;
            && |t1.comments| == |t.comments|
            && DelCommentByIDTx(t1, commentID, vid, {}) == (Some(RecordNotFound), t1)
  {
    var i := FindComment(t.comments, commentID).value;
    var t1 := DelCommentByIDTx(t, commentID, vid, {}).1;
    assert t1.comments == t.comments[i := t.comments[i].(deleted := true)];
    forall j | 0 <= j < |t1.comments|
      ensures t1.comments[j].id != commentID || t1.comments[j].deleted
    {
      if j != i {
        assert t1.comments[j] == t.comments[j];
        assert j < i ==> t.comments[j].id < t.comments[i].id;
        assert j > i ==> t.comments[i].id < t.comments[j].id;
      }
    }
  }

  /** Passed the comment's own video, a delete keeps the counters in agreement with the
      live comments, whatever fails. */
  lemma DelCommentPreservesCounters(t: Tables, commentID: I64, vid: I64, f: set<TxSite>)
    requires CommentCountersAgree(t)
    requires forall i :: 0 <= i < |t.comments| && t.comments[i].id == commentID ==> t.comments[i].videoID == vid
    ensures CommentCountersAgree(DelCommentByIDTx(t, commentID, vid, f).1)
  {
    var (err, t') := DelCommentByIDTx(t, commentID, vid, f);
    if err == None {
      var i := FindComment(t.comments, commentID).value;
      var c := t.comments[i].(deleted := true);
      assert t'.comments == t.comments[i := c];
      forall v | v in t'.videos
        ensures t'.videos[v].commentCount == LiveCount(t'.comments, v)
      {
        UpdateLiveCount(t.comments, i, c, v);
      }
    }
  }

  /** Passed another video than the comment's own, the delete commits, and the two videos'
      counters no longer match their live comments. */
  lemma DelCommentWrongVideoBreaksCounters(t: Tables, i: nat, vid: I64)
    requires CommentCountersAgree(t) && IdsWellFormed(t)
    requires i < |t.comments| && !t.comments[i].deleted && t.comments[i].videoID != vid
    requires t.comments[i].id < TwoTo63
    requires vid in t.videos && t.videos[vid].commentCount >= 1
    ensures var (err, t') := DelCommentByIDTx(t, t.comments[i].id, vid, {});
            && err == None
            && t'.videos[vid].commentCount + 1 == LiveCount(t'.comments, vid)
  {
    var id := t.comments[i].id;
    var c := t.comments[i].(deleted := true);
    UpdateLiveCount(t.comments, i, c, vid);
  }

  /** Under agreement, a video's comment list is as long as its counter. */
  lemma CommentListMatchesCounter(t: Tables, videoID: I64)
    requires CommentCountersAgree(t) && videoID > 0 && videoID in t.videos
    ensures |GetVideoCommentListByVideoID(t, videoID, false).value| == t.videos[videoID].commentCount
  {
    var rows := SelectComments(t.comments, videoID);
    assert |multiset(SortByNewest(rows))| == |multiset(rows)|;
  }
}
