/**
 * The publishing transaction and query of dal/db/publish.go. An author's `work_count`
 * mirrors the videos of that author, which `WorkCountersAgree` states.
 */
module DbPublish {
  import opened Errs
  import opened GoText
  import opened DbTables

  /** The ids of the videos of one author. */
  function Works(videos: map<int, Video>, authorID: int): set<int>
  {
    set v | v in videos && videos[v].authorID == authorID
  }

  ghost predicate WorkCountersAgree(t: Tables)
  {
    forall u :: u in t.users ==> t.users[u].workCount == |Works(t.videos, u)|
  }

  /** A video with a fresh id adds one work to its author and none to anyone else. */
  lemma WorksAfterInsert(videos: map<int, Video>, id: int, v: Video, u: int)
    requires id !in videos
    ensures |Works(videos[id := v], u)| == |Works(videos, u)| + (if v.authorID == u then 1 else 0)
  {
    if v.authorID == u {
      assert Works(videos[id := v], u) == Works(videos, u) + {id};
    } else {
      assert Works(videos[id := v], u) == Works(videos, u);
    }
  }

  // ---------------------------------------------------------------- CreateVideo

  /** The closure of `CreateVideo`. The INSERT fails on the foreign key when the author is
      missing, after taking its id. When the work-count UPDATE fails it returns the
      insert's `err`, which is nil there, so the video commits without the count. */
  function CreateVideoBody(t: Tables, authorID: nat, f: set<TxSite>): Flow
  {
    if Stmt(1) in f then Return(Some(DbFailed), t)
    else if !UserPresent(t, authorID) then Return(Some(ForeignKeyFailed), t.(nextVideoID := t.nextVideoID + 1))
    else
      var t1 := t.(videos := t.videos[t.nextVideoID := Video(authorID, 0, 0)], nextVideoID := t.nextVideoID + 1);
      UserCounter(t1, authorID, WorkCount, 1, Stmt(2) in f, None)
  }

  function CreateVideoTx(t: Tables, authorID: nat, f: set<TxSite>): (Option<Error>, Tables)
  {
    Transaction(t, CreateVideoBody(t, authorID, f), f)
  }

  method CreateVideo(db: Database, authorID: nat, f: set<TxSite>) returns (err: Option<Error>)
    modifies db
    ensures (err, db.State()) == CreateVideoTx(old(db.State()), authorID, f)
  {
    if Begin in f {
      return Some(DbFailed);
    }
    var snapshot := db.State();
    err := CreateVideoClosure(db, authorID, f);
    if err.Some? {
      db.Restore(snapshot);
    } else if Commit in f {
      db.Restore(snapshot);
      err := Some(DbFailed);
    }
  }

  method CreateVideoClosure(db: Database, authorID: nat, f: set<TxSite>) returns (err: Option<Error>)
    modifies db
    ensures var fl := CreateVideoBody(old(db.State()), authorID, f);
            err == (if fl.Return? then fl.err else None) && db.State() == fl.t
  {
    if Stmt(1) in f {
      return Some(DbFailed);
    }
    if authorID !in db.users {
      db.SkipVideoID();
      return Some(ForeignKeyFailed);
    }
    db.InsertVideo(Video(authorID, 0, 0));
    var res := db.AddToUser(authorID, WorkCount, 1, Stmt(2) in f);
    if res.ExecFailed? {
      return None;
    } else if res.rows != 1 {
      return Some(ErrDatabase);
    }
    return None;
  }

  // ---------------------------------------------------------------- GetVideosByUserID

  /** `Where(&Video{AuthorID: uint(authorId)})`: a zero field adds no condition, so author
      id 0 selects every video. */
  function GetVideosByUserID(t: Tables, authorID: I64, fail: bool): (r: Result<set<int>>)
    ensures r.Err? <==> fail
    ensures r.Ok? ==> forall v :: v in r.value <==> v in t.videos && (authorID == 0 || t.videos[v].authorID == AsUint(authorID))
    ensures r.Ok? && authorID > 0 ==> r.value == Works(t.videos, authorID)
  {
    if fail then Err(DbFailed)
    else if AsUint(authorID) == 0 then Ok(t.videos.Keys)
    else Ok(Works(t.videos, AsUint(authorID)))
  }

  // ---------------------------------------------------------------- properties

  lemma CreateVideoCommits(t: Tables, authorID: nat)
    requires authorID in t.users
    ensures var (err, t') := CreateVideoTx(t, authorID, {});
            && err == None
            && t'.videos == t.videos[t.nextVideoID := Video(authorID, 0, 0)]
            && t'.nextVideoID == t.nextVideoID + 1
            && t'.users[authorID].workCount == t.users[authorID].workCount + 1
  {
  }

  /** A missing author: the foreign key refuses the INSERT, and the id it took stays used. */
  lemma CreateVideoMissingAuthorRollsBack(t: Tables, authorID: nat)
    requires authorID !in t.users
    ensures CreateVideoTx(t, authorID, {}) == (Some(ForeignKeyFailed), t.(nextVideoID := t.nextVideoID + 1))
  {
  }

  /** The masked error: a failed work-count UPDATE still commits the video. */
  lemma CreateVideoMaskedCommit(t: Tables, authorID: nat)
    requires authorID in t.users
    ensures var (err, t') := CreateVideoTx(t, authorID, {Stmt(2)});
            err == None && t'.videos == t.videos[t.nextVideoID := Video(authorID, 0, 0)] && t'.users == t.users
  {
  }

  /** Without the masked failure, publishing keeps every author's count equal to their
      videos. */
  lemma CreateVideoPreservesCounters(t: Tables, authorID: nat, f: set<TxSite>)
    requires WorkCountersAgree(t) && IdsWellFormed(t)
    requires Stmt(2) !in f
    ensures WorkCountersAgree(CreateVideoTx(t, authorID, f).1)
  {
    var (err, t') := CreateVideoTx(t, authorID, f);
    if err == None {
      forall u | u in t'.users
        ensures t'.users[u].workCount == |Works(t'.videos, u)|
      {
        WorksAfterInsert(t.videos, t.nextVideoID, Video(authorID, 0, 0), u);
      }
    }
  }

  lemma CreateVideoPreservesIds(t: Tables, authorID: nat, f: set<TxSite>)
    requires IdsWellFormed(t)
    ensures IdsWellFormed(CreateVideoTx(t, authorID, f).1)
  {
  }

  /** With the masked failure, the author's count stays one short of their videos. */
  lemma CreateVideoMaskedBreaksCounters(t: Tables, authorID: nat)
    requires WorkCountersAgree(t) && IdsWellFormed(t) && authorID in t.users
    ensures var t' := CreateVideoTx(t, authorID, {Stmt(2)}).1;
            t'.users[authorID].workCount + 1 == |Works(t'.videos, authorID)|
  {
    CreateVideoMaskedCommit(t, authorID);
    WorksAfterInsert(t.videos, t.nextVideoID, Video(authorID, 0, 0), authorID);
  }

  /** Under agreement, an author's video list is as long as their work count. */
  lemma VideoListMatchesCounter(t: Tables, authorID: I64)
    requires WorkCountersAgree(t) && authorID > 0 && authorID in t.users
    ensures |GetVideosByUserID(t, authorID, false).value| == t.users[authorID].workCount
  {
  }
}
