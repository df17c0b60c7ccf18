/**
 * The follow transactions and queries of dal/db/relation.go. A follow is a row with an
 * auto-increment id; the follower's `following_count` and the followee's
 * `follower_count` mirror the rows, which `FollowCountersAgree` states.
 */
module DbRelation {
  import opened Errs
  import opened GoText
  import opened DbTables

  predicate IsFollow(r: FollowRow, userID: int, toUserID: int)
  {
    r.userID == userID && r.toUserID == toUserID
  }

  /** The rows whose follower is `userID`. */
  function CountFollowing(rels: seq<FollowRow>, userID: int): nat
  {
    if rels == [] then 0
    else CountFollowing(rels[..|rels| - 1], userID) + (if rels[|rels| - 1].userID == userID then 1 else 0)
  }

  /** The rows whose followee is `toUserID`. */
  function CountFollowers(rels: seq<FollowRow>, toUserID: int): nat
  {
    if rels == [] then 0
    else CountFollowers(rels[..|rels| - 1], toUserID) + (if rels[|rels| - 1].toUserID == toUserID then 1 else 0)
  }

  /** The rows of one (follower, followee) pair. */
  function CountPair(rels: seq<FollowRow>, userID: int, toUserID: int): nat
  {
    if rels == [] then 0
    else CountPair(rels[..|rels| - 1], userID, toUserID) + (if IsFollow(rels[|rels| - 1], userID, toUserID) then 1 else 0)
  }

  ghost predicate FollowCountersAgree(t: Tables)
  {
    forall u :: u in t.users ==>
      t.users[u].followingCount == CountFollowing(t.relations, u)
      && t.users[u].followerCount == CountFollowers(t.relations, u)
  }

  lemma {:induction false} CountsConcat(a: seq<FollowRow>, b: seq<FollowRow>, id: int, other: int)
    ensures CountFollowing(a + b, id) == CountFollowing(a, id) + CountFollowing(b, id)
    ensures CountFollowers(a + b, id) == CountFollowers(a, id) + CountFollowers(b, id)
    ensures CountPair(a + b, id, other) == CountPair(a, id, other) + CountPair(b, id, other)
  {
    if b == [] {
      assert a + b == a;
    } else {
      var b', x := b[..|b| - 1], b[|b| - 1];
      CountsConcat(a, b', id, other);
      assert (a + b)[..|a + b| - 1] == a + b';
    }
  }

  lemma CountsOne(r: FollowRow, id: int, other: int)
    ensures CountFollowing([r], id) == (if r.userID == id then 1 else 0)
    ensures CountFollowers([r], id) == (if r.toUserID == id then 1 else 0)
    ensures CountPair([r], id, other) == (if IsFollow(r, id, other) then 1 else 0)
  {
    assert [r][..0] == [];
  }

  /** Removing the row at index i takes exactly that row out of each count. */
  lemma CountsRemove(rels: seq<FollowRow>, i: nat, id: int, other: int)
    requires i < |rels|
    ensures var rest := rels[..i] + rels[i + 1..];
            && CountFollowing(rest, id) + (if rels[i].userID == id then 1 else 0) == CountFollowing(rels, id)
            && CountFollowers(rest, id) + (if rels[i].toUserID == id then 1 else 0) == CountFollowers(rels, id)
            && CountPair(rest, id, other) + (if IsFollow(rels[i], id, other) then 1 else 0) == CountPair(rels, id, other)
  {
    assert rels == rels[..i] + [rels[i]] + rels[i + 1..];
    CountsConcat(rels[..i] + [rels[i]], rels[i + 1..], id, other);
    CountsConcat(rels[..i], [rels[i]], id, other);
    CountsConcat(rels[..i], rels[i + 1..], id, other);
    CountsOne(rels[i], id, other);
  }

  // ---------------------------------------------------------------- GetRelationByUserIDs

  /** `First` on `user_id = ? AND to_user_id = ?`: the index of the row with the lowest id
      (rows are kept in id order), none when no row matches. */
  function FirstFollow(rels: seq<FollowRow>, userID: int, toUserID: int): (i: Option<nat>)
    ensures i.Some? ==> i.value < |rels| && IsFollow(rels[i.value], userID, toUserID)
    ensures i.Some? ==> forall j :: 0 <= j < i.value ==> !IsFollow(rels[j], userID, toUserID)
    ensures i.None? <==> CountPair(rels, userID, toUserID) == 0
  {
    if rels == [] then None
    else
      var rest := FirstFollow(rels[1..], userID, toUserID);
      assert rels == [rels[0]] + rels[1..];
      CountsConcat([rels[0]], rels[1..], userID, toUserID);
      CountsOne(rels[0], userID, toUserID);
      if IsFollow(rels[0], userID, toUserID) then Some(0)
      else if rest.None? then None
      else Some(rest.value + 1)
  }

  /** The follow row of the pair, nil when there is none, or the query's error. */
  function GetRelationByUserIDs(t: Tables, userID: I64, toUserID: I64, fail: bool): (r: Result<Option<FollowRow>>)
    ensures r.Err? <==> fail
    ensures r.Ok? ==> (r.value.Some? <==> CountPair(t.relations, userID, toUserID) > 0)
    ensures r.Ok? && r.value.Some? ==> r.value.value in t.relations && IsFollow(r.value.value, userID, toUserID)
  {
    if fail then Err(DbFailed)
    else
      match FirstFollow(t.relations, userID, toUserID)
      case None => Ok(None)
      case Some(i) => Ok(Some(t.relations[i]))
  }

  // ---------------------------------------------------------------- CreateRelation

  /** The closure of `CreateRelation`. The INSERT fails on the foreign keys when either
      user is missing, after taking its id. */
  function CreateRelationBody(t: Tables, userID: I64, toUserID: I64, f: set<TxSite>): Flow
  {
    if Stmt(1) in f then Return(Some(DbFailed), t)
    else if !UserPresent(t, AsUint(userID)) || !UserPresent(t, AsUint(toUserID)) then
      Return(Some(ForeignKeyFailed), t.(nextRelationID := t.nextRelationID + 1))
    else
      var t1 := t.(relations := t.relations + [FollowRow(t.nextRelationID, AsUint(userID), AsUint(toUserID))],
                   nextRelationID := t.nextRelationID + 1);
      match UserCounter(t1, userID, FollowingCount, 1, Stmt(2) in f, Some(DbFailed))
      case Return(e, t2) => Return(e, t2)
      case Continue(t2) => UserCounter(t2, toUserID, FollowerCount, 1, Stmt(3) in f, Some(DbFailed))
  }

  function CreateRelationTx(t: Tables, userID: I64, toUserID: I64, f: set<TxSite>): (r: (Option<Error>, Tables))
  {
    Transaction(t, CreateRelationBody(t, userID, toUserID, f), f)
  }

  method CreateRelation(db: Database, userID: I64, toUserID: I64, f: set<TxSite>) returns (err: Option<Error>)
    modifies db
    ensures (err, db.State()) == CreateRelationTx(old(db.State()), userID, toUserID, f)
  {
    if Begin in f {
      return Some(DbFailed);
    }
    var snapshot := db.State();
    err := CreateRelationClosure(db, userID, toUserID, f);
    if err.Some? {
      db.Restore(snapshot);
    } else if Commit in f {
      db.Restore(snapshot);
      err := Some(DbFailed);
    }
  }

  method CreateRelationClosure(db: Database, userID: I64, toUserID: I64, f: set<TxSite>) returns (err: Option<Error>)
    modifies db
    ensures var fl := CreateRelationBody(old(db.State()), userID, toUserID, f);
            err == (if fl.Return? then fl.err else None) && db.State() == fl.t
  {
    if Stmt(1) in f {
      return Some(DbFailed);
    }
    if AsUint(userID) !in db.users || AsUint(toUserID) !in db.users {
      db.SetRelations(db.relations, db.nextRelationID + 1);
      return Some(ForeignKeyFailed);
    }
    db.SetRelations(db.relations + [FollowRow(db.nextRelationID, AsUint(userID), AsUint(toUserID))], db.nextRelationID + 1);
    var res := db.AddToUser(userID, FollowingCount, 1, Stmt(2) in f);
    if res.ExecFailed? {
      return Some(DbFailed);
    } else if res.rows != 1 {
      return Some(ErrDatabase);
    }
    res := db.AddToUser(toUserID, FollowerCount, 1, Stmt(3) in f);
    if res.ExecFailed? {
      return Some(DbFailed);
    } else if res.rows != 1 {
      return Some(ErrDatabase);
    }
    return None;
  }

  // ---------------------------------------------------------------- DelRelationByUserIDs

  /** `First` reports a missing row as an error, so the `return nil` after it is never
      taken; the row found is then deleted by its primary key, which names that one row. */
  function DelRelationBody(t: Tables, userID: I64, toUserID: I64, f: set<TxSite>): Flow
  {
    if Stmt(1) in f then Return(Some(DbFailed), t)
    else
      match FirstFollow(t.relations, userID, toUserID)
      case None => Return(Some(RecordNotFound), t)
      case Some(i) =>
        if Stmt(2) in f then Return(Some(DbFailed), t)
        else
          var t1 := t.(relations := t.relations[..i] + t.relations[i + 1..]);
          match UserCounter(t1, userID, FollowingCount, -1, Stmt(3) in f, Some(DbFailed))
          case Return(e, t2) => Return(e, t2)
          case Continue(t2) => UserCounter(t2, toUserID, FollowerCount, -1, Stmt(4) in f, Some(DbFailed))
  }

  function DelRelationByUserIDsTx(t: Tables, userID: I64, toUserID: I64, f: set<TxSite>): (r: (Option<Error>, Tables))
  {
    Transaction(t, DelRelationBody(t, userID, toUserID, f), f)
  }

  method DelRelationByUserIDs(db: Database, userID: I64, toUserID: I64, f: set<TxSite>) returns (err: Option<Error>)
    modifies db
    ensures (err, db.State()) == DelRelationByUserIDsTx(old(db.State()), userID, toUserID, f)
  {
    if Begin in f {
      return Some(DbFailed);
    }
    var snapshot := db.State();
    err := DelRelationClosure(db, userID, toUserID, f);
    if err.Some? {
      db.Restore(snapshot);
    } else if Commit in f {
      db.Restore(snapshot);
      err := Some(DbFailed);
    }
  }

  method DelRelationClosure(db: Database, userID: I64, toUserID: I64, f: set<TxSite>) returns (err: Option<Error>)
    modifies db
    ensures var fl := DelRelationBody(old(db.State()), userID, toUserID, f);
            err == (if fl.Return? then fl.err else None) && db.State() == fl.t
  {
    if Stmt(1) in f {
      return Some(DbFailed);
    }
    var first := FirstFollow(db.relations, userID, toUserID);
    if first.None? {
      return Some(RecordNotFound);
    }
    if Stmt(2) in f {
      return Some(DbFailed);
    }
    var i := first.value;
    db.SetRelations(db.relations[..i] + db.relations[i + 1..], db.nextRelationID);
    var res := db.AddToUser(userID, FollowingCount, -1, Stmt(3) in f);
    if res.ExecFailed? {
      return Some(DbFailed);
    } else if res.rows != 1 {
      return Some(ErrDatabase);
    }
    res := db.AddToUser(toUserID, FollowerCount, -1, Stmt(4) in f);
    if res.ExecFailed? {
      return Some(DbFailed);
    } else if res.rows != 1 {
      return Some(ErrDatabase);
    }
    return None;
  }

  // ---------------------------------------------------------------- the lists

  /** `GetFollowingListByUserID`: the rows whose follower is the user. */
  function FollowingRows(rels: seq<FollowRow>, userID: int): (rows: seq<FollowRow>)
    ensures forall r :: r in rows <==> r in rels && r.userID == userID
    ensures |rows| == CountFollowing(rels, userID)
  {
    if rels == [] then []
    else
      var last := rels[|rels| - 1];
      assert rels == rels[..|rels| - 1] + [last];
      FollowingRows(rels[..|rels| - 1], userID) + (if last.userID == userID then [last] else [])
  }

  /** `GetFollowerListByUserID`: the rows whose followee is the user. */
  function FollowerRows(rels: seq<FollowRow>, toUserID: int): (rows: seq<FollowRow>)
    ensures forall r :: r in rows <==> r in rels && r.toUserID == toUserID
    ensures |rows| == CountFollowers(rels, toUserID)
  {
    if rels == [] then []
    else
      var last := rels[|rels| - 1];
      assert rels == rels[..|rels| - 1] + [last];
      FollowerRows(rels[..|rels| - 1], toUserID) + (if last.toUserID == toUserID then [last] else [])
  }

  function GetFollowingListByUserID(t: Tables, userID: I64, fail: bool): (r: Result<seq<FollowRow>>)
    ensures r.Err? <==> fail
    ensures r.Ok? ==> forall x :: x in r.value <==> x in t.relations && x.userID == userID
  {
    if fail then Err(DbFailed) else Ok(FollowingRows(t.relations, userID))
  }

  function GetFollowerListByUserID(t: Tables, toUserID: I64, fail: bool): (r: Result<seq<FollowRow>>)
    ensures r.Err? <==> fail
    ensures r.Ok? ==> forall x :: x in r.value <==> x in t.relations && x.toUserID == toUserID
  {
    if fail then Err(DbFailed) else Ok(FollowerRows(t.relations, toUserID))
  }

  /** Some row follows `userID` back from `toUserID`. */
  predicate FollowsBack(rels: seq<FollowRow>, userID: int, toUserID: int)
  {
    exists k :: 0 <= k < |rels| && IsFollow(rels[k], toUserID, userID)
  }

  /** `GetFriendList`'s raw SELECT: the user's rows whose followee follows the user back.
      The SELECT names no id column, so the scanned rows carry id 0. */
  function FriendRows(rels: seq<FollowRow>, all: seq<FollowRow>, userID: int): (rows: seq<FollowRow>)
    ensures forall r :: r in rows ==> r.id == 0 && r.userID == userID
    ensures forall r :: r in rels && r.userID == userID && FollowsBack(all, userID, r.toUserID) ==> r.(id := 0) in rows
    ensures forall r :: r in rows ==> exists x :: x in rels && x.userID == userID && x.toUserID == r.toUserID && FollowsBack(all, userID, r.toUserID)
  {
    if rels == [] then []
    else
      var last := rels[|rels| - 1];
      assert rels == rels[..|rels| - 1] + [last];
      FriendRows(rels[..|rels| - 1], all, userID)
        + (if last.userID == userID && FollowsBack(all, userID, last.toUserID) then [last.(id := 0)] else [])
  }

  function GetFriendList(t: Tables, userID: I64, fail: bool): (r: Result<seq<FollowRow>>)
    ensures r.Err? <==> fail
  {
    if fail then Err(DbFailed) else Ok(FriendRows(t.relations, t.relations, userID))
  }

  // ---------------------------------------------------------------- properties

  /** A follow commits exactly when nothing fails and both users exist; it appends a row
      with the next id and raises the two counters. */
  lemma CreateRelationCommits(t: Tables, userID: I64, toUserID: I64)
    requires userID >= 0 && toUserID >= 0 && userID in t.users && toUserID in t.users
    ensures var (err, t') := CreateRelationTx(t, userID, toUserID, {});
            && err == None
            && t'.relations == t.relations + [FollowRow(t.nextRelationID, userID, toUserID)]
            && t'.nextRelationID == t.nextRelationID + 1
            && t'.users[userID].followingCount == t.users[userID].followingCount + 1
            && t'.users[toUserID].followerCount == t.users[toUserID].followerCount + 1
  {
  }

  /** A follow whose statements go through but whose COMMIT fails leaves the rows as
      they were and returns the error. */
  lemma CreateRelationFailedCommitRollsBack(t: Tables, userID: I64, toUserID: I64)
    requires userID >= 0 && toUserID >= 0 && userID in t.users && toUserID in t.users
    ensures CreateRelationTx(t, userID, toUserID, {Commit}) == (Some(DbFailed), t.(nextRelationID := t.nextRelationID + 1))
  {
    CreateRelationCommits(t, userID, toUserID);
    assert CreateRelationBody(t, userID, toUserID, {Commit}) == CreateRelationBody(t, userID, toUserID, {});
  }

  /** A missing user: the foreign keys refuse the INSERT, and the id it took stays used. */
  lemma CreateRelationMissingUserRollsBack(t: Tables, userID: I64, toUserID: I64)
    requires AsUint(userID) !in t.users || AsUint(toUserID) !in t.users
    ensures CreateRelationTx(t, userID, toUserID, {}) == (Some(ForeignKeyFailed), t.(nextRelationID := t.nextRelationID + 1))
  {
  }

  /** Every error is returned and rolled back, so a follow keeps the counters in agreement
      with the rows whatever fails. */
  lemma CreateRelationPreservesCounters(t: Tables, userID: I64, toUserID: I64, f: set<TxSite>)
    requires FollowCountersAgree(t)
    requires userID >= 0 && toUserID >= 0
    ensures FollowCountersAgree(CreateRelationTx(t, userID, toUserID, f).1)
  {
    var (err, t') := CreateRelationTx(t, userID, toUserID, f);
    if err == None {
      var row := FollowRow(t.nextRelationID, userID, toUserID);
      assert t'.relations == t.relations + [row];
      forall u | u in t'.users
        ensures t'.users[u].followingCount == CountFollowing(t'.relations, u)
        ensures t'.users[u].followerCount == CountFollowers(t'.relations, u)
      {
        CountsConcat(t.relations, [row], u, 0);
        CountsOne(row, u, 0);
      }
    }
  }

  lemma CreateRelationPreservesIds(t: Tables, userID: I64, toUserID: I64, f: set<TxSite>)
    requires IdsWellFormed(t)
    ensures IdsWellFormed(CreateRelationTx(t, userID, toUserID, f).1)
  {
  }

  /** Nothing makes a pair unique: following twice commits two rows for it. */
  lemma FollowTwiceDuplicates(t: Tables, userID: I64, toUserID: I64)
    requires userID >= 0 && toUserID >= 0 && userID in t.users && toUserID in t.users
    ensures var (e1, t1) := CreateRelationTx(t, userID, toUserID, {});
            var (e2, t2) := CreateRelationTx(t1, userID, toUserID, {});
            e1 == None && e2 == None && CountPair(t2.relations, userID, toUserID) == CountPair(t.relations, userID, toUserID) + 2
  {
    CreateRelationCommits(t, userID, toUserID);
    var t1 := CreateRelationTx(t, userID, toUserID, {}).1;
    CreateRelationCommits(t1, userID, toUserID);
    var r1 := FollowRow(t.nextRelationID, userID, toUserID);
    var r2 := FollowRow(t1.nextRelationID, userID, toUserID);
    CountsConcat(t.relations, [r1], userID, toUserID);
    CountsOne(r1, userID, toUserID);
    CountsConcat(t1.relations, [r2], userID, toUserID);
    CountsOne(r2, userID, toUserID);
  }

  /** Unfollowing a pair with no row fails with the not-found error and changes nothing. */
  lemma DelRelationMissingRowFails(t: Tables, userID: I64, toUserID: I64, f: set<TxSite>)
    requires CountPair(t.relations, userID, toUserID) == 0 && Begin !in f && Stmt(1) !in f
    ensures DelRelationByUserIDsTx(t, userID, toUserID, f) == (Some(RecordNotFound), t)
  {
  }

  /** A committed unfollow removes one row of the pair, the one with the lowest id, and
      lowers the two counters. */
  lemma DelRelationRemovesFirst(t: Tables, userID: I64, toUserID: I64, f: set<TxSite>)
    requires DelRelationByUserIDsTx(t, userID, toUserID, f).0 == None
    ensures var t' := DelRelationByUserIDsTx(t, userID, toUserID, f).1;
            && CountPair(t.relations, userID, toUserID) >= 1
            && CountPair(t'.relations, userID, toUserID) + 1 == CountPair(t.relations, userID, toUserID)
            && t'.users[userID].followingCount + 1 == t.users[userID].followingCount
            && t'.users[toUserID].followerCount + 1 == t.users[toUserID].followerCount
  {
    var i := FirstFollow(t.relations, userID, toUserID).value;
    CountsRemove(t.relations, i, userID, toUserID);
  }

  /** An unfollow keeps the counters in agreement with the rows whatever fails. */
  lemma DelRelationPreservesCounters(t: Tables, userID: I64, toUserID: I64, f: set<TxSite>)
    requires FollowCountersAgree(t)
    ensures FollowCountersAgree(DelRelationByUserIDsTx(t, userID, toUserID, f).1)
  {
    var (err, t') := DelRelationByUserIDsTx(t, userID, toUserID, f);
    if err == None {
      var i := FirstFollow(t.relations, userID, toUserID).value;
      assert t'.relations == t.relations[..i] + t.relations[i + 1..];
      forall u | u in t'.users
        ensures t'.users[u].followingCount == CountFollowing(t'.relations, u)
        ensures t'.users[u].followerCount == CountFollowers(t'.relations, u)
      {
        CountsRemove(t.relations, i, u, 0);
      }
    }
  }

  lemma DelRelationPreservesIds(t: Tables, userID: I64, toUserID: I64, f: set<TxSite>)
    requires IdsWellFormed(t)
    ensures IdsWellFormed(DelRelationByUserIDsTx(t, userID, toUserID, f).1)
  {
    var (err, t') := DelRelationByUserIDsTx(t, userID, toUserID, f);
    if err == None {
      var i := FirstFollow(t.relations, userID, toUserID).value;
      assert t' == t.(relations := t.relations[..i] + t.relations[i + 1..], users := t'.users);
      RemovalKeepsIdOrder(t.relations, i, t.nextRelationID);
    } else {
      DelRelationKeepsIdCounters(t, userID, toUserID, f);
    }
  }

  /** An unfollow takes no id, so its rollback is a plain return to the old tables. */
  lemma DelRelationKeepsIdCounters(t: Tables, userID: I64, toUserID: I64, f: set<TxSite>)
    ensures DelRelationByUserIDsTx(t, userID, toUserID, f).0.Some? ==> DelRelationByUserIDsTx(t, userID, toUserID, f).1 == t
  {
    var body := DelRelationBody(t, userID, toUserID, f);
    assert body.t.nextRelationID == t.nextRelationID && body.t.nextCommentID == t.nextCommentID
        && body.t.nextVideoID == t.nextVideoID;
  }

  /** Removing one row keeps the ids in increasing order and within bounds. */
  lemma RemovalKeepsIdOrder(rels: seq<FollowRow>, i: nat, next: int)
    requires i < |rels|
    requires forall a, b :: 0 <= a < b < |rels| ==> rels[a].id < rels[b].id
    requires forall a :: 0 <= a < |rels| ==> 1 <= rels[a].id < next
    ensures var r := rels[..i] + rels[i + 1..];
            && (forall a, b :: 0 <= a < b < |r| ==> r[a].id < r[b].id)
            && (forall a :: 0 <= a < |r| ==> 1 <= r[a].id < next)
  {
    var r := rels[..i] + rels[i + 1..];
    forall a | 0 <= a < |r|
      ensures r[a] == rels[if a < i then a else a + 1]
    {
    }
  }

  /** Under agreement, the following and follower lists are as long as the user's counters. */
  lemma ListsMatchCounters(t: Tables, userID: I64)
    requires FollowCountersAgree(t) && userID in t.users
    ensures |GetFollowingListByUserID(t, userID, false).value| == t.users[userID].followingCount
    ensures |GetFollowerListByUserID(t, userID, false).value| == t.users[userID].followerCount
  {
  }

  /** Friendship is mutual: the user's friend list names a followee exactly when the two
      follow each other, and then each appears in the other's list. */
  lemma FriendListIsMutual(t: Tables, userID: I64, other: I64)
    ensures (exists r :: r in GetFriendList(t, userID, false).value && r.toUserID == other)
            <==> FollowsBack(t.relations, other, userID) && FollowsBack(t.relations, userID, other)
  {
    var list := GetFriendList(t, userID, false).value;
    if FollowsBack(t.relations, other, userID) && FollowsBack(t.relations, userID, other) {
      var k :| 0 <= k < |t.relations| && IsFollow(t.relations[k], userID, other);
      assert t.relations[k].(id := 0) in list;
    }
    if exists r :: r in list && r.toUserID == other {
      var r :| r in list && r.toUserID == other;
      var x :| x in t.relations && x.userID == userID && x.toUserID == other && FollowsBack(t.relations, userID, other);
      var k :| 0 <= k < |t.relations| && t.relations[k] == x;
      assert FollowsBack(t.relations, other, userID);
    }
  }

  /** Each of two friends appears in the other's friend list. */
  lemma FriendshipIsSymmetric(t: Tables, userID: I64, other: I64)
    ensures (exists r :: r in GetFriendList(t, userID, false).value && r.toUserID == other)
            <==> (exists r :: r in GetFriendList(t, other, false).value && r.toUserID == userID)
  {
    FriendListIsMutual(t, userID, other);
    FriendListIsMutual(t, other, userID);
  }
}
