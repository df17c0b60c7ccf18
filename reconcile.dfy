/**
 * The conflict rule shared by `UpdateFavorite` (dal/redis/favorite.go) and
 * `UpdateRelation` (dal/redis/relation.go). Both take their domain's mutex, look for the
 * write view of the pair, and either write the event's value into the read view (with a
 * 6-second TTL) and the write view (no TTL), or keep the cached state. The two functions
 * differ only in their key names and their mutex, so the rule is stated once here, over
 * the pair's read key `rk` and write key `wk`.
 *
 * A value is `"<createdAt>::<actionType>"`. An event whose action equals the cached one is
 * dropped; otherwise it replaces the cached one when its `createdAt`, as text, is greater
 * than the cached `createdAt` text.
 */
module Reconcile {
  import opened Errs
  import opened GoText
  import opened RedisInit
  import opened RedisCommon

  /** The calls of one update, each of which may fail. */
  datatype Site =
    | Lock          // the first LockByMutex
    | Exists        // EXISTS on the write view
    | Get           // GET of the read view (its error is ignored: the value is then "")
    | SetRead       // the SET inside setKey for the read view
    | UnlockRead    // the unlock inside that setKey
    | Relock        // the LockByMutex between the two setKey calls
    | SetWrite      // the SET inside setKey for the write view
    | UnlockWrite   // the unlock inside that setKey
    | Unlock        // the UnlockByMutex of the early returns

  /** How a call ends: it returns an error value (None for nil), or the goroutine panics. */
  datatype Status = Done(err: Option<Error>) | Panicked

  /** `fmt.Sprintf("%d::%d", CreatedAt, ActionType)`. */
  function ViewValue(ct: U64, at: U64): (v: string)
    ensures |v| >= 3
  {
    NatToString(ct) + "::" + NatToString(at)
  }

  /** What the code does with the read view it found, `res`. */
  datatype Decision = WriteViews | Keep | Discard | Crash

  /** `vSplit[0], vSplit[1]` and the two comparisons that follow them. */
  function Decide(res: string, ct: U64, at: U64): Decision
  {
    var parts := Split(res);
    if |parts| < 2 then Crash
    else if parts[1] == Itoa(GoInt(at)) then Keep
    else if Less(parts[0], Itoa(GoInt(ct))) then WriteViews
    else Discard
  }

  /** Keys other than `keys` are untouched between two key spaces. */
  ghost predicate SameExcept(a: map<string, Entry>, b: map<string, Entry>, keys: set<string>)
  {
    forall k :: k !in keys ==> (k in a <==> k in b) && (k in a ==> a[k] == b[k])
  }

  /** `setKey(read, v, ExpireTime)`, `LockByMutex`, `setKey(write, v, 0)`, stopping at the first error. */
  function WriteBoth(s: CacheState, rk: string, wk: string, v: string, f: set<Site>): (r: (Status, CacheState))
    ensures r.0.Done?
    ensures SameExcept(s.store, r.1.store, {rk, wk})
  {
    var (e1, s1) := SetKeySpec(s, rk, v, ExpireTime, SetRead in f, UnlockRead in f);
    if e1.Some? then (Done(e1), s1)
    else
      var (e2, h2) := TryLock(s1.held, Relock in f);
      if e2.Some? then (Done(e2), s1)
      else
        var (e3, s3) := SetKeySpec(CacheState(s1.store, h2), wk, v, 0, SetWrite in f, UnlockWrite in f);
        (Done(e3), s3)
  }

  /** `UpdateFavorite` / `UpdateRelation` for an event (`ct`, `at`) on the pair (`rk`, `wk`). */
  function Update(s: CacheState, rk: string, wk: string, ct: U64, at: U64, f: set<Site>): (r: (Status, CacheState))
    ensures SameExcept(s.store, r.1.store, {rk, wk})
    ensures s.held || Lock in f ==> r == (Done(Some(LockFailed)), s)
    ensures r.0.Panicked? ==> r.1 == CacheState(s.store, true)
  {
    var (e0, h0) := TryLock(s.held, Lock in f);
    if e0.Some? then (Done(e0), s)
    else if Exists in f then
      var (eu, hu) := TryUnlock(h0, Unlock in f);
      (Done(if eu.Some? then eu else Some(RedisFailed)), CacheState(s.store, hu))
    else if wk !in s.store then
      WriteBoth(CacheState(s.store, h0), rk, wk, ViewValue(ct, at), f)
    else
      var res := match GetReply(s.store, rk, Get in f) { case Ok(v) => v case Err(_) => "" };
      match Decide(res, ct, at) {
        case Crash => (Panicked, CacheState(s.store, h0))
        case WriteViews => WriteBoth(CacheState(s.store, h0), rk, wk, ViewValue(ct, at), f)
        case _ =>
          var (eu, hu) := TryUnlock(h0, Unlock in f);
          (Done(eu), CacheState(s.store, hu))
      }
  }

  /** The one update method behind both `UpdateFavorite` and `UpdateRelation`. */
  method UpdateViews(r: RedisHelper, m: Mutex, rk: string, wk: string, ct: U64, at: U64, f: set<Site>)
    returns (st: Status)
    modifies r, m
    ensures (st, CacheState(r.store, m.held)) == Update(CacheState(old(r.store), old(m.held)), rk, wk, ct, at, f)
  {
    var errLock := m.LockByMutex(Lock in f);
    if errLock.Some? {
      return Done(errLock);
    }
    var value := ViewValue(ct, at);
    var existed := r.Exists(wk, Exists in f);
    if existed.Err? {
      var errUnlock := m.UnlockByMutex(Unlock in f);
      if errUnlock.Some? {
        return Done(errUnlock);
      }
      return Done(Some(existed.error));
    }
    var write := false;
    if !existed.value {
      write := true;
    } else {
      var got := r.Get(rk, Get in f);
      var res := if got.Ok? then got.value else "";
      var d := Decide(res, ct, at);
      if d == Crash {
        return Panicked;
      } else if d == WriteViews {
        write := true;
      } else {
        var errUnlock := m.UnlockByMutex(Unlock in f);
        return Done(errUnlock);
      }
    }
    assert write;
    var err := SetKey(r, rk, value, ExpireTime, m, SetRead in f, UnlockRead in f);
    if err.Some? {
      return Done(err);
    }
    errLock := m.LockByMutex(Relock in f);
    if errLock.Some? {
      return Done(errLock);
    }
    err := SetKey(r, wk, value, 0, m, SetWrite in f, UnlockWrite in f);
    return Done(err);
  }

  // ---------------------------------------------------------------- reading a view back

  /** A value the code wrote splits back into its two numbers. */
  lemma ViewSplit(ct: U64, at: U64)
    ensures Split(ViewValue(ct, at)) == [NatToString(ct), NatToString(at)]
  {
    SplitPiece(NatToString(ct), NatToString(at));
    SplitNoColon(NatToString(at));
  }

  lemma NatToStringInjective(a: nat, b: nat)
    requires NatToString(a) == NatToString(b)
    ensures a == b
  {
  }

  /** On a cached value and an event below 2^63, the rule compares actions and then the
      decimal texts of the creation times. */
  lemma DecideOnView(ct0: U64, at0: U64, ct: U64, at: U64)
    requires at0 < TwoTo63 && ct < TwoTo63 && at < TwoTo63
    ensures Decide(ViewValue(ct0, at0), ct, at)
         == if at0 == at then Keep
            else if Less(NatToString(ct0), NatToString(ct)) then WriteViews
            else Discard
  {
    ViewSplit(ct0, at0);
    if NatToString(at0) == NatToString(at) {
      NatToStringInjective(at0, at);
    }
  }

  /** An action from 2^63 up prints differently through `%d` and through `Itoa(int(..))`,
      so an event carrying it is never recognised as the cached action. */
  lemma WideActionNeverKeeps(ct0: U64, at0: U64, ct: U64, at: U64)
    requires at >= TwoTo63
    ensures Decide(ViewValue(ct0, at0), ct, at) != Keep
  {
    ViewSplit(ct0, at0);
    assert NatToString(at0)[0] != '-';
  }

  // ---------------------------------------------------------------- the branches

  /** The entries both views get when an event is written. */
  function Written(store: map<string, Entry>, rk: string, wk: string, ct: U64, at: U64): map<string, Entry>
  {
    store[rk := Entry(ViewValue(ct, at), ExpiresIn(ExpireTime))][wk := Entry(ViewValue(ct, at), Persistent)]
  }

  /** No write view yet: both views are written and the lock is released. */
  lemma UpdateAbsentWritesBoth(s: CacheState, rk: string, wk: string, ct: U64, at: U64)
    requires !s.held && wk !in s.store
    ensures Update(s, rk, wk, ct, at, {}) == (Done(None), CacheState(Written(s.store, rk, wk, ct, at), false))
  {
  }

  /** The cached action equals the event's: nothing changes and the lock is released. */
  lemma UpdateSameActionKeeps(s: CacheState, rk: string, wk: string, ct0: U64, ct: U64, at: U64)
    requires !s.held && wk in s.store && rk in s.store && rk != wk
    requires s.store[rk].value == ViewValue(ct0, at)
    requires ct < TwoTo63 && at < TwoTo63
    ensures Update(s, rk, wk, ct, at, {}) == (Done(None), CacheState(s.store, false))
  {
    DecideOnView(ct0, at, ct, at);
  }

  /** A different action with a later creation time (as text) replaces both views. */
  lemma UpdateNewerOverwrites(s: CacheState, rk: string, wk: string, ct0: U64, at0: U64, ct: U64, at: U64)
    requires !s.held && wk in s.store && rk in s.store
    requires s.store[rk].value == ViewValue(ct0, at0)
    requires at0 < TwoTo63 && ct < TwoTo63 && at < TwoTo63
    requires at0 != at && Less(NatToString(ct0), NatToString(ct))
    ensures Update(s, rk, wk, ct, at, {}) == (Done(None), CacheState(Written(s.store, rk, wk, ct, at), false))
  {
    DecideOnView(ct0, at0, ct, at);
  }

  /** A different action that is not later (as text) is dropped; the lock is released. */
  lemma UpdateStaleDiscards(s: CacheState, rk: string, wk: string, ct0: U64, at0: U64, ct: U64, at: U64)
    requires !s.held && wk in s.store && rk in s.store
    requires s.store[rk].value == ViewValue(ct0, at0)
    requires at0 < TwoTo63 && ct < TwoTo63 && at < TwoTo63
    requires at0 != at && !Less(NatToString(ct0), NatToString(ct))
    ensures Update(s, rk, wk, ct, at, {}) == (Done(None), CacheState(s.store, false))
  {
    DecideOnView(ct0, at0, ct, at);
  }

  /** The read view has expired (or its GET failed) while the write view waits for the
      sweep: `vSplit[1]` is out of range, the goroutine panics and the mutex stays held. */
  lemma UpdateExpiredReadPanics(s: CacheState, rk: string, wk: string, ct: U64, at: U64, f: set<Site>)
    requires !s.held && wk in s.store && Lock !in f && Exists !in f
    requires rk !in s.store || Get in f
    ensures Update(s, rk, wk, ct, at, f) == (Panicked, CacheState(s.store, true))
  {
    assert Split("") == [""];
  }

  /** After a panic every later update of the domain fails to lock and changes nothing. */
  lemma PanicBlocksDomain(s: CacheState, rk: string, wk: string, ct: U64, at: U64, f: set<Site>,
                          rk2: string, wk2: string, ct2: U64, at2: U64, f2: set<Site>)
    requires Update(s, rk, wk, ct, at, f).0.Panicked?
    ensures var s1 := Update(s, rk, wk, ct, at, f).1;
            Update(s1, rk2, wk2, ct2, at2, f2) == (Done(Some(LockFailed)), s1)
  {
  }

  /** EXISTS failing: no view is written and the lock is released unless its unlock fails. */
  lemma UpdateExistsErrorNoWrite(s: CacheState, rk: string, wk: string, ct: U64, at: U64, f: set<Site>)
    requires !s.held && Lock !in f && Exists in f
    ensures Update(s, rk, wk, ct, at, f).1.store == s.store
    ensures Update(s, rk, wk, ct, at, f).0 == Done(Some(if Unlock in f then UnlockFailed else RedisFailed))
    ensures Update(s, rk, wk, ct, at, f).1.held <==> Unlock in f
  {
  }

  /** Relocking between the two SETs fails: only the read view has been written. */
  lemma UpdateRelockFailureHalfWritten(s: CacheState, rk: string, wk: string, ct: U64, at: U64)
    requires !s.held && wk !in s.store && rk != wk
    ensures var r := Update(s, rk, wk, ct, at, {Relock});
            && r.0 == Done(Some(LockFailed))
            && r.1.store == s.store[rk := Entry(ViewValue(ct, at), ExpiresIn(ExpireTime))]
            && wk !in r.1.store && !r.1.held
  {
  }

  /** Unless an unlock call fails, a call that returns has released the mutex. */
  lemma UpdateReleasesLock(s: CacheState, rk: string, wk: string, ct: U64, at: U64, f: set<Site>)
    requires !s.held && UnlockRead !in f && UnlockWrite !in f && Unlock !in f
    ensures Update(s, rk, wk, ct, at, f).0.Done? ==> !Update(s, rk, wk, ct, at, f).1.held
  {
  }

  /** A nil return means the event is now reflected in the cache: its action is the cached
      one, or a later (as text) different action is. */
  lemma UpdateNilMeansSettled(s: CacheState, rk: string, wk: string, ct: U64, at: U64, f: set<Site>)
    requires !s.held && rk != wk
    requires Update(s, rk, wk, ct, at, f).0 == Done(None)
    ensures var s1 := Update(s, rk, wk, ct, at, f).1;
            (wk in s1.store && rk in s1.store && Decide(s1.store[rk].value, ct, at) in {Keep, Discard})
            || s1.store == Written(s.store, rk, wk, ct, at)
  {
  }

  // ---------------------------------------------------------------- several events

  /** Delivering one event twice (say, a redelivered message) changes nothing the second time. */
  lemma UpdateIdempotent(s: CacheState, rk: string, wk: string, ct: U64, at: U64)
    requires rk != wk && ct < TwoTo63 && at < TwoTo63
    ensures var s1 := Update(s, rk, wk, ct, at, {}).1;
            Update(s1, rk, wk, ct, at, {}).1 == s1
  {
    var s1 := Update(s, rk, wk, ct, at, {}).1;
    if !s.held && !s1.held && s1.store == Written(s.store, rk, wk, ct, at) {
      UpdateSameActionKeeps(s1, rk, wk, ct, ct, at);
    }
  }

  /** Writing a second event over the first leaves exactly the second one's views. */
  lemma WrittenTwice(store: map<string, Entry>, rk: string, wk: string, ct1: U64, at1: U64, ct2: U64, at2: U64)
    ensures Written(Written(store, rk, wk, ct1, at1), rk, wk, ct2, at2) == Written(store, rk, wk, ct2, at2)
  {
  }

  /** Two events from a pair with no write view, the later-created one arriving last. */
  lemma LaterArrivesLast(s: CacheState, rk: string, wk: string, ct1: U64, at1: U64, ct2: U64, at2: U64)
    requires !s.held && wk !in s.store && rk != wk
    requires at1 < TwoTo63 && ct2 < TwoTo63 && at2 < TwoTo63 && at1 != at2
    requires Less(NatToString(ct1), NatToString(ct2))
    ensures Update(Update(s, rk, wk, ct1, at1, {}).1, rk, wk, ct2, at2, {}).1
         == CacheState(Written(s.store, rk, wk, ct2, at2), false)
  {
    UpdateAbsentWritesBoth(s, rk, wk, ct1, at1);
    var s1 := CacheState(Written(s.store, rk, wk, ct1, at1), false);
    UpdateNewerOverwrites(s1, rk, wk, ct1, at1, ct2, at2);
    WrittenTwice(s.store, rk, wk, ct1, at1, ct2, at2);
  }

  /** Two events from a pair with no write view, the later-created one arriving first. */
  lemma LaterArrivesFirst(s: CacheState, rk: string, wk: string, ct1: U64, at1: U64, ct2: U64, at2: U64)
    requires !s.held && wk !in s.store && rk != wk
    requires ct1 < TwoTo63 && at1 < TwoTo63 && at2 < TwoTo63 && at1 != at2
    requires !Less(NatToString(ct2), NatToString(ct1))
    ensures Update(Update(s, rk, wk, ct2, at2, {}).1, rk, wk, ct1, at1, {}).1
         == CacheState(Written(s.store, rk, wk, ct2, at2), false)
  {
    UpdateAbsentWritesBoth(s, rk, wk, ct2, at2);
    var s2 := CacheState(Written(s.store, rk, wk, ct2, at2), false);
    UpdateStaleDiscards(s2, rk, wk, ct2, at2, ct1, at1);
  }

  /** With creation times of one decimal width, two different actions end in the later one,
      whichever arrives first. */
  lemma LastWriterWinsEqualWidth(s: CacheState, rk: string, wk: string,
                                 ct1: U64, at1: U64, ct2: U64, at2: U64)
    requires !s.held && wk !in s.store && rk != wk
    requires ct1 < ct2 < TwoTo63 && at1 < TwoTo63 && at2 < TwoTo63 && at1 != at2
    requires |NatToString(ct1)| == |NatToString(ct2)|
    ensures var a := Update(Update(s, rk, wk, ct1, at1, {}).1, rk, wk, ct2, at2, {}).1;
            var b := Update(Update(s, rk, wk, ct2, at2, {}).1, rk, wk, ct1, at1, {}).1;
            a == b == CacheState(Written(s.store, rk, wk, ct2, at2), false)
  {
    TextOrderIsNumericForEqualWidth(ct1, ct2);
    TextOrderIsNumericForEqualWidth(ct2, ct1);
    LaterArrivesLast(s, rk, wk, ct1, at1, ct2, at2);
    LaterArrivesFirst(s, rk, wk, ct1, at1, ct2, at2);
  }

  /** Across widths the rule misorders: an event created at 9 replaces one created at 10. */
  lemma OlderEventWinsAcrossWidths(s: CacheState, rk: string, wk: string, at1: U64, at2: U64)
    requires !s.held && wk !in s.store && rk != wk
    requires at1 < TwoTo63 && at2 < TwoTo63 && at1 != at2
    ensures var a := Update(Update(s, rk, wk, 10, at1, {}).1, rk, wk, 9, at2, {}).1;
            a == CacheState(Written(s.store, rk, wk, 9, at2), false)
  {
    TextOrderIsNotNumeric();
    LaterArrivesLast(s, rk, wk, 10, at1, 9, at2);
  }

  /** The producers leave `CreatedAt` at 0, so once a view exists a different action is
      dropped: the first action written stays until the sweep removes the write view. */
  lemma ZeroTimestampFirstWins(s: CacheState, rk: string, wk: string, at0: U64, at: U64)
    requires !s.held && wk in s.store && rk in s.store && rk != wk
    requires s.store[rk].value == ViewValue(0, at0)
    requires at0 < TwoTo63 && at < TwoTo63
    ensures Update(s, rk, wk, 0, at, {}) == (Done(None), CacheState(s.store, false))
  {
    assert NatToString(0) == "0";
    assert !Less("0", "0");
    if at0 != at {
      UpdateStaleDiscards(s, rk, wk, 0, at0, 0, at);
    } else {
      UpdateSameActionKeeps(s, rk, wk, 0, 0, at);
    }
  }
}
