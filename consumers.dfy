/**
 * The two `consume` loops of cmd/favorite/service/timer.go and
 * cmd/relation/service/timer.go. Each drains the deliveries of its queue in arrival order:
 * a body that does not decode is skipped, a decoded event goes through the update rule of
 * its domain, and an update that fails is skipped. Only the like consumer acks, and only
 * when auto-ack is off; an ack error ends it.
 */
module Consumers {
  import opened Errs
  import opened GoText
  import opened RedisInit
  import Reconcile
  import FavoriteCache
  import RelationCache

  /** One delivery of the channel: its delivery tag, the event its JSON body decodes to
      (None when `json.Unmarshal` fails), the calls of the update that fail, and whether
      its ack fails. */
  datatype Delivery<E> = Delivery(tag: nat, body: Option<E>, faults: set<Reconcile.Site>, ackFails: bool)

  /** The read view, the write view and the `createdAt::actionType` pair of one event. */
  datatype Views = Views(rk: string, wk: string, ct: U64, at: U64)

  /** How a consume ends: it returns (with the ack error, if any), it blocks for ever on the
      nil channel `ConsumeSimple` gave with its error, or an update panics. */
  datatype ConsumeEnd = Returned(err: Option<Error>) | Blocked | Aborted

  function FavoriteViews(fc: FavoriteCache.FavoriteCache): Views
  {
    Views(FavoriteCache.FavoriteKey(fc.videoID, fc.userID, "r"), FavoriteCache.FavoriteKey(fc.videoID, fc.userID, "w"),
          fc.createdAt, fc.actionType)
  }

  function RelationViews(rc: RelationCache.RelationCache): Views
  {
    Views(RelationCache.RelationKey(rc.userID, rc.toUserID, "r"), RelationCache.RelationKey(rc.userID, rc.toUserID, "w"),
          rc.createdAt, rc.actionType)
  }

  /** Prefixes the acks made so far to the outcome of the rest of a drain. */
  function Prefixed(acks: seq<nat>, r: (ConsumeEnd, CacheState, seq<nat>)): (ConsumeEnd, CacheState, seq<nat>)
  {
    (r.0, r.1, acks + r.2)
  }

  /** The body of the loop for one delivery: whether it ends the consume, the state after
      it, and the tags it acks. A body that does not decode changes nothing; a failed
      update is skipped unacked; an ack is only of an applied event, when the loop acks. */
  function Deliver<E>(s: CacheState, views: E -> Views, ack: bool, d: Delivery<E>)
    : (r: (Option<ConsumeEnd>, CacheState, seq<nat>))
    ensures d.body.None? ==> r == (None, s, [])
    ensures d.body.Some? ==>
              var v := views(d.body.value);
              var (st, s1) := Reconcile.Update(s, v.rk, v.wk, v.ct, v.at, d.faults);
              && r.1 == s1
              && (st.Panicked? <==> r.0 == Some(Aborted))
              && (st.Done? && st.err.Some? ==> r == (None, s1, []))
              && (st == Reconcile.Done(None) && ack ==> r.0.Some? == d.ackFails)
    ensures r.2 != [] ==> r.2 == [d.tag] && ack && d.body.Some? && !d.ackFails && r.0 == None
    ensures r.0.Some? ==> r.2 == [] && (r.0.value == Aborted || (ack && r.0.value == Returned(Some(AckFailed))))
  {
    if d.body.None? then (None, s, [])
    else
      var v := views(d.body.value);
      var (st, s1) := Reconcile.Update(s, v.rk, v.wk, v.ct, v.at, d.faults);
      if st.Panicked? then (Some(Aborted), s1, [])
      else if st.err.Some? || !ack then (None, s1, [])
      else if d.ackFails then (Some(Returned(Some(AckFailed))), s1, [])
      else (None, s1, [d.tag])
  }

  /** `for msg := range msgs`: the deliveries in order, on the cache state of the domain's
      key space and mutex. `ack` is whether the loop acks what it applied; the only error
      returned is a failed ack. */
  function Drain<E>(s: CacheState, views: E -> Views, ack: bool, msgs: seq<Delivery<E>>)
    : (r: (ConsumeEnd, CacheState, seq<nat>))
    ensures r.0 != Blocked
    ensures !ack ==> r.2 == []
    ensures r.0.Returned? && r.0.err.Some? ==> ack && r.0.err == Some(AckFailed)
    decreases |msgs|
  {
    if msgs == [] then (Returned(None), s, [])
    else
      var (stop, s1, acked) := Deliver(s, views, ack, msgs[0]);
      if stop.Some? then (stop.value, s1, acked)
      else Prefixed(acked, Drain(s1, views, ack, msgs[1..]))
  }

  function FavoriteConsumeSpec(s: CacheState, consumeFails: bool, autoAck: bool,
                               msgs: seq<Delivery<FavoriteCache.FavoriteCache>>): (ConsumeEnd, CacheState, seq<nat>)
  {
    if consumeFails then (Blocked, s, [])
    else Drain(s, FavoriteViews, !autoAck, msgs)
  }

  function RelationConsumeSpec(s: CacheState, consumeFails: bool, msgs: seq<Delivery<RelationCache.RelationCache>>)
    : (ConsumeEnd, CacheState, seq<nat>)
  {
    if consumeFails then (Blocked, s, [])
    else Drain(s, RelationViews, false, msgs)
  }

  /** The like consumer. `msgs` is what the channel delivers before it closes; `acks` are
      the tags `msg.Ack` was called on, in order. */
  method FavoriteConsume(r: RedisHelper, consumeFails: bool, autoAck: bool,
                         msgs: seq<Delivery<FavoriteCache.FavoriteCache>>)
    returns (end: ConsumeEnd, acks: seq<nat>)
    requires r.Valid()
    modifies r, r.favoriteMutex
    ensures (end, CacheState(r.store, r.favoriteMutex.held), acks)
         == FavoriteConsumeSpec(CacheState(old(r.store), old(r.favoriteMutex.held)), consumeFails, autoAck, msgs)
    ensures r.relationMutex.held == old(r.relationMutex.held)
  {
    acks := [];
    if consumeFails {
      return Blocked, acks;
    }
    ghost var s0 := CacheState(r.store, r.favoriteMutex.held);
    ghost var views := FavoriteViews;
    ghost var ack := !autoAck;
    assert msgs[0..] == msgs;
    PrefixedEmpty(Drain(s0, views, ack, msgs));
    var i := 0;
    while i < |msgs|
      invariant 0 <= i <= |msgs|
      invariant r.relationMutex.held == old(r.relationMutex.held)
      invariant Drain(s0, views, ack, msgs) == Prefixed(acks, Drain(CacheState(r.store, r.favoriteMutex.held), views, ack, msgs[i..]))
    {
      var d := msgs[i];
      ghost var cur := CacheState(r.store, r.favoriteMutex.held);
      DrainUnfold(cur, views, ack, msgs, i);
      var stop, acked := FavoriteDeliver(r, d, autoAck);
      if stop.Some? {
        assert acks + acked == acks;
        return stop.value, acks;
      }
      PrefixedAppend(acks, acked, Drain(CacheState(r.store, r.favoriteMutex.held), views, ack, msgs[i + 1..]));
      acks := acks + acked;
      i := i + 1;
    }
    assert msgs[i..] == [];
    assert acks + [] == acks;
    return Returned(None), acks;
  }

  /** One step of a drain from position `i`. */
  lemma DrainUnfold<E>(s: CacheState, views: E -> Views, ack: bool, msgs: seq<Delivery<E>>, i: nat)
    requires i < |msgs|
    ensures var (stop, s1, acked) := Deliver(s, views, ack, msgs[i]);
            Drain(s, views, ack, msgs[i..])
            == if stop.Some? then (stop.value, s1, acked) else Prefixed(acked, Drain(s1, views, ack, msgs[i + 1..]))
  {
    assert msgs[i..][0] == msgs[i];
    assert msgs[i..][1..] == msgs[i + 1..];
  }

  lemma PrefixedEmpty(r: (ConsumeEnd, CacheState, seq<nat>))
    ensures Prefixed([], r) == r
  {
    assert [] + r.2 == r.2;
  }

  lemma PrefixedAppend(a: seq<nat>, b: seq<nat>, r: (ConsumeEnd, CacheState, seq<nat>))
    ensures Prefixed(a, Prefixed(b, r)) == Prefixed(a + b, r)
  {
    assert a + (b + r.2) == (a + b) + r.2;
  }

  /** One pass of the like loop: decode, `UpdateFavorite`, and the ack when auto-ack is off. */
  method FavoriteDeliver(r: RedisHelper, d: Delivery<FavoriteCache.FavoriteCache>, autoAck: bool)
    returns (stop: Option<ConsumeEnd>, acked: seq<nat>)
    requires r.Valid()
    modifies r, r.favoriteMutex
    ensures (stop, CacheState(r.store, r.favoriteMutex.held), acked)
         == Deliver(CacheState(old(r.store), old(r.favoriteMutex.held)), FavoriteViews, !autoAck, d)
    ensures r.relationMutex.held == old(r.relationMutex.held)
  {
    if d.body.None? {
      return None, [];
    }
    var st := FavoriteCache.UpdateFavorite(r, d.body.value, d.faults);
    if st.Panicked? {
      return Some(Aborted), [];
    }
    if st.err.Some? || autoAck {
      return None, [];
    }
    if d.ackFails {
      return Some(Returned(Some(AckFailed))), [];
    }
    return None, [d.tag];
  }

  /** One pass of the follow loop: decode and `UpdateRelation`; nothing is acked. */
  method RelationDeliver(r: RedisHelper, d: Delivery<RelationCache.RelationCache>) returns (stop: Option<ConsumeEnd>)
    requires r.Valid()
    modifies r, r.relationMutex
    ensures (stop, CacheState(r.store, r.relationMutex.held), [])
         == Deliver(CacheState(old(r.store), old(r.relationMutex.held)), RelationViews, false, d)
    ensures r.favoriteMutex.held == old(r.favoriteMutex.held)
  {
    if d.body.None? {
      return None;
    }
    var st := RelationCache.UpdateRelation(r, d.body.value, d.faults);
    if st.Panicked? {
      return Some(Aborted);
    }
    return None;
  }

  /** The follow consumer, which never acks. */
  method RelationConsume(r: RedisHelper, consumeFails: bool, msgs: seq<Delivery<RelationCache.RelationCache>>)
    returns (end: ConsumeEnd)
    requires r.Valid()
    modifies r, r.relationMutex
    ensures (end, CacheState(r.store, r.relationMutex.held), [])
         == RelationConsumeSpec(CacheState(old(r.store), old(r.relationMutex.held)), consumeFails, msgs)
    ensures r.favoriteMutex.held == old(r.favoriteMutex.held)
  {
    if consumeFails {
      return Blocked;
    }
    ghost var s0 := CacheState(r.store, r.relationMutex.held);
    ghost var views := RelationViews;
    assert msgs[0..] == msgs;
    var i := 0;
    while i < |msgs|
      invariant 0 <= i <= |msgs|
      invariant r.favoriteMutex.held == old(r.favoriteMutex.held)
      invariant Drain(s0, views, false, msgs) == Drain(CacheState(r.store, r.relationMutex.held), views, false, msgs[i..])
    {
      var d := msgs[i];
      DrainUnfold(CacheState(r.store, r.relationMutex.held), views, false, msgs, i);
      var stop := RelationDeliver(r, d);
      if stop.Some? {
        return stop.value;
      }
      PrefixedEmpty(Drain(CacheState(r.store, r.relationMutex.held), views, false, msgs[i + 1..]));
      i := i + 1;
    }
    assert msgs[i..] == [];
    return Returned(None);
  }

  // ---------------------------------------------------------------- properties

  /** Arrival order: a drain of `a + b` is the drain of `a`, then the drain of `b` from the
      state `a` left, when `a` ran to its end. */
  lemma {:induction false} DrainConcat<E>(s: CacheState, views: E -> Views, ack: bool, a: seq<Delivery<E>>, b: seq<Delivery<E>>)
    requires Drain(s, views, ack, a).0 == Returned(None)
    ensures Drain(s, views, ack, a + b) == Prefixed(Drain(s, views, ack, a).2, Drain(Drain(s, views, ack, a).1, views, ack, b))
    decreases |a|
  {
    if a == [] {
      assert a + b == b;
      PrefixedEmpty(Drain(s, views, ack, b));
    } else {
      assert (a + b)[0] == a[0];
      assert (a + b)[1..] == a[1..] + b;
      var (stop, s1, acked) := Deliver(s, views, ack, a[0]);
      assert Drain(s, views, ack, a) == Prefixed(acked, Drain(s1, views, ack, a[1..]));
      assert Drain(s, views, ack, a + b) == Prefixed(acked, Drain(s1, views, ack, a[1..] + b));
      DrainConcat(s1, views, ack, a[1..], b);
      PrefixedAppend(acked, Drain(s1, views, ack, a[1..]).2, Drain(Drain(s1, views, ack, a[1..]).1, views, ack, b));
    }
  }

  /** A delivery that does not decode is skipped: the consume does exactly what it does on
      the queue without it, so it neither touches the cache nor is acked. */
  lemma {:induction false} UndecodableIsSkipped<E>(s: CacheState, views: E -> Views, ack: bool,
                                                   a: seq<Delivery<E>>, d: Delivery<E>, b: seq<Delivery<E>>)
    requires d.body.None?
    ensures Drain(s, views, ack, a + [d] + b) == Drain(s, views, ack, a + b)
    decreases |a|
  {
    if a == [] {
      assert a + [d] + b == [d] + b && ([d] + b)[1..] == b;
      assert a + b == b;
      assert [] + Drain(s, views, ack, b).2 == Drain(s, views, ack, b).2;
    } else {
      assert (a + [d] + b)[0] == a[0] && (a + b)[0] == a[0];
      assert (a + [d] + b)[1..] == a[1..] + [d] + b;
      assert (a + b)[1..] == a[1..] + b;
      var (stop, s1, acked) := Deliver(s, views, ack, a[0]);
      UndecodableIsSkipped(s1, views, ack, a[1..], d, b);
    }
  }

  /** An update that returns an error skips the delivery: its write (if any) stays, it is
      not acked, and the consume goes on with the next one. */
  lemma FailedUpdateIsSkipped<E>(s: CacheState, views: E -> Views, ack: bool, d: Delivery<E>, rest: seq<Delivery<E>>)
    requires d.body.Some?
    requires var v := views(d.body.value); Reconcile.Update(s, v.rk, v.wk, v.ct, v.at, d.faults).0.Done?
    requires var v := views(d.body.value); Reconcile.Update(s, v.rk, v.wk, v.ct, v.at, d.faults).0.err.Some?
    ensures var v := views(d.body.value);
            Drain(s, views, ack, [d] + rest) == Drain(Reconcile.Update(s, v.rk, v.wk, v.ct, v.at, d.faults).1, views, ack, rest)
  {
    assert ([d] + rest)[1..] == rest;
    var v := views(d.body.value);
    var s1 := Reconcile.Update(s, v.rk, v.wk, v.ct, v.at, d.faults).1;
    assert [] + Drain(s1, views, ack, rest).2 == Drain(s1, views, ack, rest).2;
  }

  /** An applied delivery is acked when the loop acks, and a failing ack ends the consume
      with its error before the next delivery is read. */
  lemma AppliedIsAcked<E>(s: CacheState, views: E -> Views, d: Delivery<E>, rest: seq<Delivery<E>>)
    requires d.body.Some?
    requires var v := views(d.body.value); Reconcile.Update(s, v.rk, v.wk, v.ct, v.at, d.faults).0 == Reconcile.Done(None)
    ensures var v := views(d.body.value);
            var s1 := Reconcile.Update(s, v.rk, v.wk, v.ct, v.at, d.faults).1;
            Drain(s, views, true, [d] + rest)
            == (if d.ackFails then (Returned(Some(AckFailed)), s1, []) else Prefixed([d.tag], Drain(s1, views, true, rest)))
  {
    assert ([d] + rest)[1..] == rest;
  }

  /** Every tag the consume acks is the tag of a delivery that decoded and whose ack went
      through. */
  lemma {:induction false} AcksAreOfDecodedDeliveries<E>(s: CacheState, views: E -> Views, ack: bool, msgs: seq<Delivery<E>>)
    ensures forall t :: t in Drain(s, views, ack, msgs).2 ==>
              exists j :: 0 <= j < |msgs| && msgs[j].tag == t && msgs[j].body.Some? && !msgs[j].ackFails
    decreases |msgs|
  {
    if msgs != [] {
      var (stop, s1, acked) := Deliver(s, views, ack, msgs[0]);
      if stop.None? {
        AcksAreOfDecodedDeliveries(s1, views, ack, msgs[1..]);
        forall t | t in Drain(s, views, ack, msgs).2
          ensures exists j :: 0 <= j < |msgs| && msgs[j].tag == t && msgs[j].body.Some? && !msgs[j].ackFails
        {
          if t !in acked {
            var j :| 0 <= j < |msgs[1..]| && msgs[1..][j].tag == t && msgs[1..][j].body.Some? && !msgs[1..][j].ackFails;
            assert msgs[j + 1] == msgs[1..][j];
          }
        }
      }
    }
  }

  /** With auto-ack on, the like consumer never acks and never returns an error. */
  lemma AutoAckNeverAcks(s: CacheState, consumeFails: bool, msgs: seq<Delivery<FavoriteCache.FavoriteCache>>)
    ensures var r := FavoriteConsumeSpec(s, consumeFails, true, msgs);
            r.2 == [] && r.0 != Returned(Some(AckFailed))
  {
  }

  /** The follow consumer never acks, and only returns nil, blocks or panics. */
  lemma RelationConsumeNeverAcks(s: CacheState, consumeFails: bool, msgs: seq<Delivery<RelationCache.RelationCache>>)
    ensures var r := RelationConsumeSpec(s, consumeFails, msgs);
            r.2 == [] && (r.0.Returned? ==> r.0.err == None)
  {
  }

  /** A `ConsumeSimple` error is only logged: the loop then ranges over a nil channel and
      blocks, with the cache as it was. */
  lemma ConsumeErrorBlocks(s: CacheState, autoAck: bool, fm: seq<Delivery<FavoriteCache.FavoriteCache>>,
                           rm: seq<Delivery<RelationCache.RelationCache>>)
    ensures FavoriteConsumeSpec(s, true, autoAck, fm) == (Blocked, s, [])
    ensures RelationConsumeSpec(s, true, rm) == (Blocked, s, [])
  {
  }
}
