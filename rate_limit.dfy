/**
 * The per-token rate limiter of pkg/middleware/limit_init.go: one token bucket per auth
 * token, refilled from the seconds elapsed since its last call and clamped to its
 * capacity. All arithmetic is Go's `int64`, so it wraps; the clock is a parameter, and the
 * `sync.Mutex` of each bucket and of the table is left out (calls are taken one at a time).
 */
module RateLimit {
  import opened GoText

  /** The four numbers of a `TokenBucket`. */
  datatype Bucket = Bucket(rate: I64, capacity: I64, tokens: I64, lastTokenSec: I64)

  /** `Tokens + (now - LastTokenSec) * Rate`, each operation wrapping. */
  function Refilled(b: Bucket, now: I64): I64
  {
    Wrap64(b.tokens + Wrap64(Wrap64(now - b.lastTokenSec) * b.rate))
  }

  /** `Allow`: refill, clamp to capacity, stamp the time, then take one token if there is
      one. */
  function AllowSpec(b: Bucket, now: I64): (r: (bool, Bucket))
    ensures r.1.rate == b.rate && r.1.capacity == b.capacity && r.1.lastTokenSec == now
    ensures var t := if Refilled(b, now) > b.capacity then b.capacity else Refilled(b, now);
            && (r.0 <==> t > 0)
            && r.1.tokens == (if r.0 then t - 1 else t)
    ensures r.1.tokens <= b.capacity
  {
    var t := if Refilled(b, now) > b.capacity then b.capacity else Refilled(b, now);
    if t > 0 then (true, b.(tokens := t - 1, lastTokenSec := now))
    else (false, b.(tokens := t, lastTokenSec := now))
  }

  /** `MakeTokenBucket(c, r)`: the initial tokens are taken as they are, not clamped. */
  function MakeBucket(c: I64, r: I64, tokenInit: I64, now: I64): (b: Bucket)
    ensures b.capacity == c && b.rate == r && b.tokens == tokenInit && b.lastTokenSec == now
  {
    Bucket(r, c, tokenInit, now)
  }

  /** `TokenBuckets.Allow(token)`: the bucket of the token handles the call; on the token's
      first request it is made with the shared capacity and rate, stamped with the clock
      as `MakeTokenBucket` reads it (`made`), before `Allow` reads the clock again (`now`).
      No other token's bucket changes. */
  function BucketsAllowSpec(buckets: map<string, Bucket>, capacity: I64, rate: I64, tokenInit: I64,
                            token: string, made: I64, now: I64): (r: (bool, map<string, Bucket>))
    ensures token in r.1 && r.1.Keys == buckets.Keys + {token}
    ensures forall k :: k in buckets && k != token ==> r.1[k] == buckets[k]
    ensures token in buckets ==> r == (AllowSpec(buckets[token], now).0, buckets[token := AllowSpec(buckets[token], now).1])
    ensures token !in buckets ==>
              var b := MakeBucket(capacity, rate, tokenInit, made);
              r == (AllowSpec(b, now).0, buckets[token := AllowSpec(b, now).1])
  {
    var b := if token in buckets then buckets[token] else MakeBucket(capacity, rate, tokenInit, made);
    var (allowed, b') := AllowSpec(b, now);
    (allowed, buckets[token := b'])
  }

  class TokenBucket {
    var rate: I64
    var capacity: I64
    var tokens: I64
    var lastTokenSec: I64

    function State(): Bucket
      reads this
    {
      Bucket(rate, capacity, tokens, lastTokenSec)
    }

    /** `MakeTokenBucket`. */
    constructor (c: I64, r: I64, tokenInit: I64, now: I64)
      ensures State() == MakeBucket(c, r, tokenInit, now)
    {
      rate := r;
      capacity := c;
      tokens := tokenInit;
      lastTokenSec := now;
    }

    method Allow(now: I64) returns (allowed: bool)
      modifies this
      ensures (allowed, State()) == AllowSpec(old(State()), now)
    {
      tokens := Wrap64(tokens + Wrap64(Wrap64(now - lastTokenSec) * rate));
      if tokens > capacity {
        tokens := capacity;
      }
      lastTokenSec := now;
      if tokens > 0 {
        tokens := tokens - 1;
        return true;
      }
      return false;
    }
  }

  class TokenBuckets {
    var buckets: map<string, TokenBucket>
    const capacity: I64
    const rate: I64
    /** `limiterTokenInit`, read from the configuration. */
    const tokenInit: I64

    /** The buckets the table holds. */
    ghost function Repr(): set<TokenBucket>
      reads this
    {
      set k | k in buckets :: buckets[k]
    }

    /** No two tokens share a bucket. */
    ghost predicate Valid()
      reads this
    {
      forall k1, k2 :: k1 in buckets && k2 in buckets && k1 != k2 ==> buckets[k1] != buckets[k2]
    }

    ghost function Contents(): map<string, Bucket>
      reads this, Repr()
    {
      map k | k in buckets :: buckets[k].State()
    }

    /** `MakeTokenBuckets`. */
    constructor (capacity: I64, rate: I64, tokenInit: I64)
      ensures Valid() && Contents() == map[]
      ensures this.capacity == capacity && this.rate == rate && this.tokenInit == tokenInit
    {
      buckets := map[];
      this.capacity := capacity;
      this.rate := rate;
      this.tokenInit := tokenInit;
    }

    /** `made` is the clock as a new bucket's `MakeTokenBucket` reads it, `now` as `Allow`
        reads it. */
    method Allow(token: string, made: I64, now: I64) returns (allowed: bool)
      requires Valid()
      modifies this, Repr()
      ensures Valid()
      ensures (allowed, Contents()) == BucketsAllowSpec(old(Contents()), capacity, rate, tokenInit, token, made, now)
    {
      if token in buckets {
        var bucket := buckets[token];
        allowed := bucket.Allow(now);
        assert Contents() == old(Contents())[token := bucket.State()];
      } else {
        var bucket := new TokenBucket(capacity, rate, tokenInit, made);
        buckets := buckets[token := bucket];
        allowed := bucket.Allow(now);
        assert Contents() == old(Contents())[token := bucket.State()];
      }
    }
  }

  // ---------------------------------------------------------------- properties

  /** Without wrap-around the refill is the plain sum. */
  lemma RefillWithoutOverflow(b: Bucket, now: I64)
    requires b.lastTokenSec <= now && b.rate >= 0 && b.tokens >= 0
    requires b.tokens + (now - b.lastTokenSec) * b.rate < TwoTo63
    ensures Refilled(b, now) == b.tokens + (now - b.lastTokenSec) * b.rate
    ensures Refilled(b, now) >= 0
  {
    var e := now - b.lastTokenSec;
    assert 0 <= e * b.rate <= b.tokens + e * b.rate;
  }

  /** With no negative numbers, time not running backwards, a capacity of at least 0 and no
      overflow, a call leaves between 0 and capacity tokens. */
  lemma AllowKeepsTokensInRange(b: Bucket, now: I64)
    requires b.tokens >= 0 && b.lastTokenSec <= now && b.rate >= 0 && b.capacity >= 0
    requires b.tokens + (now - b.lastTokenSec) * b.rate < TwoTo63
    ensures 0 <= AllowSpec(b, now).1.tokens <= b.capacity
  {
    RefillWithoutOverflow(b, now);
    var t := Refilled(b, now);
    assert t >= 0;
    var clamped := if t > b.capacity then b.capacity else t;
    assert AllowSpec(b, now).1.tokens == (if clamped > 0 then clamped - 1 else clamped);
  }

  /** The refill can wrap: a refill past the `int64` range turns the tokens negative, and
      the call is rejected although the bucket was full. */
  lemma RefillOverflowRejects()
    ensures var b := Bucket(0x4000_0000_0000_0001, 10, 10, 0);
            AllowSpec(b, 2) == (false, b.(tokens := 12 - TwoTo63, lastTokenSec := 2))
  {
    var b := Bucket(0x4000_0000_0000_0001, 10, 10, 0);
    assert Wrap64(2 * 0x4000_0000_0000_0001) == 2 - TwoTo63;
    assert Refilled(b, 2) == 12 - TwoTo63;
  }

  /** Of `n` calls all made in the second of `b`'s last call, how many are allowed. */
  function AllowedInSameSecond(b: Bucket, n: nat): nat
    decreases n
  {
    if n == 0 then 0
    else
      var (allowed, b') := AllowSpec(b, b.lastTokenSec);
      (if allowed then 1 else 0) + AllowedInSameSecond(b', n - 1)
  }

  /** Within one second nothing is refilled: of `n` calls on a bucket holding at most its
      capacity, exactly min(n, tokens) are allowed — the burst a bucket admits. */
  lemma {:induction false} BurstIsTokensHeld(b: Bucket, n: nat)
    requires 0 <= b.tokens <= b.capacity
    ensures AllowedInSameSecond(b, n) == if n <= b.tokens then n else b.tokens
    decreases n
  {
    if n > 0 {
      assert Wrap64(b.lastTokenSec - b.lastTokenSec) == 0;
      assert Refilled(b, b.lastTokenSec) == b.tokens;
      var (allowed, b') := AllowSpec(b, b.lastTokenSec);
      BurstIsTokensHeld(b', n - 1);
    }
  }

  /** A new bucket keeps initial tokens above its capacity until its first call, which clamps
      them. */
  lemma NewBucketClampsOnFirstCall(c: I64, r: I64, tokenInit: I64, now: I64)
    requires 0 <= c < tokenInit
    ensures MakeBucket(c, r, tokenInit, now).tokens > c
    ensures AllowSpec(MakeBucket(c, r, tokenInit, now), now).1.tokens == (if c > 0 then c - 1 else 0)
  {
    assert Wrap64(now - now) == 0;
  }

  /** A token's first request makes it a bucket with the table's capacity and rate and the
      configured tokens, which that request then refills from the second the bucket was made
      in; when both clock reads fall in one second, it is granted iff the initial tokens are
      positive. */
  lemma FirstRequestMakesBucket(buckets: map<string, Bucket>, capacity: I64, rate: I64, tokenInit: I64,
                                token: string, made: I64, now: I64)
    requires token !in buckets
    ensures var (allowed, m) := BucketsAllowSpec(buckets, capacity, rate, tokenInit, token, made, now);
            && m[token].capacity == capacity && m[token].rate == rate && m[token].lastTokenSec == now
            && (allowed, m[token]) == AllowSpec(Bucket(rate, capacity, tokenInit, made), now)
    ensures made == now && 0 <= tokenInit <= capacity ==>
              var (allowed, m) := BucketsAllowSpec(buckets, capacity, rate, tokenInit, token, made, now);
              && (allowed <==> tokenInit > 0)
              && m[token].tokens == (if tokenInit > 0 then tokenInit - 1 else 0)
  {
    assert Wrap64(now - now) == 0;
  }

  /** The two clock reads can fall in different seconds: a bucket made empty at second s with
      a rate of 1 has refilled one token by the time its first `Allow` reads s + 1, and grants
      the request. */
  lemma FirstRequestAcrossSecondBoundary(s: I64)
    requires s + 1 < TwoTo63
    ensures BucketsAllowSpec(map[], 5, 1, 0, "t", s, s + 1) == (true, map["t" := Bucket(1, 5, 0, s + 1)])
  {
    assert Wrap64(s + 1 - s) == 1;
  }
}
