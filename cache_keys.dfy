/**
 * The cache keys of both domains have one shape, `<a>::<x>::<b>::<y>::<view>`:
 * `video::<vid>::user::<uid>::r|w` for likes and `user::<uid>::to_user::<tid>::r|w`
 * for follows. The sweepers find write views with the KEYS pattern `<a>::*::<b>::*::w`
 * and read the two ids back as segments 1 and 3 of `strings.Split(key, "::")`.
 */
module CacheKeys {
  import opened Errs
  import opened GoText

  /** `fmt.Sprintf("<a>::%d::<b>::%d::<view>", x, y)`. */
  function PairKey(a: string, x: nat, b: string, y: nat, view: string): string
  {
    a + "::" + NatToString(x) + "::" + b + "::" + NatToString(y) + "::" + view
  }

  /** The KEYS pattern of a sweep. */
  function SweepPattern(a: string, b: string): string
  {
    a + "::*::" + b + "::*::w"
  }

  /** A name segment of a key: no colon, no wildcard. */
  predicate Plain(s: string)
  {
    NoColon(s) && NoStar(s)
  }

  lemma PairKeyIsJoin(a: string, x: nat, b: string, y: nat, view: string)
    ensures PairKey(a, x, b, y, view) == Join([a, NatToString(x), b, NatToString(y), view])
  {
    var xs, ys := NatToString(x), NatToString(y);
    var j4 := Join([view]);
    var j3 := Join([ys, view]);
    assert j3 == ys + "::" + j4 by { JoinCons(ys, [view]); }
    var j2 := Join([b, ys, view]);
    assert j2 == b + "::" + j3 by { JoinCons(b, [ys, view]); }
    var j1 := Join([xs, b, ys, view]);
    assert j1 == xs + "::" + j2 by { JoinCons(xs, [b, ys, view]); }
    var j0 := Join([a, xs, b, ys, view]);
    assert j0 == a + "::" + j1 by { JoinCons(a, [xs, b, ys, view]); }
    assert a + "::" + (xs + "::" + (b + "::" + (ys + "::" + view))) == PairKey(a, x, b, y, view);
  }

  lemma JoinCons(p: string, rest: seq<string>)
    requires |rest| >= 1
    ensures Join([p] + rest) == p + "::" + Join(rest)
  {
    assert ([p] + rest)[1..] == rest;
  }

  /** Splitting a key yields its five segments back. */
  lemma PairKeySplit(a: string, x: nat, b: string, y: nat, view: string)
    requires Plain(a) && Plain(b) && NoColon(view)
    ensures Split(PairKey(a, x, b, y, view)) == [a, NatToString(x), b, NatToString(y), view]
  {
    PairKeyIsJoin(a, x, b, y, view);
    SplitJoin([a, NatToString(x), b, NatToString(y), view]);
  }

  /** Keys of one shape name one pair: distinct pairs (or views) have distinct keys. */
  lemma PairKeyInjective(a: string, x1: nat, b: string, y1: nat, v1: string, x2: nat, y2: nat, v2: string)
    requires Plain(a) && Plain(b) && NoColon(v1) && NoColon(v2)
    requires PairKey(a, x1, b, y1, v1) == PairKey(a, x2, b, y2, v2)
    ensures x1 == x2 && y1 == y2 && v1 == v2
  {
    PairKeySplit(a, x1, b, y1, v1);
    PairKeySplit(a, x2, b, y2, v2);
    assert NatToString(x1) == NatToString(x2);
    assert NatToString(y1) == NatToString(y2);
  }

  /** The part of a write view after its first id matches the part of the pattern after
      its first wildcard. */
  lemma WriteKeyTailMatches(b: string, ys: string)
    requires Plain(b)
    ensures GlobMatch("::" + b + "::*::w", "::" + b + "::" + ys + "::w")
  {
    // "::w" against "::w"
    GlobLiteral("::w", "", "");
    assert "::w" + "" == "::w";
    // "*::w" against ys + "::w"
    GlobStar("::w", ys, "::w");
    assert "*" + "::w" == "*::w";
    var lit2 := "::" + b + "::";
    assert NoStar(lit2);
    GlobLiteral(lit2, "*::w", ys + "::w");
    assert lit2 + "*::w" == "::" + b + "::*::w";
    assert lit2 + (ys + "::w") == "::" + b + "::" + ys + "::w";
  }

  /** Every write view matches its domain's sweep pattern. */
  lemma WriteKeyMatches(a: string, x: nat, b: string, y: nat)
    requires Plain(a) && Plain(b)
    ensures GlobMatch(SweepPattern(a, b), PairKey(a, x, b, y, "w"))
  {
    var xs, ys := NatToString(x), NatToString(y);
    var tp, ts := "::" + b + "::*::w", "::" + b + "::" + ys + "::w";
    WriteKeyTailMatches(b, ys);
    // "*" + the tail pattern against xs + the tail
    GlobStar(tp, xs, ts);
    // a + "::" in front of both
    var lit1 := a + "::";
    assert NoStar(lit1);
    GlobLiteral(lit1, "*" + tp, xs + ts);
    assert lit1 + ("*" + tp) == SweepPattern(a, b);
    assert lit1 + (xs + ts) == PairKey(a, x, b, y, "w");
  }

  /** No read view matches a sweep pattern: the pattern ends in `w`, read views in `r`. */
  lemma ReadKeyNotSwept(a: string, x: nat, b: string, y: nat, c: string, d: string)
    ensures !GlobMatch(SweepPattern(c, d), PairKey(a, x, b, y, "r"))
  {
    var p, s := SweepPattern(c, d), PairKey(a, x, b, y, "r");
    if GlobMatch(p, s) {
      GlobLastLiteral(p, s);
    }
  }

  /** A key whose first character differs from the pattern's does not match it. */
  lemma FirstCharDecides(p: string, s: string)
    requires p != [] && s != [] && p[0] != '*' && p[0] != s[0]
    ensures !GlobMatch(p, s)
  {
  }

  /** The id a sweep parses out of segment 1 or 3 of a key is the id the key was made from. */
  lemma ParsePairKey(a: string, x: nat, b: string, y: nat, view: string)
    requires Plain(a) && Plain(b) && NoColon(view)
    requires x < TwoTo63 && y < TwoTo63
    ensures var parts := Split(PairKey(a, x, b, y, view));
            |parts| == 5 && ParseInt64(parts[1]) == Some(x) && ParseInt64(parts[3]) == Some(y)
  {
    PairKeySplit(a, x, b, y, view);
    ParseNatToString(x);
    ParseNatToString(y);
  }
}
