/**
 * The few pieces of Go's text handling that the cache engine depends on:
 * `fmt`'s `%d` and `strconv.Itoa` for writing numbers, `strconv.ParseInt(s, 10, 64)`
 * for reading them back, `strings.Split(s, "::")`, Go's `>` on strings
 * (lexicographic, not numeric) and the `*` wildcard of Redis `KEYS` patterns.
 * All text built here is ASCII, so comparing `char`s is comparing Go's bytes.
 */
module GoText {
  import opened Errs

  const TwoTo63: int := 0x8000_0000_0000_0000
  const TwoTo64: int := 0x1_0000_0000_0000_0000

  /** Go's `uint` (64 bits): the width of every field of the cache events. */
  type U64 = x: nat | x < TwoTo64

  /** Go's `int64`. */
  type I64 = x: int | -TwoTo63 <= x < TwoTo63

  /** The two's-complement wrap-around of `int64` arithmetic: the `int64` congruent to `x`
      modulo 2^64. */
  function Wrap64(x: int): (i: I64)
    ensures -TwoTo63 <= x < TwoTo63 ==> i == x
    ensures (i - x) % TwoTo64 == 0
  {
    var w := x % TwoTo64;
    if w < TwoTo63 then w else w - TwoTo64
  }

  // ---------------------------------------------------------------- decimal text

  predicate IsDigit(c: char) { '0' <= c <= '9' }

  predicate IsDigits(s: string) { forall i :: 0 <= i < |s| ==> IsDigit(s[i]) }

  predicate NoColon(s: string) { forall i :: 0 <= i < |s| ==> s[i] != ':' }

  function DigitChar(d: nat): (c: char)
    requires d < 10
    ensures IsDigit(c) && (c as int) - ('0' as int) == d
  {
    (('0' as int) + d) as char
  }

  /** The value of a string of decimal digits, most significant digit first. */
  function DigitsValue(s: string): nat
    requires IsDigits(s)
  {
    if s == [] then 0
    else DigitsValue(s[..|s| - 1]) * 10 + ((s[|s| - 1] as int) - ('0' as int))
  }

  function Pow10(n: nat): (p: nat)
    ensures p >= 1
  {
    if n == 0 then 1 else 10 * Pow10(n - 1)
  }

  /** `fmt.Sprintf("%d", n)` for a non-negative `n`: canonical decimal digits. */
  function NatToString(n: nat): (s: string)
    ensures |s| >= 1 && IsDigits(s) && NoColon(s)
    ensures s[0] == '0' ==> n == 0
    ensures DigitsValue(s) == n
  {
    if n < 10 then [DigitChar(n)]
    else
      var prefix := NatToString(n / 10);
      var s := prefix + [DigitChar(n % 10)];
      assert s[..|s| - 1] == prefix;
      s
  }

  /** `strconv.Itoa`: a minus sign in front of negative numbers. */
  function Itoa(i: int): (s: string)
    ensures |s| >= 1 && NoColon(s)
    ensures i >= 0 ==> s == NatToString(i)
    ensures i < 0 ==> s[0] == '-'
  {
    if i < 0 then "-" + NatToString(-i) else NatToString(i)
  }

  /** Go's conversion `int(x)` of a 64-bit `uint`: values from 2^63 up wrap to negatives. */
  function GoInt(x: U64): (i: int)
    ensures x < TwoTo63 ==> i == x
    ensures x >= TwoTo63 ==> i < 0
  {
    if x < TwoTo63 then x else x - TwoTo64
  }

  /** `strconv.ParseInt(s, 10, 64)`: an optional sign, then at least one digit, within int64. */
  function ParseInt64(s: string): (r: Option<int>)
    ensures r.Some? ==> -TwoTo63 <= r.value < TwoTo63
    ensures r.Some? ==> s != [] && (IsDigits(s) || s[0] == '+' || s[0] == '-')
  {
    if s == [] then None
    else
      var body := if s[0] == '+' || s[0] == '-' then s[1..] else s;
      if body == [] || !IsDigits(body) then None
      else
        var v: int := DigitsValue(body);
        if s[0] == '-' then (if v <= TwoTo63 then Some(-v) else None)
        else if v < TwoTo63 then Some(v) else None
  }

  /** What `%d` writes for an id below 2^63, ParseInt reads back. */
  lemma ParseNatToString(n: nat)
    requires n < TwoTo63
    ensures ParseInt64(NatToString(n)) == Some(n)
  {
    var s := NatToString(n);
    assert IsDigit(s[0]);
  }

  /** What `%d` writes for an id from 2^63 up (a valid `uint`), ParseInt rejects as out of range. */
  lemma ParseRejectsWideIds(n: U64)
    requires n >= TwoTo63
    ensures ParseInt64(NatToString(n)) == None
  {
    var s := NatToString(n);
    assert IsDigit(s[0]);
  }

  // ---------------------------------------------------------------- strings.Split(s, "::")

  /** `strings.Split(s, "::")`: cut at every occurrence of "::", scanning left to right. */
  function Split(s: string): (parts: seq<string>)
    ensures |parts| >= 1
    decreases |s|
  {
    if |s| < 2 then [s]
    else if s[0] == ':' && s[1] == ':' then [""] + Split(s[2..])
    else
      var rest := Split(s[1..]);
      [[s[0]] + rest[0]] + rest[1..]
  }

  /** `strings.Join(parts, "::")`, the shape in which keys and values are written. */
  function Join(parts: seq<string>): string
    requires |parts| >= 1
  {
    if |parts| == 1 then parts[0] else parts[0] + "::" + Join(parts[1..])
  }

  lemma {:induction false} SplitNoColon(p: string)
    requires NoColon(p)
    ensures Split(p) == [p]
    decreases |p|
  {
    if |p| >= 2 {
      SplitNoColon(p[1..]);
      assert [p[0]] + p[1..] == p;
    }
  }

  lemma {:induction false} SplitPiece(p: string, rest: string)
    requires NoColon(p)
    ensures Split(p + "::" + rest) == [p] + Split(rest)
    decreases |p|
  {
    var s := p + "::" + rest;
    if p == [] {
      assert s[2..] == rest;
    } else {
      assert s[1..] == p[1..] + "::" + rest;
      SplitPiece(p[1..], rest);
      assert [p[0]] + p[1..] == p;
    }
  }

  /** Splitting undoes joining, as long as no piece contains a colon. */
  lemma {:induction false} SplitJoin(parts: seq<string>)
    requires |parts| >= 1
    requires forall i :: 0 <= i < |parts| ==> NoColon(parts[i])
    ensures Split(Join(parts)) == parts
  {
    if |parts| == 1 {
      SplitNoColon(parts[0]);
    } else {
      SplitPiece(parts[0], Join(parts[1..]));
      SplitJoin(parts[1..]);
    }
  }

  // ---------------------------------------------------------------- Go's < on strings

  /** Go's `a < b` on strings: lexicographic order, a proper prefix first. */
  predicate Less(a: string, b: string)
    decreases |a|
  {
    if a == [] then b != []
    else if b == [] then false
    else if a[0] != b[0] then a[0] < b[0]
    else Less(a[1..], b[1..])
  }

  lemma {:induction false} DigitsValueFront(s: string)
    requires IsDigits(s) && |s| >= 1
    ensures DigitsValue(s) == ((s[0] as int) - ('0' as int)) * Pow10(|s| - 1) + DigitsValue(s[1..])
    decreases |s|
  {
    if |s| > 1 {
      var init, tail := s[..|s| - 1], s[1..];
      DigitsValueFront(init);
      assert init[0] == s[0];
      assert init[1..] == tail[..|tail| - 1];
      assert tail[|tail| - 1] == s[|s| - 1];
      ShiftDigit((s[0] as int) - ('0' as int), Pow10(|s| - 2), DigitsValue(init[1..]), (s[|s| - 1] as int) - ('0' as int));
    } else {
      assert s[..0] == [];
    }
  }

  /** Appending a digit to a number whose leading digit is `d` shifts that digit one place. */
  lemma ShiftDigit(d: int, p: int, mid: int, last: int)
    ensures (d * p + mid) * 10 + last == d * (10 * p) + (mid * 10 + last)
  {
  }

  lemma {:induction false} DigitsValueBound(s: string)
    requires IsDigits(s)
    ensures DigitsValue(s) < Pow10(|s|)
    decreases |s|
  {
    if s != [] {
      DigitsValueBound(s[..|s| - 1]);
    }
  }

  lemma LeadingTermDominates(dx: int, dy: int, rx: int, ry: int, p: int)
    requires 0 <= rx < p && 0 <= ry && dx + 1 <= dy
    ensures dx * p + rx < dy * p + ry
  {
    var k := dy - dx - 1;
    assert k * p >= 0;
    assert dy == dx + k + 1;
    assert dy * p == dx * p + k * p + p;
  }

  /** A smaller leading digit decides the comparison of two digit strings of one width. */
  lemma LeadingDigitDecides(x: string, y: string)
    requires IsDigits(x) && IsDigits(y) && |x| == |y| >= 1
    requires x[0] < y[0]
    ensures DigitsValue(x) < DigitsValue(y)
  {
    DigitsValueFront(x);
    DigitsValueFront(y);
    DigitsValueBound(x[1..]);
    LeadingTermDominates((x[0] as int) - ('0' as int), (y[0] as int) - ('0' as int),
      DigitsValue(x[1..]), DigitsValue(y[1..]), Pow10(|x| - 1));
  }

  /** On digit strings of one width, Go's text order is the numeric order. */
  lemma {:induction false} EqualWidthDigitsOrder(x: string, y: string)
    requires IsDigits(x) && IsDigits(y) && |x| == |y|
    ensures Less(x, y) <==> DigitsValue(x) < DigitsValue(y)
    decreases |x|
  {
    if x != [] {
      if x[0] < y[0] {
        LeadingDigitDecides(x, y);
      } else if y[0] < x[0] {
        LeadingDigitDecides(y, x);
      } else {
        DigitsValueFront(x);
        DigitsValueFront(y);
        EqualWidthDigitsOrder(x[1..], y[1..]);
      }
    }
  }

  /** Decimal texts of equal width compare as their numbers do. */
  lemma TextOrderIsNumericForEqualWidth(a: nat, b: nat)
    requires |NatToString(a)| == |NatToString(b)|
    ensures Less(NatToString(a), NatToString(b)) <==> a < b
  {
    EqualWidthDigitsOrder(NatToString(a), NatToString(b));
  }

  /** Across widths they do not: 9 < 10, yet "10" < "9". */
  lemma TextOrderIsNotNumeric()
    ensures 9 < 10 && Less(NatToString(10), NatToString(9)) && !Less(NatToString(9), NatToString(10))
  {
    assert NatToString(9) == "9";
    assert NatToString(1) == "1";
    assert NatToString(0) == "0";
    assert NatToString(10) == NatToString(1) + [DigitChar(0)];
    assert NatToString(10) == "10";
  }

  /** `strings.Contains`: `sub` occurs somewhere in `s`. */
  predicate Contains(s: string, sub: string)
  {
    sub <= s || (s != [] && Contains(s[1..], sub))
  }

  /** `sub` occurs in `s` at offset `i`. */
  predicate OccursAt(s: string, sub: string, i: int)
  {
    0 <= i <= |s| - |sub| && s[i..i + |sub|] == sub
  }

  /** `Contains` holds exactly when `sub` occurs at some offset of `s`. */
  lemma {:induction false} ContainsIffOccurs(s: string, sub: string)
    ensures Contains(s, sub) <==> exists i :: OccursAt(s, sub, i)
    decreases |s|
  {
    if s == [] {
      if Contains(s, sub) {
        assert OccursAt(s, sub, 0);
      }
    } else {
      ContainsIffOccurs(s[1..], sub);
      if Contains(s, sub) {
        if sub <= s {
          assert OccursAt(s, sub, 0);
        } else {
          var i :| OccursAt(s[1..], sub, i);
          assert s[1..][i..i + |sub|] == s[i + 1..i + 1 + |sub|];
          assert OccursAt(s, sub, i + 1);
        }
      }
      if exists i :: OccursAt(s, sub, i) {
        var i :| OccursAt(s, sub, i);
        if i == 0 {
          assert s[..|sub|] == sub;
        } else {
          assert s[1..][i - 1..i - 1 + |sub|] == s[i..i + |sub|];
          assert OccursAt(s[1..], sub, i - 1);
        }
      }
    }
  }

  // ---------------------------------------------------------------- KEYS patterns

  /** Redis glob matching, for patterns built from literal characters and `*` only. */
  predicate GlobMatch(p: string, s: string)
    decreases |p| + |s|
  {
    if p == [] then s == []
    else if p[0] == '*' then GlobMatch(p[1..], s) || (s != [] && GlobMatch(p, s[1..]))
    else s != [] && s[0] == p[0] && GlobMatch(p[1..], s[1..])
  }

  predicate NoStar(s: string) { forall i :: 0 <= i < |s| ==> s[i] != '*' }

  lemma {:induction false} GlobLiteral(lit: string, p: string, s: string)
    requires NoStar(lit)
    ensures GlobMatch(lit + p, lit + s) == GlobMatch(p, s)
    decreases |lit|
  {
    if lit != [] {
      assert (lit + p)[0] == lit[0] == (lit + s)[0] && lit[0] != '*';
      assert (lit + p)[1..] == lit[1..] + p;
      assert (lit + s)[1..] == lit[1..] + s;
      GlobLiteral(lit[1..], p, s);
    } else {
      assert lit + p == p && lit + s == s;
    }
  }

  lemma {:induction false} GlobStar(p: string, x: string, s: string)
    requires GlobMatch(p, s)
    ensures GlobMatch("*" + p, x + s)
    decreases |x|
  {
    assert ("*" + p)[0] == '*' && ("*" + p)[1..] == p;
    if x != [] {
      GlobStar(p, x[1..], s);
      assert (x + s)[1..] == x[1..] + s;
    } else {
      assert x + s == s;
    }
  }

  /** A pattern whose last character is a literal only matches keys ending in it. */
  lemma {:induction false} GlobLastLiteral(p: string, s: string)
    requires |p| >= 1 && p[|p| - 1] != '*'
    requires GlobMatch(p, s)
    ensures |s| >= 1 && s[|s| - 1] == p[|p| - 1]
    decreases |p| + |s|
  {
    if p[0] == '*' {
      if GlobMatch(p[1..], s) {
        GlobLastLiteral(p[1..], s);
      } else {
        GlobLastLiteral(p, s[1..]);
      }
    } else if |p| > 1 {
      GlobLastLiteral(p[1..], s[1..]);
    }
  }
}
