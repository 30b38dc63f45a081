/**
 Rounding to 53 significant bits, ties to even (section 4.3.1 of IEEE 754-2019), for numbers of any magnitude: what
 doubles do within their exponent range. It has every property the score's arithmetic relies on.
 */
module DoubleRounding {
  import opened StabilityEngine

  const TWO_52 := 4_503_599_627_370_496

  // ----- powers of two -----

  function PowerOfTwo(e: int): (p: real)
    ensures p > 0.0
    decreases if e < 0 then -e else e
  {
    if e == 0 then 1.0 else if e > 0 then 2.0 * PowerOfTwo(e - 1) else PowerOfTwo(e + 1) / 2.0
  }

  predicate Doubles(two: int -> real, e: int) {
    two(e) > 0.0 && two(e + 1) == 2.0 * two(e)
  }

  /** The powers of two, known only by how they grow. */
  ghost predicate ArePowers(two: int -> real) {
    two(0) == 1.0 && forall e :: Doubles(two, e)
  }

  type Powers = two: int -> real | ArePowers(two) witness PowerOfTwo

  lemma TwoDoubles(two: Powers, e: int)
    ensures two(e) > 0.0 && two(e + 1) == 2.0 * two(e)
  {
    assert Doubles(two, e);
  }

  lemma {:induction false} TwoExceeds(two: Powers, n: nat)
    ensures two(n) >= n as real + 1.0
  {
    if n == 0 {
    } else {
      TwoExceeds(two, n - 1);
      TwoDoubles(two, n - 1);
    }
  }

  lemma Reassociates(x: real, y: real, z: real)
    ensures x * (y * z) == y * (x * z) && x * (y * z) == (x * y) * z
  {
  }

  lemma DoubledProduct(p: real, q: real, pq: real, q2: real, pq2: real)
    requires pq == p * q && q2 == 2.0 * q && pq2 == 2.0 * pq
    ensures pq2 == p * q2
  {
    Reassociates(2.0, p, q);
  }

  lemma TwoAddsOne(two: Powers, a: int, n: int)
    requires n > 0 && two(a + (n - 1)) == two(a) * two(n - 1)
    ensures two(a + n) == two(a) * two(n)
  {
    TwoDoubles(two, a + (n - 1));
    TwoDoubles(two, n - 1);
    assert a + (n - 1) + 1 == a + n;
    DoubledProduct(two(a), two(n - 1), two(a + (n - 1)), two(n), two(a + n));
  }

  lemma {:induction false} TwoAdds(two: Powers, a: int, n: nat)
    ensures two(a + n) == two(a) * two(n)
    decreases n
  {
    if n == 0 {
    } else {
      TwoAdds(two, a, n - 1);
      TwoAddsOne(two, a, n);
    }
  }

  lemma {:induction false} TwoIsWhole(two: Powers, n: nat)
    ensures two(n) == two(n).Floor as real && two(n).Floor >= 1
  {
    if n == 0 {
    } else {
      TwoIsWhole(two, n - 1);
      TwoDoubles(two, n - 1);
      assert two(n) == (2 * two(n - 1).Floor) as real;
    }
  }

  lemma {:induction false} TwoGrows(two: Powers, a: int, b: int)
    requires a <= b
    ensures two(a) <= two(b)
    ensures a < b ==> 2.0 * two(a) <= two(b)
    decreases b - a
  {
    if a == b {
    } else {
      TwoGrows(two, a, b - 1);
      TwoDoubles(two, b - 1);
    }
  }

  // ----- the scale of a number -----

  /** Where whole numbers have 53 bits. */
  predicate HasFullBits(y: real) {
    TWO_52 as real <= y < TWO_53 as real
  }

  /** Scaled up by `e` doublings, `x` lies there. */
  predicate IsScale(two: Powers, x: real, e: int) {
    HasFullBits(x * two(e))
  }

  lemma TimesGrows(k: real, a: real, b: real)
    requires k >= 0.0 && a <= b
    ensures k * a <= k * b && a * k <= b * k
  {
  }

  lemma Archimedes(two: Powers, x: real, bound: nat) returns (n: nat)
    requires x > 0.0
    ensures x * two(n) >= bound as real
  {
    var q := bound as real / x;
    assert q >= 0.0;
    n := q.Floor + 1;
    TwoExceeds(two, n);
    TimesGrows(x, q, two(n));
    assert x * q == bound as real;
  }

  lemma HalfTheScale(two: Powers, x: real, e: int)
    ensures x * two(e) == 2.0 * (x * two(e - 1))
  {
    TwoDoubles(two, e - 1);
    Reassociates(2.0, x, two(e - 1));
  }

  lemma {:induction false} HalvesBelow(two: Powers, x: real, n: nat, e: int)
    requires x > 0.0 && x * two(e) >= TWO_52 as real && x * two(e - n) < TWO_53 as real
    ensures exists s :: IsScale(two, x, s)
    decreases n
  {
    if x * two(e) < TWO_53 as real {
      assert IsScale(two, x, e);
    } else {
      HalfTheScale(two, x, e);
      assert n > 0;
      HalvesBelow(two, x, n - 1, e - 1);
    }
  }

  lemma InverseOf(two: Powers, x: real, n: int)
    requires n >= 0 && two(n) >= x
    ensures x * two(-n) <= 1.0
  {
    TwoAdds(two, -n, n);
    TwoDoubles(two, -n);
    TimesGrows(two(-n), x, two(n));
  }

  lemma ScaleExists(two: Powers, x: real)
    requires x > 0.0
    ensures exists s :: IsScale(two, x, s)
  {
    var n := Archimedes(two, x, TWO_52);
    var m := Archimedes(two, 1.0, x.Floor + 1);
    InverseOf(two, x, m);
    HalvesBelow(two, x, n + m, n);
  }

  lemma DoubledAtLeast(x: real, y: real, p: real, q: real)
    requires 0.0 < x <= y && 0.0 < p && 2.0 * p <= q
    ensures 2.0 * (x * p) <= y * q
  {
    TimesGrows(x, 2.0 * p, q);
    TimesGrows(q, x, y);
    Reassociates(2.0, x, p);
  }

  lemma SmallerNeedsMore(x: real, p: real, y: real, q: real)
    requires 0.0 < x <= y && 0.0 < p && HasFullBits(x * p) && HasFullBits(y * q)
    ensures 2.0 * p > q
  {
    assert TWO_53 as real == 2.0 * TWO_52 as real;
    if 2.0 * p <= q { DoubledAtLeast(x, y, p, q); }
  }

  lemma SmallerScalesMore(two: Powers, x: real, s: int, y: real, t: int)
    requires 0.0 < x <= y && IsScale(two, x, s) && IsScale(two, y, t)
    ensures s >= t
  {
    TwoDoubles(two, s);
    SmallerNeedsMore(x, two(s), y, two(t));
    if s < t { TwoGrows(two, s, t); }
  }

  ghost function ScaleOf(two: Powers, x: real): (s: int)
    requires x > 0.0
    ensures IsScale(two, x, s)
  {
    ScaleExists(two, x);
    var s :| IsScale(two, x, s);
    s
  }

  lemma ScaleIs(two: Powers, x: real, s: int)
    requires x > 0.0 && IsScale(two, x, s)
    ensures ScaleOf(two, x) == s
  {
    SmallerScalesMore(two, x, s, x, ScaleOf(two, x));
    SmallerScalesMore(two, x, ScaleOf(two, x), x, s);
  }

  // ----- rounding -----

  /** The nearest whole number, ties to the even one. */
  function RoundEven(y: real): int {
    var down := y.Floor;
    var rest := y - down as real;
    if rest < 0.5 || (rest == 0.5 && down % 2 == 0) then down else down + 1
  }

  function Distance(y: real, n: int): real {
    if y < n as real then n as real - y else y - n as real
  }

  /** No whole number is nearer, and where another is as near the even one was taken. */
  lemma RoundEvenIsNearest(y: real, n: int)
    ensures Distance(y, RoundEven(y)) <= Distance(y, n)
    ensures n != RoundEven(y) && Distance(y, n) == Distance(y, RoundEven(y)) ==> RoundEven(y) % 2 == 0
  {
    var down := y.Floor;
    if n < down {
      assert n as real <= down as real - 1.0;
    } else if n > down + 1 {
      assert n as real >= down as real + 2.0;
    }
  }

  lemma RoundEvenGrows(x: real, y: real)
    requires x <= y
    ensures RoundEven(x) <= RoundEven(y)
  {
    assert x.Floor <= y.Floor;
  }

  lemma RoundEvenOfWhole(n: int)
    ensures RoundEven(n as real) == n
  {
  }

  /** The nearest multiple of `1 / p`. */
  function RoundAt(x: real, p: real): real
    requires p > 0.0
  {
    RoundEven(x * p) as real / p
  }

  ghost function RoundPositive(two: Powers, x: real): real
    requires x > 0.0
  {
    TwoDoubles(two, ScaleOf(two, x));
    RoundAt(x, two(ScaleOf(two, x)))
  }

  ghost function RoundWith(two: Powers, x: real): real {
    if x == 0.0 then 0.0 else if x > 0.0 then RoundPositive(two, x) else -RoundPositive(two, -x)
  }

  ghost function RoundToDouble(two: Powers): real -> real {
    x => RoundWith(two, x)
  }

  lemma SignificandInRange(y: real)
    requires HasFullBits(y)
    ensures TWO_52 <= RoundEven(y) <= TWO_53
  {
    RoundEvenGrows(TWO_52 as real, y);
    RoundEvenGrows(y, TWO_53 as real);
    RoundEvenOfWhole(TWO_52);
    RoundEvenOfWhole(TWO_53);
  }

  lemma QuotientUndoes(x: real, p: real)
    requires p > 0.0
    ensures x * p / p == x && x / p * p == x
  {
  }

  lemma RoundAtTimes(x: real, p: real)
    requires p > 0.0
    ensures RoundAt(x, p) * p == RoundEven(x * p) as real
    ensures RoundEven(x * p) > 0 ==> RoundAt(x, p) > 0.0
  {
    QuotientUndoes(RoundEven(x * p) as real, p);
    if RoundEven(x * p) > 0 && RoundAt(x, p) <= 0.0 { TimesGrows(p, RoundAt(x, p), 0.0); }
  }

  lemma RoundAtOfWhole(x: real, p: real, m: int)
    requires p > 0.0 && x * p == m as real
    ensures RoundAt(x, p) == x
  {
    RoundEvenOfWhole(m);
    QuotientUndoes(x, p);
  }

  lemma RoundAtGrows(x: real, y: real, p: real)
    requires p > 0.0 && x <= y
    ensures RoundAt(x, p) <= RoundAt(y, p)
  {
    TimesGrows(p, x, y);
    RoundEvenGrows(x * p, y * p);
    DivideMore(RoundEven(x * p) as real, RoundEven(y * p) as real, p);
  }

  lemma PositiveStays(two: Powers, x: real)
    requires x > 0.0
    ensures RoundPositive(two, x) > 0.0
  {
    TwoDoubles(two, ScaleOf(two, x));
    SignificandInRange(x * two(ScaleOf(two, x)));
    RoundAtTimes(x, two(ScaleOf(two, x)));
  }

  lemma TimesLess(k: real, a: real, b: real)
    requires k > 0.0 && a < b
    ensures a * k < b * k
  {
  }

  /** Across a change of scale, the largest significand of the smaller number is below the other's smallest. */
  lemma ScalesMeet(x: real, q: real, y: real, p: real)
    requires 0.0 < 2.0 * p <= q && x * q <= TWO_53 as real && TWO_52 as real <= y * p && y > 0.0
    ensures x <= y
  {
    assert TWO_53 as real == 2.0 * TWO_52 as real;
    DoubledAtLeast(y, y, p, q);
    if x > y { TimesLess(q, y, x); }
  }

  lemma OrderAcrossScales(x: real, q: real, y: real, p: real)
    requires 0.0 < 2.0 * p <= q && HasFullBits(x * q) && HasFullBits(y * p)
    ensures RoundAt(x, q) <= RoundAt(y, p)
  {
    SignificandInRange(x * q);
    SignificandInRange(y * p);
    RoundAtTimes(x, q);
    RoundAtTimes(y, p);
    ScalesMeet(RoundAt(x, q), q, RoundAt(y, p), p);
  }

  lemma PositiveKeepsOrder(two: Powers, x: real, y: real)
    requires 0.0 < x <= y
    ensures RoundPositive(two, x) <= RoundPositive(two, y)
  {
    var s, t := ScaleOf(two, x), ScaleOf(two, y);
    SmallerScalesMore(two, x, s, y, t);
    TwoDoubles(two, s);
    TwoDoubles(two, t);
    if s == t {
      RoundAtGrows(x, y, two(s));
    } else {
      TwoGrows(two, t, s);
      OrderAcrossScales(x, two(s), y, two(t));
    }
  }

  /** A number whose scaled form is whole is not changed. */
  lemma WholeSignificandStays(two: Powers, x: real, s: int, m: int)
    requires x > 0.0 && IsScale(two, x, s) && x * two(s) == m as real
    ensures RoundPositive(two, x) == x
  {
    ScaleIs(two, x, s);
    TwoDoubles(two, s);
    RoundAtOfWhole(x, two(s), m);
  }

  lemma HalfScale(two: Powers, y: real, s: int)
    requires y * two(s) == TWO_53 as real
    ensures y * two(s - 1) == TWO_52 as real
  {
    TwoDoubles(two, s - 1);
    Reassociates(2.0, y, two(s - 1));
  }

  lemma StaysAtScale(two: Powers, y: real, s: int, m: int)
    requires y > 0.0 && TWO_52 <= m <= TWO_53 && y * two(s) == m as real
    ensures RoundPositive(two, y) == y
  {
    if m < TWO_53 {
      WholeSignificandStays(two, y, s, m);
    } else {
      HalfScale(two, y, s);
      WholeSignificandStays(two, y, s - 1, TWO_52);
    }
  }

  lemma RoundedSignificand(x: real, p: real) returns (m: int)
    requires p > 0.0 && HasFullBits(x * p)
    ensures RoundAt(x, p) > 0.0 && TWO_52 <= m <= TWO_53 && RoundAt(x, p) * p == m as real && m == RoundEven(x * p)
  {
    SignificandInRange(x * p);
    RoundAtTimes(x, p);
    m := RoundEven(x * p);
  }

  /** What rounding yields has a significand of 53 bits. */
  lemma RoundedIsADouble(two: Powers, x: real) returns (m: int, e: int)
    requires x > 0.0
    ensures TWO_52 <= m <= TWO_53 && RoundWith(two, x) * two(e) == m as real && m == RoundEven(x * two(e))
  {
    e := ScaleOf(two, x);
    TwoDoubles(two, e);
    m := RoundedSignificand(x, two(e));
  }

  lemma PositiveStaysRounded(two: Powers, x: real)
    requires x > 0.0
    ensures RoundPositive(two, x) > 0.0 && RoundPositive(two, RoundPositive(two, x)) == RoundPositive(two, x)
  {
    TwoDoubles(two, ScaleOf(two, x));
    var m := RoundedSignificand(x, two(ScaleOf(two, x)));
    StaysAtScale(two, RoundPositive(two, x), ScaleOf(two, x), m);
  }

  lemma WholeTimesWhole(x: real, m: int, p: real)
    requires x == m as real && p == p.Floor as real
    ensures x * p == (m * p.Floor) as real
  {
  }

  lemma InverseDivides(a: real, p: real, q: real)
    requires p > 0.0 && p * q == 1.0
    ensures a / p == a * q
  {
    Reassociates(a, p, q);
    Reassociates(p, a, q);
    QuotientUndoes(a * q, p);
  }

  lemma RoundAtWhole(x: real, p: real, q: real) returns (m: int)
    requires p > 0.0 && p * q == 1.0 && q == q.Floor as real
    ensures RoundAt(x, p) == m as real
  {
    var k := RoundEven(x * p);
    InverseDivides(k as real, p, q);
    WholeTimesWhole(k as real, k, q);
    m := k * q.Floor;
  }

  lemma PositiveStaysWhole(two: Powers, n: int) returns (m: int)
    requires n > 0
    ensures RoundPositive(two, n as real) == m as real
  {
    var s := ScaleOf(two, n as real);
    if s >= 0 {
      TwoIsWhole(two, s);
      WholeTimesWhole(n as real, n, two(s));
      WholeSignificandStays(two, n as real, s, n * two(s).Floor);
      m := n;
    } else {
      TwoIsWhole(two, -s);
      TwoAdds(two, s, -s);
      TwoDoubles(two, s);
      m := RoundAtWhole(n as real, two(s), two(-s));
    }
  }

  lemma ScaledUp(x: real, n: int, grid: real, more: real, scale: real)
    requires x * grid == n as real && scale == grid * more && more == more.Floor as real
    ensures x * scale == (n * more.Floor) as real
  {
    Reassociates(x, grid, more);
    WholeTimesWhole(n as real, n, more);
  }

  lemma Squeezed(u: real, v: real, n: int)
    requires HasFullBits(u) && u <= v && 2.0 * v == n as real && n <= TWO_53
    ensures u == TWO_52 as real
  {
    assert n as real <= TWO_53 as real;
  }

  lemma WholeAtLargeScale(two: Powers, x: real, n: int, g: nat, s: int) returns (m: int)
    requires s >= g && x * two(g) == n as real
    ensures x * two(s) == m as real
  {
    TwoAdds(two, g, s - g);
    assert g + (s - g) == s;
    TwoIsWhole(two, s - g);
    ScaledUp(x, n, two(g), two(s - g), two(s));
    m := n * two(s - g).Floor;
  }

  lemma WholeAtSmallScale(two: Powers, x: real, n: int, g: nat, s: int)
    requires x >= 0.0 && s < g && x * two(g) == n as real && n <= TWO_53 && HasFullBits(x * two(s))
    ensures x * two(s) == TWO_52 as real
  {
    TwoGrows(two, s, g - 1);
    TimesGrows(x, two(s), two(g - 1));
    HalfTheScale(two, x, g);
    Squeezed(x * two(s), x * two(g - 1), n);
  }

  /** Every multiple of 2^-g of at most 53 bits is whole at its scale. */
  lemma GridScaled(two: Powers, x: real, n: int, g: nat, s: int) returns (m: int)
    requires x >= 0.0 && n <= TWO_53 && x * two(g) == n as real && IsScale(two, x, s)
    ensures x * two(s) == m as real
  {
    if s >= g {
      m := WholeAtLargeScale(two, x, n, g, s);
    } else {
      WholeAtSmallScale(two, x, n, g, s);
      m := TWO_52;
    }
  }

  lemma GridIsTwo(two: Powers)
    ensures two(30) == GRID
  {
    TwoDoubles(two, 0);
    TwoAdds(two, 1, 1);
    TwoAdds(two, 2, 2);
    TwoAdds(two, 1, 4);
    TwoAdds(two, 5, 5);
    TwoAdds(two, 10, 10);
    TwoAdds(two, 20, 10);
  }

  // ----- what the engine relies on -----

  lemma NegativeKeepsOrder(two: Powers, x: real, y: real)
    requires x <= y < 0.0
    ensures RoundWith(two, x) <= RoundWith(two, y)
  {
    PositiveKeepsOrder(two, -y, -x);
  }

  lemma KeepsSign(two: Powers, x: real)
    ensures x > 0.0 ==> RoundWith(two, x) > 0.0
    ensures x < 0.0 ==> RoundWith(two, x) < 0.0
  {
    if x > 0.0 { PositiveStays(two, x); }
    if x < 0.0 { PositiveStays(two, -x); }
  }

  lemma DoubleKeepsOrder(two: Powers, x: real, y: real)
    ensures Ordered(RoundToDouble(two), x, y)
  {
    KeepsSign(two, x);
    KeepsSign(two, y);
    if 0.0 < x <= y { PositiveKeepsOrder(two, x, y); }
    if x <= y < 0.0 { NegativeKeepsOrder(two, x, y); }
  }

  lemma GridStays(two: Powers, x: real, n: int, g: nat)
    requires -TWO_53 <= n <= TWO_53 && x * two(g) == n as real
    ensures RoundWith(two, x) == x
  {
    TwoDoubles(two, g);
    if x > 0.0 {
      var m := GridScaled(two, x, n, g, ScaleOf(two, x));
      WholeSignificandStays(two, x, ScaleOf(two, x), m);
    } else if x < 0.0 {
      var m := GridScaled(two, -x, -n, g, ScaleOf(two, -x));
      WholeSignificandStays(two, -x, ScaleOf(two, -x), m);
    }
  }

  lemma DoubleIsExactAt(two: Powers, n: int)
    ensures ExactAt(RoundToDouble(two), n)
  {
    GridIsTwo(two);
    QuotientUndoes(n as real, GRID);
    if -TWO_53 <= n <= TWO_53 {
      GridStays(two, n as real, n, 0);
      GridStays(two, n as real / GRID, n, 30);
    }
  }

  lemma DoubleStaysWhole(two: Powers, n: int)
    ensures StaysWhole(RoundToDouble(two), n)
  {
    if n > 0 { var m := PositiveStaysWhole(two, n); }
    if n < 0 {
      var m := PositiveStaysWhole(two, -n);
      assert RoundWith(two, n as real) == (-m) as real;
    }
  }

  lemma DoubleStaysRounded(two: Powers, x: real)
    ensures StaysRounded(RoundToDouble(two), x)
  {
    if x > 0.0 { PositiveStaysRounded(two, x); }
    if x < 0.0 { PositiveStaysRounded(two, -x); }
  }

  lemma NearAtScale(x: real, p: real, r: real)
    requires p > 0.0 && TWO_52 as real <= x * p && -0.5 <= r * p - x * p <= 0.5
    ensures -x <= TWO_53 as real * (r - x) <= x
  {
    var d := TWO_53 as real * (r - x);
    TimesDifference(r, x, p);
    assert d * p == TWO_53 as real * ((r - x) * p);
    if d > x { TimesLess(p, x, d); }
    if d < -x { TimesLess(p, d, -x); }
  }

  lemma TimesDifference(a: real, b: real, p: real)
    ensures (a - b) * p == a * p - b * p
  {
  }

  lemma RoundAtIsNear(x: real, p: real)
    requires p > 0.0 && TWO_52 as real <= x * p
    ensures -x <= TWO_53 as real * (RoundAt(x, p) - x) <= x
  {
    RoundAtTimes(x, p);
    RoundEvenIsNear(x * p);
    NearAtScale(x, p, RoundAt(x, p));
  }

  lemma DoubleStaysNear(two: Powers, x: real)
    ensures StaysNear(RoundToDouble(two), x)
  {
    if x > 0.0 {
      TwoDoubles(two, ScaleOf(two, x));
      RoundAtIsNear(x, two(ScaleOf(two, x)));
    }
  }

  /** So everything proved of the score holds when its arithmetic is that of doubles. */
  lemma DoublesRound(two: Powers)
    ensures IsRounding(RoundToDouble(two))
  {
    forall x, y ensures Ordered(RoundToDouble(two), x, y) { DoubleKeepsOrder(two, x, y); }
    forall n ensures ExactAt(RoundToDouble(two), n) { DoubleIsExactAt(two, n); }
    forall n ensures StaysWhole(RoundToDouble(two), n) { DoubleStaysWhole(two, n); }
    forall x ensures StaysRounded(RoundToDouble(two), x) { DoubleStaysRounded(two, x); }
    forall x ensures StaysPositive(RoundToDouble(two), x) { if x > 0.0 { PositiveStays(two, x); } }
    forall x ensures StaysNear(RoundToDouble(two), x) { DoubleStaysNear(two, x); }
  }

  // ----- truncating a quotient -----

  lemma LargeScale(x: real, p: real)
    requires 0.0 < x <= (TWO_53 - 1) as real / 100.0 && HasFullBits(x * p)
    ensures p > 50.0
  {
    if p <= 0.0 { TimesGrows(x, p, 0.0); }
    if 0.0 < p <= 50.0 {
      TimesGrows(p, x, (TWO_53 - 1) as real / 100.0);
      TimesGrows((TWO_53 - 1) as real / 100.0, p, 50.0);
    }
  }

  lemma LargeScaleIsWhole(two: Powers, s: int)
    requires two(s) > 50.0
    ensures two(s) == two(s).Floor as real
  {
    if s < 0 {
      TwoGrows(two, s, 0);
    } else {
      TwoIsWhole(two, s);
    }
  }

  lemma RoundEvenIsNear(y: real)
    ensures Distance(y, RoundEven(y)) <= 0.5
  {
  }

  lemma RoundsBelow(y: real, whole: int, p: real)
    requires p > 50.0 && whole as real <= y <= whole as real + 0.99 * p
    ensures whole as real <= RoundEven(y) as real < whole as real + p
  {
    RoundEvenIsNear(y);
    RoundEvenGrows(whole as real, y);
    RoundEvenOfWhole(whole);
  }

  lemma TimesSum(a: real, b: real, p: real)
    ensures (a + b) * p == a * p + b * p
  {
  }

  lemma ProductsGrow(a: real, b: real, p: real, ap: real, bp: real)
    requires p > 0.0 && a <= b && ap == a * p && bp == b * p
    ensures ap <= bp
  {
    TimesGrows(p, a, b);
  }

  lemma ScaledBetween(x: real, p: real, w: real, y: real, whole: real)
    requires p > 0.0 && w <= x <= w + 0.99 && y == x * p && whole == w * p
    ensures whole <= y <= whole + 0.99 * p
  {
    ProductsGrow(w, x, p, whole, y);
    TimesSum(w, 0.99, p);
    ProductsGrow(x, w + 0.99, p, y, whole + 0.99 * p);
  }

  lemma DividedBetween(n: real, p: real, w: real, whole: real)
    requires p > 0.0 && whole == w * p && whole <= n < whole + p
    ensures w <= n / p < w + 1.0
  {
    var r := n / p;
    assert r * p == n;
    if r < w { TimesLess(p, r, w); }
    if r >= w + 1.0 { TimesGrows(p, w + 1.0, r); }
  }

  /** A number at least a hundredth below the next whole one is not rounded up to it. */
  lemma StaysBelow(x: real, p: real, w: real, whole: int)
    requires p > 50.0 && whole as real == w * p && w <= x <= w + 0.99
    ensures w <= RoundAt(x, p) < w + 1.0
  {
    var y := x * p;
    ScaledBetween(x, p, w, y, whole as real);
    RoundsBelow(y, whole, p);
    DividedBetween(RoundEven(y) as real, p, w, whole as real);
  }

  lemma HundredthIsBetween(k: nat)
    ensures (k / 100) as real <= k as real / 100.0 <= (k / 100) as real + 0.99
  {
  }

  lemma HundredthAtScale(two: Powers, x: real, s: int, w: nat)
    requires 0.0 < x <= (TWO_53 - 1) as real / 100.0 && IsScale(two, x, s) && w as real <= x <= w as real + 0.99
    ensures two(s) > 0.0 && w as real <= RoundAt(x, two(s)) < w as real + 1.0
  {
    LargeScale(x, two(s));
    LargeScaleIsWhole(two, s);
    WholeTimesWhole(w as real, w, two(s));
    StaysBelow(x, two(s), w as real, w * two(s).Floor);
  }

  /** A hundredth of a safe whole number, as a double, has the same whole part. */
  lemma HundredthTruncates(two: Powers, k: nat)
    requires k < TWO_53
    ensures RoundWith(two, k as real / 100.0).Floor == k / 100
  {
    if k > 0 {
      HundredthIsBetween(k);
      HundredthAtScale(two, k as real / 100.0, ScaleOf(two, k as real / 100.0), k / 100);
    }
  }
}
