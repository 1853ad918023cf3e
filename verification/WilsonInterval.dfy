/** The confidence interval of a proportion, over exact reals. The square root is any number that is one. */
module WilsonInterval {

  const Z: real := 1.959963984540054

  function Square(x: real): real {
    x * x
  }

  predicate IsRoot(root: real, x: real) {
    root >= 0.0 && Square(root) == x
  }

  // ---------------------------------------------------------------- squares and quotients

  lemma Product(x: real, y: real)
    requires x >= 0.0 && y >= 0.0
    ensures x * y >= 0.0
    ensures x > 0.0 && y > 0.0 ==> x * y > 0.0
  {}

  lemma ProductGrows(x: real, y: real)
    requires 0.0 <= y < x
    ensures y * y < x * x
  {
    Product(x - y, x + y);
    assert (x - y) * (x + y) == x * x - y * y;
  }

  lemma SquareGrows(x: real, y: real)
    requires 0.0 <= y < x
    ensures Square(y) < Square(x)
  {
    ProductGrows(x, y);
  }

  lemma SquareOrder(x: real, y: real)
    requires x >= 0.0 && y >= 0.0
    ensures Square(x) <= Square(y) <==> x <= y
    ensures Square(x) == Square(y) <==> x == y
  {
    if x > y {
      SquareGrows(x, y);
    } else if x < y {
      SquareGrows(y, x);
    }
  }

  /** A number lies between -u and u when its square is at most that of u. */
  lemma Within(x: real, u: real)
    requires u >= 0.0
    ensures Square(x) <= Square(u) <==> 0.0 - u <= x <= u
  {
    assert Square(x) == Square(0.0 - x);
    if x >= 0.0 {
      SquareOrder(x, u);
    } else {
      SquareOrder(0.0 - x, u);
    }
  }

  /** A square has its root, and a root gives the number back. */
  lemma RootMeans(r: real, x: real)
    requires r >= 0.0
    ensures IsRoot(r, r * r) && (IsRoot(r, x) ==> r * r == x)
  {}

  lemma RootUnique(r: real, s: real, x: real)
    requires IsRoot(r, x) && IsRoot(s, x)
    ensures r == s
  {
    SquareOrder(r, s);
  }

  lemma Scale(x: real, y: real, d: real)
    requires d > 0.0 && x < y
    ensures x * d < y * d
  {
    Product(y - x, d);
    assert (y - x) * d == y * d - x * d;
  }

  lemma Quotient(x: real, d: real)
    requires d > 0.0
    ensures x / d * d == x
  {}

  lemma QuotientOrder(x: real, y: real, d: real)
    requires d > 0.0
    ensures x / d <= y <==> x <= y * d
    ensures y <= x / d <==> y * d <= x
  {
    Quotient(x, d);
    if x / d < y {
      Scale(x / d, y, d);
    } else if y < x / d {
      Scale(y, x / d, d);
    }
  }

  // ---------------------------------------------------------------- the margin

  /** What the square root is taken of. */
  function Spread(z: real, p: real, n: real): real
    requires n > 0.0
  {
    p * (1.0 - p) / n + z * z / (4.0 * n * n)
  }

  /** The margin before the division, with a = z² / n. */
  ghost predicate IsMargin(u: real, a: real, p: real) {
    u >= 0.0 && Square(u) == a * (p * (1.0 - p)) + a * a / 4.0
  }

  lemma Polynomial(a: real, p: real, x: real)
    ensures ((1.0 + a) * x - (p + a / 2.0)) * ((1.0 + a) * x - (p + a / 2.0)) - (a * (p * (1.0 - p)) + a * a / 4.0)
         == (1.0 + a) * ((p - x) * (p - x) - a * (x * (1.0 - x)))
  {}

  /** How far a value is from the middle, against the margin, is how far the proportion is from the value,
      against the spread that the value itself would have. */
  lemma Completion(a: real, p: real, u: real, x: real)
    requires IsMargin(u, a, p)
    ensures Square(Offset(a, p, x)) - Square(u) == (1.0 + a) * (Square(p - x) - a * (x * (1.0 - x)))
  {
    Polynomial(a, p, x);
  }

  function Low(a: real, p: real, u: real): real
    requires a > 0.0
  {
    (p + a / 2.0) / (1.0 + a) - u / (1.0 + a)
  }

  function High(a: real, p: real, u: real): real
    requires a > 0.0
  {
    (p + a / 2.0) / (1.0 + a) + u / (1.0 + a)
  }

  lemma QuotientSum(x: real, y: real, d: real)
    requires d > 0.0
    ensures x / d + y / d == (x + y) / d && x / d - y / d == (x - y) / d
  {
    Quotient(x, d);
    Quotient(y, d);
  }

  lemma InInterval(a: real, p: real, u: real, x: real)
    requires a > 0.0
    ensures Low(a, p, u) <= x <==> p + a / 2.0 - u <= x * (1.0 + a)
    ensures x <= High(a, p, u) <==> x * (1.0 + a) <= p + a / 2.0 + u
  {
    QuotientSum(p + a / 2.0, u, 1.0 + a);
    QuotientOrder(p + a / 2.0 - u, x, 1.0 + a);
    QuotientOrder(p + a / 2.0 + u, x, 1.0 + a);
  }

  lemma SameSign(x: real, y: real, d: real, f: real)
    requires d > 0.0 && x - y == d * f
    ensures x <= y <==> f <= 0.0
  {
    if f > 0.0 {
      Product(d, f);
    } else {
      Product(d, 0.0 - f);
    }
  }

  /** How far a value is from the middle of the interval, before the division. */
  function Offset(a: real, p: real, x: real): real {
    (1.0 + a) * x - (p + a / 2.0)
  }

  lemma InMiddle(a: real, p: real, u: real, x: real)
    requires a > 0.0 && u >= 0.0
    ensures Low(a, p, u) <= x <= High(a, p, u) <==> Square(Offset(a, p, x)) <= Square(u)
  {
    InInterval(a, p, u, x);
    Within(Offset(a, p, x), u);
  }

  lemma Accepted(a: real, p: real, u: real, x: real)
    requires a > 0.0 && IsMargin(u, a, p)
    ensures Square(Offset(a, p, x)) <= Square(u) <==> Square(p - x) - a * (x * (1.0 - x)) <= 0.0
  {
    Completion(a, p, u, x);
    SameSign(Square(Offset(a, p, x)), Square(u), 1.0 + a, Square(p - x) - a * (x * (1.0 - x)));
  }

  predicate Inside(a: real, p: real, u: real, x: real)
    requires a > 0.0
  {
    Low(a, p, u) <= x <= High(a, p, u)
  }

  /** The value is not rejected by the score test with a = z² / n: the proportion is no further from it than z
      times the standard deviation that the value itself would have. */
  predicate NotRejected(a: real, p: real, x: real) {
    Square(p - x) <= a * (x * (1.0 - x))
  }

  /** The interval holds exactly the values that the score test does not reject. */
  lemma ScoreTest(a: real, p: real, u: real, x: real)
    requires a > 0.0 && IsMargin(u, a, p)
    ensures Inside(a, p, u, x) <==> NotRejected(a, p, x)
  {
    InMiddle(a, p, u, x);
    Accepted(a, p, u, x);
  }

  lemma Ordered(a: real, p: real, u: real)
    requires a > 0.0 && u >= 0.0
    ensures Low(a, p, u) <= High(a, p, u)
  {
    QuotientOrder(u, 0.0, 1.0 + a);
  }

  lemma Proportion(a: real, x: real)
    requires a > 0.0 && a * (x * (1.0 - x)) >= 0.0
    ensures 0.0 <= x <= 1.0
  {
    if x < 0.0 {
      Outside(a, 0.0 - x, 1.0 - x);
    } else if x > 1.0 {
      Outside(a, x, x - 1.0);
    }
  }

  lemma Outside(a: real, x: real, y: real)
    requires a > 0.0 && x > 0.0 && y > 0.0
    ensures a * (x * y) > 0.0
  {
    Product(x, y);
    Product(a, x * y);
  }

  lemma SquareNever(x: real)
    ensures Square(x) >= 0.0 && (Square(x) <= 0.0 <==> x == 0.0)
  {
    Within(x, 0.0);
  }

  /** A value in the interval is a proportion. */
  lemma InsideScale(a: real, p: real, u: real, x: real)
    requires a > 0.0 && IsMargin(u, a, p) && Low(a, p, u) <= x <= High(a, p, u)
    ensures 0.0 <= x <= 1.0
  {
    ScoreTest(a, p, u, x);
    SquareNever(p - x);
    Proportion(a, x);
  }

  lemma HoldsProportion(a: real, p: real, u: real)
    requires a > 0.0 && IsMargin(u, a, p) && 0.0 <= p <= 1.0
    ensures Low(a, p, u) <= p <= High(a, p, u)
  {
    Product(p, 1.0 - p);
    Product(a, p * (1.0 - p));
    ScoreTest(a, p, u, p);
  }

  /** The interval has an end of the scale only when that is the proportion itself. */
  lemma HoldsEnds(a: real, p: real, u: real)
    requires a > 0.0 && IsMargin(u, a, p)
    ensures Low(a, p, u) <= 0.0 <= High(a, p, u) <==> p == 0.0
    ensures Low(a, p, u) <= 1.0 <= High(a, p, u) <==> p == 1.0
  {
    ScoreTest(a, p, u, 0.0);
    SquareNever(p - 0.0);
    ScoreTest(a, p, u, 1.0);
    SquareNever(p - 1.0);
  }

  /** The interval is one of proportions around the given one, and has an end of the scale only when that is the
      proportion itself. */
  lemma IntervalBounds(a: real, p: real, u: real)
    requires a > 0.0 && IsMargin(u, a, p) && 0.0 <= p <= 1.0
    ensures 0.0 <= Low(a, p, u) <= p <= High(a, p, u) <= 1.0
    ensures (Low(a, p, u) == 0.0 <==> p == 0.0) && (High(a, p, u) == 1.0 <==> p == 1.0)
  {
    Ordered(a, p, u);
    InsideScale(a, p, u, Low(a, p, u));
    InsideScale(a, p, u, High(a, p, u));
    HoldsProportion(a, p, u);
    HoldsEnds(a, p, u);
  }

  lemma MirrorQuotient(x: real, u: real, d: real)
    requires d > 0.0
    ensures (d - x) / d - u / d == 1.0 - (x / d + u / d)
    ensures (d - x) / d + u / d == 1.0 - (x / d - u / d)
  {
    QuotientSum(d, x, d);
  }

  /** Successes and failures exchanged, the interval is mirrored. */
  lemma Mirrored(a: real, p: real, u: real)
    requires a > 0.0
    ensures Low(a, 1.0 - p, u) == 1.0 - High(a, p, u) && High(a, 1.0 - p, u) == 1.0 - Low(a, p, u)
    ensures IsMargin(u, a, p) <==> IsMargin(u, a, 1.0 - p)
  {
    MirrorQuotient(p + a / 2.0, u, 1.0 + a);
    assert 1.0 + a - (p + a / 2.0) == 1.0 - p + a / 2.0;
  }

  // ---------------------------------------------------------------- the method

  lemma SameQuotient(x: real, y: real, d: real)
    requires d > 0.0 && x * d == y * d
    ensures x == y
  {
    if x < y {
      Scale(x, y, d);
    } else if y < x {
      Scale(y, x, d);
    }
  }

  lemma Regroup(q: real, d: real, e: real)
    ensures q * (d * e) == q * e * d
  {}

  lemma NestedQuotient(x: real, d: real, e: real)
    requires d > 0.0 && e > 0.0
    ensures x / (d * e) == x / d / e
  {
    Product(d, e);
    TwiceBack(x, d, e);
    QuotientOrder(x, x / d / e, d * e);
  }

  lemma TwiceBack(x: real, d: real, e: real)
    requires d > 0.0 && e > 0.0
    ensures x / d / e * (d * e) == x
  {
    Quotient(x, d);
    Quotient(x / d, e);
    Regroup(x / d / e, d, e);
  }

  lemma Factor(x: real, y: real, n: real)
    requires n > 0.0
    ensures x * (y / n) == x / n * y
  {
    Quotient(x, n);
    Quotient(y, n);
    assert x * (y / n) * n == x * y;
    assert x / n * y * n == x * y;
    SameQuotient(x * (y / n), x / n * y, n);
  }

  /** The term of the spread that does not depend on the proportion. */
  lemma ConstantTerm(x: real, n: real)
    requires n > 0.0
    ensures x * (x / (4.0 * n * n)) == x / n * (x / n) / 4.0
  {
    NestedQuotient(x, 4.0 * n, n);
    NestedQuotient(x, 4.0, n);
    Factor(x, x / (4.0 * n), n);
    assert x / 4.0 / n == x / n / 4.0;
  }

  /** What the square root is taken of gives the margin. */
  lemma MarginOf(z: real, p: real, n: real, root: real)
    requires n > 0.0 && z >= 0.0 && IsRoot(root, Spread(z, p, n))
    ensures IsMargin(z * root, z * z / n, p)
  {
    Product(z, root);
    assert Square(z * root) == z * z * Square(root);
    Factor(z * z, p * (1.0 - p), n);
    ConstantTerm(z * z, n);
  }

  lemma SameInterval(z: real, p: real, n: real, u: real)
    requires n > 0.0 && z > 0.0
    ensures z * z / n > 0.0
    ensures (p + z * z / (2.0 * n)) / (1.0 + z * z / n) - u / (1.0 + z * z / n) == Low(z * z / n, p, u)
    ensures (p + z * z / (2.0 * n)) / (1.0 + z * z / n) + u / (1.0 + z * z / n) == High(z * z / n, p, u)
  {
    ProductGrows(z, 0.0);
    QuotientOrder(z * z, 0.0, n);
    NestedQuotient(z * z, 2.0, n);
    assert z * z / 2.0 / n == z * z / n / 2.0;
  }

  /** The interval around the proportion that holds exactly what the score test does not reject. */
  ghost predicate IsInterval(low: real, high: real, a: real, p: real) {
    && 0.0 <= low <= p <= high <= 1.0
    && forall x :: low <= x <= high <==> NotRejected(a, p, x)
  }

  lemma ExactInterval(a: real, p: real, u: real)
    requires a > 0.0 && IsMargin(u, a, p) && 0.0 <= p <= 1.0
    ensures IsInterval(Low(a, p, u), High(a, p, u), a, p)
  {
    IntervalBounds(a, p, u);
    forall x ensures Inside(a, p, u, x) <==> NotRejected(a, p, x) {
      ScoreTest(a, p, u, x);
    }
    assert forall x :: NotRejected(a, p, x) <==> Inside(a, p, u, x);
  }

  /** A value is above the lower end, or below the upper one, exactly when it is not rejected. */
  lemma Beyond(low: real, high: real, a: real, p: real, x: real)
    requires IsInterval(low, high, a, p)
    ensures x <= p ==> (low <= x <==> NotRejected(a, p, x))
    ensures p <= x ==> (x <= high <==> NotRejected(a, p, x))
  {}

  /** The intervals for three, two and no successes out of three, to four places. */
  lemma ReferenceValues(low: real, high: real, p: real)
    requires IsInterval(low, high, Z * Z / 3.0, p)
    ensures p == 1.0 ==> 0.4384 < low <= 0.4386 && high == 1.0
    ensures p == 2.0 / 3.0 ==> 0.2076 < low <= 0.2078 && 0.9384 <= high < 0.9386
    ensures p == 0.0 ==> low == 0.0 && 0.5614 <= high < 0.5616
  {
    var a := Z * Z / 3.0;
    if p == 1.0 {
      Beyond(low, high, a, p, 0.4384);
      Beyond(low, high, a, p, 0.4386);
    } else if p == 2.0 / 3.0 {
      Beyond(low, high, a, p, 0.2076);
      Beyond(low, high, a, p, 0.2078);
      Beyond(low, high, a, p, 0.9384);
      Beyond(low, high, a, p, 0.9386);
    } else if p == 0.0 {
      Beyond(low, high, a, p, 0.5614);
      Beyond(low, high, a, p, 0.5616);
    }
  }

  /** The interval for a proportion; neither clamp changes the exact value. `root` is what the square root
      gives. */
  method Wilson95(successes: int, total: int, root: real) returns (low: real, high: real)
    requires total > 0 ==> 0 <= successes <= total
    requires total > 0 ==> IsRoot(root, Spread(Z, successes as real / total as real, total as real))
    ensures total <= 0 ==> low == 0.0 && high == 0.0
    ensures total > 0 ==>
              var p, a, u := successes as real / total as real, Z * Z / total as real, Z * root;
              && a > 0.0 && IsMargin(u, a, p) && low == Low(a, p, u) && high == High(a, p, u)
              && IsInterval(low, high, a, p)
  {
    if total <= 0 {
      return 0.0, 0.0;
    }
    var n := total as real;
    var p := successes as real / n;
    QuotientOrder(successes as real, 0.0, n);
    QuotientOrder(successes as real, 1.0, n);
    SameInterval(Z, p, n, Z * root);
    MarginOf(Z, p, n, root);
    ExactInterval(Z * Z / n, p, Z * root);
    var z2 := Z * Z;
    var denominator := 1.0 + z2 / n;
    var center := (p + z2 / (2.0 * n)) / denominator;
    var margin := Z * root / denominator;
    low := center - margin;
    high := center + margin;
    if low < 0.0 {
      low := 0.0;
    }
    if high > 1.0 {
      high := 1.0;
    }
  }
}
