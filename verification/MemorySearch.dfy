/** The fallback memory store: cosine scores and ranked search. */
module MemorySearch {

  // ----- cosine similarity over the reals

  function Dot(a: seq<real>, b: seq<real>): real
    requires |a| == |b|
  {
    if a == [] then 0.0 else a[0] * b[0] + Dot(a[1..], b[1..])
  }

  /** A square root function, as the mathematics library provides it. */
  ghost predicate IsSqrt(sqrt: real -> real) {
    forall x: real :: x >= 0.0 ==> sqrt(x) >= 0.0 && sqrt(x) * sqrt(x) == x
  }

  lemma {:induction false} SquaresNonNegative(a: seq<real>)
    ensures Dot(a, a) >= 0.0
  {
    if a != [] {
      SquaresNonNegative(a[1..]);
      SquareNonNegative(a[0]);
    }
  }

  lemma SquareNonNegative(x: real)
    ensures x * x >= 0.0
  {
  }

  function Cosine(sqrt: real -> real, a: seq<real>, b: seq<real>): real {
    if a == [] || b == [] || |a| != |b| then 0.0
    else
      var magA, magB := sqrt(Dot(a, a)), sqrt(Dot(b, b));
      if magA == 0.0 || magB == 0.0 then 0.0 else Quotient(Dot(a, b), magA, magB)
  }

  function Quotient(dot: real, magA: real, magB: real): (q: real)
    requires magA != 0.0 && magB != 0.0
  {
    assert magA * magB != 0.0;
    dot / (magA * magB)
  }

  /** The three sums computed by loops over the components. */
  method CosineSimilarity(sqrt: real -> real, a: seq<real>, b: seq<real>) returns (score: real)
    ensures score == Cosine(sqrt, a, b)
  {
    if a == [] || b == [] {
      return 0.0;
    }
    if |a| != |b| {
      return 0.0;
    }
    var dot := SumOfProducts(a, b);
    var squaresA := SumOfProducts(a, a);
    var squaresB := SumOfProducts(b, b);
    var magA, magB := sqrt(squaresA), sqrt(squaresB);
    if magA == 0.0 || magB == 0.0 {
      return 0.0;
    }
    score := Quotient(dot, magA, magB);
  }

  method SumOfProducts(a: seq<real>, b: seq<real>) returns (sum: real)
    requires |a| == |b|
    ensures sum == Dot(a, b)
  {
    sum := 0.0;
    var i := 0;
    while i < |a|
      invariant 0 <= i <= |a|
      invariant sum + Dot(a[i..], b[i..]) == Dot(a, b)
    {
      assert a[i..][1..] == a[i + 1..] && b[i..][1..] == b[i + 1..];
      sum := sum + a[i] * b[i];
      i := i + 1;
    }
  }

  /** `x * a - y * b`, componentwise. */
  function Combine(x: real, a: seq<real>, y: real, b: seq<real>): (r: seq<real>)
    requires |a| == |b|
    ensures |r| == |a|
  {
    if a == [] then [] else [x * a[0] - y * b[0]] + Combine(x, a[1..], y, b[1..])
  }

  /** The square of a difference, from the three products it is made of. */
  function Squared(x: real, p: real, y: real, q: real, r: real): real {
    x * x * p - 2.0 * (x * y) * q + y * y * r
  }

  lemma SquareOfDifference(x: real, p: real, y: real, q: real)
    ensures (x * p - y * q) * (x * p - y * q) == Squared(x, p * p, y, p * q, q * q)
  {
  }

  lemma SquaredAdds(x: real, p: real, a: real, y: real, q: real, b: real, r: real, c: real)
    ensures Squared(x, p, y, q, r) + Squared(x, a, y, b, c) == Squared(x, p + a, y, q + b, r + c)
  {
  }

  /** One component more: `h` is its entry of the combination, `t` the square of the others. */
  lemma SquaredStep(x: real, p: real, a: real, a': real, y: real, q: real, b: real, b': real, c: real, c': real,
                    h: real, t: real)
    requires h == x * p - y * q && t == Squared(x, a, y, b, c)
    requires a' == p * p + a && b' == p * q + b && c' == q * q + c
    ensures h * h + t == Squared(x, a', y, b', c')
  {
    SquareOfDifference(x, p, y, q);
    SquaredAdds(x, p * p, a, y, p * q, b, q * q, c);
  }

  lemma DotHead(a: seq<real>, b: seq<real>)
    requires |a| == |b| && a != []
    ensures Dot(a, b) == a[0] * b[0] + Dot(a[1..], b[1..])
  {
  }

  lemma CombineHead(x: real, a: seq<real>, y: real, b: seq<real>)
    requires |a| == |b| && a != []
    ensures Combine(x, a, y, b)[0] == x * a[0] - y * b[0]
    ensures Combine(x, a, y, b)[1..] == Combine(x, a[1..], y, b[1..])
  {
  }

  lemma {:induction false} CombinedSquare(x: real, a: seq<real>, y: real, b: seq<real>)
    requires |a| == |b|
    ensures Dot(Combine(x, a, y, b), Combine(x, a, y, b)) == Squared(x, Dot(a, a), y, Dot(a, b), Dot(b, b))
  {
    if a != [] {
      var c := Combine(x, a, y, b);
      CombinedSquare(x, a[1..], y, b[1..]);
      CombineHead(x, a, y, b);
      DotHead(c, c);
      DotHead(a, a);
      DotHead(a, b);
      DotHead(b, b);
      SquaredStep(x, a[0], Dot(a[1..], a[1..]), Dot(a, a), y, b[0], Dot(a[1..], b[1..]), Dot(a, b),
                  Dot(b[1..], b[1..]), Dot(b, b), c[0], Dot(c[1..], c[1..]));
    }
  }

  lemma NegativeProduct(p: real, n: real)
    requires p > 0.0 && n < 0.0
    ensures p * n < 0.0
  {
  }

  /** A vector of length zero is orthogonal to everything. */
  lemma {:induction false} ZeroVector(a: seq<real>, b: seq<real>)
    requires |a| == |b| && Dot(b, b) == 0.0
    ensures Dot(a, b) == 0.0
  {
    if a != [] {
      SquaresNonNegative(b[1..]);
      SquareNonNegative(b[0]);
      if b[0] != 0.0 {
        SquarePositive(b[0]);
      }
      ZeroVector(a[1..], b[1..]);
    }
  }

  lemma SquarePositive(x: real)
    requires x != 0.0
    ensures x * x > 0.0
  {
    if x > 0.0 {
      FactorStrict(0.0, x, x);
    } else {
      var y := -x;
      FactorStrict(0.0, y, y);
      assert y * y == x * x;
    }
  }

  lemma Regroup(x: real, y: real)
    ensures x * x * y == x * (y * x) && (x * y) * y == x * (y * y) && y * y * x == x * (y * y)
  {
  }

  /** The inequality between the three products of two vectors. */
  predicate SchwarzHolds(aa: real, ab: real, bb: real) {
    ab * ab <= aa * bb
  }

  lemma DiscriminantForm(aa: real, ab: real, bb: real, s: real)
    requires s == Squared(bb, aa, ab, ab, bb) && s >= 0.0 && bb > 0.0
    ensures SchwarzHolds(aa, ab, bb)
  {
    Regroup(bb, aa);
    Regroup(bb, ab);
    Distribute(bb, aa * bb, ab * ab);
    FactorNonNegative(bb, aa * bb - ab * ab);
  }

  lemma Distribute(p: real, m: real, n: real)
    ensures p * m - 2.0 * (p * n) + p * n == p * (m - n)
  {
  }

  lemma FactorNonNegative(p: real, n: real)
    requires p > 0.0 && p * n >= 0.0
    ensures n >= 0.0
  {
    if n < 0.0 {
      NegativeProduct(p, n);
    }
  }

  lemma ZeroCase(aa: real, ab: real, bb: real)
    requires ab == 0.0 && bb == 0.0
    ensures SchwarzHolds(aa, ab, bb)
  {
  }

  /** The Cauchy-Schwarz inequality, for real vectors of any length. */
  lemma CauchySchwarz(a: seq<real>, b: seq<real>)
    requires |a| == |b|
    ensures SchwarzHolds(Dot(a, a), Dot(a, b), Dot(b, b))
  {
    SquaresNonNegative(b);
    if Dot(b, b) == 0.0 {
      ZeroVector(a, b);
      ZeroCase(Dot(a, a), Dot(a, b), Dot(b, b));
    } else {
      var c := Combine(Dot(b, b), a, Dot(a, b), b);
      SquaresNonNegative(c);
      CombinedSquare(Dot(b, b), a, Dot(a, b), b);
      DiscriminantForm(Dot(a, a), Dot(a, b), Dot(b, b), Dot(c, c));
    }
  }

  lemma BoundedQuotient(aa: real, d: real, bb: real, m: real, n: real)
    requires m > 0.0 && n > 0.0 && m * m == aa && n * n == bb && SchwarzHolds(aa, d, bb)
    ensures -1.0 <= Quotient(d, m, n) <= 1.0
  {
    var p := m * n;
    FactorStrict(0.0, m, n);
    ProductSquare(m, n, aa, bb);
    SquareOrder(d, p);
    SquareOrder(-d, p);
    var q := d / p;
    assert q * p == d;
    FactorOrder(q, 1.0, p);
    FactorOrder(-1.0, q, p);
  }

  lemma ProductSquare(m: real, n: real, aa: real, bb: real)
    requires m * m == aa && n * n == bb
    ensures aa * bb == (m * n) * (m * n)
  {
    assert (m * m) * (n * n) == (m * n) * (m * n);
  }

  lemma SquareOrder(d: real, p: real)
    requires p > 0.0 && d * d <= p * p
    ensures d <= p
  {
    if d > p {
      FactorStrict(p, d, p);
      FactorStrict(p, d, d);
    }
  }

  lemma FactorStrict(a: real, b: real, c: real)
    requires a < b && c > 0.0
    ensures a * c < b * c
  {
    assert (b - a) * c > 0.0;
  }

  lemma FactorOrder(a: real, b: real, c: real)
    requires c > 0.0 && a * c <= b * c
    ensures a <= b
  {
    if a > b {
      FactorStrict(b, a, c);
    }
  }

  /** Every score lies between -1 and 1. */
  lemma CosineIsBounded(sqrt: real -> real, a: seq<real>, b: seq<real>)
    requires IsSqrt(sqrt)
    ensures -1.0 <= Cosine(sqrt, a, b) <= 1.0
  {
    if a != [] && b != [] && |a| == |b| {
      SquaresNonNegative(a);
      SquaresNonNegative(b);
      var magA, magB := sqrt(Dot(a, a)), sqrt(Dot(b, b));
      assert magA >= 0.0 && magA * magA == Dot(a, a);
      assert magB >= 0.0 && magB * magB == Dot(b, b);
      if magA != 0.0 && magB != 0.0 {
        CauchySchwarz(a, b);
        BoundedQuotient(Dot(a, a), Dot(a, b), Dot(b, b), magA, magB);
      }
    }
  }

  /** A vector that is not zero scores 1 against itself. */
  lemma SelfScore(sqrt: real -> real, a: seq<real>)
    requires IsSqrt(sqrt) && Dot(a, a) != 0.0
    ensures Cosine(sqrt, a, a) == 1.0
  {
    SquaresNonNegative(a);
    var mag := sqrt(Dot(a, a));
    assert mag * mag == Dot(a, a);
    SelfQuotient(mag, Dot(a, a));
  }

  lemma SelfQuotient(m: real, d: real)
    requires m * m == d && d != 0.0
    ensures m != 0.0 && Quotient(d, m, m) == 1.0
  {
    if m != 0.0 {
      assert Quotient(d, m, m) == d / (m * m);
      assert d / d == 1.0;
    }
  }

  /** A vector of zeros with a one at position `i`. */
  function Unit(n: nat, i: nat): (u: seq<real>)
    ensures |u| == n
  {
    seq(n, j => if j == i then 1.0 else 0.0)
  }

  lemma {:induction false} DotZeros(a: seq<real>, z: seq<real>)
    requires |a| == |z| && forall x <- z :: x == 0.0
    ensures Dot(a, z) == 0.0
  {
    if a != [] {
      assert z[0] in z && forall x <- z[1..] :: x in z;
      DotZeros(a[1..], z[1..]);
    }
  }

  /** The product with a unit vector is the component there: no component is skipped or counted twice. */
  lemma {:induction false} DotUnit(a: seq<real>, i: nat)
    requires i < |a|
    ensures Dot(a, Unit(|a|, i)) == a[i]
  {
    var u := Unit(|a|, i);
    if i == 0 {
      forall x | x in u[1..] ensures x == 0.0 {
        var j :| 0 <= j < |u[1..]| && u[1..][j] == x;
        assert u[j + 1] == 0.0;
      }
      DotZeros(a[1..], u[1..]);
    } else {
      assert u[1..] == Unit(|a| - 1, i - 1);
      DotUnit(a[1..], i - 1);
    }
  }

  lemma {:induction false} DifferenceAt(a: seq<real>, b: seq<real>, i: nat)
    requires |a| == |b| && i < |a|
    ensures Combine(1.0, a, 1.0, b)[i] == a[i] - b[i]
  {
    if i > 0 {
      DifferenceAt(a[1..], b[1..], i - 1);
    }
  }

  /** The law of cosines: the score is the cosine of the angle between the two vectors. */
  lemma ScoreIsCosine(sqrt: real -> real, a: seq<real>, b: seq<real>)
    requires IsSqrt(sqrt) && |a| == |b| && Dot(a, a) != 0.0 && Dot(b, b) != 0.0
    ensures
      var d := Combine(1.0, a, 1.0, b);
      var lengths := sqrt(Dot(a, a)) * sqrt(Dot(b, b));
      Dot(d, d) == Dot(a, a) + Dot(b, b) - 2.0 * (Cosine(sqrt, a, b) * lengths)
  {
    CombinedSquare(1.0, a, 1.0, b);
    ScoreTimesLengths(sqrt, a, b);
    UnitSquared(Dot(a, a), Dot(a, b), Dot(b, b));
  }

  lemma UnitSquared(p: real, q: real, r: real)
    ensures Squared(1.0, p, 1.0, q, r) == p - 2.0 * q + r
  {
  }

  lemma ScoreTimesLengths(sqrt: real -> real, a: seq<real>, b: seq<real>)
    requires IsSqrt(sqrt) && |a| == |b| && Dot(a, a) != 0.0 && Dot(b, b) != 0.0
    ensures Cosine(sqrt, a, b) * (sqrt(Dot(a, a)) * sqrt(Dot(b, b))) == Dot(a, b)
  {
    SquaresNonNegative(a);
    SquaresNonNegative(b);
    var magA, magB := sqrt(Dot(a, a)), sqrt(Dot(b, b));
    NonZeroRoot(magA, Dot(a, a));
    NonZeroRoot(magB, Dot(b, b));
    QuotientTimes(Dot(a, b), magA, magB);
  }

  lemma NonZeroRoot(m: real, d: real)
    requires m * m == d && d != 0.0
    ensures m != 0.0
  {
  }

  lemma QuotientTimes(dot: real, m: real, n: real)
    requires m != 0.0 && n != 0.0
    ensures Quotient(dot, m, n) * (m * n) == dot
  {
    var p := m * n;
    assert p != 0.0;
    assert (dot / p) * p == dot;
  }

  /** Empty vectors, vectors of different length and vectors of length zero score nothing. */
  lemma NoScore(sqrt: real -> real, a: seq<real>, b: seq<real>)
    requires IsSqrt(sqrt)
    requires a == [] || b == [] || |a| != |b| || Dot(a, a) == 0.0 || Dot(b, b) == 0.0
    ensures Cosine(sqrt, a, b) == 0.0
  {
    if a != [] && b != [] && |a| == |b| {
      SquaresNonNegative(a);
      SquaresNonNegative(b);
      ZeroRoot(sqrt(Dot(a, a)), Dot(a, a));
      ZeroRoot(sqrt(Dot(b, b)), Dot(b, b));
    }
  }

  lemma ZeroRoot(m: real, d: real)
    requires m * m == d
    ensures d == 0.0 ==> m == 0.0
  {
    if m != 0.0 {
      NonZeroSquare(m, d);
    }
  }

  lemma NonZeroSquare(m: real, d: real)
    requires m != 0.0 && m * m == d
    ensures d != 0.0
  {
    var r := 1.0 / m;
    assert m * r == 1.0;
    assert d * r == m * (m * r);
    assert d * r == m;
  }

  // ----- search

  datatype Row = Row(id: string, text: string, vector: seq<real>, timestamp: real)

  datatype Hit = Hit(row: Row, score: real)

  /** `a` may stand before `b`: higher score, then newer. */
  predicate Ranks(a: Hit, b: Hit) {
    a.score > b.score || (a.score == b.score && a.row.timestamp >= b.row.timestamp)
  }

  predicate Descending(hits: seq<Hit>) {
    forall i, j :: 0 <= i < j < |hits| ==> Ranks(hits[i], hits[j])
  }

  /** Python's `[:k]`. */
  function Prefix<T>(s: seq<T>, k: int): seq<T> {
    if k >= 0 then s[..if k <= |s| then k else |s|]
    else s[..if -k <= |s| then |s| + k else 0]
  }

  /** All rows scored against the query, in stored order; without a query vector every score is
      the same and only the timestamps rank. */
  function Scored(sqrt: real -> real, rows: seq<Row>, query: seq<real>): (hits: seq<Hit>)
    ensures |hits| == |rows|
  {
    seq(|rows|, i requires 0 <= i < |rows| =>
      Hit(rows[i], if query == [] then 0.0 else Cosine(sqrt, query, rows[i].vector)))
  }

  /** The rows a search may answer: a descending arrangement of all scored rows, cut after `k`. */
  ghost predicate IsAnswer(hits: seq<Hit>, k: int, answer: seq<Hit>) {
    exists ordered: seq<Hit> ::
      multiset(ordered) == multiset(hits) && Descending(ordered) && answer == Prefix(ordered, k)
  }

  method Insert(sorted: seq<Hit>, h: Hit) returns (r: seq<Hit>)
    requires Descending(sorted)
    ensures Descending(r) && multiset(r) == multiset(sorted) + multiset{h}
  {
    var i := 0;
    while i < |sorted| && Ranks(sorted[i], h)
      invariant 0 <= i <= |sorted|
      invariant forall j :: 0 <= j < i ==> Ranks(sorted[j], h)
    {
      i := i + 1;
    }
    r := sorted[..i] + [h] + sorted[i..];
    assert sorted == sorted[..i] + sorted[i..];
    InsertedDescends(sorted, h, i);
  }

  lemma RanksTransitive(a: Hit, b: Hit, c: Hit)
    requires Ranks(a, b) && Ranks(b, c)
    ensures Ranks(a, c)
  {
  }

  lemma InsertedDescends(sorted: seq<Hit>, h: Hit, i: nat)
    requires Descending(sorted) && i <= |sorted|
    requires forall j :: 0 <= j < i ==> Ranks(sorted[j], h)
    requires i < |sorted| ==> !Ranks(sorted[i], h)
    ensures Descending(sorted[..i] + [h] + sorted[i..])
  {
    var r := sorted[..i] + [h] + sorted[i..];
    forall x, y | 0 <= x < y < |r| ensures Ranks(r[x], r[y]) {
      if x == i {
        assert r[y] == sorted[y - 1];
        if y - 1 > i {
          RanksTransitive(h, sorted[i], sorted[y - 1]);
        }
      } else if y == i {
        assert r[x] == sorted[x];
      } else {
        assert r[x] == sorted[if x < i then x else x - 1];
        assert r[y] == sorted[if y < i then y else y - 1];
      }
    }
  }

  method Search(sqrt: real -> real, rows: seq<Row>, query: seq<real>, k: int) returns (answer: seq<Hit>)
    ensures IsAnswer(Scored(sqrt, rows, query), k, answer)
  {
    var ordered: seq<Hit> := [];
    ghost var hits := Scored(sqrt, rows, query);
    for i := 0 to |rows|
      invariant Descending(ordered) && multiset(ordered) == multiset(hits[..i])
    {
      var score := 0.0;
      if query != [] {
        score := CosineSimilarity(sqrt, query, rows[i].vector);
      }
      assert hits[..i + 1] == hits[..i] + [hits[i]];
      ordered := Insert(ordered, Hit(rows[i], score));
    }
    assert hits[..|hits|] == hits;
    answer := Prefix(ordered, k);
  }

  /** For any k that is not negative the answer has k rows, or all if there are fewer, from the
      highest rank down, and no row left out ranks strictly above one that is in. */
  lemma AnswerIsTop(hits: seq<Hit>, k: nat, answer: seq<Hit>)
    requires IsAnswer(hits, k, answer)
    ensures |answer| == if k <= |hits| then k else |hits|
    ensures Descending(answer)
    ensures multiset(answer) <= multiset(hits)
    ensures forall out <- multiset(hits) - multiset(answer), a <- answer :: Ranks(a, out)
  {
    var ordered: seq<Hit> :|
      multiset(ordered) == multiset(hits) && Descending(ordered) && answer == Prefix(ordered, k);
    assert |multiset(ordered)| == |ordered| && |multiset(hits)| == |hits|;
    CutRanks(ordered, |answer|);
  }

  /** The answer in plain terms: higher scores first, equal scores by the newer timestamp, every hit a
      stored row with its cosine score against the query, or without a query only by time. */
  lemma AnswerInFull(sqrt: real -> real, rows: seq<Row>, query: seq<real>, k: nat, answer: seq<Hit>)
    requires IsAnswer(Scored(sqrt, rows, query), k, answer)
    ensures forall i, j :: 0 <= i < j < |answer| ==>
      || answer[i].score > answer[j].score
      || (answer[i].score == answer[j].score && answer[i].row.timestamp >= answer[j].row.timestamp)
    ensures forall h <- answer :: h.row in rows && (query != [] ==> h.score == Cosine(sqrt, query, h.row.vector))
    ensures query == [] ==>
      forall i, j :: 0 <= i < j < |answer| ==> answer[i].row.timestamp >= answer[j].row.timestamp
  {
    var hits := Scored(sqrt, rows, query);
    AnswerIsTop(hits, k, answer);
    forall h | h in answer
      ensures h.row in rows && h.score == if query == [] then 0.0 else Cosine(sqrt, query, h.row.vector)
    {
      assert h in multiset(answer);
      assert h in multiset(hits);
      var i :| 0 <= i < |hits| && hits[i] == h;
    }
  }

  /** A negative `k` leaves out so many at the end, as a slice does. */
  lemma NegativeLimit(hits: seq<Hit>, k: int, answer: seq<Hit>)
    requires k < 0 && IsAnswer(hits, k, answer)
    ensures |answer| == (if -k <= |hits| then |hits| + k else 0) && IsAnswer(hits, |answer|, answer)
  {
    var ordered: seq<Hit> :|
      multiset(ordered) == multiset(hits) && Descending(ordered) && answer == Prefix(ordered, k);
    assert |multiset(ordered)| == |ordered| && |multiset(hits)| == |hits|;
    assert answer == Prefix(ordered, |answer|);
  }

  lemma CutRanks(ordered: seq<Hit>, n: nat)
    requires Descending(ordered) && n <= |ordered|
    ensures Descending(ordered[..n]) && multiset(ordered[..n]) <= multiset(ordered)
    ensures forall out <- multiset(ordered) - multiset(ordered[..n]), a <- ordered[..n] :: Ranks(a, out)
  {
    var front, rest := ordered[..n], ordered[n..];
    assert ordered == front + rest;
    assert multiset(ordered) == multiset(front) + multiset(rest);
    forall out, a | out in multiset(ordered) - multiset(front) && a in front ensures Ranks(a, out) {
      assert out in multiset(rest) && out in rest;
      RankAcross(ordered, n, a, out);
    }
  }

  lemma RankAcross(ordered: seq<Hit>, n: nat, a: Hit, out: Hit)
    requires Descending(ordered) && n <= |ordered| && a in ordered[..n] && out in ordered[n..]
    ensures Ranks(a, out)
  {
    var i :| 0 <= i < n && ordered[i] == a;
    var j :| n <= j < |ordered| && ordered[j] == out;
  }

  // ----- upsert

  /** One row per id: an upsert replaces the row or adds one. */
  class MemoryStore {
    var rows: seq<Row>

    ghost predicate Valid()
      reads this
    {
      forall i, j :: 0 <= i < j < |rows| ==> rows[i].id != rows[j].id
    }

    constructor ()
      ensures Valid() && rows == []
    {
      rows := [];
    }

    /** The row of an id, if it is stored. */
    method Find(id: string) returns (i: nat)
      ensures i <= |rows|
      ensures forall j :: 0 <= j < i ==> rows[j].id != id
      ensures i < |rows| ==> rows[i].id == id
    {
      i := 0;
      while i < |rows| && rows[i].id != id
        invariant i <= |rows|
        invariant forall j :: 0 <= j < i ==> rows[j].id != id
      {
        i := i + 1;
      }
    }

    method Upsert(row: Row)
      requires Valid()
      modifies this
      ensures Valid()
      ensures row in rows
      ensures forall r: Row :: r.id != row.id ==> (r in rows <==> r in old(rows))
      ensures forall r <- rows :: r.id == row.id ==> r == row
    {
      var i := Find(row.id);
      ghost var was := rows;
      if i < |rows| {
        RemoveAt(rows, i);
        rows := rows[..i] + rows[i + 1..];
      }
      assert forall r: Row :: r.id != row.id ==> (r in rows <==> r in was);
      rows := rows + [row];
    }
  }

  lemma RemoveAt(rows: seq<Row>, i: nat)
    requires i < |rows|
    ensures forall r: Row :: r.id != rows[i].id ==> (r in rows <==> r in rows[..i] + rows[i + 1..])
  {
    assert rows == rows[..i] + [rows[i]] + rows[i + 1..];
  }
}
