/** The normal approximation's variance is the variance of U over all ways to assign the pooled values to the samples. */
module UVariance {
  import opened Collections
  import opened Orderings
  import opened Assignments
  import opened MannWhitney

  // Doubled mid-ranks --------------------------------------------------------

  function DoubledRank(v: real, pool: seq<Tagged>): nat {
    2 * Smaller(v, pool) + Equals(v, pool) + 1
  }

  function DoubledRanks(s: seq<Tagged>, pool: seq<Tagged>): (r: seq<int>)
    ensures |r| == |s|
  {
    seq(|s|, i requires 0 <= i < |s| => DoubledRank(s[i].value, pool))
  }

  lemma RunMidRank(s: seq<Tagged>, first: nat, last: nat)
    requires Ordered(s) && first <= last < |s|
    requires forall i :: first <= i <= last ==> s[i].value == s[first].value
    requires first > 0 ==> s[first - 1].value < s[first].value
    requires last + 1 < |s| ==> s[last].value < s[last + 1].value
    ensures DoubledRank(s[first].value, s) == first + last + 2
  {
    hide *;
    RankOfGroup(s, first, last);
    TwiceMidRank(s[first].value, s, first + last);
  }

  lemma TwiceMidRank(v: real, s: seq<Tagged>, ends: nat)
    requires MidRank(v, s) == ends as real / 2.0 + 1.0
    ensures DoubledRank(v, s) == ends + 2
  {
    hide Smaller, Equals;
    assert 2.0 * MidRank(v, s) == DoubledRank(v, s) as real;
  }

  lemma SameRanks(s: seq<Tagged>, first: nat, end: nat, rank: int)
    requires first < end <= |s| && DoubledRank(s[first].value, s) == rank
    requires forall i :: first <= i < end ==> s[i].value == s[first].value
    ensures DoubledRanks(s[..end], s) == DoubledRanks(s[..first], s) + Repeated(rank, end - first)
  {
    hide DoubledRank;
  }

  lemma SumLast(r: seq<int>, x: int)
    ensures SumAll(r + [x]) == SumAll(r) + x && SumSquares(r + [x]) == SumSquares(r) + Square(x)
  {
    assert (r + [x])[..|r|] == r;
  }

  lemma {:induction false} SumRepeated(r: seq<int>, x: int, t: nat)
    ensures SumAll(r + Repeated(x, t)) == SumAll(r) + t * x
    ensures SumSquares(r + Repeated(x, t)) == SumSquares(r) + t * Square(x)
  {
    hide Square, SumAll, SumSquares;
    if t == 0 {
      assert r + Repeated(x, t) == r;
    } else {
      SumRepeated(r, x, t - 1);
      SumLast(r + Repeated(x, t - 1), x);
      assert r + Repeated(x, t) == r + Repeated(x, t - 1) + [x];
      Distribute(t - 1, 1, x);
      Distribute(t - 1, 1, Square(x));
    }
  }

  lemma RunAdded(s: seq<Tagged>, first: nat, end: nat, rank: int)
    requires first < end <= |s| && DoubledRank(s[first].value, s) == rank
    requires forall i :: first <= i < end ==> s[i].value == s[first].value
    ensures SumAll(DoubledRanks(s[..end], s)) == SumAll(DoubledRanks(s[..first], s)) + (end - first) * rank
    ensures SumSquares(DoubledRanks(s[..end], s)) == SumSquares(DoubledRanks(s[..first], s)) + (end - first) * Square(rank)
  {
    hide *;
    SameRanks(s, first, end, rank);
    SumRepeated(DoubledRanks(s[..first], s), rank, end - first);
  }

  /** Each run of equal values takes the cube of its size, less the size, from three times the squares. */
  lemma {:induction false} RankSums(s: seq<Tagged>, n: nat, ties: seq<nat>)
    requires Ordered(s) && n <= |s| && Groups(s[..n], ties)
    requires 0 < n < |s| ==> s[n - 1].value < s[n].value
    ensures SumAll(DoubledRanks(s[..n], s)) == n * (n + 1)
    ensures 3 * SumSquares(DoubledRanks(s[..n], s)) == Pyramid(n) - TieSum(ties)
    decreases |ties|
  {
    hide Ordered, Groups, DoubledRank, DoubledRanks, Cube, Square, SumAll, SumSquares, Pyramid, TieSum;
    GroupsUnfold(s[..n], ties);
    if ties == [] {
      NoRanks(s);
    } else {
      var t := ties[|ties| - 1];
      var first := n - t;
      assert s[..n][..first] == s[..first];
      RankSums(s, first, ties[..|ties| - 1]);
      RunMidRank(s, first, n - 1);
      RunAdded(s, first, n, first + n + 1);
      RunSum(first, t);
      RunSquares(first, t);
      LastTie(ties);
    }
  }

  /** Three times the squares of the first `n` even numbers. */
  function Pyramid(n: int): int {
    2 * (n * (n + 1) * (2 * n + 1))
  }

  lemma NoRanks(s: seq<Tagged>)
    ensures DoubledRanks(s[..0], s) == [] && SumAll([]) == SumSquares([]) == Pyramid(0) == TieSum([]) == 0
  {
  }

  lemma LastTie(ties: seq<nat>)
    requires ties != []
    ensures var t := ties[|ties| - 1]; TieSum(ties) == TieSum(ties[..|ties| - 1]) + Cube(t) - t
  {
  }

  lemma RunSum(m: nat, t: nat)
    ensures m * (m + 1) + t * (m + (m + t) + 1) == (m + t) * (m + t + 1)
  {
  }

  lemma RunSquares(m: nat, t: nat)
    ensures Pyramid(m) + 3 * (t * Square(m + (m + t) + 1)) + Cube(t) - t == Pyramid(m + t)
  {
    hide Pyramid, Cube, Square;
    PyramidIs(m);
    PyramidIs(m + t);
    CubeExpands(m, t);
    SquareOfSum(m, t);
    RunTerm(m, t);
  }

  lemma PyramidIs(n: nat)
    ensures Pyramid(n) == 4 * Cube(n) + 6 * Square(n) + 2 * n
  {
    assert n * (n + 1) * (2 * n + 1) == 2 * (n * (n * n)) + 3 * (n * n) + n;
  }

  lemma CubeExpands(m: nat, t: nat)
    ensures Cube(m + t) == Cube(m) + 3 * (m * (m * t)) + 3 * (t * (m * t)) + Cube(t)
  {
    assert (m + t) * (m + t) == m * m + 2 * (m * t) + t * t;
  }

  lemma RunTerm(m: nat, t: nat)
    ensures t * Square(m + (m + t) + 1) == 4 * (m * (m * t)) + 4 * (t * (m * t)) + Cube(t) + 4 * (m * t) + 2 * Square(t) + t
  {
    assert Square(m + (m + t) + 1) == 4 * (m * m) + 4 * (m * t) + t * t + 4 * m + 2 * t + 1;
  }

  // The samples of an assignment -----------------------------------------------

  /** The values that the assignment gives to the first sample. */
  function Chosen(s: seq<Tagged>, w: Ordering): seq<real>
    requires |w| == |s|
  {
    if s == [] then []
    else if w[0] then [s[0].value] + Chosen(s[1..], w[1..])
    else Chosen(s[1..], w[1..])
  }

  /** The values that it gives to the second. */
  function Others(s: seq<Tagged>, w: Ordering): seq<real>
    requires |w| == |s|
  {
    if s == [] then []
    else if w[0] then Others(s[1..], w[1..])
    else [s[0].value] + Others(s[1..], w[1..])
  }

  /** The pool as it would be with these samples. */
  function Assigned(s: seq<Tagged>, w: Ordering): (r: seq<Tagged>)
    requires |w| == |s|
    ensures |r| == |s| && forall i :: 0 <= i < |s| ==> r[i] == Tagged(s[i].value, !w[i])
  {
    seq(|s|, i requires 0 <= i < |s| => Tagged(s[i].value, !w[i]))
  }

  lemma AssignedRest(s: seq<Tagged>, w: Ordering)
    requires |w| == |s| > 0
    ensures Assigned(s, w)[1..] == Assigned(s[1..], w[1..])
  {
  }

  lemma {:induction false} SameRank(v: real, s: seq<Tagged>, w: Ordering)
    requires |w| == |s|
    ensures Smaller(v, Assigned(s, w)) == Smaller(v, s) && Equals(v, Assigned(s, w)) == Equals(v, s)
  {
    if s != [] {
      AssignedRest(s, w);
      SameRank(v, s[1..], w[1..]);
    }
  }

  lemma {:induction false} ScoreOthers(v: real, s: seq<Tagged>, w: Ordering)
    requires |w| == |s|
    ensures Score(v, Assigned(s, w), true) == PointsOver(v, Others(s, w))
  {
    hide Points;
    if s != [] {
      AssignedRest(s, w);
      ScoreOthers(v, s[1..], w[1..]);
      if !w[0] {
        assert Others(s, w)[1..] == Others(s[1..], w[1..]);
      }
    }
  }

  lemma {:induction false} CrossChosen(s: seq<Tagged>, w: Ordering, r: seq<Tagged>, b: seq<real>)
    requires |w| == |s|
    requires forall v :: Score(v, r, true) == PointsOver(v, b)
    ensures Cross(Assigned(s, w), r, false, true) == TwiceU(Chosen(s, w), b)
  {
    hide Score, PointsOver;
    if s != [] {
      AssignedRest(s, w);
      CrossChosen(s[1..], w[1..], r, b);
      if w[0] {
        assert Chosen(s, w)[1..] == Chosen(s[1..], w[1..]);
      }
    }
  }

  lemma CrossIsU(s: seq<Tagged>, w: Ordering)
    requires |w| == |s|
    ensures Cross(Assigned(s, w), Assigned(s, w), false, true) == TwiceU(Chosen(s, w), Others(s, w))
  {
    hide Cross, Score, PointsOver, TwiceU, Assigned, Chosen, Others;
    forall v ensures Score(v, Assigned(s, w), true) == PointsOver(v, Others(s, w)) { ScoreOthers(v, s, w); }
    CrossChosen(s, w, Assigned(s, w), Others(s, w));
  }

  lemma {:induction false} CountAssigned(s: seq<Tagged>, w: Ordering)
    requires |w| == |s|
    ensures Count(Assigned(s, w), false) == Trues(w)
  {
    if s != [] {
      var n := |s| - 1;
      CountAssigned(s[..n], w[..n]);
      assert Assigned(s, w) == Assigned(s[..n], w[..n]) + [Tagged(s[n].value, !w[n])];
      CountConcat(Assigned(s[..n], w[..n]), [Tagged(s[n].value, !w[n])], false);
      OneMemberCount(Tagged(s[n].value, !w[n]));
    }
  }

  lemma {:induction false} PickedRanks(s: seq<Tagged>, w: Ordering, n: nat)
    requires |w| == |s| && n <= |s|
    ensures Picked(DoubledRanks(s[..n], s), w[..n]) == RankPoints(Assigned(s, w)[..n], Assigned(s, w))
  {
    var pool := Assigned(s, w);
    if n == 0 {
      RankSumStarts(pool);
    } else {
      PickedRanks(s, w, n - 1);
      PickedLast(s, w, n - 1);
      hide RankPoints, Smaller, Equals, Picked;
      RankSumStep(pool, n - 1);
      SameRank(s[n - 1].value, s, w);
    }
  }

  lemma PickedLast(s: seq<Tagged>, w: Ordering, n: nat)
    requires |w| == |s| && n < |s|
    ensures Picked(DoubledRanks(s[..n + 1], s), w[..n + 1]) ==
      Picked(DoubledRanks(s[..n], s), w[..n]) + if w[n] then DoubledRank(s[n].value, s) else 0
  {
    hide DoubledRank;
    assert DoubledRanks(s[..n + 1], s)[..n] == DoubledRanks(s[..n], s);
    assert w[..n + 1][..n] == w[..n];
  }

  /** The picked doubled ranks, less their least sum, are twice U for the samples of the assignment. */
  lemma RanksGiveU(s: seq<Tagged>, w: Ordering)
    requires |w| == |s|
    ensures Picked(DoubledRanks(s, s), w) == TwiceU(Chosen(s, w), Others(s, w)) + Trues(w) * (Trues(w) + 1)
  {
    hide Picked, DoubledRanks, Cross, Count, TwiceU, Chosen, Others, Trues;
    var pool := Assigned(s, w);
    PickedRanks(s, w, |s|);
    assert s[..|s|] == s && w[..|w|] == w && pool[..|pool|] == pool;
    CrossIsU(s, w);
    CountAssigned(s, w);
    SharedPoints(pool, pool, false, false);
    assert Trues(w) * (Trues(w) + 1) == Trues(w) * Trues(w) + Trues(w);
  }

  /** The samples' own assignment is one of those counted, and has their U. */
  lemma OwnAssignment(a: seq<real>, b: seq<real>)
    ensures var s := Pool(a, b); var w := Sides(s);
      w in Words(|a|, |b|) && TwiceU(Chosen(s, w), Others(s, w)) == TwiceU(a, b)
  {
    hide Cross, TwiceU, Words, Sort;
    var s := Pool(a, b);
    var w := Sides(s);
    SidesAt(s);
    assert Assigned(s, w) == s;
    CrossIsU(s, w);
    PoolCross(a, b);
    PoolCount(a, b);
    CountAssigned(s, w);
    WordsAre(|a|, |b|, w);
  }

  lemma {:induction false} SidesAt(s: seq<Tagged>)
    ensures forall i :: 0 <= i < |s| ==> Sides(s)[i] == !s[i].second
  {
    if s != [] {
      SidesAt(s[..|s| - 1]);
    }
  }

  // The variance -----------------------------------------------------------------

  /** Twice how far an assignment's U is from half of the pairs. */
  function Deviation(s: seq<Tagged>, pairs: int): Ordering -> int {
    w => if |w| == |s| then TwiceU(Chosen(s, w), Others(s, w)) - pairs else 0
  }

  function SquaredDeviation(s: seq<Tagged>, pairs: int): Ordering -> int {
    w => Square(Deviation(s, pairs)(w))
  }

  lemma DeviationIs(s: seq<Tagged>, n1: nat, n2: nat, w: Ordering)
    requires |s| == n1 + n2 && w in Words(n1, n2)
    ensures |w| == |s| && Deviation(s, n1 * n2)(w) == Picked(DoubledRanks(s, s), w) - n1 * (|s| + 1)
  {
    hide Words, Picked, DoubledRanks, TwiceU, Chosen, Others;
    WordsAre(n1, n2, w);
    RanksGiveU(s, w);
    assert n1 * (n1 + n2 + 1) == n1 * n2 + n1 * (n1 + 1);
  }

  lemma PoolRanks(s: seq<Tagged>, ties: seq<nat>)
    requires Ordered(s) && Groups(s, ties)
    ensures SumAll(DoubledRanks(s, s)) == |s| * (|s| + 1)
    ensures 3 * SumSquares(DoubledRanks(s, s)) == Pyramid(|s|) - TieSum(ties)
  {
    hide Ordered, Groups, DoubledRanks, SumAll, SumSquares, TieSum;
    assert s[..|s|] == s;
    RankSums(s, |s|, ties);
  }

  lemma MeanOver(s: seq<Tagged>, n1: nat, n2: nat, ties: seq<nat>)
    requires Ordered(s) && Groups(s, ties) && |s| == n1 + n2 > 0
    ensures SumOver(Words(n1, n2), Deviation(s, n1 * n2)) == 0
  {
    hide Ordered, Groups, DoubledRanks, SumAll, SumSquares, TieSum, SumOver, Words, Picked, Deviation;
    var r, c := DoubledRanks(s, s), n1 * (|s| + 1);
    PoolRanks(s, ties);
    forall w | w in Words(n1, n2) ensures Deviation(s, n1 * n2)(w) == From(r, c)(w) {
      DeviationIs(s, n1, n2, w);
    }
    SumSame(Words(n1, n2), Deviation(s, n1 * n2), From(r, c));
    CentredAt(n1, n2, r);
  }

  /** Over all assignments of the pooled values, U is half of the pairs on average. */
  lemma MeanOfU(a: seq<real>, b: seq<real>, ties: seq<nat>)
    requires Groups(Pool(a, b), ties) && a + b != []
    ensures SumOver(Words(|a|, |b|), Deviation(Pool(a, b), |a| * |b|)) == 0
  {
    hide *;
    PoolCount(a, b);
    PoolOrdered(a, b);
    MeanOver(Pool(a, b), |a|, |b|, ties);
  }

  lemma SquaresOver(s: seq<Tagged>, n1: nat, n2: nat, ties: seq<nat>)
    requires Ordered(s) && Groups(s, ties) && |s| == n1 + n2 > 1
    ensures 3 * (|s| * (|s| - 1) * SumOver(Words(n1, n2), SquaredDeviation(s, n1 * n2))) ==
      Choose(|s|, n1) * (n1 * (n2 * (Cube(|s|) - |s| - TieSum(ties))))
  {
    hide Ordered, Groups, DoubledRanks, SumAll, SumSquares, TieSum, Choose, Expansion, Cube, Square;
    var r, c := DoubledRanks(s, s), n1 * (|s| + 1);
    PoolRanks(s, ties);
    SquaresMatch(s, n1, n2, r, c);
    SpreadIs(n1, n2, r, c);
    SpreadScaled(|s|, n1, SumSquares(r));
    AroundMiddle(|s|, SumSquares(r), TieSum(ties));
    ThreeTimes(|s| * (|s| - 1) * Squares(n1, n2, r, c), Choose(|s|, n1), n1, n2, SumSquares(r) - |s| * Square(|s| + 1));
  }

  lemma SquaresMatch(s: seq<Tagged>, n1: nat, n2: nat, r: seq<int>, c: int)
    requires |s| == n1 + n2 && r == DoubledRanks(s, s) && c == n1 * (|s| + 1)
    ensures SumOver(Words(n1, n2), SquaredDeviation(s, n1 * n2)) == Squares(n1, n2, r, c)
  {
    hide DoubledRanks, SumOver, Words, Picked, Deviation;
    forall w | w in Words(n1, n2) ensures SquaredDeviation(s, n1 * n2)(w) == SquareFrom(r, c)(w) {
      DeviationIs(s, n1, n2, w);
    }
    SumSame(Words(n1, n2), SquaredDeviation(s, n1 * n2), SquareFrom(r, c));
  }

  lemma AroundMiddle(n: nat, squares: int, tieSum: int)
    requires 3 * squares == Pyramid(n) - tieSum
    ensures 3 * (squares - n * Square(n + 1)) == Cube(n) - n - tieSum
  {
    hide Pyramid;
    PyramidIs(n);
    assert n * Square(n + 1) == Cube(n) + 2 * Square(n) + n;
  }

  lemma ThreeTimes(scaled: int, ways: int, n1: int, n2: int, x: int)
    requires scaled == ways * (n1 * (n2 * x))
    ensures 3 * scaled == ways * (n1 * (n2 * (3 * x)))
  {
  }

  /** For tied and untied samples, it is the mean squared deviation of U over all assignments of the pooled values. */
  lemma VarianceOfU(a: seq<real>, b: seq<real>, ties: seq<nat>)
    requires Groups(Pool(a, b), ties) && |a| + |b| > 1
    ensures SumOver(Words(|a|, |b|), SquaredDeviation(Pool(a, b), |a| * |b|)) as real ==
      4.0 * Variance(|a|, |b|, ties) * Comb(|a| + |b|, |a|) as real
  {
    hide *;
    PoolCount(a, b);
    PoolOrdered(a, b);
    VarianceOver(Pool(a, b), |a|, |b|, ties);
  }

  lemma PoolOrdered(a: seq<real>, b: seq<real>)
    ensures Ordered(Pool(a, b))
  {
  }

  lemma VarianceOver(s: seq<Tagged>, n1: nat, n2: nat, ties: seq<nat>)
    requires Ordered(s) && Groups(s, ties) && |s| == n1 + n2 > 1
    ensures SumOver(Words(n1, n2), SquaredDeviation(s, n1 * n2)) as real ==
      4.0 * Variance(n1, n2, ties) * Comb(n1 + n2, n1) as real
  {
    hide *;
    SquaresOver(s, n1, n2, ties);
    ChooseIsComb(n1 + n2, n1);
    ScaledVariance(n1, n2, ties, SumOver(Words(n1, n2), SquaredDeviation(s, n1 * n2)), Comb(n1 + n2, n1));
  }

  lemma ScaledVariance(n1: nat, n2: nat, ties: seq<nat>, total: int, ways: nat)
    requires n1 + n2 > 1
    requires var n := n1 + n2; 3 * (n * (n - 1) * total) == ways * (n1 * (n2 * (Cube(n) - n - TieSum(ties))))
    ensures total as real == 4.0 * Variance(n1, n2, ties) * ways as real
  {
    hide Cube, TieSum;
    var n := n1 + n2;
    Product(n);
    OverScale(total, ways, n1, n2, n + 1, TieSum(ties), n * (n - 1));
  }

  lemma OverScale(total: int, ways: nat, n1: nat, n2: nat, m: nat, tieSum: int, d: nat)
    requires d > 0 && 3 * (d * total) == ways * (n1 * (n2 * (m * d - tieSum)))
    ensures total as real == 4.0 * ((n1 * n2) as real / 12.0 * (m as real - tieSum as real / d as real)) * ways as real
  {
    var x := m * d - tieSum;
    assert m as real - tieSum as real / d as real == x as real / d as real;
    assert ways * (n1 * (n2 * x)) == (n1 * n2) * ways * x;
    InReals(total as real, (n1 * n2) as real, ways as real, x as real, d as real);
  }

  lemma InReals(total: real, pairs: real, ways: real, x: real, d: real)
    requires d > 0.0 && 3.0 * (d * total) == pairs * ways * x
    ensures total == 4.0 * (pairs / 12.0 * (x / d)) * ways
  {
    assert total == pairs * ways * x / (3.0 * d);
  }
}
