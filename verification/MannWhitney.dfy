/** The two-sided Mann-Whitney U test, with real numbers in place of floating point. */
module MannWhitney {
  import opened Collections
  import opened Orderings

  /** A pooled measurement: its value, and whether it is of the second sample. */
  datatype Tagged = Tagged(value: real, second: bool)

  // The sorted pool ----------------------------------------------------------

  predicate Below(x: Tagged, y: Tagged) {
    x.value < y.value || (x.value == y.value && (y.second || !x.second))
  }

  predicate Ordered(s: seq<Tagged>) {
    |s| > 1 ==> Below(s[0], s[1]) && Ordered(s[1..])
  }

  function Tag(values: seq<real>, second: bool): (s: seq<Tagged>)
    ensures |s| == |values|
  {
    if values == [] then [] else [Tagged(values[0], second)] + Tag(values[1..], second)
  }

  function Insert(x: Tagged, s: seq<Tagged>): (r: seq<Tagged>)
    requires Ordered(s)
    ensures |r| == |s| + 1 && (r[0] == x || (s != [] && r[0] == s[0])) && Ordered(r)
  {
    if s == [] || Below(x, s[0]) then [x] + s else [s[0]] + Insert(x, s[1..])
  }

  lemma InsertUnfold(x: Tagged, s: seq<Tagged>)
    requires Ordered(s)
    ensures s == [] || Below(x, s[0]) ==> Insert(x, s)[0] == x && Insert(x, s)[1..] == s
    ensures s != [] && !Below(x, s[0]) ==> Insert(x, s)[0] == s[0] && Insert(x, s)[1..] == Insert(x, s[1..])
  {
  }

  lemma {:induction false} InsertKeeps(x: Tagged, s: seq<Tagged>)
    requires Ordered(s)
    ensures multiset(Insert(x, s)) == multiset(s) + multiset{x}
  {
    hide Insert;
    InsertUnfold(x, s);
    if s != [] && !Below(x, s[0]) {
      InsertKeeps(x, s[1..]);
      assert s == [s[0]] + s[1..];
      assert Insert(x, s) == [s[0]] + Insert(x, s[1..]);
    } else {
      assert Insert(x, s) == [x] + s;
    }
  }

  function Sort(s: seq<Tagged>): (r: seq<Tagged>)
    ensures Ordered(r) && multiset(r) == multiset(s)
  {
    if s == [] then []
    else
      assert s == [s[0]] + s[1..];
      InsertKeeps(s[0], Sort(s[1..]));
      Insert(s[0], Sort(s[1..]))
  }

  function Pool(a: seq<real>, b: seq<real>): seq<Tagged> {
    Sort(Tag(a, false) + Tag(b, true))
  }

  // Pairs --------------------------------------------------------------------

  /** Two points for a pair won, one for a tie. */
  function Points(x: real, y: real): nat {
    if y < x then 2 else if y == x then 1 else 0
  }

  function PointsOver(x: real, b: seq<real>): nat {
    if b == [] then 0 else Points(x, b[0]) + PointsOver(x, b[1..])
  }

  /** Twice the pairs whose value in `a` is the larger, plus the tied pairs. */
  function TwiceU(a: seq<real>, b: seq<real>): nat {
    if a == [] then 0 else PointsOver(a[0], b) + TwiceU(a[1..], b)
  }

  function Count(s: seq<Tagged>, second: bool): nat {
    if s == [] then 0 else Count(s[1..], second) + if s[0].second == second then 1 else 0
  }

  /** The points of a value against the members of one sample. */
  function Score(v: real, s: seq<Tagged>, second: bool): nat {
    if s == [] then 0 else Score(v, s[1..], second) + if s[0].second == second then Points(v, s[0].value) else 0
  }

  /** The points of one sample's members in `s` against the other's in `r`. */
  function Cross(s: seq<Tagged>, r: seq<Tagged>, j: bool, k: bool): nat {
    if s == [] then 0 else Cross(s[1..], r, j, k) + if s[0].second == j then Score(s[0].value, r, k) else 0
  }

  lemma {:induction false} ScoreInsert(v: real, x: Tagged, s: seq<Tagged>, k: bool)
    requires Ordered(s)
    ensures Score(v, Insert(x, s), k) == Score(v, s, k) + if x.second == k then Points(v, x.value) else 0
  {
    hide Insert, Points;
    InsertUnfold(x, s);
    if s != [] && !Below(x, s[0]) {
      ScoreInsert(v, x, s[1..], k);
    }
  }

  lemma {:induction false} ScoreSort(v: real, s: seq<Tagged>, k: bool)
    ensures Score(v, Sort(s), k) == Score(v, s, k)
  {
    if s != [] {
      ScoreSort(v, s[1..], k);
      ScoreInsert(v, s[0], Sort(s[1..]), k);
    }
  }

  lemma {:induction false} CrossInsert(x: Tagged, s: seq<Tagged>, r: seq<Tagged>, j: bool, k: bool)
    requires Ordered(s)
    ensures Cross(Insert(x, s), r, j, k) == Cross(s, r, j, k) + if x.second == j then Score(x.value, r, k) else 0
  {
    hide Insert, Points, Score;
    InsertUnfold(x, s);
    if s != [] && !Below(x, s[0]) {
      CrossInsert(x, s[1..], r, j, k);
    }
  }

  lemma {:induction false} CrossSort(s: seq<Tagged>, r: seq<Tagged>, j: bool, k: bool)
    ensures Cross(Sort(s), Sort(r), j, k) == Cross(s, r, j, k)
  {
    if s != [] {
      CrossSort(s[1..], r, j, k);
      CrossInsert(s[0], Sort(s[1..]), Sort(r), j, k);
      ScoreSort(s[0].value, r, k);
    }
  }

  lemma {:induction false} ScoreConcat(v: real, s: seq<Tagged>, r: seq<Tagged>, k: bool)
    ensures Score(v, s + r, k) == Score(v, s, k) + Score(v, r, k)
  {
    if s == [] {
      assert s + r == r;
    } else {
      assert (s + r)[1..] == s[1..] + r;
      ScoreConcat(v, s[1..], r, k);
    }
  }

  lemma {:induction false} CrossConcat(s: seq<Tagged>, t: seq<Tagged>, r: seq<Tagged>, j: bool, k: bool)
    ensures Cross(s + t, r, j, k) == Cross(s, r, j, k) + Cross(t, r, j, k)
  {
    if s == [] {
      assert s + t == t;
    } else {
      assert (s + t)[1..] == s[1..] + t;
      CrossConcat(s[1..], t, r, j, k);
    }
  }

  lemma {:induction false} CrossRight(s: seq<Tagged>, r: seq<Tagged>, t: seq<Tagged>, j: bool, k: bool)
    ensures Cross(s, r + t, j, k) == Cross(s, r, j, k) + Cross(s, t, j, k)
  {
    if s != [] {
      CrossRight(s[1..], r, t, j, k);
      ScoreConcat(s[0].value, r, t, k);
    }
  }

  lemma {:induction false} CountConcat(s: seq<Tagged>, r: seq<Tagged>, k: bool)
    ensures Count(s + r, k) == Count(s, k) + Count(r, k)
  {
    if s == [] {
      assert s + r == r;
    } else {
      assert (s + r)[1..] == s[1..] + r;
      CountConcat(s[1..], r, k);
    }
  }

  lemma {:induction false} CountInsert(x: Tagged, s: seq<Tagged>, k: bool)
    requires Ordered(s)
    ensures Count(Insert(x, s), k) == Count(s, k) + if x.second == k then 1 else 0
  {
    hide Insert, Points;
    InsertUnfold(x, s);
    if s != [] && !Below(x, s[0]) {
      CountInsert(x, s[1..], k);
    }
  }

  lemma {:induction false} CountSort(s: seq<Tagged>, k: bool)
    ensures Count(Sort(s), k) == Count(s, k)
  {
    if s != [] {
      CountSort(s[1..], k);
      CountInsert(s[0], Sort(s[1..]), k);
    }
  }

  lemma {:induction false} TagFacts(values: seq<real>, second: bool, k: bool)
    ensures Count(Tag(values, second), k) == if second == k then |values| else 0
  {
    if values != [] {
      TagFacts(values[1..], second, k);
    }
  }

  lemma {:induction false} ScoreTag(v: real, values: seq<real>, second: bool, k: bool)
    ensures Score(v, Tag(values, second), k) == if second == k then PointsOver(v, values) else 0
  {
    if values != [] {
      ScoreTag(v, values[1..], second, k);
    }
  }

  lemma {:induction false} CrossTag(a: seq<real>, second: bool, r: seq<Tagged>, j: bool, k: bool)
    requires second != j
    ensures Cross(Tag(a, second), r, j, k) == 0
  {
    if a != [] {
      CrossTag(a[1..], second, r, j, k);
    }
  }

  lemma {:induction false} CrossSamples(a: seq<real>, j: bool, b: seq<real>, r: seq<Tagged>, k: bool)
    requires forall v :: Score(v, r, k) == PointsOver(v, b)
    ensures Cross(Tag(a, j), r, j, k) == TwiceU(a, b)
  {
    if a != [] {
      CrossSamples(a[1..], j, b, r, k);
    }
  }

  /** The points one sample scores in the pool are its points in the unsorted samples. */
  lemma PoolCross(a: seq<real>, b: seq<real>)
    ensures Cross(Pool(a, b), Pool(a, b), false, true) == TwiceU(a, b)
    ensures Cross(Pool(a, b), Pool(a, b), true, false) == TwiceU(b, a)
  {
    hide Sort, Cross, Tag;
    var s, t := Tag(a, false), Tag(b, true);
    CrossSort(s + t, s + t, false, true);
    CrossSort(s + t, s + t, true, false);
    CrossConcat(s, t, s + t, false, true);
    CrossConcat(s, t, s + t, true, false);
    CrossTag(b, true, s + t, false, true);
    CrossTag(a, false, s + t, true, false);
    forall v ensures Score(v, s + t, true) == PointsOver(v, b) && Score(v, s + t, false) == PointsOver(v, a) {
      ScoreConcat(v, s, t, true);
      ScoreConcat(v, s, t, false);
      ScoreTag(v, a, false, true);
      ScoreTag(v, a, false, false);
      ScoreTag(v, b, true, true);
      ScoreTag(v, b, true, false);
    }
    CrossSamples(a, false, b, s + t, true);
    CrossSamples(b, true, a, s + t, false);
  }

  lemma PoolCount(a: seq<real>, b: seq<real>)
    ensures Count(Pool(a, b), false) == |a| && Count(Pool(a, b), true) == |b| && |Pool(a, b)| == |a| + |b|
  {
    var s, t := Tag(a, false), Tag(b, true);
    forall k ensures Count(Pool(a, b), k) == Count(s, k) + Count(t, k) {
      CountSort(s + t, k);
      CountConcat(s, t, k);
      TagFacts(a, false, k);
      TagFacts(b, true, k);
    }
    TagFacts(a, false, false);
    TagFacts(a, false, true);
    TagFacts(b, true, false);
    TagFacts(b, true, true);
    SameLength(Pool(a, b), s + t);
  }

  lemma SameLength(s: seq<Tagged>, t: seq<Tagged>)
    requires multiset(s) == multiset(t)
    ensures |s| == |t|
  {
    assert |multiset(s)| == |s| && |multiset(t)| == |t|;
  }

  /** Every pair shares out two points between its sides. */
  lemma {:induction false} SharedPoints(s: seq<Tagged>, r: seq<Tagged>, j: bool, k: bool)
    ensures Cross(s, r, j, k) + Cross(r, s, k, j) == 2 * (Count(s, j) * Count(r, k))
  {
    if s == [] {
      NoPoints(r, k, j);
    } else {
      SharedPoints(s[1..], r, j, k);
      hide Score;
      assert s == [s[0]] + s[1..];
      CrossRight(r, [s[0]], s[1..], k, j);
      OneMember(s[0], r, j, k);
      OneMore(Count(s[1..], j), Count(r, k));
    }
  }

  lemma OneMore(m: nat, n: nat)
    ensures (m + 1) * n == m * n + n
  {
  }

  lemma {:induction false} NoPoints(r: seq<Tagged>, k: bool, j: bool)
    ensures Cross(r, [], k, j) == 0
  {
    if r != [] {
      NoPoints(r[1..], k, j);
    }
  }

  lemma {:induction false} OneMember(x: Tagged, r: seq<Tagged>, j: bool, k: bool)
    ensures (if x.second == j then Score(x.value, r, k) else 0) + Cross(r, [x], k, j) ==
      if x.second == j then 2 * Count(r, k) else 0
  {
    if r != [] {
      OneMember(x, r[1..], j, k);
      assert [x][1..] == [];
      assert Score(r[0].value, [x], j) == if x.second == j then Points(r[0].value, x.value) else 0;
    }
  }

  /** U lies between nothing and every pair, and the two samples' U add up to every pair. */
  lemma UShared(a: seq<real>, b: seq<real>)
    ensures TwiceU(a, b) + TwiceU(b, a) == 2 * (|a| * |b|)
    ensures TwiceU(a, b) <= 2 * (|a| * |b|)
  {
    PoolCross(a, b);
    PoolCount(a, b);
    SharedPoints(Pool(a, b), Pool(a, b), false, true);
  }

  // Mid-ranks ----------------------------------------------------------------

  function Smaller(v: real, s: seq<Tagged>): nat {
    if s == [] then 0 else Smaller(v, s[1..]) + if s[0].value < v then 1 else 0
  }

  function Equals(v: real, s: seq<Tagged>): nat {
    if s == [] then 0 else Equals(v, s[1..]) + if s[0].value == v then 1 else 0
  }

  /** The mean of the ranks that the values equal to `v` take up. */
  function MidRank(v: real, s: seq<Tagged>): real {
    Smaller(v, s) as real + (Equals(v, s) + 1) as real / 2.0
  }

  lemma {:induction false} ScoreIsRank(v: real, s: seq<Tagged>)
    ensures Score(v, s, false) + Score(v, s, true) == 2 * Smaller(v, s) + Equals(v, s)
  {
    if s != [] {
      ScoreIsRank(v, s[1..]);
    }
  }

  lemma {:induction false} RankConcat(v: real, s: seq<Tagged>, r: seq<Tagged>)
    ensures Smaller(v, s + r) == Smaller(v, s) + Smaller(v, r)
    ensures Equals(v, s + r) == Equals(v, s) + Equals(v, r)
  {
    if s == [] {
      assert s + r == r;
    } else {
      assert (s + r)[1..] == s[1..] + r;
      RankConcat(v, s[1..], r);
    }
  }

  lemma {:induction false} RankOfSegment(v: real, s: seq<Tagged>)
    ensures (forall i :: 0 <= i < |s| ==> s[i].value < v) ==> Smaller(v, s) == |s| && Equals(v, s) == 0
    ensures (forall i :: 0 <= i < |s| ==> s[i].value == v) ==> Smaller(v, s) == 0 && Equals(v, s) == |s|
    ensures (forall i :: 0 <= i < |s| ==> s[i].value > v) ==> Smaller(v, s) == 0 && Equals(v, s) == 0
  {
    if s != [] {
      RankOfSegment(v, s[1..]);
    }
  }

  lemma {:induction false} OrderedAt(s: seq<Tagged>, i: nat, j: nat)
    requires Ordered(s) && i <= j < |s|
    ensures s[i].value <= s[j].value
    decreases j
  {
    if i > 0 {
      OrderedAt(s[1..], i - 1, j - 1);
    } else if j > 0 {
      OrderedAt(s[1..], 0, j - 1);
    }
  }

  lemma RankOfSplit(v: real, x: seq<Tagged>, y: seq<Tagged>, z: seq<Tagged>)
    requires forall i :: 0 <= i < |x| ==> x[i].value < v
    requires forall i :: 0 <= i < |y| ==> y[i].value == v
    requires forall i :: 0 <= i < |z| ==> z[i].value > v
    ensures Smaller(v, x + y + z) == |x| && Equals(v, x + y + z) == |y|
  {
    hide Smaller, Equals;
    RankOfSegment(v, x);
    RankOfSegment(v, y);
    RankOfSegment(v, z);
    RankConcat(v, x, y);
    RankConcat(v, x + y, z);
  }

  lemma Split3<T>(s: seq<T>, i: nat, j: nat)
    requires i <= j <= |s|
    ensures s == s[..i] + s[i..j] + s[j..]
  {
  }

  /** A maximal run of equal values is where that value's mid-rank is. */
  lemma RankOfGroup(s: seq<Tagged>, first: nat, last: nat)
    requires Ordered(s) && first <= last < |s|
    requires forall i :: first <= i <= last ==> s[i].value == s[first].value
    requires first > 0 ==> s[first - 1].value < s[first].value
    requires last + 1 < |s| ==> s[last].value < s[last + 1].value
    ensures MidRank(s[first].value, s) == (first + last) as real / 2.0 + 1.0
  {
    hide Ordered, Smaller, Equals;
    var v := s[first].value;
    forall i | 0 <= i < first ensures s[i].value < v { OrderedAt(s, i, first - 1); }
    forall i | last < i < |s| ensures s[i].value > v { OrderedAt(s, last + 1, i); }
    RankOfSplit(v, s[..first], s[first..last + 1], s[last + 1..]);
    Split3(s, first, last + 1);
  }

  /** The tie sizes cut the sorted pool into its maximal runs of equal values. */
  ghost predicate Groups(s: seq<Tagged>, ties: seq<nat>) {
    if ties == [] then s == []
    else
      var t := ties[|ties| - 1];
      && 0 < t <= |s|
      && (forall i :: |s| - t <= i < |s| ==> s[i].value == s[|s| - t].value)
      && (t < |s| ==> s[|s| - t - 1].value < s[|s| - t].value)
      && Groups(s[..|s| - t], ties[..|ties| - 1])
  }

  lemma GroupsUnfold(s: seq<Tagged>, ties: seq<nat>)
    requires Groups(s, ties)
    ensures ties == [] ==> s == []
    ensures ties != [] ==>
      var t := ties[|ties| - 1];
      && 0 < t <= |s|
      && (forall i :: |s| - t <= i < |s| ==> s[i].value == s[|s| - t].value)
      && (t < |s| ==> s[|s| - t - 1].value < s[|s| - t].value)
      && Groups(s[..|s| - t], ties[..|ties| - 1])
  {
  }

  lemma GroupAdded(s: seq<Tagged>, first: nat, end: nat, ties: seq<nat>)
    requires first < end <= |s| && Groups(s[..first], ties)
    requires forall i :: first <= i < end ==> s[i].value == s[first].value
    requires first > 0 ==> s[first - 1].value < s[first].value
    ensures Groups(s[..end], ties + [end - first])
  {
    var more := ties + [end - first];
    assert more[..|more| - 1] == ties;
    assert s[..end][..|s[..end]| - (end - first)] == s[..first];
  }

  /** The mid-rank loop over the sorted pool. */
  method MidRanks(pooled: seq<Tagged>) returns (ranks: array<real>, ties: seq<nat>)
    requires Ordered(pooled)
    ensures ranks.Length == |pooled|
    ensures forall i :: 0 <= i < |pooled| ==> ranks[i] == MidRank(pooled[i].value, pooled)
    ensures Groups(pooled, ties)
  {
    hide MidRank, Ordered, Groups;
    ranks := new real[|pooled|](_ => 0.0);
    ties := [];
    var index := 0;
    NoGroups(pooled);
    while index < |pooled|
      invariant index <= |pooled| && Groups(pooled[..index], ties)
      invariant 0 < index < |pooled| ==> pooled[index - 1].value < pooled[index].value
      invariant forall i :: 0 <= i < index ==> ranks[i] == MidRank(pooled[i].value, pooled)
    {
      var end := index;
      while end + 1 < |pooled| && pooled[end + 1].value == pooled[index].value
        invariant index <= end < |pooled|
        invariant forall i :: index <= i <= end ==> pooled[i].value == pooled[index].value
      {
        end := end + 1;
      }
      if end + 1 < |pooled| {
        OrderedAt(pooled, end, end + 1);
      }
      RankOfGroup(pooled, index, end);
      for position := index to end + 1
        invariant forall i :: 0 <= i < position ==> ranks[i] == MidRank(pooled[i].value, pooled)
      {
        ranks[position] := (index + end) as real / 2.0 + 1.0;
      }
      GroupAdded(pooled, index, end + 1, ties);
      ties := ties + [end - index + 1];
      index := end + 1;
    }
    assert pooled[..index] == pooled;
  }

  lemma NoGroups(s: seq<Tagged>)
    ensures Groups(s[..0], [])
  {
  }

  // Ties and the variance ----------------------------------------------------

  function Total(ties: seq<nat>): nat {
    if ties == [] then 0 else Total(ties[..|ties| - 1]) + ties[|ties| - 1]
  }

  function Cube(n: nat): nat {
    n * n * n
  }

  function TieSum(ties: seq<nat>): int {
    if ties == [] then 0
    else TieSum(ties[..|ties| - 1]) + Cube(ties[|ties| - 1]) - ties[|ties| - 1]
  }

  /** The tie-group sizes partition the pool. */
  lemma {:induction false} GroupsTotal(s: seq<Tagged>, ties: seq<nat>)
    requires Groups(s, ties)
    ensures Total(ties) == |s| && forall g :: 0 <= g < |ties| ==> ties[g] > 0
  {
    if ties != [] {
      var t := ties[|ties| - 1];
      GroupsTotal(s[..|s| - t], ties[..|ties| - 1]);
    }
  }

  lemma CubeOfSum(x: nat, y: nat)
    ensures Cube(x + y) >= Cube(x) + Cube(y)
    ensures x > 0 && y > 0 ==> Cube(x + y) > Cube(x) + Cube(y)
  {
    var m := x * y;
    assert (x + y) * (x + y) == x * x + 2 * m + y * y;
    assert (x * x + 2 * m + y * y) * (x + y) == Cube(x) + Cube(y) + 3 * (m * (x + y)) by {
      assert x * x * y == m * x && y * y * x == m * y;
    }
    if x > 0 && y > 0 {
      assert m >= 1;
      assert m * (x + y) >= 1 * (x + y);
    }
  }

  lemma {:induction false} TieSumBound(ties: seq<nat>)
    requires forall g :: 0 <= g < |ties| ==> ties[g] > 0
    ensures TieSum(ties) <= Cube(Total(ties)) - Total(ties)
    ensures TieSum(ties) == Cube(Total(ties)) - Total(ties) <==> |ties| <= 1
  {
    hide Cube;
    if ties == [] {
      assert Cube(0) == 0 by { CubeAt(0); }
    } else {
      var front, t := ties[..|ties| - 1], ties[|ties| - 1];
      TieSumBound(front);
      CubeOfSum(Total(front), t);
      if front != [] {
        assert Total(front) >= front[|front| - 1] > 0;
      } else {
        CubeAt(0);
      }
    }
  }

  lemma CubeAt(n: nat)
    ensures Cube(n) == n * n * n
  {
  }

  /** The tie correction, before it is scaled by the number of pairs. */
  function Spread(size: nat, tieSum: int): real
    requires size > 1
  {
    Product(size);
    var tieTerm := tieSum as real / (size * (size - 1)) as real;
    (size + 1) as real - tieTerm
  }

  function Variance(n1: nat, n2: nat, ties: seq<nat>): real
    requires n1 + n2 > 1
  {
    (n1 * n2) as real / 12.0 * Spread(n1 + n2, TieSum(ties))
  }

  lemma Product(size: nat)
    requires size > 1
    ensures size * (size - 1) > 0
    ensures (size + 1) * (size * (size - 1)) == Cube(size) - size
  {
  }

  lemma Remainder(x: nat, t: int, d: nat)
    requires d > 0 && t <= x * d
    ensures x as real - t as real / d as real >= 0.0
    ensures x as real - t as real / d as real == 0.0 <==> t == x * d
  {
  }

  lemma SpreadSign(size: nat, tieSum: int)
    requires size > 1 && tieSum <= Cube(size) - size
    ensures Spread(size, tieSum) >= 0.0
    ensures Spread(size, tieSum) == 0.0 <==> tieSum == Cube(size) - size
  {
    hide Cube;
    Product(size);
    Remainder(size + 1, tieSum, size * (size - 1));
  }

  /** The tie-corrected variance is never negative, and nothing only without pairs or without two values. */
  lemma VarianceSign(n1: nat, n2: nat, ties: seq<nat>)
    requires n1 + n2 > 1 && Total(ties) == n1 + n2
    requires forall g :: 0 <= g < |ties| ==> ties[g] > 0
    ensures Variance(n1, n2, ties) >= 0.0
    ensures Variance(n1, n2, ties) == 0.0 <==> n1 == 0 || n2 == 0 || |ties| == 1
  {
    hide Cube, TieSum, Spread;
    TieSumBound(ties);
    SpreadSign(n1 + n2, TieSum(ties));
    SignOfProduct(n1, n2, Spread(n1 + n2, TieSum(ties)));
  }

  lemma SignOfProduct(n1: nat, n2: nat, x: real)
    requires x >= 0.0
    ensures (n1 * n2) as real / 12.0 * x >= 0.0
    ensures (n1 * n2) as real / 12.0 * x == 0.0 <==> n1 == 0 || n2 == 0 || x == 0.0
  {
  }

  // What the tie sizes say of the samples --------------------------------------

  ghost predicate Untied(values: seq<real>) {
    forall v :: multiset(values)[v] <= 1
  }

  ghost predicate AllEqual(values: seq<real>) {
    forall v, w :: v in values && w in values ==> v == w
  }

  lemma {:induction false} EqualsInsert(v: real, x: Tagged, s: seq<Tagged>)
    requires Ordered(s)
    ensures Equals(v, Insert(x, s)) == Equals(v, s) + if x.value == v then 1 else 0
  {
    hide Insert;
    InsertUnfold(x, s);
    if s != [] && !Below(x, s[0]) {
      EqualsInsert(v, x, s[1..]);
    }
  }

  lemma {:induction false} EqualsSort(v: real, s: seq<Tagged>)
    ensures Equals(v, Sort(s)) == Equals(v, s)
  {
    if s != [] {
      EqualsSort(v, s[1..]);
      EqualsInsert(v, s[0], Sort(s[1..]));
    }
  }

  lemma {:induction false} EqualsTag(v: real, values: seq<real>, second: bool)
    ensures Equals(v, Tag(values, second)) == multiset(values)[v]
  {
    if values != [] {
      EqualsTag(v, values[1..], second);
      assert values == [values[0]] + values[1..];
    }
  }

  lemma EqualsPool(v: real, a: seq<real>, b: seq<real>)
    ensures Equals(v, Pool(a, b)) == multiset(a + b)[v]
  {
    EqualsSort(v, Tag(a, false) + Tag(b, true));
    RankConcat(v, Tag(a, false), Tag(b, true));
    EqualsTag(v, a, false);
    EqualsTag(v, b, true);
  }

  lemma {:induction false} OrderedFront(s: seq<Tagged>, n: nat)
    requires Ordered(s) && n <= |s|
    ensures Ordered(s[..n])
  {
    if n > 1 {
      OrderedFront(s[1..], n - 1);
      assert s[..n][1..] == s[1..][..n - 1];
    }
  }

  /** The last group of a sorted pool: its values occur nowhere before it. */
  lemma LastGroup(v: real, s: seq<Tagged>, t: nat)
    requires Ordered(s) && 0 < t <= |s|
    requires forall i :: |s| - t <= i < |s| ==> s[i].value == s[|s| - t].value
    requires t < |s| ==> s[|s| - t - 1].value < s[|s| - t].value
    ensures Equals(v, s) == if v == s[|s| - t].value then t else Equals(v, s[..|s| - t])
  {
    hide Ordered, Equals, Smaller;
    var cut := |s| - t;
    assert s == s[..cut] + s[cut..];
    RankConcat(v, s[..cut], s[cut..]);
    if v == s[cut].value {
      forall i | 0 <= i < cut ensures s[i].value < v { OrderedAt(s, i, cut - 1); }
      RankOfSegment(v, s[..cut]);
      RankOfSegment(v, s[cut..]);
    } else {
      NoneEqual(v, s[cut..]);
    }
  }

  lemma {:induction false} NoneEqual(v: real, s: seq<Tagged>)
    ensures (forall i :: 0 <= i < |s| ==> s[i].value != v) <==> Equals(v, s) == 0
  {
    if s != [] {
      NoneEqual(v, s[1..]);
      assert s == [s[0]] + s[1..];
    }
  }

  predicate AllOnes(ties: seq<nat>) {
    forall g :: 0 <= g < |ties| ==> ties[g] == 1
  }

  ghost predicate AtMostOnce(s: seq<Tagged>) {
    forall v :: Equals(v, s) <= 1
  }

  lemma {:induction false} SingleTies(s: seq<Tagged>, ties: seq<nat>)
    requires Ordered(s) && Groups(s, ties)
    ensures AllOnes(ties) <==> AtMostOnce(s)
  {
    hide Ordered, Equals, Groups;
    GroupsUnfold(s, ties);
    if ties == [] {
      forall v ensures Equals(v, s) == 0 { NoneEqual(v, s); }
    } else {
      var front, t := ties[..|ties| - 1], ties[|ties| - 1];
      var rest := s[..|s| - t];
      var x := s[|s| - t].value;
      OrderedFront(s, |s| - t);
      SingleTies(rest, front);
      forall v ensures Equals(v, s) == if v == x then t else Equals(v, rest) { LastGroup(v, s, t); }
      assert Equals(x, rest) <= Equals(x, s) by { assert s == rest + s[|s| - t..]; RankConcat(x, rest, s[|s| - t..]); }
      assert Equals(x, s) == t;
      if AtMostOnce(s) {
        forall v ensures Equals(v, rest) <= 1 { assert Equals(v, s) <= 1; }
      }
      assert AllOnes(ties) <==> AllOnes(front) && t == 1 by { assert ties == front + [t]; }
    }
  }

  lemma OneGroup(s: seq<Tagged>, ties: seq<nat>)
    requires Ordered(s) && Groups(s, ties) && s != []
    ensures |ties| == 1 <==> forall i, j :: 0 <= i < |s| && 0 <= j < |s| ==> s[i].value == s[j].value
  {
  }

  /** The tie sizes are all one exactly for untied samples, and there is one exactly when all values are equal. */
  lemma TiesSay(a: seq<real>, b: seq<real>, ties: seq<nat>)
    requires Groups(Pool(a, b), ties)
    ensures AllOnes(ties) <==> Untied(a + b)
    ensures a + b != [] ==> (|ties| == 1 <==> AllEqual(a + b))
  {
    hide Equals, Ordered, Groups, Sort;
    var s := Pool(a, b);
    SingleTies(s, ties);
    forall v ensures Equals(v, s) == multiset(a + b)[v] { EqualsPool(v, a, b); }
    assert AtMostOnce(s) <==> Untied(a + b);
    PoolCount(a, b);
    if a + b != [] {
      OneGroup(s, ties);
      forall v ensures v in a + b <==> exists i :: 0 <= i < |s| && s[i].value == v {
        NoneEqual(v, s);
        assert v in a + b <==> v in multiset(a + b);
      }
      if AllEqual(a + b) {
        forall i, j | 0 <= i < |s| && 0 <= j < |s| ensures s[i].value == s[j].value {
          assert s[i].value in a + b && s[j].value in a + b;
        }
      }
    }
  }

  // The observed ordering ----------------------------------------------------

  /** Which sample each value of the pool comes from, smallest value first. */
  function Sides(s: seq<Tagged>): (w: Ordering)
    ensures |w| == |s|
  {
    if s == [] then [] else Sides(s[..|s| - 1]) + [!s[|s| - 1].second]
  }

  lemma {:induction false} AboveAll(s: seq<Tagged>, x: Tagged)
    requires forall i :: 0 <= i < |s| ==> s[i].value < x.value
    ensures Score(x.value, s, true) == 2 * Count(s, true)
    ensures Cross(s, [x], false, true) == 0
  {
    if s != [] {
      AboveAll(s[1..], x);
      assert Score(s[0].value, [x], true) == 0 by { assert [x][1..] == []; }
    }
  }

  lemma LastIsLargest(s: seq<Tagged>)
    requires Ordered(s) && AtMostOnce(s) && s != []
    ensures Ordered(s[..|s| - 1]) && AtMostOnce(s[..|s| - 1])
    ensures forall i :: 0 <= i < |s| - 1 ==> s[i].value < s[|s| - 1].value
  {
    hide Ordered, Equals, Smaller;
    var front, last := s[..|s| - 1], s[|s| - 1];
    OrderedFront(s, |s| - 1);
    assert s == front + [last];
    forall v ensures Equals(v, s) == Equals(v, front) + Equals(v, [last]) { RankConcat(v, front, [last]); }
    NoneEqual(last.value, [last]);
    NoneEqual(last.value, front);
    assert Equals(last.value, s) <= 1;
    forall v ensures Equals(v, front) <= 1 { assert Equals(v, s) <= 1; }
    forall i | 0 <= i < |s| - 1 ensures s[i].value < last.value {
      OrderedAt(s, i, |s| - 1);
      assert front[i] == s[i];
    }
  }

  lemma CrossLast(front: seq<Tagged>, x: Tagged)
    requires forall i :: 0 <= i < |front| ==> front[i].value < x.value
    ensures Cross(front + [x], front + [x], false, true) ==
      Cross(front, front, false, true) + if x.second then 0 else 2 * Count(front, true)
  {
    var s := front + [x];
    AboveAll(front, x);
    CrossConcat(front, [x], s, false, true);
    CrossRight(front, front, [x], false, true);
    CrossRight([x], front, [x], false, true);
    OneCross(x, front);
    OneCross(x, [x]);
    assert [x][1..] == [];
  }

  lemma OneCross(x: Tagged, r: seq<Tagged>)
    ensures Cross([x], r, false, true) == if x.second then 0 else Score(x.value, r, true)
  {
  }

  lemma SidesLast(front: seq<Tagged>, last: Tagged)
    ensures Sides(front + [last]) == Sides(front) + [!last.second]
  {
  }

  ghost predicate SidesCount(s: seq<Tagged>) {
    && Trues(Sides(s)) == Count(s, false)
    && Falses(Sides(s)) == Count(s, true)
    && 2 * Wins(Sides(s)) == Cross(s, s, false, true)
  }

  lemma SidesWinsStep(front: seq<Tagged>, last: Tagged)
    requires SidesCount(front)
    requires forall i :: 0 <= i < |front| ==> front[i].value < last.value
    ensures SidesCount(front + [last])
  {
    hide Cross, Sides, Trues, Wins, Count;
    CrossLast(front, last);
    CountConcat(front, [last], false);
    CountConcat(front, [last], true);
    OneMemberCount(last);
    SidesLast(front, last);
    LastOf(Sides(front), !last.second);
  }

  lemma OneMemberCount(x: Tagged)
    ensures forall k :: Count([x], k) == if x.second == k then 1 else 0
  {
  }

  lemma {:induction false} SidesWins(s: seq<Tagged>)
    requires Ordered(s) && AtMostOnce(s)
    ensures SidesCount(s)
  {
    if s == [] {
    } else {
      hide Ordered, SidesCount, AtMostOnce;
      LastIsLargest(s);
      SidesWins(s[..|s| - 1]);
      SidesWinsStep(s[..|s| - 1], s[|s| - 1]);
      assert s == s[..|s| - 1] + [s[|s| - 1]];
    }
  }

  /** The samples' own ordering is one of those the exact test counts, with twice its wins for U. */
  lemma ObservedOrdering(a: seq<real>, b: seq<real>)
    requires Untied(a + b)
    ensures Sides(Pool(a, b)) in Words(|a|, |b|)
    ensures 2 * Wins(Sides(Pool(a, b))) == TwiceU(a, b)
  {
    hide Words, Wins, Cross, Sort, Equals;
    forall v ensures Equals(v, Pool(a, b)) <= 1 { EqualsPool(v, a, b); }
    SidesWins(Pool(a, b));
    PoolCross(a, b);
    PoolCount(a, b);
    WordsAre(|a|, |b|, Sides(Pool(a, b)));
  }

  // The test -----------------------------------------------------------------

  function Min(x: int, y: int): int {
    if x <= y then x else y
  }

  /** The orderings at least as far from an even split of the pairs as one with half of `twiceU` wins. */
  function Extremes(n1: nat, n2: nat, twiceU: nat): set<Ordering> {
    var pairs := n1 * n2;
    set w | w in Words(n1, n2) && Min(2 * Wins(w), 2 * pairs - 2 * Wins(w)) <= Min(twiceU, 2 * pairs - twiceU)
  }

  lemma ExtremesAreTails(n1: nat, n2: nat, twiceU: nat, k: nat)
    requires twiceU <= 2 * (n1 * n2) && k == Min(twiceU, 2 * (n1 * n2) - twiceU) / 2
    ensures Extremes(n1, n2, twiceU) == WordsUpTo(n1, n2, k) + WordsFrom(n1, n2, n1 * n2 - k)
  {
  }

  /** Twice the lower tail, capped at every ordering, is the two-sided mass at or beyond U. */
  lemma TwoSided(n1: nat, n2: nat, twiceU: nat, k: nat)
    requires twiceU <= 2 * (n1 * n2) && k == Min(twiceU, 2 * (n1 * n2) - twiceU) / 2
    ensures |Extremes(n1, n2, twiceU)| == Min(2 * |WordsUpTo(n1, n2, k)|, Comb(n1 + n2, n1))
  {
    hide Words, Wins, Extremes, Comb;
    ExtremesAreTails(n1, n2, twiceU, k);
    TailsMatch(n1, n2, k);
    WordsNumber(n1, n2);
    var low, high := WordsUpTo(n1, n2, k), WordsFrom(n1, n2, n1 * n2 - k);
    SubsetSize(low + high, Words(n1, n2));
    if k < n1 * n2 - k {
      assert low * high == {};
      assert |low + high| == |low| + |high|;
    } else {
      assert low + high == Words(n1, n2);
      assert |low + high| <= |low| + |high|;
    }
  }

  /** The rank sum of the first sample, less its least value, is U. */
  method FirstSampleU(a: seq<real>, b: seq<real>, pooled: seq<Tagged>, ranks: array<real>) returns (u: real)
    requires pooled == Pool(a, b) && ranks.Length == |pooled|
    requires forall i :: 0 <= i < |pooled| ==> ranks[i] == MidRank(pooled[i].value, pooled)
    ensures u == TwiceU(a, b) as real / 2.0
  {
    hide Cross, Sort, Count, TwiceU;
    var rankA := 0.0;
    RankSumStarts(pooled);
    for i := 0 to |pooled|
      invariant 2.0 * rankA == RankPoints(pooled[..i], pooled) as real
    {
      RankSumStep(pooled, i);
      if !pooled[i].second {
        rankA := rankA + ranks[i];
      }
    }
    assert pooled[..|pooled|] == pooled;
    RankSumIsU(a, b);
    u := rankA - (|a| * (|a| + 1)) as real / 2.0;
  }

  /** Twice the mid-ranks of the first sample's members in `s`. */
  function RankPoints(s: seq<Tagged>, pool: seq<Tagged>): nat {
    Cross(s, pool, false, false) + Cross(s, pool, false, true) + Count(s, false)
  }

  lemma RankSumStarts(s: seq<Tagged>)
    ensures RankPoints(s[..0], s) == 0
  {
  }

  lemma RankSumStep(s: seq<Tagged>, i: nat)
    requires i < |s|
    ensures RankPoints(s[..i + 1], s) as real ==
      RankPoints(s[..i], s) as real + if s[i].second then 0.0 else 2.0 * MidRank(s[i].value, s)
  {
    hide Cross, Count;
    var v := s[i].value;
    assert s[..i + 1] == s[..i] + [s[i]];
    CrossConcat(s[..i], [s[i]], s, false, false);
    CrossConcat(s[..i], [s[i]], s, false, true);
    CountConcat(s[..i], [s[i]], false);
    OneMemberRank(s[i], s);
    ScoreIsRank(v, s);
  }

  lemma OneMemberRank(x: Tagged, s: seq<Tagged>)
    ensures Cross([x], s, false, false) == if x.second then 0 else Score(x.value, s, false)
    ensures Cross([x], s, false, true) == if x.second then 0 else Score(x.value, s, true)
    ensures Count([x], false) == if x.second then 0 else 1
  {
  }

  lemma RankSumIsU(a: seq<real>, b: seq<real>)
    ensures RankPoints(Pool(a, b), Pool(a, b)) == TwiceU(a, b) + |a| * (|a| + 1)
  {
    hide Cross, Count, Sort, TwiceU;
    PoolCross(a, b);
    PoolCount(a, b);
    SharedPoints(Pool(a, b), Pool(a, b), false, false);
    assert |a| * (|a| + 1) == |a| * |a| + |a|;
  }

  lemma UpToStep(i: nat, j: nat, k: nat)
    ensures WordsUpTo(i, j, -1) == {}
    ensures |WordsUpTo(i, j, k)| == |WordsUpTo(i, j, k - 1)| + |WordsWith(i, j, k)|
  {
    hide Words;
    assert WordsUpTo(i, j, k) == WordsUpTo(i, j, k - 1) + WordsWith(i, j, k);
    assert WordsUpTo(i, j, k - 1) !! WordsWith(i, j, k);
  }

  /** The share of all orderings that are at least as extreme as the samples' own. */
  function ExactP(n1: nat, n2: nat, twiceU: nat): real {
    |Extremes(n1, n2, twiceU)| as real / Comb(n1 + n2, n1) as real
  }

  /** The exact branch, given the smaller of the two samples' U. */
  method ExactTest(n1: nat, n2: nat, uMin: real, ghost twiceU: nat) returns (p: real)
    requires twiceU <= 2 * (n1 * n2) && uMin == Min(twiceU, 2 * (n1 * n2) - twiceU) as real / 2.0
    ensures p == ExactP(n1, n2, twiceU)
  {
    hide Words, WordsUpTo, WordsWith, Extremes, Comb;
    var counts := CountOrderings(n1, n2);
    var total := Comb(n1 + n2, n1);
    var last := uMin.Floor;
    assert 0 <= last <= n1 * n2 && last == Min(twiceU, 2 * (n1 * n2) - twiceU) / 2;
    var sum := 0;
    UpToStep(n1, n2, 0);
    for k := 0 to last + 1
      invariant sum == |WordsUpTo(n1, n2, k - 1)|
      modifies {}
    {
      UpToStep(n1, n2, k);
      assert RowDone(counts, n1, n2);
      sum := sum + counts[n1, n2, k];
    }
    var tail := sum as real / total as real;
    TwoSided(n1, n2, twiceU, last);
    Capped(sum, total);
    p := if 2.0 * tail < 1.0 then 2.0 * tail else 1.0;
  }

  lemma Capped(sum: nat, total: nat)
    requires total > 0
    ensures 2.0 * (sum as real / total as real) < 1.0 <==> 2 * sum < total
    ensures 2.0 * (sum as real / total as real) == (2 * sum) as real / total as real
    ensures total as real / total as real == 1.0
  {
    Ratio(sum as real / total as real, sum as real, total as real);
  }

  lemma Ratio(q: real, s: real, t: real)
    requires t > 0.0 && q == s / t
    ensures 2.0 * q < 1.0 <==> 2.0 * s < t
    ensures 2.0 * q == 2.0 * s / t
    ensures t / t == 1.0
  {
  }

  /** A square root that can be divided by. */
  ghost predicate Root(sqrt: real -> real) {
    forall x :: x > 0.0 ==> sqrt(x) > 0.0
  }

  /** The p-value of the normal approximation, with the library's square root and complementary error function. */
  function NormalP(distance: real, variance: real, sqrt: real -> real, erfc: real -> real): real
    requires sqrt(variance) > 0.0 && sqrt(2.0) > 0.0
  {
    var z := distance / sqrt(variance);
    var tail := erfc((if z > 0.0 then z else 0.0) / sqrt(2.0));
    if tail < 1.0 then tail else 1.0
  }

  ghost predicate Falls(erfc: real -> real) {
    forall x, y :: x <= y ==> erfc(y) <= erfc(x)
  }

  /** A U farther from its mean has no larger p-value, and one within half a step of it has 1. */
  lemma NormalFalls(near: real, far: real, variance: real, sqrt: real -> real, erfc: real -> real)
    requires Root(sqrt) && Falls(erfc) && erfc(0.0) == 1.0 && variance > 0.0 && near <= far
    ensures NormalP(far, variance, sqrt, erfc) <= NormalP(near, variance, sqrt, erfc) <= 1.0
    ensures near <= 0.0 ==> NormalP(near, variance, sqrt, erfc) == 1.0
  {
    var root, two := sqrt(variance), sqrt(2.0);
    var x, y := near / root, far / root;
    Quotients(near, far, root);
    var x', y' := if x > 0.0 then x else 0.0, if y > 0.0 then y else 0.0;
    Quotients(x', y', two);
    Quotients(near, 0.0, root);
    assert erfc(y' / two) <= erfc(x' / two);
    assert 0.0 / two == 0.0;
  }

  /** With `upper` the upper tail of the standard normal distribution, it is both tails beyond that many deviations. */
  lemma NormalIsTwoSided(distance: real, variance: real, sqrt: real -> real, erfc: real -> real, upper: real -> real)
    requires Root(sqrt) && variance > 0.0
    requires TailsOf(erfc, upper, sqrt(2.0))
    ensures distance <= 0.0 ==> NormalP(distance, variance, sqrt, erfc) == Least(1.0, 2.0 * upper(0.0))
    ensures distance >= 0.0 ==> NormalP(distance, variance, sqrt, erfc) == Least(1.0, 2.0 * upper(distance / sqrt(variance)))
  {
    var root := sqrt(variance);
    Quotients(distance, 0.0, root);
    Quotients(0.0, distance, root);
    var z := distance / root;
    assert TailAt(erfc, upper, sqrt(2.0), if z > 0.0 then z else 0.0);
  }

  function Least(x: real, y: real): real {
    if x <= y then x else y
  }

  ghost predicate TailAt(erfc: real -> real, upper: real -> real, rootTwo: real, z: real) {
    rootTwo > 0.0 && erfc(z / rootTwo) == 2.0 * upper(z)
  }

  /** How the complementary error function gives the upper tail of the standard normal distribution. */
  ghost predicate TailsOf(erfc: real -> real, upper: real -> real, rootTwo: real) {
    forall z :: z >= 0.0 ==> TailAt(erfc, upper, rootTwo, z)
  }

  lemma Quotients(x: real, y: real, d: real)
    requires d > 0.0
    ensures x <= y ==> x / d <= y / d
    ensures 0.0 / d == 0.0
  {
    if x <= y {
      assert y / d - x / d == (y - x) / d;
    }
  }

  function Gap(x: int, y: int): nat {
    if x <= y then y - x else x - y
  }

  /** Small untied samples get the exact test, samples without variance 1, and all others the approximation. */
  method MannWhitneyTest(a: seq<real>, b: seq<real>, sqrt: real -> real, erfc: real -> real)
    returns (p: real, ghost ties: seq<nat>)
    requires Root(sqrt)
    ensures Groups(Pool(a, b), ties)
    ensures Untied(a + b) && |a| * |b| <= 400 ==> p == ExactP(|a|, |b|, TwiceU(a, b))
    ensures !(Untied(a + b) && |a| * |b| <= 400) && (|a| == 0 || |b| == 0 || AllEqual(a + b)) ==> p == 1.0
    ensures !(Untied(a + b) && |a| * |b| <= 400) && |a| > 0 && |b| > 0 && !AllEqual(a + b) ==>
      && |a| + |b| > 1 && Variance(|a|, |b|, ties) > 0.0
      && p == NormalP((Gap(TwiceU(a, b), |a| * |b|) - 1) as real / 2.0, Variance(|a|, |b|, ties), sqrt, erfc)
  {
    hide Untied, AllEqual, Groups, Sort, TwiceU, ExactP, Variance;
    var n1, n2 := |a|, |b|;
    var pooled := Pool(a, b);
    PoolCount(a, b);
    var ranks, runs := MidRanks(pooled);
    ties := runs;
    var u := FirstSampleU(a, b, pooled, ranks);
    UShared(a, b);
    var pairs := n1 * n2;
    var uMin := if u <= pairs as real - u then u else pairs as real - u;
    TiesSay(a, b, runs);
    GroupsTotal(pooled, runs);
    if AllOnes(runs) && pairs <= 400 {
      p := ExactTest(n1, n2, uMin, TwiceU(a, b));
      return;
    }
    SomePairs(n1, n2, runs);
    VarianceSign(n1, n2, runs);
    var variance := Variance(n1, n2, runs);
    if variance <= 0.0 {
      return 1.0, ties;
    }
    var centred := u - pairs as real / 2.0;
    var z := ((if centred < 0.0 then -centred else centred) - 0.5) / sqrt(variance);
    var tail := erfc((if z > 0.0 then z else 0.0) / sqrt(2.0));
    p := if tail < 1.0 then tail else 1.0;
  }

  /** The normal branch never divides by zero. */
  lemma SomePairs(n1: nat, n2: nat, ties: seq<nat>)
    requires Total(ties) == n1 + n2 && forall g :: 0 <= g < |ties| ==> ties[g] > 0
    requires !AllOnes(ties) || n1 * n2 > 400
    ensures n1 + n2 > 1
  {
  }
}
