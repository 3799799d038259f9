/** Sums over all ways to pick some members of a list: how a picked sum spreads around any centre. */
module Assignments {
  import opened Collections
  import opened Orderings

  // Sums over sets -----------------------------------------------------------

  ghost function Pick(ws: set<Ordering>): (w: Ordering)
    requires ws != {}
    ensures w in ws
  {
    var w :| w in ws;
    w
  }

  ghost function SumOver(ws: set<Ordering>, f: Ordering -> int): int
    decreases |ws|
  {
    if ws == {} then 0
    else
      var w := Pick(ws);
      f(w) + SumOver(ws - {w}, f)
  }

  lemma {:induction false} SumTakes(ws: set<Ordering>, f: Ordering -> int, x: Ordering)
    requires x in ws
    ensures SumOver(ws, f) == f(x) + SumOver(ws - {x}, f)
    decreases |ws|
  {
    var w := Pick(ws);
    if w != x {
      SumTakes(ws - {w}, f, x);
      SumTakes(ws - {x}, f, w);
      assert ws - {w} - {x} == ws - {x} - {w};
    }
  }

  lemma {:induction false} SumSame(ws: set<Ordering>, f: Ordering -> int, g: Ordering -> int)
    requires forall w :: w in ws ==> f(w) == g(w)
    ensures SumOver(ws, f) == SumOver(ws, g)
    decreases |ws|
  {
    if ws != {} {
      SumSame(ws - {Pick(ws)}, f, g);
    }
  }

  lemma {:induction false} SumUnion(a: set<Ordering>, b: set<Ordering>, f: Ordering -> int)
    requires a !! b
    ensures SumOver(a + b, f) == SumOver(a, f) + SumOver(b, f)
    decreases |a|
  {
    if a == {} {
      assert a + b == b;
    } else {
      var w := Pick(a);
      SumUnion(a - {w}, b, f);
      SumTakes(a + b, f, w);
      assert a + b - {w} == a - {w} + b;
    }
  }

  lemma {:induction false} SumAppended(ws: set<Ordering>, b: bool, f: Ordering -> int, g: Ordering -> int)
    requires forall w :: w in ws ==> f(w + [b]) == g(w)
    ensures SumOver(Appended(ws, b), f) == SumOver(ws, g)
    decreases |ws|
  {
    if ws == {} {
      assert Appended(ws, b) == {};
    } else {
      var w := Pick(ws);
      SumAppended(ws - {w}, b, f, g);
      InAppended(ws, b, w, b);
      SumTakes(Appended(ws, b), f, w + [b]);
      AppendedLess(ws, b, w);
    }
  }

  lemma AppendedLess(ws: set<Ordering>, b: bool, w: Ordering)
    ensures Appended(ws, b) - {w + [b]} == Appended(ws - {w}, b)
  {
    forall v | v in ws - {w} ensures v + [b] != w + [b] {
      assert v == (v + [b])[..|v|] && w == (w + [b])[..|w|];
    }
  }

  // Picked members -----------------------------------------------------------

  /** The sum of the members that `w` picks. */
  function Picked(r: seq<int>, w: Ordering): int
    requires |w| == |r|
  {
    if w == [] then 0
    else
      var n := |w| - 1;
      Picked(r[..n], w[..n]) + if w[n] then r[n] else 0
  }

  function Square(x: int): int {
    x * x
  }

  /** How far a picked sum is from a centre, squared. */
  function SquareFrom(r: seq<int>, c: int): Ordering -> int {
    w => if |w| == |r| then Square(Picked(r, w) - c) else 0
  }

  function SumAll(r: seq<int>): int {
    if r == [] then 0 else SumAll(r[..|r| - 1]) + r[|r| - 1]
  }

  function SumSquares(r: seq<int>): int {
    if r == [] then 0 else SumSquares(r[..|r| - 1]) + Square(r[|r| - 1])
  }

  function Choose(n: int, k: int): nat {
    if 0 <= k <= n then Comb(n, k) else 0
  }

  lemma Pascal(n: int, k: int)
    requires n >= 1
    ensures Choose(n, k) == Choose(n - 1, k - 1) + Choose(n - 1, k)
  {
  }

  lemma {:induction false} Absorb(n: nat, k: nat)
    requires k <= n
    ensures k * Choose(n, k) == n * Choose(n - 1, k - 1)
  {
    hide Choose;
    ChooseEnds(n);
    if 0 < k < n {
      Pascal(n, k);
      Pascal(n - 1, k - 1);
      if n > 1 {
        Absorb(n - 1, k);
        Absorb(n - 1, k - 1);
      }
      AbsorbStep(n, k, Choose(n - 1, k - 1), Choose(n - 1, k), Choose(n - 2, k - 2), Choose(n - 2, k - 1));
    }
  }

  lemma ChooseEnds(n: nat)
    ensures Choose(n, n) == 1 && Choose(n, 0) == 1 && Choose(n - 1, -1) == 0 && (n > 0 ==> Choose(n - 1, n - 1) == 1)
  {
  }

  lemma AbsorbStep(n: nat, k: nat, a: nat, b: nat, c: nat, d: nat)
    requires n > 0 && k > 0 && k * b == (n - 1) * d && (k - 1) * a == (n - 1) * c && a == c + d
    ensures k * (a + b) == n * a
  {
    assert k * (a + b) == k * a + k * b;
    assert k * a == (k - 1) * a + a;
    assert (n - 1) * (c + d) == (n - 1) * c + (n - 1) * d;
    assert n * a == (n - 1) * a + a;
  }

  /** The sum of squares when the members are those of `r`, by the counts of the ways to pick one and two of them. */
  function Expansion(n: int, i: int, sum: int, squares: int, c: int): int {
    Choose(n - 1, i - 1) * squares + Choose(n - 2, i - 2) * (Square(sum) - squares)
    - 2 * c * (Choose(n - 1, i - 1) * sum) + Square(c) * Choose(n, i)
  }

  lemma Shifted(r: seq<int>, w: Ordering, b: bool, c: int)
    requires r != [] && |w| == |r| - 1
    ensures var n := |r| - 1; SquareFrom(r, c)(w + [b]) == SquareFrom(r[..n], if b then c - r[n] else c)(w)
  {
    assert (w + [b])[..|w|] == w;
  }

  /** The squares over all ways to pick `i` members and leave `j`; none when either is negative. */
  ghost function Squares(i: int, j: int, r: seq<int>, c: int): int {
    if i >= 0 && j >= 0 then SumOver(Words(i, j), SquareFrom(r, c)) else 0
  }

  /** Whether the last member is picked splits the ways to pick. */
  lemma SquaresSplit(i: nat, j: nat, r: seq<int>, c: int)
    requires |r| == i + j > 0
    ensures var n := |r| - 1; Squares(i, j, r, c) == Squares(i - 1, j, r[..n], c - r[n]) + Squares(i, j - 1, r[..n], c)
  {
    hide SumOver, SquareFrom, Words;
    var n := |r| - 1;
    var last := if i > 0 then Appended(Words(i - 1, j), true) else {};
    var others := if j > 0 then Appended(Words(i, j - 1), false) else {};
    WordsSplit(i, j);
    Apart(if i > 0 then Words(i - 1, j) else {}, if j > 0 then Words(i, j - 1) else {});
    SumUnion(last, others, SquareFrom(r, c));
    NoWords(SquareFrom(r, c));
    if i > 0 {
      LastPicked(i - 1, j, r, c);
    }
    if j > 0 {
      LastLeft(i, j - 1, r, c);
    }
  }

  lemma LastPicked(i: nat, j: nat, r: seq<int>, c: int)
    requires |r| == i + j + 1
    ensures SumOver(Appended(Words(i, j), true), SquareFrom(r, c)) == SumOver(Words(i, j), SquareFrom(r[..i + j], c - r[i + j]))
  {
    hide SumOver, SquareFrom, Words;
    forall w | w in Words(i, j) ensures SquareFrom(r, c)(w + [true]) == SquareFrom(r[..i + j], c - r[i + j])(w) {
      WordsAre(i, j, w);
      Shifted(r, w, true, c);
    }
    SumAppended(Words(i, j), true, SquareFrom(r, c), SquareFrom(r[..i + j], c - r[i + j]));
  }

  lemma LastLeft(i: nat, j: nat, r: seq<int>, c: int)
    requires |r| == i + j + 1
    ensures SumOver(Appended(Words(i, j), false), SquareFrom(r, c)) == SumOver(Words(i, j), SquareFrom(r[..i + j], c))
  {
    hide SumOver, SquareFrom, Words;
    forall w | w in Words(i, j) ensures SquareFrom(r, c)(w + [false]) == SquareFrom(r[..i + j], c)(w) {
      WordsAre(i, j, w);
      Shifted(r, w, false, c);
    }
    SumAppended(Words(i, j), false, SquareFrom(r, c), SquareFrom(r[..i + j], c));
  }

  lemma WordsSplit(i: nat, j: nat)
    requires i + j > 0
    ensures Words(i, j) ==
      (if i > 0 then Appended(Words(i - 1, j), true) else {}) + (if j > 0 then Appended(Words(i, j - 1), false) else {})
  {
  }

  lemma NoWords(f: Ordering -> int)
    ensures SumOver({}, f) == 0
  {
  }

  lemma Apart(a: set<Ordering>, b: set<Ordering>)
    ensures Appended(a, true) !! Appended(b, false) && Appended({}, true) == Appended({}, false) == {}
  {
    forall v, w | v in a && w in b ensures v + [true] != w + [false] {
      assert (v + [true])[|v + [true]| - 1] && !(w + [false])[|w + [false]| - 1];
    }
  }

  /** For any members and centre, the squares add up to what the sum and the squares of the members say. */
  lemma {:induction false} SpreadIs(i: int, j: int, r: seq<int>, c: int)
    requires i >= -1 && j >= -1 && |r| == i + j
    ensures Squares(i, j, r, c) == Expansion(|r|, i, SumAll(r), SumSquares(r), c)
    decreases |r|
  {
    if i == -1 {
      NonePicked(|r|, SumAll(r), SumSquares(r), c);
    } else if j == -1 {
      TooMany(|r|, i, SumAll(r), SumSquares(r), c);
    } else if r == [] {
      OneWay(c);
    } else {
      hide Squares, Expansion;
      var n := |r| - 1;
      SquaresSplit(i, j, r, c);
      SpreadIs(i - 1, j, r[..n], c - r[n]);
      SpreadIs(i, j - 1, r[..n], c);
      SpreadStep(n, i, r[..n], r[n], c);
    }
  }

  lemma OneWay(c: int)
    ensures Squares(0, 0, [], c) == Expansion(0, 0, 0, 0, c)
  {
    var ws := Words(0, 0);
    assert ws == {[]};
    SumTakes(ws, SquareFrom([], c), []);
    assert ws - {[]} == {};
  }

  lemma NonePicked(n: int, sum: int, squares: int, c: int)
    ensures Expansion(n, -1, sum, squares, c) == 0
  {
  }

  lemma TooMany(n: int, i: int, sum: int, squares: int, c: int)
    requires i == n + 1
    ensures Expansion(n, i, sum, squares, c) == 0
  {
  }

  lemma SpreadStep(n: nat, i: nat, front: seq<int>, x: int, c: int)
    requires |front| == n && i <= n + 1
    ensures Expansion(n, i - 1, SumAll(front), SumSquares(front), c - x) + Expansion(n, i, SumAll(front), SumSquares(front), c) ==
      Expansion(n + 1, i, SumAll(front) + x, SumSquares(front) + Square(x), c)
  {
    hide Choose;
    var t, q := SumAll(front), SumSquares(front);
    Pascal(n + 1, i);
    if n >= 1 {
      Pascal(n, i - 1);
    }
    if n >= 2 {
      Pascal(n - 1, i - 2);
    } else {
      FewMembers(front);
    }
    StepAlgebra(Choose(n - 1, i - 2), Choose(n - 1, i - 1), Choose(n - 2, i - 3), Choose(n - 2, i - 2),
      Choose(n, i - 1), Choose(n, i), t, q, x, c);
  }

  lemma FewMembers(r: seq<int>)
    requires |r| <= 1
    ensures Square(SumAll(r)) == SumSquares(r) && (r == [] ==> SumAll(r) == 0)
  {
  }

  lemma Distribute(a: int, b: int, x: int)
    ensures (a + b) * x == a * x + b * x
  {
  }

  lemma SquareOfSum(a: int, b: int)
    ensures Square(a + b) == Square(a) + 2 * (a * b) + Square(b)
  {
  }

  lemma SwapFactors(a: int, b: int, c: int)
    ensures a * (b * c) == b * (a * c)
  {
  }

  /** `a`, `b` and `c` count the ways with one member, two members, or none given; 1 with the last picked, 0 without. */
  lemma StepAlgebra(a1: nat, a0: nat, b1: nat, b0: nat, c1: nat, c0: nat, t: int, q: int, x: int, c: int)
    requires c1 == a1 + a0 || (t == 0 && q == 0)
    requires a1 == b1 + b0 || Square(t) == q
    ensures a1 * q + b1 * (Square(t) - q) - 2 * (c - x) * (a1 * t) + Square(c - x) * c1
      + (a0 * q + b0 * (Square(t) - q) - 2 * c * (a0 * t) + Square(c) * c0) ==
      c1 * (q + Square(x)) + a1 * (Square(t + x) - (q + Square(x))) - 2 * c * (c1 * (t + x)) + Square(c) * (c1 + c0)
  {
    var d := Square(t) - q;
    Counted(a1, a0, c1, q);
    Counted(a1, a0, c1, t);
    Counted(b1, b0, a1, d);
    SquareOfSum(t, x);
    SquareOfSum(c, -x);
    LeftSide(a1, b1, c1, t, q, d, x, c);
    RightSide(a1, c1, c0, t, q, d, x, c);
    TakeOut(c, a1 * t, a0 * t, c1 * t);
  }

  lemma Counted(a1: nat, a0: nat, c1: nat, q: int)
    requires c1 == a1 + a0 || q == 0
    ensures a1 * q + a0 * q == c1 * q
  {
    Distribute(a1, a0, q);
  }

  lemma TakeOut(c: int, u: int, v: int, w: int)
    requires u + v == w
    ensures 2 * c * u + 2 * c * v == 2 * c * w
  {
    assert 2 * c * w == 2 * c * u + 2 * c * v;
  }

  lemma LeftSide(a1: nat, b1: nat, c1: nat, t: int, q: int, d: int, x: int, c: int)
    ensures a1 * q + b1 * d - 2 * (c - x) * (a1 * t) + (Square(c) - 2 * (c * x) + Square(x)) * c1 ==
      a1 * q + b1 * d - 2 * c * (a1 * t) + 2 * x * (a1 * t) + Square(c) * c1 - 2 * (c * x) * c1 + Square(x) * c1
  {
    var u := a1 * t;
    assert 2 * (c - x) * u == 2 * c * u - 2 * x * u;
    Distribute(Square(c) - 2 * (c * x), Square(x), c1);
    Distribute(Square(c), -(2 * (c * x)), c1);
  }

  lemma RightSide(a1: nat, c1: nat, c0: nat, t: int, q: int, d: int, x: int, c: int)
    ensures c1 * (q + Square(x)) + a1 * (d + 2 * (t * x)) - 2 * c * (c1 * (t + x)) + Square(c) * (c1 + c0) ==
      c1 * q + Square(x) * c1 + a1 * d + 2 * x * (a1 * t) - 2 * c * (c1 * t) - 2 * (c * x) * c1 + Square(c) * c1 + Square(c) * c0
  {
    Distribute(q, Square(x), c1);
    Distribute(d, 2 * (t * x), a1);
    SwapFactors(a1, x, t);
    assert a1 * (2 * (t * x)) == 2 * x * (a1 * t);
    Distribute(t, x, c1);
    CrossTerm(c, c1, t, x);
    Distribute(c1, c0, Square(c));
  }

  lemma CrossTerm(c: int, c1: nat, t: int, x: int)
    ensures 2 * c * (c1 * t + c1 * x) == 2 * c * (c1 * t) + 2 * (c * x) * c1
  {
    assert 2 * c * (c1 * t + c1 * x) == 2 * c * (c1 * t) + 2 * c * (c1 * x);
    assert c * (c1 * x) == (c * x) * c1;
  }

  /** How far a picked sum is from a centre. */
  function From(r: seq<int>, c: int): Ordering -> int {
    w => if |w| == |r| then Picked(r, w) - c else 0
  }

  /** Moving the centre by one adds twice the distances, and one for each way. */
  lemma {:induction false} Moved(ws: set<Ordering>, r: seq<int>, c: int)
    requires forall w :: w in ws ==> |w| == |r|
    ensures SumOver(ws, SquareFrom(r, c - 1)) == SumOver(ws, SquareFrom(r, c)) + 2 * SumOver(ws, From(r, c)) + |ws|
    decreases |ws|
  {
    hide SquareFrom, From, Pick;
    if ws != {} {
      var w := Pick(ws);
      Moved(ws - {w}, r, c);
      MovedOne(r, w, c);
    }
  }

  lemma MovedOne(r: seq<int>, w: Ordering, c: int)
    requires |w| == |r|
    ensures SquareFrom(r, c - 1)(w) == SquareFrom(r, c)(w) + 2 * From(r, c)(w) + 1
  {
    SquareOfSum(Picked(r, w) - c, 1);
  }

  /** Members that add up to `n * (n + 1)` have their middle at `n + 1`. */
  lemma CentredAt(i: nat, j: nat, r: seq<int>)
    requires |r| == i + j > 0 && SumAll(r) == |r| * (|r| + 1)
    ensures SumOver(Words(i, j), From(r, i * (|r| + 1))) == 0
  {
    hide SumOver, Words, Expansion, Choose, Comb, Square, SumAll, SumSquares, SquareFrom, From;
    var n, c := |r|, i * (|r| + 1);
    forall w | w in Words(i, j) ensures |w| == n { WordsAre(i, j, w); }
    Moved(Words(i, j), r, c);
    WordsNumber(i, j);
    SpreadIs(i, j, r, c);
    SpreadIs(i, j, r, c - 1);
    ExpansionUnfold(n, i, SumAll(r), SumSquares(r), c);
    ExpansionUnfold(n, i, SumAll(r), SumSquares(r), c - 1);
    ChooseIsComb(n, i);
    Absorb(n, i);
    CentreTerms(n, i, Choose(n, i), Choose(n - 1, i - 1), c);
  }

  lemma ChooseIsComb(n: nat, k: nat)
    requires k <= n
    ensures Choose(n, k) == Comb(n, k)
  {
  }

  lemma CentreTerms(n: nat, i: nat, ways: nat, one: nat, c: int)
    requires i * ways == n * one && c == i * (n + 1)
    ensures -2 * (c - 1) * (one * (n * (n + 1))) + Square(c - 1) * ways == -2 * c * (one * (n * (n + 1))) + Square(c) * ways + ways
  {
    var sum := one * (n * (n + 1));
    assert sum == (n * one) * (n + 1) == (i * ways) * (n + 1) == c * ways;
    SquareOfSum(c, -1);
    Distribute(Square(c) - 2 * c, 1, ways);
    Distribute(Square(c), -2 * c, ways);
    assert -2 * (c - 1) * sum == -2 * c * sum + 2 * sum;
  }

  // Doubled ranks ----------------------------------------------------------------

  /**
   * Members that add up to `n * (n + 1)`, as doubled ranks do, around their middle: the squares of all picked sums
   * come to the number of ways, times the picked and the others, times the members' own squares around `n + 1`.
   */
  lemma SpreadScaled(n: nat, i: nat, squares: int)
    requires i <= n && n >= 2
    ensures n * (n - 1) * Expansion(n, i, n * (n + 1), squares, i * (n + 1)) ==
      Choose(n, i) * (i * ((n - i) * (squares - n * Square(n + 1))))
  {
    hide Choose, Expansion;
    if i == 0 {
      NoneExpands(n, n * (n + 1), squares);
    } else {
      Absorb(n, i);
      Absorb(n - 1, i - 1);
      SwapFactors(i, n, n + 1);
      TwoChosen(n, i, Choose(n, i), Choose(n - 1, i - 1), Choose(n - 2, i - 2));
      ExpansionUnfold(n, i, n * (n + 1), squares, i * (n + 1));
      ScaleTerms(n, i, Choose(n, i), Choose(n - 1, i - 1), Choose(n - 2, i - 2), n * (n + 1), squares, i * (n + 1));
      Bracket(n, i, squares);
    }
  }

  lemma ExpansionUnfold(n: int, i: int, sum: int, squares: int, c: int)
    ensures Expansion(n, i, sum, squares, c) ==
      Choose(n - 1, i - 1) * squares + Choose(n - 2, i - 2) * (Square(sum) - squares)
      - 2 * c * (Choose(n - 1, i - 1) * sum) + Square(c) * Choose(n, i)
  {
  }

  lemma NoneExpands(n: nat, sum: int, squares: int)
    ensures Expansion(n, 0, sum, squares, 0) == 0
  {
  }

  lemma TwoChosen(n: nat, i: nat, ways: nat, one: nat, two: nat)
    requires n >= 1 && i >= 1 && i * ways == n * one && (i - 1) * one == (n - 1) * two
    ensures n * (n - 1) * two == i * (i - 1) * ways
  {
    assert n * ((n - 1) * two) == n * ((i - 1) * one) == (i - 1) * (n * one) == (i - 1) * (i * ways);
  }

  lemma ScaleTerms(n: nat, i: nat, ways: nat, one: nat, two: nat, sum: int, squares: int, c: int)
    requires n >= 1 && i >= 1 && i * ways == n * one && n * (n - 1) * two == i * (i - 1) * ways && n * c == i * sum
    ensures n * (n - 1) * (one * squares + two * (Square(sum) - squares) - 2 * c * (one * sum) + Square(c) * ways) ==
      ways * (i * ((n - 1) * squares + (i - 1) * (Square(sum) - squares) - (n - 1) * (c * sum)))
  {
    var d, m := Square(sum) - squares, n - 1;
    TermOne(n, m, i, ways, one, squares);
    TermOne(n, m, i, ways, one, c * sum);
    assert n * m * (two * d) == (n * m * two) * d == (i * (i - 1) * ways) * d == ways * (i * ((i - 1) * d));
    TermLast(n, m, i, ways, sum, c);
    assert 2 * c * (one * sum) == 2 * (one * (c * sum));
    Collect(n * m, one * squares, two * d, one * (c * sum), Square(c) * ways);
    Gather(ways, i, m * squares, (i - 1) * d, m * (c * sum));
  }

  lemma TermOne(n: nat, m: nat, i: nat, ways: nat, one: nat, x: int)
    requires i * ways == n * one
    ensures n * m * (one * x) == ways * (i * (m * x))
  {
    assert n * m * (one * x) == (n * one) * (m * x);
    assert (i * ways) * (m * x) == ways * (i * (m * x));
  }

  lemma TermLast(n: nat, m: nat, i: nat, ways: nat, sum: int, c: int)
    requires n * c == i * sum
    ensures n * m * (Square(c) * ways) == ways * (i * (m * (c * sum)))
  {
    assert n * m * (Square(c) * ways) == (n * c) * (m * c * ways);
    assert (i * sum) * (m * c * ways) == ways * (i * (m * (c * sum)));
  }

  lemma Collect(k: int, a: int, b: int, x: int, d: int)
    ensures k * (a + b - 2 * x + d) == k * a + k * b - 2 * (k * x) + k * d
  {
  }

  lemma Gather(ways: int, i: int, a: int, b: int, x: int)
    ensures ways * (i * a) + ways * (i * b) - ways * (i * x) == ways * (i * (a + b - x))
  {
    assert i * (a + b - x) == i * a + i * b - i * x;
  }

  lemma Bracket(n: nat, i: nat, squares: int)
    ensures (n - 1) * squares + (i - 1) * (Square(n * (n + 1)) - squares) - (n - 1) * (i * (n + 1) * (n * (n + 1))) ==
      (n - i) * (squares - n * Square(n + 1))
  {
    MiddleSquares(n, i, n + 1);
    BracketTerms(n, i, squares, n * Square(n + 1));
  }

  lemma MiddleSquares(n: nat, i: nat, m: nat)
    ensures Square(n * m) == n * (n * Square(m))
    ensures i * m * (n * m) == i * (n * Square(m))
  {
    SwapFactors(m, n, m);
    assert i * m * (n * m) == i * (m * (n * m));
    assert n * m * (n * m) == n * (m * (n * m));
  }

  lemma BracketTerms(n: nat, i: nat, squares: int, v: int)
    ensures (n - 1) * squares + (i - 1) * (n * v - squares) - (n - 1) * (i * v) == (n - i) * (squares - v)
  {
    SwapFactors(n, i, v);
    assert (i - 1) * (n * v - squares) == i * (n * v) - n * v - i * squares + squares;
    assert (n - 1) * (i * v) == n * (i * v) - i * v;
    assert (n - i) * (squares - v) == n * squares - i * squares - n * v + i * v;
  }
}
