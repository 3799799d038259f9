/** The orderings of two untied samples, and how many pairs the first sample wins in each. */
module Orderings {
  import opened Collections

  /** An ordering from smallest to largest: true for a value of the first sample. */
  type Ordering = seq<bool>

  function Trues(w: Ordering): (n: nat)
    ensures n <= |w|
  {
    if w == [] then 0 else Trues(w[..|w| - 1]) + if w[|w| - 1] then 1 else 0
  }

  function Falses(w: Ordering): nat {
    |w| - Trues(w)
  }

  /** The pairs in which the first sample's value is the larger. */
  function Wins(w: Ordering): nat {
    if w == [] then 0
    else
      var front := w[..|w| - 1];
      Wins(front) + if w[|w| - 1] then Falses(front) else 0
  }

  function Appended(ws: set<Ordering>, b: bool): set<Ordering> {
    set w | w in ws :: w + [b]
  }

  /** All orderings of `i` values of the first sample and `j` of the second. */
  function Words(i: nat, j: nat): set<Ordering>
    decreases i + j
  {
    if i == 0 && j == 0 then {[]}
    else
      (if i > 0 then Appended(Words(i - 1, j), true) else {}) + (if j > 0 then Appended(Words(i, j - 1), false) else {})
  }

  function WordsWith(i: nat, j: nat, k: int): set<Ordering> {
    set w | w in Words(i, j) && Wins(w) == k
  }

  function WordsUpTo(i: nat, j: nat, k: int): set<Ordering> {
    set w | w in Words(i, j) && Wins(w) <= k
  }

  function WordsFrom(i: nat, j: nat, k: int): set<Ordering> {
    set w | w in Words(i, j) && Wins(w) >= k
  }

  function Comb(n: nat, k: nat): (c: nat)
    requires k <= n
    ensures c > 0
  {
    if k == 0 || k == n then 1 else Comb(n - 1, k - 1) + Comb(n - 1, k)
  }

  function Factorial(n: nat): (f: nat)
    ensures f > 0
  {
    if n == 0 then 1 else n * Factorial(n - 1)
  }

  /** Pascal's rule counts what the quotient of factorials counts. */
  lemma {:induction false} CombIsQuotient(n: nat, k: nat)
    requires k <= n
    ensures Comb(n, k) * Factorial(k) * Factorial(n - k) == Factorial(n)
  {
    if 0 < k < n {
      CombIsQuotient(n - 1, k - 1);
      CombIsQuotient(n - 1, k);
      PascalStep(Comb(n - 1, k - 1), Comb(n - 1, k), k, n - k, Factorial(k - 1), Factorial(n - k - 1), Factorial(n - 1));
    }
  }

  lemma PascalStep(a: nat, b: nat, k: nat, l: nat, fk: nat, fl: nat, f: nat)
    requires a * fk * (l * fl) == f && b * (k * fk) * fl == f
    ensures (a + b) * (k * fk) * (l * fl) == (k + l) * f
  {
  }

  lemma LastOf(w: Ordering, b: bool)
    ensures (w + [b])[..|w + [b]| - 1] == w
    ensures Trues(w + [b]) == Trues(w) + if b then 1 else 0
    ensures Wins(w + [b]) == Wins(w) + if b then Falses(w) else 0
  {
  }

  /** `Words(i, j)` is exactly the orderings with `i` and `j` values. */
  lemma {:induction false} WordsAre(i: nat, j: nat, w: Ordering)
    ensures w in Words(i, j) <==> |w| == i + j && Trues(w) == i
    decreases i + j
  {
    if i == 0 && j == 0 {
      assert |w| == 0 ==> w == [];
    } else if w != [] {
      var front, b := w[..|w| - 1], w[|w| - 1];
      assert w == front + [b];
      if i > 0 {
        WordsAre(i - 1, j, front);
        InAppended(Words(i - 1, j), true, front, b);
      }
      if j > 0 {
        WordsAre(i, j - 1, front);
        InAppended(Words(i, j - 1), false, front, b);
      }
    } else {
      assert w !in Appended(Words(if i > 0 then i - 1 else 0, j), true);
      assert w !in Appended(Words(i, if j > 0 then j - 1 else 0), false);
    }
  }

  lemma InAppended(ws: set<Ordering>, last: bool, front: Ordering, b: bool)
    ensures front + [b] in Appended(ws, last) <==> b == last && front in ws
  {
    if front + [b] in Appended(ws, last) {
      var w :| w in ws && w + [last] == front + [b];
      assert w == (w + [last])[..|w|] == (front + [b])[..|front|] == front;
      assert (w + [last])[|w|] == (front + [b])[|front|];
    }
  }

  lemma {:induction false} AppendedSize(ws: set<Ordering>, b: bool)
    ensures |Appended(ws, b)| == |ws|
    decreases |ws|
  {
    if ws != {} {
      var w :| w in ws;
      AppendedSize(ws - {w}, b);
      assert Appended(ws, b) == Appended(ws - {w}, b) + {w + [b]};
      InAppended(ws - {w}, b, w, b);
    }
  }

  /** The largest value is the first sample's, and wins all `j` pairs, or the second's, and wins none. */
  lemma Recurrence(i: nat, j: nat, k: int)
    requires i > 0 && j > 0
    ensures |WordsWith(i, j, k)| == |WordsWith(i - 1, j, k - j)| + |WordsWith(i, j - 1, k)|
  {
    var a, b := Appended(WordsWith(i - 1, j, k - j), true), Appended(WordsWith(i, j - 1, k), false);
    AppendedSize(WordsWith(i - 1, j, k - j), true);
    AppendedSize(WordsWith(i, j - 1, k), false);
    forall w ensures w in WordsWith(i, j, k) <==> w in a + b {
      SplitWord(i, j, k, w);
    }
    assert WordsWith(i, j, k) == a + b;
    forall w | w in a && w in b ensures false {
      SplitWord(i, j, k, w);
    }
  }

  lemma SplitWord(i: nat, j: nat, k: int, w: Ordering)
    requires i > 0 && j > 0
    ensures w in WordsWith(i, j, k) <==>
      w in Appended(WordsWith(i - 1, j, k - j), true) || w in Appended(WordsWith(i, j - 1, k), false)
    ensures !(w in Appended(WordsWith(i - 1, j, k - j), true) && w in Appended(WordsWith(i, j - 1, k), false))
  {
    if w == [] {
      assert w !in Appended(WordsWith(i - 1, j, k - j), true);
      assert w !in Appended(WordsWith(i, j - 1, k), false);
      WordsAre(i, j, w);
    } else {
      var front, b := w[..|w| - 1], w[|w| - 1];
      assert w == front + [b];
      LastOf(front, b);
      InAppended(WordsWith(i - 1, j, k - j), true, front, b);
      InAppended(WordsWith(i, j - 1, k), false, front, b);
      WordsAre(i, j, w);
      WordsAre(i - 1, j, front);
      WordsAre(i, j - 1, front);
    }
  }

  lemma WordsUnfold(i: nat, j: nat)
    ensures Words(0, 0) == {[]}
    ensures i > 0 && j == 0 ==> Words(i, j) == Appended(Words(i - 1, j), true)
    ensures i == 0 && j > 0 ==> Words(i, j) == Appended(Words(i, j - 1), false)
    ensures i > 0 && j > 0 ==> Words(i, j) == Appended(Words(i - 1, j), true) + Appended(Words(i, j - 1), false)
  {
  }

  lemma {:induction false} OnlyOneWord(i: nat, j: nat)
    requires i == 0 || j == 0
    ensures |Words(i, j)| == 1
    decreases i + j
  {
    hide Words, Appended;
    if i > 0 {
      OnlyOneWord(i - 1, j);
      AppendedSize(Words(i - 1, j), true);
    } else if j > 0 {
      OnlyOneWord(i, j - 1);
      AppendedSize(Words(i, j - 1), false);
    }
    WordsUnfold(i, j);
  }

  lemma OnlyOneOrdering(i: nat, j: nat)
    requires i == 0 || j == 0
    ensures |Words(i, j)| == 1 && forall w :: w in Words(i, j) ==> Wins(w) == 0
  {
    hide Words, Wins;
    OnlyOneWord(i, j);
    forall w | w in Words(i, j) ensures Wins(w) == 0 {
      WordsAre(i, j, w);
      WinsBound(w);
    }
  }

  lemma EdgeCounts(i: nat, j: nat, k: int)
    requires i == 0 || j == 0
    ensures |WordsWith(i, j, k)| == if k == 0 then 1 else 0
  {
    OnlyOneOrdering(i, j);
    if k == 0 {
      assert WordsWith(i, j, k) == Words(i, j);
    } else {
      assert WordsWith(i, j, k) == {};
    }
  }

  lemma {:induction false} WinsBound(w: Ordering)
    ensures Wins(w) <= Trues(w) * Falses(w)
  {
    if w != [] {
      var front := w[..|w| - 1];
      WinsBound(front);
      if w[|w| - 1] {
        assert (Trues(front) + 1) * Falses(front) == Trues(front) * Falses(front) + Falses(front);
      } else {
        assert Trues(front) * (Falses(front) + 1) == Trues(front) * Falses(front) + Trues(front);
      }
    }
  }

  lemma NoneBeyond(i: nat, j: nat, k: int)
    requires k < 0 || k > i * j
    ensures WordsWith(i, j, k) == {}
  {
    forall w | w in Words(i, j) ensures Wins(w) != k {
      WordsAre(i, j, w);
      WinsBound(w);
    }
  }

  lemma LastDiffers(u: set<Ordering>, v: set<Ordering>)
    ensures Appended(u, true) !! Appended(v, false)
  {
    forall w | w in Appended(u, true) && w in Appended(v, false) ensures false {
      var x :| x in u && w == x + [true];
      InAppended(v, false, x, true);
    }
  }

  lemma {:induction false} WordsNumber(i: nat, j: nat)
    ensures |Words(i, j)| == Comb(i + j, i)
    decreases i + j
  {
    hide Words, Appended;
    if i == 0 || j == 0 {
      OnlyOneOrdering(i, j);
    } else {
      WordsNumber(i - 1, j);
      WordsNumber(i, j - 1);
      AppendedSize(Words(i - 1, j), true);
      AppendedSize(Words(i, j - 1), false);
      LastDiffers(Words(i - 1, j), Words(i, j - 1));
      WordsUnfold(i, j);
    }
  }

  // Sums and symmetry --------------------------------------------------------

  function Sum(counts: seq<nat>): nat {
    if counts == [] then 0 else Sum(counts[..|counts| - 1]) + counts[|counts| - 1]
  }

  /** The first counts of a row add up to the orderings with at most so many wins. */
  lemma {:induction false} SumCounts(i: nat, j: nat, row: seq<nat>)
    requires forall k :: 0 <= k < |row| ==> row[k] == |WordsWith(i, j, k)|
    ensures Sum(row) == |WordsUpTo(i, j, |row| - 1)|
  {
    if row == [] {
      assert WordsUpTo(i, j, -1) == {};
    } else {
      var k := |row| - 1;
      SumCounts(i, j, row[..k]);
      assert WordsUpTo(i, j, k) == WordsUpTo(i, j, k - 1) + WordsWith(i, j, k);
      assert WordsUpTo(i, j, k - 1) !! WordsWith(i, j, k);
    }
  }

  lemma AllUpTo(i: nat, j: nat, k: int)
    requires k >= i * j
    ensures WordsUpTo(i, j, k) == Words(i, j)
  {
    forall w | w in Words(i, j) ensures Wins(w) <= k {
      WordsAre(i, j, w);
      WinsBound(w);
    }
  }

  /** Each row of the table adds up to the number of all orderings. */
  lemma RowSum(i: nat, j: nat, row: seq<nat>)
    requires |row| > i * j
    requires forall k :: 0 <= k < |row| ==> row[k] == |WordsWith(i, j, k)|
    ensures Sum(row) == Comb(i + j, i)
  {
    SumCounts(i, j, row);
    AllUpTo(i, j, |row| - 1);
    WordsNumber(i, j);
  }

  function Reverse(w: Ordering): (r: Ordering)
    ensures |r| == |w|
  {
    if w == [] then [] else [w[|w| - 1]] + Reverse(w[..|w| - 1])
  }

  lemma {:induction false} FrontOf(b: bool, w: Ordering)
    ensures Trues([b] + w) == Trues(w) + (if b then 1 else 0)
    ensures Wins([b] + w) == Wins(w) + if b then 0 else Trues(w)
  {
    if w == [] {
      assert [b] + w == [] + [b];
      LastOf([], b);
    } else {
      var front, last := w[..|w| - 1], w[|w| - 1];
      FrontOf(b, front);
      assert [b] + w == ([b] + front) + [last];
      LastOf([b] + front, last);
    }
  }

  /** Reading an ordering backwards swaps the pairs won and lost. */
  lemma {:induction false} ReverseWins(w: Ordering)
    ensures Trues(Reverse(w)) == Trues(w)
    ensures Wins(Reverse(w)) + Wins(w) == Trues(w) * Falses(w)
  {
    if w != [] {
      var front, b := w[..|w| - 1], w[|w| - 1];
      ReverseWins(front);
      FrontOf(b, Reverse(front));
      if b {
        assert (Trues(front) + 1) * Falses(front) == Trues(front) * Falses(front) + Falses(front);
      } else {
        assert Trues(front) * (Falses(front) + 1) == Trues(front) * Falses(front) + Trues(front);
      }
    }
  }

  lemma {:induction false} ReverseInjective(v: Ordering, w: Ordering)
    requires Reverse(v) == Reverse(w)
    ensures v == w
  {
    if v != [] {
      assert Reverse(v)[1..] == Reverse(v[..|v| - 1]);
      assert Reverse(w)[1..] == Reverse(w[..|w| - 1]);
      ReverseInjective(v[..|v| - 1], w[..|w| - 1]);
      assert v == v[..|v| - 1] + [v[|v| - 1]] && w == w[..|w| - 1] + [w[|w| - 1]];
    }
  }

  function Reversed(ws: set<Ordering>): set<Ordering> {
    set w | w in ws :: Reverse(w)
  }

  lemma {:induction false} ReversedSize(ws: set<Ordering>)
    ensures |Reversed(ws)| == |ws|
    decreases |ws|
  {
    if ws != {} {
      var w :| w in ws;
      ReversedSize(ws - {w});
      assert Reversed(ws) == Reversed(ws - {w}) + {Reverse(w)};
      if Reverse(w) in Reversed(ws - {w}) {
        var v :| v in ws - {w} && Reverse(v) == Reverse(w);
        ReverseInjective(v, w);
      }
    }
  }

  lemma ReversedIn(i: nat, j: nat, w: Ordering)
    requires w in Words(i, j)
    ensures Reverse(w) in Words(i, j) && Wins(Reverse(w)) == i * j - Wins(w)
  {
    WordsAre(i, j, w);
    WordsAre(i, j, Reverse(w));
    ReverseWins(w);
  }

  /** No more orderings win at least `i * j - k` pairs than at most `k`, or the other way around. */
  lemma TailsMatch(i: nat, j: nat, k: int)
    ensures |WordsFrom(i, j, i * j - k)| == |WordsUpTo(i, j, k)|
  {
    ReversedSize(WordsUpTo(i, j, k));
    ReversedSize(WordsFrom(i, j, i * j - k));
    assert Reversed(WordsUpTo(i, j, k)) <= WordsFrom(i, j, i * j - k) by {
      forall w | w in WordsUpTo(i, j, k) ensures Reverse(w) in WordsFrom(i, j, i * j - k) { ReversedIn(i, j, w); }
    }
    assert Reversed(WordsFrom(i, j, i * j - k)) <= WordsUpTo(i, j, k) by {
      forall w | w in WordsFrom(i, j, i * j - k) ensures Reverse(w) in WordsUpTo(i, j, k) { ReversedIn(i, j, w); }
    }
    SubsetSize(Reversed(WordsUpTo(i, j, k)), WordsFrom(i, j, i * j - k));
    SubsetSize(Reversed(WordsFrom(i, j, i * j - k)), WordsUpTo(i, j, k));
  }

  /** The counts of a row are symmetric. */
  lemma CountsSymmetric(i: nat, j: nat, k: int)
    ensures |WordsWith(i, j, k)| == |WordsWith(i, j, i * j - k)|
  {
    ReversedSize(WordsWith(i, j, k));
    ReversedSize(WordsWith(i, j, i * j - k));
    assert Reversed(WordsWith(i, j, k)) <= WordsWith(i, j, i * j - k) by {
      forall w | w in WordsWith(i, j, k) ensures Reverse(w) in WordsWith(i, j, i * j - k) { ReversedIn(i, j, w); }
    }
    assert Reversed(WordsWith(i, j, i * j - k)) <= WordsWith(i, j, k) by {
      forall w | w in WordsWith(i, j, i * j - k) ensures Reverse(w) in WordsWith(i, j, k) { ReversedIn(i, j, w); }
    }
    SubsetSize(Reversed(WordsWith(i, j, k)), WordsWith(i, j, i * j - k));
    SubsetSize(Reversed(WordsWith(i, j, i * j - k)), WordsWith(i, j, k));
  }

  // The table ----------------------------------------------------------------

  /** One row: the orderings of `i` and `j` values, by their number of wins. */
  ghost predicate RowDone(counts: array3<nat>, i: nat, j: nat)
    requires i < counts.Length0 && j < counts.Length1
    reads counts
  {
    forall k :: 0 <= k < counts.Length2 ==> counts[i, j, k] == |WordsWith(i, j, k)|
  }

  ghost predicate RowEmpty(counts: array3<nat>, i: nat, j: nat)
    requires i < counts.Length0 && j < counts.Length1
    reads counts
  {
    forall k :: 0 <= k < counts.Length2 ==> counts[i, j, k] == 0
  }

  /** The rows in the order the two outer loops reach them. */
  predicate Before(p: nat, q: nat, i: nat, j: nat) {
    p < i || (p == i && q < j)
  }

  ghost predicate DoneBefore(counts: array3<nat>, i: nat, j: nat)
    reads counts
  {
    && (forall p: nat, q: nat :: p < counts.Length0 && q < counts.Length1 && Before(p, q, i, j) ==> RowDone(counts, p, q))
    && (forall p: nat, q: nat :: p < counts.Length0 && q < counts.Length1 && !Before(p, q, i, j) ==> RowEmpty(counts, p, q))
  }

  twostate predicate OthersKept(counts: array3<nat>, i: nat, j: nat)
    reads counts
  {
    forall p, q, k ::
      0 <= p < counts.Length0 && 0 <= q < counts.Length1 && 0 <= k < counts.Length2 && (p != i || q != j) ==>
        counts[p, q, k] == old(counts[p, q, k])
  }

  lemma ProductMonotone(i: nat, j: nat, m: nat, n: nat)
    requires i <= m && j <= n
    ensures i * j <= m * n
  {
  }

  lemma StartsEmpty(counts: array3<nat>)
    requires forall p, q, k :: 0 <= p < counts.Length0 && 0 <= q < counts.Length1 && 0 <= k < counts.Length2 ==> counts[p, q, k] == 0
    ensures DoneBefore(counts, 0, 0)
  {
  }

  method FillEdge(counts: array3<nat>, i: nat, j: nat)
    requires i < counts.Length0 && j < counts.Length1 && counts.Length2 > 0
    requires i == 0 || j == 0
    requires RowEmpty(counts, i, j)
    modifies counts
    ensures RowDone(counts, i, j)
    ensures OthersKept(counts, i, j)
  {
    counts[i, j, 0] := 1;
    forall k | 0 <= k < counts.Length2 ensures counts[i, j, k] == |WordsWith(i, j, k)| {
      EdgeCounts(i, j, k);
    }
  }

  method FillRow(counts: array3<nat>, i: nat, j: nat)
    requires 0 < i < counts.Length0 && 0 < j < counts.Length1 && counts.Length2 > i * j
    requires RowDone(counts, i - 1, j) && RowDone(counts, i, j - 1)
    requires RowEmpty(counts, i, j)
    modifies counts
    ensures RowDone(counts, i, j)
    ensures OthersKept(counts, i, j)
  {
    hide WordsWith;
    for k := 0 to i * j + 1
      invariant forall l :: 0 <= l < k ==> counts[i, j, l] == |WordsWith(i, j, l)|
      invariant forall l :: k <= l < counts.Length2 ==> counts[i, j, l] == 0
      invariant OthersKept(counts, i, j)
    {
      assert RowDone(counts, i - 1, j) && RowDone(counts, i, j - 1);
      Recurrence(i, j, k);
      if k < j { NoneBeyond(i - 1, j, k - j); }
      counts[i, j, k] := (if k >= j then counts[i - 1, j, k - j] else 0) + counts[i, j - 1, k];
    }
    forall k | i * j < k < counts.Length2 ensures counts[i, j, k] == |WordsWith(i, j, k)| {
      NoneBeyond(i, j, k);
    }
  }

  /** The body of the two outer loops. */
  method FillNext(counts: array3<nat>, i: nat, j: nat)
    requires i < counts.Length0 && j < counts.Length1 && counts.Length2 > i * j
    requires DoneBefore(counts, i, j)
    modifies counts
    ensures DoneBefore(counts, i, j + 1)
  {
    if i == 0 || j == 0 {
      FillEdge(counts, i, j);
    } else {
      FillRow(counts, i, j);
    }
    forall p: nat, q: nat | p < counts.Length0 && q < counts.Length1 && Before(p, q, i, j + 1) ensures RowDone(counts, p, q) {
      assert p != i || q != j ==> old(RowDone(counts, p, q));
    }
    forall p: nat, q: nat | p < counts.Length0 && q < counts.Length1 && !Before(p, q, i, j + 1) ensures RowEmpty(counts, p, q) {
      assert old(RowEmpty(counts, p, q));
    }
  }

  /** The three-dimensional dynamic program of the exact test. */
  method CountOrderings(n1: nat, n2: nat) returns (counts: array3<nat>)
    ensures fresh(counts)
    ensures counts.Length0 == n1 + 1 && counts.Length1 == n2 + 1 && counts.Length2 == n1 * n2 + 1
    ensures forall i, j :: 0 <= i <= n1 && 0 <= j <= n2 ==> RowDone(counts, i, j)
  {
    hide RowDone, RowEmpty;
    counts := new nat[n1 + 1, n2 + 1, n1 * n2 + 1]((i, j, k) => 0);
    StartsEmpty(counts);
    for i := 0 to n1 + 1
      invariant DoneBefore(counts, i, 0)
    {
      for j := 0 to n2 + 1
        invariant DoneBefore(counts, i, j)
      {
        ProductMonotone(i, j, n1, n2);
        FillNext(counts, i, j);
      }
    }
  }
}
