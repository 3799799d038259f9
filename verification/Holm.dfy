/** Holm's step-down test, with real numbers in place of floating point. */
module Holm {
  import opened Collections

  function Indices(n: nat): (s: set<nat>)
    ensures |s| == n && forall k: nat :: k in s <==> k < n
  {
    if n == 0 then {}
    else
      var front := Indices(n - 1);
      assert n - 1 !in front;
      front + {n - 1}
  }

  /** The hypotheses with a smaller p-value than `v`. */
  function Smaller(p: seq<real>, v: real): set<nat> {
    set k | 0 <= k < |p| && p[k] < v
  }

  lemma SmallerBound(p: seq<real>, v: real)
    ensures |Smaller(p, v)| <= |p|
    ensures v in p ==> |Smaller(p, v)| < |p|
  {
    var all := Indices(|p|);
    SubsetSize(Smaller(p, v), all);
    if v in p {
      var k: nat :| k < |p| && p[k] == v;
      SubsetSize(Smaller(p, v), all - {k});
      assert |all - {k}| == |all| - 1;
    }
  }

  /** What is left of `alpha` for each of the hypotheses that do not have a smaller p-value than `v`. */
  function Threshold(p: seq<real>, alpha: real, v: real): real
    requires v in p
  {
    SmallerBound(p, v);
    alpha / (|p| - |Smaller(p, v)|) as real
  }

  /** Every hypothesis up to `i`, in any order of equal p-values, is below its threshold. */
  ghost predicate Rejected(p: seq<real>, alpha: real, i: nat)
    requires i < |p|
  {
    forall j :: 0 <= j < |p| && p[j] <= p[i] ==> p[j] < Threshold(p, alpha, p[j])
  }

  lemma Shares(alpha: real, m: nat, n: nat)
    requires alpha >= 0.0 && 0 < m <= n
    ensures alpha / n as real <= alpha / m as real
  {
  }

  // What the test promises ---------------------------------------------------

  lemma {:induction false} LeastOf(p: seq<real>, t: set<nat>) returns (j: nat)
    requires t != {} && forall k :: k in t ==> k < |p|
    ensures j in t && forall k :: k in t ==> p[j] <= p[k]
    decreases |t|
  {
    j :| j in t;
    if t != {j} {
      var other := LeastOf(p, t - {j});
      if p[other] < p[j] {
        j := other;
      }
    }
  }

  lemma Disjoint(a: set<nat>, b: set<nat>, all: set<nat>)
    requires a !! b && a <= all && b <= all
    ensures |a| + |b| <= |all|
  {
    SubsetSize(a + b, all);
    assert |a + b| == |a| + |b|;
  }

  lemma NoneSmaller(p: seq<real>, t: set<nat>, v: real)
    requires forall k :: k in t ==> k < |p| && v <= p[k]
    ensures |t| <= |p| - |Smaller(p, v)|
  {
    Disjoint(t, Smaller(p, v), Indices(|p|));
  }

  /**
   * Holm's guarantee: a rejection among the hypotheses `t` needs one of them below an equal share of
   * `alpha`, which is unlikely when all of them are true.
   */
  lemma FamilyGuarantee(p: seq<real>, alpha: real, t: set<nat>, i: nat)
    requires alpha >= 0.0 && i in t && forall k :: k in t ==> k < |p|
    requires Rejected(p, alpha, i)
    ensures exists j :: j in t && p[j] < alpha / |t| as real
  {
    hide Smaller, Indices;
    var j := LeastOf(p, t);
    assert p[j] < Threshold(p, alpha, p[j]);
    NoneSmaller(p, t, p[j]);
    SmallerBound(p, p[j]);
    Shares(alpha, |t|, |p| - |Smaller(p, p[j])|);
  }

  /** Rejection goes down: a hypothesis with a smaller or equal p-value is rejected too. */
  lemma RejectsDownward(p: seq<real>, alpha: real, i: nat, j: nat)
    requires i < |p| && j < |p| && p[j] <= p[i] && Rejected(p, alpha, i)
    ensures Rejected(p, alpha, j)
  {
  }

  /** Holm rejects what Bonferroni rejects. */
  lemma RejectsBonferroni(p: seq<real>, alpha: real, i: nat)
    requires alpha >= 0.0 && i < |p| && p[i] < alpha / |p| as real
    ensures Rejected(p, alpha, i)
  {
    forall j | 0 <= j < |p| && p[j] <= p[i] ensures p[j] < Threshold(p, alpha, p[j]) {
      SmallerBound(p, p[j]);
      Shares(alpha, |p| - |Smaller(p, p[j])|, |p|);
    }
  }

  // The order ----------------------------------------------------------------

  ghost predicate SortedBy(p: seq<real>, order: seq<nat>)
    requires forall r :: 0 <= r < |order| ==> order[r] < |p|
  {
    forall q, r :: 0 <= q < r < |order| ==> p[order[q]] <= p[order[r]]
  }

  ghost predicate Distinct(order: seq<nat>) {
    forall q, r :: 0 <= q < r < |order| ==> order[q] != order[r]
  }

  /** Every index once, smallest p-value first, equal ones in any order. */
  ghost predicate IsOrder(p: seq<real>, order: seq<nat>) {
    && |order| == |p|
    && (forall r :: 0 <= r < |order| ==> order[r] < |p|)
    && Distinct(order)
    && (forall k :: 0 <= k < |p| ==> k in order)
    && SortedBy(p, order)
  }

  lemma {:induction false} PrefixSize(order: seq<nat>, r: nat)
    requires r <= |order| && Distinct(order)
    ensures |set q | 0 <= q < r :: order[q]| == r
  {
    if r > 0 {
      PrefixSize(order, r - 1);
      assert (set q | 0 <= q < r :: order[q]) == (set q | 0 <= q < r - 1 :: order[q]) + {order[r - 1]};
    }
  }

  /** The first rank that has the same p-value as rank `r`; the hypotheses before it are the smaller ones. */
  lemma {:induction false} FirstRank(p: seq<real>, order: seq<nat>, r: nat) returns (first: nat)
    requires IsOrder(p, order) && r < |p|
    ensures first <= r && p[order[first]] == p[order[r]]
    ensures |Smaller(p, p[order[r]])| == first
  {
    if r > 0 && p[order[r - 1]] == p[order[r]] {
      first := FirstRank(p, order, r - 1);
    } else {
      first := r;
      PrefixSize(order, r);
      var v := p[order[r]];
      assert Smaller(p, v) == set q | 0 <= q < r :: order[q] by {
        forall k | k in Smaller(p, v) ensures k in set q | 0 <= q < r :: order[q] {
          assert k in order;
          var q: nat :| q < |order| && order[q] == k;
          assert q < r;
        }
        forall q | 0 <= q < r ensures order[q] in Smaller(p, v) {
          assert p[order[q]] <= p[order[r - 1]] < v;
        }
      }
    }
  }

  /** The hypotheses before the first rank that fails are the rejected ones. */
  lemma StoppedAt(p: seq<real>, alpha: real, order: seq<nat>, stop: nat, q: nat)
    requires alpha >= 0.0 && IsOrder(p, order) && stop <= |p| && q < |p|
    requires forall r :: 0 <= r < stop ==> p[order[r]] < alpha / (|p| - r) as real
    requires stop < |p| ==> p[order[stop]] >= alpha / (|p| - stop) as real
    ensures Rejected(p, alpha, order[q]) <==> q < stop
  {
    hide IsOrder, Smaller;
    OrderFacts(p, order);
    if q < stop {
      forall j | 0 <= j < |p| && p[j] <= p[order[q]] ensures p[j] < Threshold(p, alpha, p[j]) {
        assert j in order;
        var r: nat :| r < |order| && order[r] == j;
        var first := FirstRank(p, order, r);
        if first > q {
          assert p[order[q]] <= p[order[first]];
          var sooner := FirstRank(p, order, q);
          assert false;
        }
      }
    } else {
      var first := FirstRank(p, order, stop);
      var j := order[stop];
      Shares(alpha, |p| - stop, |p| - first);
      assert p[j] <= p[order[q]] && p[j] >= Threshold(p, alpha, p[j]);
    }
  }

  lemma OrderFacts(p: seq<real>, order: seq<nat>)
    requires IsOrder(p, order)
    ensures |order| == |p| && (forall r :: 0 <= r < |order| ==> order[r] < |p|)
    ensures forall k :: 0 <= k < |p| ==> k in order
    ensures forall q, r :: 0 <= q < r < |order| ==> p[order[q]] <= p[order[r]]
    ensures forall q, r :: 0 <= q < r < |order| ==> order[q] != order[r]
  {
  }

  /** Sorting is stable: an index goes behind those with the same p-value. */
  function InsertIndex(p: seq<real>, order: seq<nat>, i: nat): (r: seq<nat>)
    requires i < |p| && forall q :: 0 <= q < |order| ==> order[q] < |p|
    ensures |r| == |order| + 1
    ensures forall k :: k in r <==> k in order || k == i
    ensures forall q :: 0 <= q < |r| ==> r[q] < |p|
  {
    if order == [] || p[order[|order| - 1]] <= p[i] then order + [i]
    else
      assert order == order[..|order| - 1] + [order[|order| - 1]];
      InsertIndex(p, order[..|order| - 1], i) + [order[|order| - 1]]
  }

  lemma Appended(p: seq<real>, front: seq<nat>, last: nat)
    requires last < |p| && forall q :: 0 <= q < |front| ==> front[q] < |p|
    ensures SortedBy(p, front + [last]) && Distinct(front + [last]) <==>
      SortedBy(p, front) && Distinct(front) && last !in front && forall k :: k in front ==> k < |p| && p[k] <= p[last]
  {
    var order := front + [last];
    assert order[|front|] == last;
    assert forall q :: 0 <= q < |front| ==> order[q] == front[q];
    if SortedBy(p, order) && Distinct(order) {
      forall k | k in front ensures k != last && p[k] <= p[last] {
        var q :| 0 <= q < |front| && front[q] == k;
      }
    }
  }

  lemma InsertUnfold(p: seq<real>, front: seq<nat>, last: nat, i: nat)
    requires i < |p| && last < |p| && forall q :: 0 <= q < |front| ==> front[q] < |p|
    ensures InsertIndex(p, front + [last], i) ==
      if p[last] <= p[i] then front + [last] + [i] else InsertIndex(p, front, i) + [last]
  {
  }

  lemma {:induction false} InsertSorted(p: seq<real>, order: seq<nat>, i: nat)
    requires i < |p| && forall q :: 0 <= q < |order| ==> order[q] < |p|
    requires SortedBy(p, order) && Distinct(order) && i !in order
    ensures SortedBy(p, InsertIndex(p, order, i)) && Distinct(InsertIndex(p, order, i))
  {
    if order == [] {
    } else {
      hide InsertIndex, SortedBy, Distinct;
      var front, last := order[..|order| - 1], order[|order| - 1];
      assert order == front + [last];
      InsertUnfold(p, front, last, i);
      Appended(p, front, last);
      if p[last] > p[i] {
        InsertSorted(p, front, i);
        Appended(p, InsertIndex(p, front, i), last);
      } else {
        Appended(p, order, i);
      }
    }
  }

  function Order(p: seq<real>, n: nat): (order: seq<nat>)
    requires n <= |p|
    ensures |order| == n && forall k :: k in order <==> 0 <= k < n
  {
    if n == 0 then []
    else
      var front := Order(p, n - 1);
      assert forall q :: 0 <= q < |front| ==> front[q] in front;
      InsertIndex(p, front, n - 1)
  }

  lemma {:induction false} OrderSorted(p: seq<real>, n: nat)
    requires n <= |p|
    ensures forall q :: 0 <= q < n ==> Order(p, n)[q] < |p|
    ensures SortedBy(p, Order(p, n)) && Distinct(Order(p, n))
  {
    if n > 0 {
      OrderSorted(p, n - 1);
      InsertSorted(p, Order(p, n - 1), n - 1);
      assert forall q :: 0 <= q < n ==> Order(p, n)[q] in Order(p, n);
    }
  }

  // The loop -----------------------------------------------------------------

  /** The loop over any order that sorts the p-values: how it breaks ties makes no difference. */
  method HolmOver(p: seq<real>, alpha: real, order: seq<nat>) returns (rejected: array<bool>)
    requires IsOrder(p, order)
    ensures rejected.Length == |p|
    ensures alpha >= 0.0 ==> forall i :: 0 <= i < |p| ==> (rejected[i] <==> Rejected(p, alpha, i))
  {
    rejected := new bool[|p|](_ => false);
    var rank := 0;
    while rank < |order|
      invariant rank <= |order|
      invariant forall r :: 0 <= r < rank ==> p[order[r]] < alpha / (|p| - r) as real
      invariant forall r :: 0 <= r < |order| ==> (rejected[order[r]] <==> r < rank)
    {
      var index := order[rank];
      if !(p[index] < alpha / (|p| - rank) as real) {
        break;
      }
      rejected[index] := true;
      rank := rank + 1;
    }
    if alpha >= 0.0 {
      forall i | 0 <= i < |p| ensures rejected[i] <==> Rejected(p, alpha, i) {
        assert i in order;
        var q :| 0 <= q < |order| && order[q] == i;
        StoppedAt(p, alpha, order, rank, q);
      }
    }
  }

  method HolmTest(p: seq<real>, alpha: real) returns (rejected: array<bool>)
    ensures rejected.Length == |p|
    ensures alpha >= 0.0 ==> forall i :: 0 <= i < |p| ==> (rejected[i] <==> Rejected(p, alpha, i))
  {
    OrderSorted(p, |p|);
    rejected := HolmOver(p, alpha, Order(p, |p|));
  }
}
