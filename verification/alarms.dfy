/** internal/core/alarms.go, EvaluateConditions: a rule's verdict as a sum of products. */
module Alarms {

  /** Whether the condition at i begins a new product. */
  predicate Begins(logic: seq<string>, i: nat)
    requires i == 0 || i < |logic|
  {
    i == 0 || logic[i] == "OR"
  }

  /** The conditions i..j among the first n are a whole product: a longest run not broken by an OR. */
  predicate Product(logic: seq<string>, n: nat, i: nat, j: nat)
    requires n <= 1 || n <= |logic|
  {
    && i < j <= n && Begins(logic, i)
    && (j < n ==> Begins(logic, j))
    && forall k | i < k < j :: !Begins(logic, k)
  }

  predicate AllTrue(results: seq<bool>, i: nat, j: nat)
    requires i <= j <= |results|
  {
    forall k | i <= k < j :: results[k]
  }

  /** Some product of the first n conditions is all true. */
  ghost predicate SumOfProducts(results: seq<bool>, logic: seq<string>, n: nat)
    requires n <= |results| && (n <= 1 || n <= |logic|)
  {
    exists i: nat, j: nat :: Product(logic, n, i, j) && AllTrue(results, i, j)
  }

  /** The source reads a connector for every condition but the first. */
  method EvaluateConditions(results: seq<bool>, logic: seq<string>) returns (verdict: bool)
    requires |results| <= 1 || |results| <= |logic|
    ensures verdict <==> SumOfProducts(results, logic, |results|)
  {
    if |results| == 0 {
      return false;
    }
    var total, term := false, results[0];
    ghost var start := 0;
    for i := 1 to |results|
      invariant 0 <= start < i && Begins(logic, start) && forall k | start < k < i :: !Begins(logic, k)
      invariant term <==> AllTrue(results, start, i)
      invariant total <==> start > 0 && SumOfProducts(results, logic, start)
    {
      if logic[i] == "OR" {
        CloseProduct(results, logic, start, i);
        total := total || term;
        term := results[i];
        start := i;
      } else {
        term := term && results[i];
      }
    }
    CloseProduct(results, logic, start, |results|);
    return total || term;
  }

  /** A product that ends at n is the last one; the others end at its beginning or before. */
  lemma CloseProduct(results: seq<bool>, logic: seq<string>, start: nat, n: nat)
    requires start < n <= |results| && (n <= 1 || n <= |logic|)
    requires Begins(logic, start) && forall k | start < k < n :: !Begins(logic, k)
    ensures SumOfProducts(results, logic, n) <==>
            (start > 0 && SumOfProducts(results, logic, start)) || AllTrue(results, start, n)
  {
    if SumOfProducts(results, logic, n) {
      var i: nat, j: nat :| Product(logic, n, i, j) && AllTrue(results, i, j);
      if j < n {
        assert j <= start;
        assert Product(logic, start, i, j);
      } else {
        assert i == start;
      }
    }
    if start > 0 && SumOfProducts(results, logic, start) {
      var i: nat, j: nat :| Product(logic, start, i, j) && AllTrue(results, i, j);
      assert Product(logic, n, i, j);
    }
    if AllTrue(results, start, n) {
      assert Product(logic, n, start, n);
    }
  }

  /** The list (r, l) is (r1, l1) followed by (r2, l2). */
  ghost predicate Joined(r: seq<bool>, l: seq<string>, r1: seq<bool>, l1: seq<string>, r2: seq<bool>, l2: seq<string>) {
    && |l| == |r| && |l1| == |r1| && |l2| == |r2| && |r| == |r1| + |r2|
    && (forall k | 0 <= k < |r1| :: r[k] == r1[k] && Begins(l, k) == Begins(l1, k))
    && (forall k | |r1| <= k < |r| :: r[k] == r2[k - |r1|] && Begins(l, k) == Begins(l2, k - |r1|))
  }

  lemma FirstPart(r: seq<bool>, l: seq<string>, r1: seq<bool>, l1: seq<string>, r2: seq<bool>, l2: seq<string>)
    requires Joined(r, l, r1, l1, r2, l2) && r2 != []
    ensures (exists i: nat, j: nat :: i < |r1| && Product(l, |r|, i, j) && AllTrue(r, i, j)) <==>
            SumOfProducts(r1, l1, |r1|)
  {
    var m := |r1|;
    assert Begins(l2, 0) && Begins(l, m);
    if i: nat, j: nat :| i < m && Product(l, |r|, i, j) && AllTrue(r, i, j) {
      assert j <= m;
      assert Product(l1, m, i, j) && AllTrue(r1, i, j);
    }
    if SumOfProducts(r1, l1, m) {
      var i: nat, j: nat :| Product(l1, m, i, j) && AllTrue(r1, i, j);
      assert Product(l, |r|, i, j) && AllTrue(r, i, j);
    }
  }

  lemma SecondPart(r: seq<bool>, l: seq<string>, r1: seq<bool>, l1: seq<string>, r2: seq<bool>, l2: seq<string>)
    requires Joined(r, l, r1, l1, r2, l2)
    ensures (exists i: nat, j: nat :: |r1| <= i && Product(l, |r|, i, j) && AllTrue(r, i, j)) <==>
            SumOfProducts(r2, l2, |r2|)
  {
    var m := |r1|;
    if i: nat, j: nat :| m <= i && Product(l, |r|, i, j) && AllTrue(r, i, j) {
      forall k | i - m <= k < j - m
        ensures r2[k] && (k > i - m ==> !Begins(l2, k))
      {
        assert r[k + m] && (k > i - m ==> !Begins(l, k + m));
      }
      assert Product(l2, |r2|, i - m, j - m) && AllTrue(r2, i - m, j - m);
    }
    if SumOfProducts(r2, l2, |r2|) {
      var i: nat, j: nat :| Product(l2, |r2|, i, j) && AllTrue(r2, i, j);
      assert Product(l, |r|, i + m, j + m) && AllTrue(r, i + m, j + m);
    }
  }

  /** Joining two lists with an OR gives the disjunction of their verdicts. */
  lemma OrJoinsVerdicts(r1: seq<bool>, l1: seq<string>, r2: seq<bool>, l2: seq<string>)
    requires |r1| == |l1| && |r2| == |l2| && r2 != [] && l2[0] == "OR"
    ensures SumOfProducts(r1 + r2, l1 + l2, |r1 + r2|) <==>
            SumOfProducts(r1, l1, |r1|) || SumOfProducts(r2, l2, |r2|)
  {
    var r, l := r1 + r2, l1 + l2;
    FirstPart(r, l, r1, l1, r2, l2);
    SecondPart(r, l, r1, l1, r2, l2);
    AtEitherSide(r, l, |r1|);
  }

  lemma AtEitherSide(r: seq<bool>, l: seq<string>, m: nat)
    requires |r| == |l|
    ensures SumOfProducts(r, l, |r|) <==>
            || (exists i: nat, j: nat :: i < m && Product(l, |r|, i, j) && AllTrue(r, i, j))
            || (exists i: nat, j: nat :: m <= i && Product(l, |r|, i, j) && AllTrue(r, i, j))
  {
  }

  /** Turning conditions true never turns the verdict false. */
  lemma VerdictIsMonotone(before: seq<bool>, after: seq<bool>, logic: seq<string>)
    requires |before| == |after| && (|before| <= 1 || |before| <= |logic|)
    requires forall k | 0 <= k < |before| :: before[k] ==> after[k]
    ensures SumOfProducts(before, logic, |before|) ==> SumOfProducts(after, logic, |after|)
  {
    if SumOfProducts(before, logic, |before|) {
      var i: nat, j: nat :| Product(logic, |before|, i, j) && AllTrue(before, i, j);
      assert AllTrue(after, i, j);
    }
  }
}
