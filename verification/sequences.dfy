/** Facts about sequences and runs that several components share. */
module Sequences {

  ghost predicate HandsOn(p: nat -> bool, k: nat) {
    p(k) ==> p(k + 1)
  }

  /** Induction along a run: what holds at first, and is handed on by every step, holds at n. */
  lemma {:induction false} StepByStep(p: nat -> bool, n: nat)
    requires p(0) && forall k: nat | k < n :: HandsOn(p, k)
    ensures p(n)
  {
    if n == 0 {
    } else {
      StepByStep(p, n - 1);
      assert HandsOn(p, n - 1);
    }
  }

  lemma SameMembers<T>(a: seq<T>, b: seq<T>)
    requires multiset(a) == multiset(b)
    ensures |a| == |b|
    ensures forall x :: x in a <==> x in b
  {
    assert |multiset(a)| == |a| && |multiset(b)| == |b|;
    forall x
      ensures x in a <==> x in b
    {
      assert x in a <==> x in multiset(a);
      assert x in b <==> x in multiset(b);
    }
  }

  function Without<T>(s: seq<T>, k: nat): (r: seq<T>)
    requires k < |s|
    ensures |r| == |s| - 1
  {
    s[..k] + s[k + 1..]
  }

  lemma WithoutMembers<T>(s: seq<T>, k: nat)
    requires k < |s|
    ensures multiset(s) == multiset(Without(s, k)) + multiset{s[k]}
  {
    assert s == s[..k] + [s[k]] + s[k + 1..];
  }

  /** The results of f for each element, concatenated. */
  function Flat<T, U>(f: T -> seq<U>, s: seq<T>): seq<U> {
    if s == [] then [] else Flat(f, s[..|s| - 1]) + f(s[|s| - 1])
  }

  /** The same for the first n elements. */
  function FlatTo<T, U>(f: T -> seq<U>, s: seq<T>, n: nat): seq<U>
    requires n <= |s|
  {
    if n == 0 then [] else FlatTo(f, s, n - 1) + f(s[n - 1])
  }

  lemma {:induction false} FlatToPrefix<T, U>(f: T -> seq<U>, s: seq<T>, n: nat)
    requires n <= |s|
    ensures FlatTo(f, s, n) == Flat(f, s[..n])
  {
    if n == 0 {
    } else {
      FlatToPrefix(f, s, n - 1);
      assert s[..n][..n - 1] == s[..n - 1];
    }
  }

  lemma FlatToAll<T, U>(f: T -> seq<U>, s: seq<T>)
    ensures FlatTo(f, s, |s|) == Flat(f, s)
  {
    FlatToPrefix(f, s, |s|);
    assert s[..|s|] == s;
  }

  lemma AppendLast<T>(a: seq<T>, b: seq<T>)
    requires b != []
    ensures |a + b| > 0 && (a + b)[|a + b| - 1] == b[|b| - 1] && (a + b)[..|a + b| - 1] == a + b[..|b| - 1]
  {
  }

  lemma {:induction false} FlatAppend<T, U>(f: T -> seq<U>, a: seq<T>, b: seq<T>)
    ensures Flat(f, a + b) == Flat(f, a) + Flat(f, b)
  {
    if b == [] {
      assert a + b == a;
    } else {
      var n := |b| - 1;
      AppendLast(a, b);
      FlatAppend(f, a, b[..n]);
    }
  }

  lemma FlatMiddle<T, U>(f: T -> seq<U>, before: seq<T>, x: T, after: seq<T>)
    ensures Flat(f, before + [x] + after) == Flat(f, before) + f(x) + Flat(f, after)
  {
    FlatAppend(f, before + [x], after);
    assert (before + [x])[..|before|] == before;
  }

  lemma CountMiddle<T>(a: seq<T>, b: seq<T>, c: seq<T>, whole: seq<T>, rest: seq<T>)
    requires whole == a + b + c && rest == a + c
    ensures multiset(whole) == multiset(rest) + multiset(b)
  {
  }

  lemma SplitAt<T>(s: seq<T>, k: nat)
    requires k < |s|
    ensures s == s[..k] + [s[k]] + s[k + 1..]
  {
  }

  lemma FlatSplit<T, U>(f: T -> seq<U>, s: seq<T>, k: nat)
    requires k < |s|
    ensures Flat(f, s) == Flat(f, s[..k]) + f(s[k]) + Flat(f, s[k + 1..])
  {
    calc {
      Flat(f, s);
      { SplitAt(s, k); }
      Flat(f, s[..k] + [s[k]] + s[k + 1..]);
      { FlatMiddle(f, s[..k], s[k], s[k + 1..]); }
      Flat(f, s[..k]) + f(s[k]) + Flat(f, s[k + 1..]);
    }
  }

  lemma FlatWithout<T, U>(f: T -> seq<U>, s: seq<T>, k: nat)
    requires k < |s|
    ensures multiset(Flat(f, s)) == multiset(Flat(f, Without(s, k))) + multiset(f(s[k]))
  {
    FlatSplit(f, s, k);
    FlatAppend(f, s[..k], s[k + 1..]);
    CountMiddle(Flat(f, s[..k]), f(s[k]), Flat(f, s[k + 1..]), Flat(f, s), Flat(f, Without(s, k)));
  }

  /** Concatenating twice is concatenating once, with each element's own list. */
  lemma {:induction false} FlatTwice<T, U, V>(f: U -> seq<V>, g: T -> seq<U>, h: T -> seq<V>, s: seq<T>, n: nat)
    requires n <= |s| && forall i | 0 <= i < |s| :: h(s[i]) == Flat(f, g(s[i]))
    ensures Flat(f, FlatTo(g, s, n)) == FlatTo(h, s, n)
  {
    if n == 0 {
    } else {
      FlatTwice(f, g, h, s, n - 1);
      FlatAppend(f, FlatTo(g, s, n - 1), g(s[n - 1]));
    }
  }

  lemma {:induction false} FlatNone<T, U>(f: T -> seq<U>, s: seq<T>, n: nat)
    requires n <= |s| && forall i | 0 <= i < |s| :: f(s[i]) == []
    ensures FlatTo(f, s, n) == []
  {
    if n == 0 {
    } else {
      FlatNone(f, s, n - 1);
    }
  }

  /** Only one element has anything. */
  lemma {:induction false} FlatOnly<T, U>(f: T -> seq<U>, s: seq<T>, k: nat, n: nat)
    requires k < |s| && n <= |s| && forall i | 0 <= i < |s| && i != k :: f(s[i]) == []
    ensures FlatTo(f, s, n) == if k < n then f(s[k]) else []
  {
    if n == 0 {
    } else {
      FlatOnly(f, s, k, n - 1);
    }
  }

  lemma {:induction false} FlatPermute<T, U>(f: T -> seq<U>, a: seq<T>, b: seq<T>)
    requires multiset(a) == multiset(b)
    ensures multiset(Flat(f, a)) == multiset(Flat(f, b))
    decreases |a|
  {
    SameMembers(a, b);
    if a == [] {
    } else {
      var n := |a| - 1;
      assert a[n] in b;
      var k :| 0 <= k < |b| && b[k] == a[n];
      WithoutMembers(a, n);
      WithoutMembers(b, k);
      assert multiset(Without(a, n)) == multiset(a) - multiset{a[n]};
      assert multiset(Without(b, k)) == multiset(b) - multiset{a[n]};
      FlatPermute(f, Without(a, n), Without(b, k));
      FlatWithout(f, a, n);
      FlatWithout(f, b, k);
    }
  }

  function Single<T, U>(f: T -> U): T -> seq<U> {
    (x: T) => [f(x)]
  }

  lemma {:induction false} FlatOfSingles<T, U>(f: T -> U, s: seq<T>, mapped: seq<U>, n: nat)
    requires n <= |s| == |mapped| && forall i | 0 <= i < |s| :: mapped[i] == f(s[i])
    ensures FlatTo(Single(f), s, n) == mapped[..n]
  {
    if n == 0 {
    } else {
      FlatOfSingles(f, s, mapped, n - 1);
      assert mapped[..n] == mapped[..n - 1] + [mapped[n - 1]];
    }
  }

  /** A function takes permutations to permutations. */
  lemma MapPermutes<T, U>(f: T -> U, a: seq<T>, b: seq<T>, mappedA: seq<U>, mappedB: seq<U>)
    requires multiset(a) == multiset(b)
    requires |mappedA| == |a| && forall i | 0 <= i < |a| :: mappedA[i] == f(a[i])
    requires |mappedB| == |b| && forall i | 0 <= i < |b| :: mappedB[i] == f(b[i])
    ensures multiset(mappedA) == multiset(mappedB)
  {
    FlatOfSingles(f, a, mappedA, |a|);
    FlatOfSingles(f, b, mappedB, |b|);
    FlatToAll(Single(f), a);
    FlatToAll(Single(f), b);
    FlatPermute(Single(f), a, b);
    assert mappedA[..|a|] == mappedA && mappedB[..|b|] == mappedB;
  }

  lemma {:induction false} FlatMember<T, U>(f: T -> seq<U>, s: seq<T>, y: U) returns (k: nat)
    requires y in Flat(f, s)
    ensures k < |s| && y in f(s[k])
  {
    var n := |s| - 1;
    if y in f(s[n]) {
      k := n;
    } else {
      k := FlatMember(f, s[..n], y);
    }
  }

  lemma {:induction false} FlatHas<T, U>(f: T -> seq<U>, s: seq<T>, k: nat, y: U)
    requires k < |s| && y in f(s[k])
    ensures y in Flat(f, s)
  {
    var n := |s| - 1;
    if k == n {
    } else {
      FlatHas(f, s[..n], k, y);
    }
  }

  /** The sum of a measure over the first n elements. */
  function TotalTo<T>(f: T -> real, s: seq<T>, n: nat): real
    requires n <= |s|
  {
    if n == 0 then 0.0 else TotalTo(f, s, n - 1) + f(s[n - 1])
  }

  function Total<T>(f: T -> real, s: seq<T>): real {
    TotalTo(f, s, |s|)
  }

  lemma {:induction false} TotalPrefix<T>(f: T -> real, s: seq<T>, t: seq<T>, n: nat)
    requires n <= |s| && n <= |t| && forall i | 0 <= i < n :: s[i] == t[i]
    ensures TotalTo(f, s, n) == TotalTo(f, t, n)
  {
    if n == 0 {
    } else {
      TotalPrefix(f, s, t, n - 1);
    }
  }

  lemma TotalPush<T>(f: T -> real, s: seq<T>, x: T)
    ensures Total(f, s + [x]) == Total(f, s) + f(x)
  {
    TotalPrefix(f, s + [x], s, |s|);
  }

  lemma {:induction false} TotalUpdate<T>(f: T -> real, s: seq<T>, k: nat, x: T, n: nat)
    requires k < |s| && n <= |s|
    ensures TotalTo(f, s[k := x], n) == TotalTo(f, s, n) + if k < n then f(x) - f(s[k]) else 0.0
  {
    if n == 0 {
    } else {
      TotalUpdate(f, s, k, x, n - 1);
    }
  }

  lemma {:induction false} TotalAppend<T>(f: T -> real, s: seq<T>, t: seq<T>, n: nat)
    requires n <= |t|
    ensures TotalTo(f, s + t, |s| + n) == Total(f, s) + TotalTo(f, t, n)
  {
    if n == 0 {
      TotalPrefix(f, s + t, s, |s|);
    } else {
      TotalAppend(f, s, t, n - 1);
    }
  }

  lemma TotalWithout<T>(f: T -> real, s: seq<T>, k: nat)
    requires k < |s|
    ensures Total(f, s) == Total(f, Without(s, k)) + f(s[k])
  {
    TotalAppend(f, s[..k], s[k + 1..], |s[k + 1..]|);
    TotalPush(f, s[..k], s[k]);
    TotalAppend(f, s[..k] + [s[k]], s[k + 1..], |s[k + 1..]|);
    SplitAt(s, k);
  }

  lemma {:induction false} TotalPermute<T>(f: T -> real, a: seq<T>, b: seq<T>)
    requires multiset(a) == multiset(b)
    ensures Total(f, a) == Total(f, b)
    decreases |a|
  {
    SameMembers(a, b);
    if a == [] {
    } else {
      var n := |a| - 1;
      assert a[n] in b;
      var k :| 0 <= k < |b| && b[k] == a[n];
      WithoutMembers(a, n);
      WithoutMembers(b, k);
      assert multiset(Without(a, n)) == multiset(a) - multiset{a[n]};
      assert multiset(Without(b, k)) == multiset(b) - multiset{a[n]};
      TotalPermute(f, Without(a, n), Without(b, k));
      TotalWithout(f, a, n);
      TotalWithout(f, b, k);
    }
  }

  // ----- sorting -----

  /** No later element belongs before an earlier one. */
  ghost predicate SortedBy<T>(less: (T, T) -> bool, s: seq<T>) {
    forall i, j | 0 <= i < j < |s| :: !less(s[j], s[i])
  }

  /** An order in which elements may rank alike. */
  ghost predicate Ranks<T(!new)>(less: (T, T) -> bool) {
    && (forall x, y :: less(x, y) ==> !less(y, x))
    && (forall x, y, z :: !less(y, x) && !less(z, y) ==> !less(z, x))
  }

  /** A library sort, of which callers rely on nothing but these ensures; this body picks one
      order of the elements that rank alike. */
  method Sort<T(!new)>(less: (T, T) -> bool, s: seq<T>) returns (sorted: seq<T>)
    requires Ranks(less)
    ensures SortedBy(less, sorted) && multiset(sorted) == multiset(s)
  {
    sorted := [];
    for i := 0 to |s|
      invariant SortedBy(less, sorted) && multiset(sorted) == multiset(s[..i])
    {
      assert s[..i + 1] == s[..i] + [s[i]];
      sorted := Insert(less, sorted, s[i]);
    }
    assert s[..|s|] == s;
  }

  method Insert<T(!new)>(less: (T, T) -> bool, sorted: seq<T>, x: T) returns (r: seq<T>)
    requires Ranks(less) && SortedBy(less, sorted)
    ensures SortedBy(less, r) && multiset(r) == multiset(sorted) + multiset{x}
  {
    var k := |sorted|;
    while k > 0 && less(x, sorted[k - 1])
      invariant 0 <= k <= |sorted|
      invariant forall j | k <= j < |sorted| :: less(x, sorted[j])
    {
      k := k - 1;
    }
    r := sorted[..k] + [x] + sorted[k..];
    assert sorted == sorted[..k] + sorted[k..];
    InsertKeepsSorted(less, sorted, x, k);
  }

  lemma InsertKeepsSorted<T(!new)>(less: (T, T) -> bool, sorted: seq<T>, x: T, k: nat)
    requires Ranks(less) && SortedBy(less, sorted) && k <= |sorted|
    requires k > 0 ==> !less(x, sorted[k - 1])
    requires forall j | k <= j < |sorted| :: less(x, sorted[j])
    ensures SortedBy(less, sorted[..k] + [x] + sorted[k..])
  {
    var r := sorted[..k] + [x] + sorted[k..];
    forall i, j | 0 <= i < j < |r|
      ensures !less(r[j], r[i])
    {
      if i < k && j == k {
        assert i < k - 1 ==> !less(sorted[k - 1], sorted[i]);
      }
    }
  }
}
