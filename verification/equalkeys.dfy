/** internal/profile/blocks.go: sort.Slice is not stable, so entries with equal keys come in any
    order; when that can change the number of requests. */
module EqualKeys {
  import opened Results
  import opened Domain
  import opened AcceptedSets
  import opened Decoding
  import opened Planning
  import opened Polling
  import opened Sequences
  import Addressing
  import Normalizing

  // ----- the packing loop by its open block -----

  /** What the packing loop goes by: how many blocks there are, and the extent of the open one. */
  datatype Tip = Nothing | Tip(count: nat, functionCode: int, start: int, end: int)

  function TipOf(blocks: seq<Block>): Tip {
    if blocks == [] then Nothing
    else
      var b := blocks[|blocks| - 1];
      Tip(|blocks|, b.functionCode, b.start, b.End())
  }

  function CountOf(t: Tip): nat {
    if t.Nothing? then 0 else t.count
  }

  predicate Fits(t: Tip, functionCode: int, offset: int, length: int, limit: int) {
    t.Tip? && t.functionCode == functionCode && offset <= t.end && offset + length - t.start <= limit
  }

  function Extended(t: Tip, functionCode: int, offset: int, length: int, limit: int): Tip {
    if Fits(t, functionCode, offset, length, limit) then t.(end := Max(t.end, offset + length))
    else Tip(CountOf(t) + 1, functionCode, offset, offset + length)
  }

  /** Whether a register joins the open block. */
  predicate JoinsTip(t: Tip, e: Entry, limit: int) {
    Fits(t, e.FunctionCode(), e.offset, e.definition.length, limit)
  }

  function With(t: Tip, e: Entry, limit: int): Tip {
    Extended(t, e.FunctionCode(), e.offset, e.definition.length, limit)
  }

  function TipTo(entries: seq<Entry>, n: nat, limit: int): Tip
    requires n <= |entries|
  {
    if n == 0 then Nothing else With(TipTo(entries, n - 1, limit), entries[n - 1], limit)
  }

  lemma PlacedTip(blocks: seq<Block>, e: Entry, limit: int)
    ensures TipOf(Place(blocks, e, limit)) == With(TipOf(blocks), e, limit)
  {
  }

  lemma {:induction false} PackedTip(entries: seq<Entry>, n: nat, limit: int)
    requires n <= |entries|
    ensures TipOf(PackTo(entries, n, limit)) == TipTo(entries, n, limit)
    ensures |PackTo(entries, n, limit)| == CountOf(TipTo(entries, n, limit))
  {
    if n == 0 {
    } else {
      PackedTip(entries, n - 1, limit);
      PlacedTip(PackTo(entries, n - 1, limit), entries[n - 1], limit);
    }
  }

  lemma {:induction false} TipsAgree(a: seq<Entry>, b: seq<Entry>, n: nat, limit: int)
    requires n <= |a| && n <= |b| && forall i | 0 <= i < n :: a[i] == b[i]
    ensures TipTo(a, n, limit) == TipTo(b, n, limit)
  {
    if n == 0 {
    } else {
      TipsAgree(a, b, n - 1, limit);
    }
  }

  // ----- groups of entries with one key -----

  predicate SameKey(a: Entry, b: Entry) {
    a.FunctionCode() == b.FunctionCode() && a.offset == b.offset
  }

  predicate Overlong(e: Entry, limit: int) {
    e.definition.length > limit
  }

  ghost predicate Positive(entries: seq<Entry>) {
    forall i | 0 <= i < |entries| :: entries[i].definition.length >= 1
  }

  /** The entries lo..hi have one key. */
  ghost predicate OneKey(entries: seq<Entry>, lo: nat, hi: nat)
    requires lo < hi <= |entries|
  {
    forall i | lo <= i < hi :: SameKey(entries[i], entries[lo])
  }

  /** In a sorted list: all the entries of one key. */
  ghost predicate Group(entries: seq<Entry>, lo: nat, hi: nat) {
    && lo < hi <= |entries| && OneKey(entries, lo, hi)
    && (lo > 0 ==> !SameKey(entries[lo - 1], entries[lo]))
    && (hi < |entries| ==> !SameKey(entries[hi], entries[lo]))
  }

  ghost predicate HasOverlong(entries: seq<Entry>, lo: nat, hi: nat, limit: int)
    requires lo < hi <= |entries|
  {
    exists i | lo <= i < hi :: Overlong(entries[i], limit)
  }

  /** Every register of lo..hi within the limit joins the given block. */
  ghost predicate ShortsJoin(entries: seq<Entry>, lo: nat, hi: nat, t: Tip, limit: int)
    requires lo < hi <= |entries|
  {
    forall i | lo <= i < hi && !Overlong(entries[i], limit) :: JoinsTip(t, entries[i], limit)
  }

  /** Wherever a register is longer than the limit, those at its key that are not join the block that
      is open before them. */
  ghost predicate Steady(entries: seq<Entry>, limit: int) {
    forall lo: nat, hi: nat | Group(entries, lo, hi) && HasOverlong(entries, lo, hi, limit) ::
      ShortsJoin(entries, lo, hi, TipTo(entries, lo, limit), limit)
  }

  // ----- a group within the limit -----

  function Longest(entries: seq<Entry>, lo: nat, hi: nat): (length: int)
    requires lo < hi <= |entries|
    ensures forall i | lo <= i < hi :: entries[i].definition.length <= length
    ensures exists i | lo <= i < hi :: entries[i].definition.length == length
    decreases hi
  {
    if hi == lo + 1 then entries[lo].definition.length
    else Max(Longest(entries, lo, hi - 1), entries[hi - 1].definition.length)
  }

  lemma ExtendedTwice(t: Tip, functionCode: int, offset: int, a: int, b: int, limit: int)
    requires 1 <= a <= limit && 1 <= b <= limit
    ensures Extended(Extended(t, functionCode, offset, a, limit), functionCode, offset, b, limit) ==
            Extended(t, functionCode, offset, Max(a, b), limit)
  {
  }

  /** Entries of one key act on the packing as their longest one does, in whatever order, if none is
      longer than the limit. */
  lemma {:induction false} GroupActsAsLongest(entries: seq<Entry>, lo: nat, hi: nat, limit: int)
    requires lo < hi <= |entries| && OneKey(entries, lo, hi)
    requires Positive(entries) && !HasOverlong(entries, lo, hi, limit)
    ensures
      var e := entries[lo];
      TipTo(entries, hi, limit) ==
      Extended(TipTo(entries, lo, limit), e.FunctionCode(), e.offset, Longest(entries, lo, hi), limit)
    decreases hi
  {
    assert !Overlong(entries[hi - 1], limit);
    if hi == lo + 1 {
    } else {
      GroupActsAsLongest(entries, lo, hi - 1, limit);
      assert SameKey(entries[hi - 1], entries[lo]);
      var e, last := entries[lo], entries[hi - 1];
      ExtendedTwice(TipTo(entries, lo, limit), e.FunctionCode(), e.offset,
                    Longest(entries, lo, hi - 1), last.definition.length, limit);
    }
  }

  // ----- a group with an overlong register -----

  /** The open block does not start after a register of its function code. */
  predicate Before(t: Tip, e: Entry) {
    t.Tip? && t.functionCode == e.FunctionCode() ==> t.start <= e.offset
  }

  lemma {:induction false} TipFollows(entries: seq<Entry>, n: nat, limit: int)
    requires Sorted(entries) && 0 < n <= |entries|
    ensures
      var t, last := TipTo(entries, n, limit), entries[n - 1];
      t.Tip? && t.functionCode == last.FunctionCode() && t.start <= last.offset
  {
    if n == 1 {
    } else {
      TipFollows(entries, n - 1, limit);
      assert !KeyLess(entries[n - 1], entries[n - 2]);
    }
  }

  lemma TipIsBefore(entries: seq<Entry>, n: nat, limit: int)
    requires Sorted(entries) && n < |entries|
    ensures Before(TipTo(entries, n, limit), entries[n])
  {
    if n > 0 {
      TipFollows(entries, n, limit);
      assert !KeyLess(entries[n], entries[n - 1]);
    }
  }

  function Long(limit: int): Entry -> seq<Entry> {
    (e: Entry) => if Overlong(e, limit) then [e] else []
  }

  /** How many of the first n registers are longer than the limit. */
  function OverlongTo(entries: seq<Entry>, n: nat, limit: int): nat
    requires n <= |entries|
  {
    |FlatTo(Long(limit), entries, n)|
  }

  /** The tip u after part of a group that began at tip t and has opened a block for each of its
      overlong registers. */
  predicate Midway(t: Tip, u: Tip, begun: int, key: Entry, limit: int) {
    if begun == 0 then u == t || (t.Tip? && u.Tip? && u == t.(end := u.end) && t.end <= u.end)
    else u.Tip? && u.count == CountOf(t) + begun && u.functionCode == key.FunctionCode() && u.start == key.offset
         && u.end > key.offset + limit
  }

  lemma MidwayWith(t: Tip, u: Tip, begun: nat, key: Entry, e: Entry, limit: int)
    requires Midway(t, u, begun, key, limit) && Before(t, key) && SameKey(e, key) && e.definition.length >= 1
    requires !Overlong(e, limit) ==> JoinsTip(t, e, limit)
    ensures Midway(t, With(u, e, limit), begun + (if Overlong(e, limit) then 1 else 0), key, limit)
  {
  }

  lemma {:induction false} GroupOpens(entries: seq<Entry>, lo: nat, n: nat, hi: nat, limit: int)
    requires Sorted(entries) && Positive(entries) && lo < hi <= |entries| && lo <= n <= hi && OneKey(entries, lo, hi)
    requires ShortsJoin(entries, lo, hi, TipTo(entries, lo, limit), limit)
    ensures OverlongTo(entries, lo, limit) <= OverlongTo(entries, n, limit)
    ensures Midway(TipTo(entries, lo, limit), TipTo(entries, n, limit),
                   OverlongTo(entries, n, limit) - OverlongTo(entries, lo, limit), entries[lo], limit)
    decreases n
  {
    if n == lo {
    } else {
      GroupOpens(entries, lo, n - 1, hi, limit);
      TipIsBefore(entries, lo, limit);
      assert SameKey(entries[n - 1], entries[lo]);
      MidwayWith(TipTo(entries, lo, limit), TipTo(entries, n - 1, limit),
                 OverlongTo(entries, n - 1, limit) - OverlongTo(entries, lo, limit), entries[lo], entries[n - 1], limit);
    }
  }

  lemma {:induction false} OverlongGrows(entries: seq<Entry>, m: nat, n: nat, limit: int)
    requires m <= n <= |entries|
    ensures OverlongTo(entries, m, limit) <= OverlongTo(entries, n, limit)
    ensures (exists i | m <= i < n :: Overlong(entries[i], limit)) ==> OverlongTo(entries, m, limit) < OverlongTo(entries, n, limit)
    decreases n
  {
    if m == n {
    } else {
      OverlongGrows(entries, m, n - 1, limit);
    }
  }

  lemma OverlongPermutes(a: seq<Entry>, m: nat, b: seq<Entry>, n: nat, limit: int)
    requires m <= |a| && n <= |b| && multiset(a[..m]) == multiset(b[..n])
    ensures OverlongTo(a, m, limit) == OverlongTo(b, n, limit)
  {
    FlatToPrefix(Long(limit), a, m);
    FlatToPrefix(Long(limit), b, n);
    FlatPermute(Long(limit), a[..m], b[..n]);
    SameMembers(Flat(Long(limit), a[..m]), Flat(Long(limit), b[..n]));
  }

  // ----- tips that pack alike -----

  /** The same tip, or tips that differ only in an end past every span the limit allows. */
  predicate Alike(t: Tip, u: Tip, limit: int) {
    || t == u
    || (t.Tip? && u.Tip? && u == t.(end := u.end) && t.end > t.start + limit && u.end > u.start + limit)
  }

  lemma AlikeExtends(t: Tip, u: Tip, functionCode: int, offset: int, length: int, limit: int)
    requires Alike(t, u, limit) && length >= 1
    ensures Fits(t, functionCode, offset, length, limit) == Fits(u, functionCode, offset, length, limit)
    ensures Alike(Extended(t, functionCode, offset, length, limit), Extended(u, functionCode, offset, length, limit), limit)
  {
  }

  // ----- peeling off the last group -----

  /** Where the entries with the last key begin. */
  lemma {:induction false} LastGroup(entries: seq<Entry>, hi: nat) returns (lo: nat)
    requires Sorted(entries) && 0 < hi <= |entries|
    ensures lo < hi && OneKey(entries, lo, hi)
    ensures forall i | 0 <= i < lo :: KeyLess(entries[i], entries[hi - 1])
    decreases hi
  {
    if hi == 1 {
      lo := 0;
    } else if SameKey(entries[hi - 2], entries[hi - 1]) {
      lo := LastGroup(entries, hi - 1);
    } else {
      lo := hi - 1;
      assert KeyLess(entries[hi - 2], entries[hi - 1]);
    }
  }

  /** What a split at the last key holds. */
  lemma SplitByKey(entries: seq<Entry>, lo: nat, key: Entry, v: Entry)
    requires lo <= |entries|
    requires forall i | 0 <= i < lo :: !SameKey(entries[i], key)
    requires forall i | lo <= i < |entries| :: SameKey(entries[i], key)
    ensures multiset(entries[..lo])[v] == if SameKey(v, key) then 0 else multiset(entries)[v]
  {
    assert entries == entries[..lo] + entries[lo..];
    if SameKey(v, key) {
      assert v !in entries[..lo];
    } else {
      assert v !in entries[lo..];
    }
  }

  lemma SameLastKey(a: seq<Entry>, b: seq<Entry>)
    requires Sorted(a) && Sorted(b) && multiset(a) == multiset(b) && a != [] && b != []
    ensures SameKey(a[|a| - 1], b[|b| - 1])
  {
    SameMembers(a, b);
    assert a[|a| - 1] in b && b[|b| - 1] in a;
  }

  lemma LongestAmongSame(a: seq<Entry>, m: nat, b: seq<Entry>, n: nat, key: Entry)
    requires m < |a| && n < |b| && forall e | e in a :: e in b
    requires forall i | m <= i < |a| :: SameKey(a[i], key)
    requires forall i | 0 <= i < n :: !SameKey(b[i], key)
    ensures Longest(a, m, |a|) <= Longest(b, n, |b|)
  {
    var i :| m <= i < |a| && a[i].definition.length == Longest(a, m, |a|);
    assert a[i] in b;
  }

  lemma WithoutLastGroup(a: seq<Entry>, m: nat, b: seq<Entry>, n: nat)
    requires Sorted(a) && Sorted(b) && multiset(a) == multiset(b)
    requires m < |a| && n < |b| && OneKey(a, m, |a|) && OneKey(b, n, |b|) && SameKey(a[|a| - 1], b[|b| - 1])
    requires forall i | 0 <= i < m :: KeyLess(a[i], a[|a| - 1])
    requires forall i | 0 <= i < n :: KeyLess(b[i], b[|b| - 1])
    ensures multiset(a[..m]) == multiset(b[..n])
  {
    var key := a[|a| - 1];
    forall v: Entry
      ensures multiset(a[..m])[v] == multiset(b[..n])[v]
    {
      SplitByKey(a, m, key, v);
      SplitByKey(b, n, key, v);
    }
  }

  lemma OverlongAmongSame(a: seq<Entry>, m: nat, b: seq<Entry>, n: nat, key: Entry, limit: int)
    requires m < |a| && n < |b| && forall e | e in a :: e in b
    requires forall i | m <= i < |a| :: SameKey(a[i], key)
    requires forall i | 0 <= i < n :: !SameKey(b[i], key)
    ensures HasOverlong(a, m, |a|, limit) ==> HasOverlong(b, n, |b|, limit)
  {
    if i :| m <= i < |a| && Overlong(a[i], limit) {
      assert a[i] in b;
    }
  }

  lemma ShortsJoinAlike(a: seq<Entry>, m: nat, b: seq<Entry>, n: nat, key: Entry, t: Tip, u: Tip, limit: int)
    requires m < |a| && n < |b| && Positive(b) && forall e | e in b :: e in a
    requires forall i | n <= i < |b| :: SameKey(b[i], key)
    requires forall i | 0 <= i < m :: !SameKey(a[i], key)
    requires ShortsJoin(a, m, |a|, t, limit) && Alike(t, u, limit)
    ensures ShortsJoin(b, n, |b|, u, limit)
  {
    forall i | n <= i < |b| && !Overlong(b[i], limit)
      ensures JoinsTip(u, b[i], limit)
    {
      var e := b[i];
      assert e in a;
      var k :| 0 <= k < |a| && a[k] == e;
      assert JoinsTip(t, a[k], limit);
      AlikeExtends(t, u, e.FunctionCode(), e.offset, e.definition.length, limit);
    }
  }

  /** Two orders of the last group, each after a tip like the other's. */
  ghost predicate LastGroups(a: seq<Entry>, m: nat, b: seq<Entry>, n: nat) {
    && Sorted(a) && Sorted(b) && multiset(a) == multiset(b) && Positive(a) && Positive(b)
    && m < |a| && n < |b| && OneKey(a, m, |a|) && OneKey(b, n, |b|) && SameKey(a[|a| - 1], b[|b| - 1])
    && (forall i | 0 <= i < m :: KeyLess(a[i], a[|a| - 1]))
    && (forall i | 0 <= i < n :: KeyLess(b[i], b[|b| - 1]))
  }

  lemma ShortGroupsAlike(a: seq<Entry>, m: nat, b: seq<Entry>, n: nat, limit: int)
    requires LastGroups(a, m, b, n) && Alike(TipTo(a, m, limit), TipTo(b, n, limit), limit)
    requires !HasOverlong(a, m, |a|, limit)
    ensures Alike(TipTo(a, |a|, limit), TipTo(b, |b|, limit), limit)
  {
    SameMembers(a, b);
    var key := a[|a| - 1];
    OverlongAmongSame(b, n, a, m, key, limit);
    GroupActsAsLongest(a, m, |a|, limit);
    GroupActsAsLongest(b, n, |b|, limit);
    LongestAmongSame(a, m, b, n, key);
    LongestAmongSame(b, n, a, m, key);
    AlikeExtends(TipTo(a, m, limit), TipTo(b, n, limit), key.FunctionCode(), key.offset, Longest(a, m, |a|), limit);
  }

  lemma OverlongGroupsAlike(a: seq<Entry>, m: nat, b: seq<Entry>, n: nat, limit: int)
    requires LastGroups(a, m, b, n) && Alike(TipTo(a, m, limit), TipTo(b, n, limit), limit)
    requires HasOverlong(a, m, |a|, limit) && ShortsJoin(a, m, |a|, TipTo(a, m, limit), limit)
    ensures Alike(TipTo(a, |a|, limit), TipTo(b, |b|, limit), limit)
  {
    SameMembers(a, b);
    ShortsJoinAlike(a, m, b, n, a[|a| - 1], TipTo(a, m, limit), TipTo(b, n, limit), limit);
    WithoutLastGroup(a, m, b, n);
    OverlongPermutes(a, m, b, n, limit);
    assert a[..|a|] == a && b[..|b|] == b;
    OverlongPermutes(a, |a|, b, |b|, limit);
    OverlongGrows(a, m, |a|, limit);
    GroupOpens(a, m, |a|, |a|, limit);
    GroupOpens(b, n, |b|, |b|, limit);
  }

  lemma SteadyPrefix(entries: seq<Entry>, m: nat, limit: int)
    requires Steady(entries, limit) && m < |entries| && (m > 0 ==> !SameKey(entries[m - 1], entries[m]))
    ensures Steady(entries[..m], limit)
  {
    var prefix := entries[..m];
    forall lo: nat, hi: nat | Group(prefix, lo, hi) && HasOverlong(prefix, lo, hi, limit)
      ensures ShortsJoin(prefix, lo, hi, TipTo(prefix, lo, limit), limit)
    {
      assert SameKey(prefix[hi - 1], prefix[lo]);
      assert forall i | lo <= i < hi :: SameKey(prefix[i], prefix[lo]) && prefix[i] == entries[i];
      assert Group(entries, lo, hi);
      assert HasOverlong(entries, lo, hi, limit);
      TipsAgree(prefix, entries, lo, limit);
    }
  }

  lemma {:induction false} SteadyTipsAlike(a: seq<Entry>, b: seq<Entry>, limit: int)
    requires Sorted(a) && Sorted(b) && multiset(a) == multiset(b) && Positive(a) && Steady(a, limit)
    ensures Alike(TipTo(a, |a|, limit), TipTo(b, |b|, limit), limit)
    decreases |a|
  {
    SameMembers(a, b);
    PositivePermutes(a, b);
    if a == [] {
    } else {
      var m := LastGroup(a, |a|);
      var n := LastGroup(b, |b|);
      SameLastKey(a, b);
      WithoutLastGroup(a, m, b, n);
      LastGroupIsOne(a, m);
      SteadyPrefix(a, m, limit);
      SteadyTipsAlike(a[..m], b[..n], limit);
      TipsAgree(a[..m], a, m, limit);
      TipsAgree(b[..n], b, n, limit);
      if HasOverlong(a, m, |a|, limit) {
        OverlongGroupsAlike(a, m, b, n, limit);
      } else {
        ShortGroupsAlike(a, m, b, n, limit);
      }
    }
  }

  lemma PositivePermutes(a: seq<Entry>, b: seq<Entry>)
    requires multiset(a) == multiset(b) && Positive(a)
    ensures Positive(b)
  {
    SameMembers(a, b);
    forall i | 0 <= i < |b|
      ensures b[i].definition.length >= 1
    {
      assert b[i] in a;
    }
  }

  lemma LastGroupIsOne(entries: seq<Entry>, m: nat)
    requires m < |entries| && OneKey(entries, m, |entries|)
    requires forall i | 0 <= i < m :: KeyLess(entries[i], entries[|entries| - 1])
    ensures Group(entries, m, |entries|) && (m > 0 ==> !SameKey(entries[m - 1], entries[m]))
  {
    assert SameKey(entries[|entries| - 1], entries[m]);
  }

  // ----- an unsteady group -----

  function Swap(s: seq<Entry>, i: nat, j: nat): (r: seq<Entry>)
    requires i < |s| && j < |s|
    ensures |r| == |s| && r[i] == s[j] && r[j] == s[i]
    ensures forall k | 0 <= k < |s| && k != i && k != j :: r[k] == s[k]
  {
    s[i := s[j]][j := s[i]]
  }

  /** Exchanging entries of one key gives another sorted order. */
  lemma SwapIsAnOrder(s: seq<Entry>, i: nat, j: nat)
    requires Sorted(s) && i < |s| && j < |s| && SameKey(s[i], s[j])
    ensures Sorted(Swap(s, i, j)) && multiset(Swap(s, i, j)) == multiset(s)
  {
    var r := Swap(s, i, j);
    assert forall k | 0 <= k < |s| :: SameKey(r[k], s[k]);
    forall x, y | 0 <= x < y < |r|
      ensures !KeyLess(r[y], r[x])
    {
      assert SameKey(r[x], s[x]) && SameKey(r[y], s[y]) && !KeyLess(s[y], s[x]);
    }
  }

  /** A short register that does not join, before an overlong one at its key, takes one block more
      than after it. */
  lemma OrderCosts(t: Tip, short: Entry, long: Entry, limit: int)
    requires Before(t, short) && SameKey(short, long) && short.definition.length >= 1
    requires !Overlong(short, limit) && !JoinsTip(t, short, limit) && Overlong(long, limit)
    ensures
      var after := With(With(t, long, limit), short, limit);
      after.Tip? && With(With(t, short, limit), long, limit) == after.(count := after.count + 1)
  {
  }

  lemma {:induction false} SameTail(b: seq<Entry>, d: seq<Entry>, m: nat, n: nat, limit: int)
    requires |b| == |d| && m <= n <= |b| && forall i | m <= i < |b| :: b[i] == d[i]
    requires TipTo(b, m, limit).Tip? && TipTo(d, m, limit) == TipTo(b, m, limit).(count := TipTo(b, m, limit).count + 1)
    ensures TipTo(b, n, limit).Tip? && TipTo(d, n, limit) == TipTo(b, n, limit).(count := TipTo(b, n, limit).count + 1)
    decreases n
  {
    if m == n {
    } else {
      SameTail(b, d, m, n - 1, limit);
    }
  }

  lemma TwoOrders(d: seq<Entry>, lo: nat, limit: int)
    requires Sorted(d) && Positive(d) && lo + 1 < |d| && SameKey(d[lo], d[lo + 1])
    requires !Overlong(d[lo], limit) && !JoinsTip(TipTo(d, lo, limit), d[lo], limit) && Overlong(d[lo + 1], limit)
    ensures |Pack(d, limit)| == |Pack(Swap(d, lo, lo + 1), limit)| + 1
  {
    var b := Swap(d, lo, lo + 1);
    TipIsBefore(d, lo, limit);
    OrderCosts(TipTo(d, lo, limit), d[lo], d[lo + 1], limit);
    TipsAgree(d, b, lo, limit);
    assert TipTo(b, lo + 1, limit) == With(TipTo(b, lo, limit), d[lo + 1], limit);
    assert TipTo(d, lo + 1, limit) == With(TipTo(d, lo, limit), d[lo], limit);
    SameTail(b, d, lo + 2, |d|, limit);
    PackedTip(b, |b|, limit);
    PackedTip(d, |d|, limit);
  }

  /** An order with a chosen entry of a group at its beginning. */
  lemma Promoted(a: seq<Entry>, lo: nat, i: nat) returns (c: seq<Entry>)
    requires Sorted(a) && lo <= i < |a| && SameKey(a[i], a[lo])
    ensures Sorted(c) && multiset(c) == multiset(a) && |c| == |a| && c[lo] == a[i]
    ensures forall k | 0 <= k < lo :: c[k] == a[k]
    ensures forall k | lo < k < |a| && k != i :: c[k] == a[k]
    ensures c[i] == a[lo]
  {
    c := Swap(a, lo, i);
    SwapIsAnOrder(a, lo, i);
  }

  /** The short register first, the overlong one second. */
  lemma ShortBeforeLong(a: seq<Entry>, lo: nat, i: nat, j: nat, limit: int) returns (d: seq<Entry>)
    requires Sorted(a) && lo <= i < |a| && lo <= j < |a| && i != j && SameKey(a[i], a[lo]) && SameKey(a[j], a[lo])
    ensures Sorted(d) && multiset(d) == multiset(a)
    ensures lo + 1 < |d| && d[lo] == a[i] && d[lo + 1] == a[j] && TipTo(d, lo, limit) == TipTo(a, lo, limit)
  {
    var c := Promoted(a, lo, i);
    var k := if j == lo then i else j;
    assert c[k] == a[j] && lo < k;
    assert SameKey(c[k], c[lo + 1]) by {
      BetweenSameKeys(c, lo, lo + 1, k);
    }
    d := Promoted(c, lo + 1, k);
    TipsAgree(d, a, lo, limit);
  }

  lemma BetweenSameKeys(s: seq<Entry>, lo: nat, m: nat, hi: nat)
    requires Sorted(s) && lo <= m <= hi < |s| && SameKey(s[lo], s[hi])
    ensures SameKey(s[m], s[hi])
  {
    assert lo < m ==> !KeyLess(s[m], s[lo]);
    assert m < hi ==> !KeyLess(s[hi], s[m]);
  }

  lemma UnsteadyDiffers(a: seq<Entry>, limit: int) returns (b: seq<Entry>, d: seq<Entry>)
    requires Sorted(a) && Positive(a) && !Steady(a, limit)
    ensures Sorted(b) && multiset(b) == multiset(a) && Sorted(d) && multiset(d) == multiset(a)
    ensures |Pack(d, limit)| == |Pack(b, limit)| + 1
  {
    var lo: nat, hi: nat :| Group(a, lo, hi) && HasOverlong(a, lo, hi, limit) && !ShortsJoin(a, lo, hi, TipTo(a, lo, limit), limit);
    var j :| lo <= j < hi && Overlong(a[j], limit);
    var i :| lo <= i < hi && !Overlong(a[i], limit) && !JoinsTip(TipTo(a, lo, limit), a[i], limit);
    assert SameKey(a[i], a[lo]) && SameKey(a[j], a[lo]);
    d := ShortBeforeLong(a, lo, i, j, limit);
    PositivePermutes(a, d);
    TwoOrders(d, lo, limit);
    b := Swap(d, lo, lo + 1);
    SwapIsAnOrder(d, lo, lo + 1);
  }

  // ----- when the order of equal keys matters -----

  lemma SteadyCounts(a: seq<Entry>, b: seq<Entry>, limit: int)
    requires Sorted(a) && Sorted(b) && multiset(a) == multiset(b) && Positive(a) && Steady(a, limit)
    ensures |Pack(a, limit)| == |Pack(b, limit)|
  {
    SteadyTipsAlike(a, b, limit);
    PackedTip(a, |a|, limit);
    PackedTip(b, |b|, limit);
  }

  /** The unstable sort cannot change how many requests are planned if and only if, wherever a
      register is longer than the limit, those at its function code and offset that are not join the
      block open before them. Any sorted order serves to tell. */
  lemma RequestCountIsStableIff(entries: seq<Entry>, sorted: seq<Entry>, limit: int)
    requires Sorted(sorted) && multiset(sorted) == multiset(entries) && Positive(entries)
    ensures Steady(sorted, limit) <==>
            forall p, q | PlanOf(entries, limit, p) && PlanOf(entries, limit, q) :: |p| == |q|
  {
    PositivePermutes(entries, sorted);
    if Steady(sorted, limit) {
      forall p, q | PlanOf(entries, limit, p) && PlanOf(entries, limit, q)
        ensures |p| == |q|
      {
        var a: seq<Entry> :| Sorted(a) && multiset(a) == multiset(entries) && p == Pack(a, limit);
        var b: seq<Entry> :| Sorted(b) && multiset(b) == multiset(entries) && q == Pack(b, limit);
        SteadyCounts(sorted, a, limit);
        SteadyCounts(sorted, b, limit);
      }
    } else {
      var b, d := UnsteadyDiffers(sorted, limit);
      assert PlanOf(entries, limit, Pack(b, limit)) && PlanOf(entries, limit, Pack(d, limit));
    }
  }

  /** No register is longer than the limit. */
  ghost predicate ShortEnough(entries: seq<Entry>, limit: int) {
    forall i | 0 <= i < |entries| :: 1 <= entries[i].definition.length <= limit
  }

  /** In particular it cannot as long as no register is longer than the limit. */
  lemma RequestCountIsStable(entries: seq<Entry>, limit: int, p: seq<Block>, q: seq<Block>)
    requires PlanOf(entries, limit, p) && PlanOf(entries, limit, q) && ShortEnough(entries, limit)
    ensures |p| == |q|
  {
    var sorted: seq<Entry> :| Sorted(sorted) && multiset(sorted) == multiset(entries) && p == Pack(sorted, limit);
    SameMembers(sorted, entries);
    forall lo: nat, hi: nat | Group(sorted, lo, hi)
      ensures !HasOverlong(sorted, lo, hi, limit)
    {
      forall i | lo <= i < hi
        ensures !Overlong(sorted[i], limit)
      {
        assert sorted[i] in entries;
      }
    }
    RequestCountIsStableIff(entries, sorted, limit);
  }

  /** The same for the plans of a profile. */
  lemma PlannedCountIsStableIff(p: RegisterProfile, sorted: seq<Entry>)
    requires Entries(p).Ok? && Sorted(sorted) && multiset(sorted) == multiset(Entries(p).value)
    ensures Steady(sorted, ClampLimit(p.maxBlockSize)) <==>
            forall a, b | Plan(p, a) && Plan(p, b) :: |a| == |b|
  {
    var entries, limit := Entries(p).value, ClampLimit(p.maxBlockSize);
    forall i | 0 <= i < |entries|
      ensures entries[i].definition.length >= 1
    {
      assert entries[i] in entries && entries[i].Legal();
    }
    RequestCountIsStableIff(entries, sorted, limit);
    assert forall a :: Plan(p, a) <==> PlanOf(entries, limit, a);
  }

  // ----- an accepted configuration whose order matters -----

  const SINGLE := AddressOf(1, 3, "a", U16)
  const DOUBLE := AddressOf(2, 3, "b", U32)

  /** One register of one word and one of two at the same address, read one word at a time. */
  const MIXED := SetOf(1, SINGLE, DOUBLE)

  lemma MixedEntries()
    ensures Normalizing.CheckedDeviceSet({1})(MIXED) == Ok(MIXED)
    ensures Entries(ProfileOf(MIXED)) == Ok([EntryOf(SINGLE), EntryOf(DOUBLE)]) && ClampLimit(ProfileOf(MIXED).maxBlockSize) == 1
  {
    Normalizing.VisibleName("a");
    Normalizing.VisibleName("b");
    AddressIsCanonical(1, 3, "a", U16);
    AddressIsCanonical(2, 3, "b", U32);
    AddressResolves(1, 3, "a", U16);
    AddressResolves(2, 3, "b", U32);
    SetIsAccepted(1, SINGLE, DOUBLE);
    SetEntries(1, SINGLE, DOUBLE);
  }

  lemma OrdersOfTwo(short: Entry, long: Entry) returns (p: seq<Block>, q: seq<Block>)
    requires SameKey(short, long) && short.definition.length == 1 && long.definition.length == 2
    ensures PlanOf([short, long], 1, p) && PlanOf([short, long], 1, q) && |p| == 2 && |q| == 1
  {
    var a, b := [short, long], [long, short];
    p, q := Pack(a, 1), Pack(b, 1);
    assert Sorted(a) && Sorted(b) && multiset(b) == multiset(a);
    assert TipTo(a, 1, 1) == Tip(1, short.FunctionCode(), short.offset, short.offset + 1);
    assert TipTo(b, 1, 1) == Tip(1, short.FunctionCode(), short.offset, short.offset + 2);
    PackedTip(a, 2, 1);
    PackedTip(b, 2, 1);
  }

  /** The gate accepts a device set that takes two requests or one, as the sort happens to leave it. */
  lemma AcceptedSetDependsOnOrder() returns (p: seq<Block>, q: seq<Block>)
    ensures Normalizing.CheckedDeviceSet({1})(MIXED) == Ok(MIXED)
    ensures Plan(ProfileOf(MIXED), p) && Plan(ProfileOf(MIXED), q) && |p| == 2 && |q| == 1
  {
    MixedEntries();
    p, q := OrdersOfTwo(EntryOf(SINGLE), EntryOf(DOUBLE));
  }
}
