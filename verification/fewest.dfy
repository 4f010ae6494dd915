/** internal/profile/blocks.go: no way at all of grouping the registers takes fewer requests. */
module Fewest {
  import opened Domain
  import opened Addressing
  import opened Planning
  import opened EqualKeys
  import opened Sequences
  import Polling

  /** Some configured register of the function code covers the address. */
  ghost predicate Configured(entries: seq<Entry>, functionCode: int, address: int) {
    exists e :: e in entries && e.FunctionCode() == functionCode && e.offset <= address < e.End()
  }

  /** One request may serve both: it has one function code, a span within the limit, and no address
      that is not configured. */
  ghost predicate Together(entries: seq<Entry>, x: Entry, y: Entry, limit: int) {
    && x.FunctionCode() == y.FunctionCode() && y.End() - x.offset <= limit
    && forall a | x.offset <= a < y.End() :: Configured(entries, x.FunctionCode(), a)
  }

  /** A request that may serve all of these. */
  ghost predicate Servable(entries: seq<Entry>, group: seq<Entry>, limit: int) {
    forall x, y | x in group && y in group :: Together(entries, x, y, limit)
  }

  /** Any choice of such requests, in any order, that leaves no register out. */
  ghost predicate Grouping(entries: seq<Entry>, groups: seq<seq<Entry>>, limit: int) {
    && (forall r | 0 <= r < |groups| :: Servable(entries, groups[r], limit))
    && (forall e | e in entries :: InSome(groups, e))
  }

  ghost predicate InSome(groups: seq<seq<Entry>>, e: Entry) {
    exists r :: 0 <= r < |groups| && e in groups[r]
  }

  // ----- the first registers of the blocks -----

  /** Entry k begins a block. */
  predicate Begins(entries: seq<Entry>, k: nat, limit: int) {
    k < |entries| && OpenAt(entries, k + 1, limit) == k
  }

  lemma {:induction false} BeginsIsNotPast(entries: seq<Entry>, k: nat, n: nat, limit: int)
    requires Begins(entries, k, limit) && k < n <= |entries|
    ensures k <= OpenAt(entries, n, limit)
    decreases n
  {
    if n == k + 1 {
    } else {
      BeginsIsNotPast(entries, k, n - 1, limit);
    }
  }

  /** The open block reaches as far as any earlier register of its function code, and its span is
      within the limit. */
  lemma {:induction false} BlockReaches(entries: seq<Entry>, n: nat, limit: int)
    requires Sorted(entries) && ShortEnough(entries, limit) && 0 < n <= |entries|
    ensures
      var g := OpenAt(entries, n, limit);
      && SpanEnd(entries, g, n) <= entries[g].offset + limit
      && forall k | 0 <= k < n && entries[k].FunctionCode() == entries[n - 1].FunctionCode() :: entries[k].End() <= SpanEnd(entries, g, n)
  {
    if n == 1 {
    } else {
      BlockReaches(entries, n - 1, limit);
      SameFunction(entries, n - 1, limit);
      assert !KeyLess(entries[n - 1], entries[n - 2]);
      forall k | 0 <= k < n - 1 && entries[k].FunctionCode() == entries[n - 1].FunctionCode()
        ensures entries[k].FunctionCode() == entries[n - 2].FunctionCode()
      {
        assert !KeyLess(entries[n - 2], entries[k]) || k == n - 2;
      }
    }
  }

  /** The address just after a block that a gap ends is not configured. */
  lemma GapIsNotConfigured(entries: seq<Entry>, n: nat, limit: int)
    requires Sorted(entries) && ShortEnough(entries, limit) && 0 < n < |entries|
    requires entries[n].FunctionCode() == entries[n - 1].FunctionCode()
    requires entries[n].offset > SpanEnd(entries, OpenAt(entries, n, limit), n)
    ensures !Configured(entries, entries[n].FunctionCode(), SpanEnd(entries, OpenAt(entries, n, limit), n))
  {
    var a, fc := SpanEnd(entries, OpenAt(entries, n, limit), n), entries[n].FunctionCode();
    BlockReaches(entries, n, limit);
    forall e | e in entries && e.FunctionCode() == fc
      ensures !(e.offset <= a < e.End())
    {
      var k :| 0 <= k < |entries| && entries[k] == e;
      assert n < k ==> !KeyLess(entries[k], entries[n]);
    }
  }

  lemma SameFunctionBetween(entries: seq<Entry>, i: nat, m: nat, j: nat)
    requires Sorted(entries) && i <= m <= j < |entries| && entries[i].FunctionCode() == entries[j].FunctionCode()
    ensures entries[m].FunctionCode() == entries[j].FunctionCode() && entries[i].offset <= entries[m].offset <= entries[j].offset
  {
    assert i < m ==> !KeyLess(entries[m], entries[i]);
    assert m < j ==> !KeyLess(entries[j], entries[m]);
  }

  /** The first registers of two blocks never fit one request. */
  lemma NeverTogether(entries: seq<Entry>, i: nat, j: nat, limit: int)
    requires Sorted(entries) && ShortEnough(entries, limit) && i < j
    requires Begins(entries, i, limit) && Begins(entries, j, limit)
    ensures !Together(entries, entries[i], entries[j], limit)
  {
    if entries[i].FunctionCode() == entries[j].FunctionCode() {
      var g := OpenAt(entries, j, limit);
      BeginsIsNotPast(entries, i, j, limit);
      SameFunctionBetween(entries, i, g, j);
      SameFunctionBetween(entries, i, j - 1, j);
      assert !MayFollow(entries, g, j, limit);
      if entries[j].offset > SpanEnd(entries, g, j) {
        GapIsNotConfigured(entries, j, limit);
        SpanCovers(entries, g, j);
        assert entries[i].offset <= SpanEnd(entries, g, j) < entries[j].End();
      }
    }
  }

  lemma {:induction false} SpanCovers(entries: seq<Entry>, lo: nat, hi: nat)
    requires lo < hi <= |entries|
    ensures entries[lo].End() <= SpanEnd(entries, lo, hi)
    decreases hi
  {
    if hi == lo + 1 {
    } else {
      SpanCovers(entries, lo, hi - 1);
    }
  }

  lemma {:induction false} StartBegins(entries: seq<Entry>, n: nat, limit: int, i: nat)
    requires n <= |entries| && i < |Starts(entries, n, limit)|
    ensures Starts(entries, n, limit)[i] < n && Begins(entries, Starts(entries, n, limit)[i], limit)
  {
    if i == |Starts(entries, n - 1, limit)| {
    } else {
      StartBegins(entries, n - 1, limit, i);
    }
  }

  lemma {:induction false} StartsIncrease(entries: seq<Entry>, n: nat, limit: int, i: nat, j: nat)
    requires n <= |entries| && i < j < |Starts(entries, n, limit)|
    ensures Starts(entries, n, limit)[i] < Starts(entries, n, limit)[j]
  {
    if j == |Starts(entries, n - 1, limit)| {
      StartBegins(entries, n - 1, limit, i);
    } else {
      StartsIncrease(entries, n - 1, limit, i, j);
    }
  }

  // ----- counting -----

  lemma {:induction false} DistinctBelow(rs: seq<nat>, n: nat)
    requires forall i | 0 <= i < |rs| :: rs[i] < n
    requires forall i, j | 0 <= i < j < |rs| :: rs[i] != rs[j]
    ensures |rs| <= n
  {
    if rs == [] {
    } else {
      assert rs[0] < n;
      if exists i :: 0 <= i < |rs| && rs[i] == n - 1 {
        var i :| 0 <= i < |rs| && rs[i] == n - 1;
        DistinctBelow(Without(rs, i), n - 1);
      } else {
        DistinctBelow(rs, n - 1);
      }
    }
  }

  function GroupOf(groups: seq<seq<Entry>>, e: Entry, n: nat): (r: nat)
    requires n <= |groups| && exists k :: 0 <= k < n && e in groups[k]
    ensures r < n && e in groups[r]
  {
    if e in groups[n - 1] then n - 1 else GroupOf(groups, e, n - 1)
  }

  lemma GroupingIsShort(entries: seq<Entry>, groups: seq<seq<Entry>>, limit: int)
    requires Positive(entries) && Grouping(entries, groups, limit)
    ensures ShortEnough(entries, limit)
  {
    forall i | 0 <= i < |entries|
      ensures entries[i].definition.length <= limit
    {
      assert InSome(groups, entries[i]);
      var r :| 0 <= r < |groups| && entries[i] in groups[r];
      assert Together(entries, entries[i], entries[i], limit);
    }
  }

  lemma SortedGrouping(sorted: seq<Entry>, groups: seq<seq<Entry>>, limit: int)
    requires Sorted(sorted) && Positive(sorted) && Grouping(sorted, groups, limit)
    ensures |Pack(sorted, limit)| <= |groups|
  {
    GroupingIsShort(sorted, groups, limit);
    var starts := Starts(sorted, |sorted|, limit);
    forall i: nat | i < |starts|
      ensures starts[i] < |sorted| && InSome(groups, sorted[starts[i]])
    {
      StartBegins(sorted, |sorted|, limit, i);
      assert sorted[starts[i]] in sorted;
    }
    var rs: seq<nat> := seq(|starts|, i requires 0 <= i < |starts| => GroupOf(groups, sorted[starts[i]], |groups|));
    forall i: nat, j: nat | i < j < |rs|
      ensures rs[i] != rs[j]
    {
      StartBegins(sorted, |sorted|, limit, i);
      StartBegins(sorted, |sorted|, limit, j);
      StartsIncrease(sorted, |sorted|, limit, i, j);
      NeverTogether(sorted, starts[i], starts[j], limit);
      assert Servable(sorted, groups[rs[i]], limit);
    }
    DistinctBelow(rs, |groups|);
    if sorted != [] {
      PackFollowsGreedy(sorted, |sorted|, limit);
    }
  }

  lemma SameConfigured(a: seq<Entry>, b: seq<Entry>, groups: seq<seq<Entry>>, limit: int)
    requires multiset(a) == multiset(b) && Grouping(a, groups, limit)
    ensures Grouping(b, groups, limit)
  {
    SameMembers(a, b);
    forall fc, x | Configured(a, fc, x)
      ensures Configured(b, fc, x)
    {
    }
    forall r | 0 <= r < |groups|
      ensures Servable(b, groups[r], limit)
    {
      assert Servable(a, groups[r], limit);
      forall x, y | x in groups[r] && y in groups[r]
        ensures Together(b, x, y, limit)
      {
        assert Together(a, x, y, limit);
      }
    }
  }

  /** No choice of requests that serves every register, in whatever grouping, with one function code,
      no unconfigured address and a span within the limit each, is smaller than a plan. */
  lemma NoGroupingIsSmaller(entries: seq<Entry>, limit: int, blocks: seq<Block>, groups: seq<seq<Entry>>)
    requires PlanOf(entries, limit, blocks) && Positive(entries) && Grouping(entries, groups, limit)
    ensures |blocks| <= |groups|
  {
    var sorted: seq<Entry> :| Sorted(sorted) && multiset(sorted) == multiset(entries) && blocks == Pack(sorted, limit);
    PositivePermutes(entries, sorted);
    SameConfigured(entries, sorted, groups, limit);
    SortedGrouping(sorted, groups, limit);
  }

  // ----- the bound is attained -----

  function GroupsOf(blocks: seq<Block>): (groups: seq<seq<Entry>>)
    ensures |groups| == |blocks| && forall k | 0 <= k < |blocks| :: groups[k] == blocks[k].entries
  {
    seq(|blocks|, k requires 0 <= k < |blocks| => blocks[k].entries)
  }

  lemma BlockIsServable(entries: seq<Entry>, b: Block, limit: int)
    requires CoversExactly(b) && b.quantity <= limit && forall e | e in b.entries :: e in entries
    ensures Servable(entries, b.entries, limit)
  {
    forall x, y | x in b.entries && y in b.entries
      ensures Together(entries, x, y, limit)
    {
      var i :| 0 <= i < |b.entries| && b.entries[i] == x;
      var j :| 0 <= j < |b.entries| && b.entries[j] == y;
      assert Inside(b.entries[i], b) && Inside(b.entries[j], b);
      forall a | x.offset <= a < y.End()
        ensures Configured(entries, x.FunctionCode(), a)
      {
        assert Holds(b.entries, a);
        var k :| 0 <= k < |b.entries| && b.entries[k].offset <= a < b.entries[k].End();
        assert Inside(b.entries[k], b) && b.entries[k] in b.entries;
      }
    }
  }

  /** With no register longer than the limit, the blocks of a plan are such a choice. */
  lemma PlanIsAGrouping(entries: seq<Entry>, limit: int, blocks: seq<Block>)
    requires PlanOf(entries, limit, blocks) && ShortEnough(entries, limit) && 1 <= limit <= 125
    requires forall e | e in entries :: e.Legal()
    ensures Grouping(entries, GroupsOf(blocks), limit)
  {
    PlanCoversExactly(entries, limit, blocks);
    PlannedRequestsAreLegal(entries, limit, blocks);
    SameMembers(EntriesOf(blocks), entries);
    forall k | 0 <= k < |blocks|
      ensures Servable(entries, blocks[k].entries, limit)
    {
      forall e | e in blocks[k].entries
        ensures e in entries && e.definition.length <= limit
      {
        Polling.EntriesOfHasAll(blocks, blocks[k], e);
        var i :| 0 <= i < |entries| && entries[i] == e;
      }
      assert WithinLimit(blocks[k], limit) && CoversExactly(blocks[k]);
      BlockIsServable(entries, blocks[k], limit);
    }
    forall e | e in entries
      ensures InSome(GroupsOf(blocks), e)
    {
      var k := BlockWith(blocks, e);
    }
  }

  lemma {:induction false} BlockWith(blocks: seq<Block>, e: Entry) returns (k: nat)
    requires e in EntriesOf(blocks)
    ensures k < |blocks| && e in blocks[k].entries
  {
    var n := |blocks| - 1;
    if e in blocks[n].entries {
      k := n;
    } else {
      k := BlockWith(blocks[..n], e);
    }
  }
}
