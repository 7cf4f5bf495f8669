/** Best and worst performer of the Portfolio Summary page: the holdings are
    mapped to copies that carry their 24h change, the copies are sorted by
    change, highest first, with a stable sort, and the first and last copies
    are shown. */
module Performers {
  import opened Common
  import opened Market

  /** `{ ...p, change, current }`. `pos` is the holding's index in
      `portfolio`: it stands for the identity of the copy and is what
      stability is stated about. */
  datatype Ranked = Ranked(holding: Holding, pos: nat, change: real, current: real)

  function Rank(hs: seq<Holding>, prices: PriceMap, i: nat): Ranked
    requires i < |hs|
  {
    Ranked(hs[i], i, ChangeOf(prices, hs[i].coinId), PriceOf(prices, hs[i].coinId))
  }

  /** `portfolio.map(...)`: a fresh copy; `portfolio` itself is never reordered. */
  function Items(hs: seq<Holding>, prices: PriceMap): (s: seq<Ranked>)
    ensures |s| == |hs| && forall i :: 0 <= i < |hs| ==> s[i] == Rank(hs, prices, i)
  {
    seq(|hs|, i requires 0 <= i < |hs| => Rank(hs, prices, i))
  }

  /** Order of `sort((a, b) => b.change - a.change)` under a stable sort:
      higher change first, input order among equal changes. */
  predicate Before(x: Ranked, y: Ranked) {
    x.change > y.change || (x.change == y.change && x.pos < y.pos)
  }

  predicate SortedDesc(s: seq<Ranked>) {
    forall k, l :: 0 <= k < l < |s| ==> Before(s[k], s[l])
  }

  /** `b` goes before every other item. */
  predicate IsBest(s: seq<Ranked>, b: Ranked) {
    b in s && forall y :: y in s && y != b ==> Before(b, y)
  }

  /** Every other item goes before `w`. */
  predicate IsWorst(s: seq<Ranked>, w: Ranked) {
    w in s && forall y :: y in s && y != w ==> Before(y, w)
  }

  /** `s` with the items at `j - 1` and `j` exchanged. */
  function Swapped(s: seq<Ranked>, j: nat): (r: seq<Ranked>)
    requires 0 < j < |s|
    ensures |r| == |s| && multiset(r) == multiset(s)
    ensures r[j - 1] == s[j] && r[j] == s[j - 1]
    ensures forall k :: 0 <= k < |s| && k != j - 1 && k != j ==> r[k] == s[k]
  {
    s[j - 1 := s[j]][j := s[j - 1]]
  }

  /** The state of one insertion: the moving item `x` sits at `j`; the
      other items of `s[..i + 1]` are in order, those after `j` go after
      `x`, and all of them came earlier in the input than `x`. */
  predicate Inserting(s: seq<Ranked>, j: nat, i: nat, x: Ranked)
    requires j <= i < |s|
  {
    s[j] == x
    && (forall k, l :: 0 <= k < l <= i && k != j && l != j ==> Before(s[k], s[l]))
    && (forall l :: j < l <= i ==> Before(x, s[l]))
    && (forall k :: 0 <= k <= i && k != j ==> s[k].pos < x.pos)
  }

  /** Exchanging `x` with a predecessor of strictly lower change keeps the
      insertion state, one place further left. */
  lemma SwapStep(s: seq<Ranked>, j: nat, i: nat, x: Ranked)
    requires 0 < j <= i < |s| && Inserting(s, j, i, x)
    requires s[j - 1].change < s[j].change
    ensures Inserting(Swapped(s, j), j - 1, i, x)
  {
    var r := Swapped(s, j);
    forall l | j - 1 < l <= i ensures Before(x, r[l]) {
      if l == j {
        assert r[l] == s[j - 1];
      } else {
        assert r[l] == s[l];
      }
    }
    forall k, l | 0 <= k < l <= i && k != j - 1 && l != j - 1 ensures Before(r[k], r[l]) {
      if l == j {
        assert r[l] == s[j - 1] && r[k] == s[k];
      } else if k == j {
        assert r[k] == s[j - 1] && r[l] == s[l];
      } else {
        assert r[k] == s[k] && r[l] == s[l];
      }
    }
  }

  /** When `x` stops, the whole prefix `s[..i + 1]` is in order. */
  lemma InsertDone(s: seq<Ranked>, j: nat, i: nat, x: Ranked)
    requires j <= i < |s| && Inserting(s, j, i, x)
    requires j == 0 || s[j - 1].change >= s[j].change
    ensures SortedDesc(s[..i + 1])
  {
    forall k, l | 0 <= k < l <= i ensures Before(s[k], s[l]) {
      if l == j && k < j - 1 {
        assert Before(s[k], s[j - 1]);
      }
    }
  }

  /** Moves `a[i]` left past every item of the sorted prefix `a[..i]` whose
      change is strictly lower; an equal change stops it, which keeps the
      sort stable. */
  method InsertIntoSorted(a: array<Ranked>, i: nat)
    requires i < a.Length
    requires SortedDesc(a[..i])
    requires forall k :: 0 <= k < i ==> a[k].pos < a[i].pos
    modifies a
    ensures SortedDesc(a[..i + 1])
    ensures forall k :: 0 <= k <= i ==> a[k].pos <= old(a[i]).pos
    ensures forall k :: i < k < a.Length ==> a[k] == old(a[k])
    ensures multiset(a[..]) == multiset(old(a[..]))
  {
    ghost var x := a[i];
    var j := i;
    assert Inserting(a[..], j, i, x);
    while j > 0 && a[j - 1].change < a[j].change
      invariant 0 <= j <= i
      invariant Inserting(a[..], j, i, x)
      invariant forall k :: i < k < a.Length ==> a[k] == old(a[k])
      invariant multiset(a[..]) == multiset(old(a[..]))
    {
      ghost var s := a[..];
      SwapStep(s, j, i, x);
      a[j - 1], a[j] := a[j], a[j - 1];
      assert a[..] == Swapped(s, j);
      j := j - 1;
    }
    InsertDone(a[..], j, i, x);
  }

  /** `items.sort((a, b) => b.change - a.change)`, in place and stable:
      afterwards the items are ordered by Before and are a permutation of
      the input. */
  method SortByChange(a: array<Ranked>)
    requires forall k :: 0 <= k < a.Length ==> a[k].pos == k
    modifies a
    ensures SortedDesc(a[..])
    ensures multiset(a[..]) == multiset(old(a[..]))
  {
    var i := 0;
    while i < a.Length
      invariant 0 <= i <= a.Length
      invariant SortedDesc(a[..i])
      invariant forall k :: 0 <= k < i ==> a[k].pos < i
      invariant forall k :: i <= k < a.Length ==> a[k] == old(a[k])
      invariant multiset(a[..]) == multiset(old(a[..]))
    {
      InsertIntoSorted(a, i);
      i := i + 1;
    }
    assert a[..a.Length] == a[..];
  }

  /** The `performers` memo: no performer for an empty portfolio, otherwise
      the first and the last item of the sorted copy. */
  method FindPerformers(hs: seq<Holding>, prices: PriceMap) returns (best: Option<Ranked>, worst: Option<Ranked>)
    ensures best.None? <==> hs == []
    ensures worst.None? <==> hs == []
    ensures best.Some? ==> IsBest(Items(hs, prices), best.value)
    ensures worst.Some? ==> IsWorst(Items(hs, prices), worst.value)
    ensures |hs| == 1 ==> best == worst
  {
    if |hs| == 0 {
      return None, None;
    }
    var items := Items(hs, prices);
    var a := new Ranked[|hs|](i requires 0 <= i < |hs| => items[i]);
    assert a[..] == items;
    SortByChange(a);
    var n := a.Length;
    forall y | y in items && y != a[0] ensures Before(a[0], y) {
      assert y in multiset(a[..]);
      var k :| 0 <= k < n && a[k] == y;
    }
    forall y | y in items && y != a[n - 1] ensures Before(y, a[n - 1]) {
      assert y in multiset(a[..]);
      var k :| 0 <= k < n && a[k] == y;
    }
    assert a[0] in multiset(items) && a[n - 1] in multiset(items);
    best, worst := Some(a[0]), Some(a[n - 1]);
  }

  /** The best performer is the earliest holding among those with the
      highest 24h change. */
  lemma BestIsEarliestMaximum(hs: seq<Holding>, prices: PriceMap, b: Ranked)
    requires IsBest(Items(hs, prices), b)
    ensures b.pos < |hs| && b == Rank(hs, prices, b.pos)
    ensures forall i :: 0 <= i < |hs| ==> ChangeOf(prices, hs[i].coinId) <= b.change
    ensures forall i :: 0 <= i < b.pos ==> ChangeOf(prices, hs[i].coinId) < b.change
  {
    var s := Items(hs, prices);
    var p :| 0 <= p < |s| && s[p] == b;
    forall i | 0 <= i < |hs| ensures ChangeOf(prices, hs[i].coinId) <= b.change {
      assert s[i] in s;
    }
    forall i | 0 <= i < b.pos ensures ChangeOf(prices, hs[i].coinId) < b.change {
      assert s[i] in s && s[i] != b;
    }
  }

  /** The worst performer is the latest holding among those with the lowest
      24h change. */
  lemma WorstIsLatestMinimum(hs: seq<Holding>, prices: PriceMap, w: Ranked)
    requires IsWorst(Items(hs, prices), w)
    ensures w.pos < |hs| && w == Rank(hs, prices, w.pos)
    ensures forall i :: 0 <= i < |hs| ==> w.change <= ChangeOf(prices, hs[i].coinId)
    ensures forall i :: w.pos < i < |hs| ==> w.change < ChangeOf(prices, hs[i].coinId)
  {
    var s := Items(hs, prices);
    var p :| 0 <= p < |s| && s[p] == w;
    forall i | 0 <= i < |hs| ensures w.change <= ChangeOf(prices, hs[i].coinId) {
      assert s[i] in s;
    }
    forall i | w.pos < i < |hs| ensures w.change < ChangeOf(prices, hs[i].coinId) {
      assert s[i] in s && s[i] != w;
    }
  }
}
