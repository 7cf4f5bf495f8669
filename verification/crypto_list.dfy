/** The coin list page: the fetched market list (an input; fetching it is
    I/O) is searched by name, optionally cut to the top N, and shown 50 rows
    per page with Prev/Next buttons. */
module CryptoList {
  import opened Common
  import opened Text

  /** The fields of a CoinGecko market entry the list logic looks at. */
  datatype Coin = Coin(id: string, name: string)

  const ItemsPerPage: nat := 50

  /** `c.name.toLowerCase().includes(search.toLowerCase())`: the search
      string is lower-cased but not trimmed. */
  predicate Matches(c: Coin, search: string) {
    Contains(Lower(c.name), Lower(search))
  }

  /** `list.filter(...)` with the name test. */
  function Filter(coins: seq<Coin>, search: string): (r: seq<Coin>)
    ensures |r| <= |coins|
    ensures forall c :: c in r <==> c in coins && Matches(c, search)
  {
    if coins == [] then []
    else
      var rest := Filter(coins[1..], search);
      assert forall c :: c in coins <==> c == coins[0] || c in coins[1..];
      if Matches(coins[0], search) then [coins[0]] + rest else rest
  }

  /** Filtering a concatenation filters each part: the kept coins keep their
      relative order. */
  lemma {:induction false} FilterAppend(a: seq<Coin>, b: seq<Coin>, search: string)
    ensures Filter(a + b, search) == Filter(a, search) + Filter(b, search)
  {
    if a == [] {
      assert a + b == b;
    } else {
      assert (a + b)[1..] == a[1..] + b;
      FilterAppend(a[1..], b, search);
    }
  }

  /** Filtering twice with the same search changes nothing more. */
  lemma {:induction false} FilterIdempotent(coins: seq<Coin>, search: string)
    ensures Filter(Filter(coins, search), search) == Filter(coins, search)
  {
    if coins != [] {
      FilterIdempotent(coins[1..], search);
    }
  }

  function Min(a: nat, b: nat): nat {
    if a <= b then a else b
  }

  /** The top-N cut: a `filterTop` of None (or 0, which is falsy) keeps the
      list; otherwise the first min(N, length) coins, in order. */
  function TopN(list: seq<Coin>, filterTop: Option<nat>): (r: seq<Coin>)
    ensures |r| <= |list| && r == list[..|r|]
    ensures filterTop.Some? && filterTop.value != 0 ==> |r| == Min(filterTop.value, |list|)
    ensures !(filterTop.Some? && filterTop.value != 0) ==> |r| == |list|
  {
    if filterTop.Some? && filterTop.value != 0 then list[..Min(filterTop.value, |list|)]
    else list
  }

  /** The `processedCoins` memo. A search that trims to nothing does not
      filter; the top-N cut applies to what the search kept. */
  function Processed(coins: seq<Coin>, search: string, filterTop: Option<nat>): (r: seq<Coin>)
    ensures filterTop.Some? && filterTop.value != 0 ==> |r| <= filterTop.value
    ensures forall c :: c in r ==> c in coins
  {
    var searched := if Trim(search) != "" then Filter(coins, search) else coins;
    var r := TopN(searched, filterTop);
    assert forall c :: c in r ==> c in searched;
    r
  }

  /** A blank search keeps the fetched list as it is, in order; a top-N
      filter then keeps its first min(N, length) coins. */
  lemma BlankSearchKeepsList(coins: seq<Coin>, search: string, filterTop: Option<nat>)
    requires AllSpace(search)
    ensures filterTop.None? ==> Processed(coins, search, filterTop) == coins
    ensures filterTop.Some? && filterTop.value != 0 ==>
      Processed(coins, search, filterTop) == coins[..Min(filterTop.value, |coins|)]
  {
    TrimEmptyIff(search);
  }

  /** A search that is not blank keeps exactly the matching coins, in
      order; a top-N filter then keeps the first min(N, length) of them. */
  lemma SearchKeepsMatches(coins: seq<Coin>, search: string, filterTop: Option<nat>)
    requires !AllSpace(search)
    ensures filterTop.None? ==> Processed(coins, search, filterTop) == Filter(coins, search)
    ensures filterTop.Some? && filterTop.value != 0 ==>
      Processed(coins, search, filterTop) == Filter(coins, search)[..Min(filterTop.value, |Filter(coins, search)|)]
    ensures forall c :: c in Processed(coins, search, None) <==> c in coins && Matches(c, search)
  {
    TrimEmptyIff(search);
  }

  /** `Math.ceil(length / itemsPerPage)` */
  function TotalPages(n: nat): (t: nat)
    ensures t * ItemsPerPage >= n
    ensures t > 0 ==> (t - 1) * ItemsPerPage < n
    ensures t == 0 <==> n == 0
  {
    (n + ItemsPerPage - 1) / ItemsPerPage
  }

  /** `list.slice((p - 1) * 50, p * 50)`; the slice clamps both ends to the
      length, so a page past the end is empty. */
  function Page(list: seq<Coin>, p: int): (r: seq<Coin>)
    requires p >= 1
    ensures |r| <= ItemsPerPage
    ensures |r| == Min(ItemsPerPage, |list| - Min((p - 1) * ItemsPerPage, |list|))
    ensures forall k :: 0 <= k < |r| ==> (p - 1) * ItemsPerPage + k < |list| && r[k] == list[(p - 1) * ItemsPerPage + k]
  {
    var first := Min((p - 1) * ItemsPerPage, |list|);
    var last := Min(p * ItemsPerPage, |list|);
    list[first..last]
  }

  /** `indexOfFirst + index + 1`: the 1-based position in the processed
      list of the row at `index` on page `p`. */
  function RowNumber(p: int, index: nat): int {
    (p - 1) * ItemsPerPage + index + 1
  }

  /** The row number of a shown coin is its 1-based position in the list. */
  lemma RowNumberIsPosition(list: seq<Coin>, p: int, index: nat)
    requires p >= 1 && index < |Page(list, p)|
    ensures 1 <= RowNumber(p, index) <= |list|
    ensures list[RowNumber(p, index) - 1] == Page(list, p)[index]
  {
  }

  /** Pages 1 … TotalPages are full but for the last, none is empty, and the
      pages after the last are empty. */
  lemma PageSizes(list: seq<Coin>, p: int)
    requires p >= 1
    ensures p < TotalPages(|list|) ==> |Page(list, p)| == ItemsPerPage
    ensures p <= TotalPages(|list|) ==> |Page(list, p)| >= 1
    ensures p > TotalPages(|list|) ==> Page(list, p) == []
  {
  }

  /** Pages 1 … k put end to end. */
  function PagesUpTo(list: seq<Coin>, k: nat): seq<Coin> {
    if k == 0 then [] else PagesUpTo(list, k - 1) + Page(list, k)
  }

  /** The first k pages are the first min(50·k, length) coins. */
  lemma {:induction false} PagesUpToIsPrefix(list: seq<Coin>, k: nat)
    ensures PagesUpTo(list, k) == list[..Min(k * ItemsPerPage, |list|)]
  {
    if k > 0 {
      PagesUpToIsPrefix(list, k - 1);
      var a := Min((k - 1) * ItemsPerPage, |list|);
      var b := Min(k * ItemsPerPage, |list|);
      assert list[..a] + list[a..b] == list[..b];
    }
  }

  /** Pages 1 … totalPages, put end to end, give back the processed list. */
  lemma PagesConcatenateToList(list: seq<Coin>)
    ensures PagesUpTo(list, TotalPages(|list|)) == list
  {
    PagesUpToIsPrefix(list, TotalPages(|list|));
    assert list[..|list|] == list;
  }

  /** `disabled={currentPage === 1}` */
  predicate PrevDisabled(page: int) {
    page == 1
  }

  /** `disabled={currentPage === totalPages}` */
  predicate NextDisabled(page: int, totalPages: nat) {
    page == totalPages
  }

  /** With nothing to show there are no pages, and Next stays enabled on
      every page: only the equality test guards it. */
  lemma EmptyListLeavesNextEnabled(page: int)
    requires page >= 1
    ensures TotalPages(0) == 0
    ensures !NextDisabled(page, TotalPages(0))
  {
  }

  /** The `currentPage` state of the page. A disabled button ignores its
      click, so a click changes the page by exactly one or not at all. */
  class Pager {
    var page: int

    /** Prev is disabled at page 1, so the page never drops below it. */
    predicate Valid()
      reads this
    {
      page >= 1
    }

    /** `useState(1)` */
    constructor()
      ensures Valid() && page == 1
    {
      page := 1;
    }

    /** Prev: `setCurrentPage(p => p - 1)` unless disabled. */
    method ClickPrev()
      requires Valid()
      modifies this
      ensures Valid()
      ensures PrevDisabled(old(page)) ==> page == old(page)
      ensures !PrevDisabled(old(page)) ==> page == old(page) - 1
    {
      if !PrevDisabled(page) {
        page := page - 1;
      }
    }

    /** Next: `setCurrentPage(p => p + 1)` unless disabled. */
    method ClickNext(totalPages: nat)
      requires Valid()
      modifies this
      ensures Valid()
      ensures NextDisabled(old(page), totalPages) ==> page == old(page)
      ensures !NextDisabled(old(page), totalPages) ==> page == old(page) + 1
    {
      if !NextDisabled(page, totalPages) {
        page := page + 1;
      }
    }

    /** The rows on show: the current page of the processed list. */
    function Rows(list: seq<Coin>): (r: seq<Coin>)
      requires Valid()
      reads this
      ensures |r| <= ItemsPerPage
    {
      Page(list, page)
    }
  }
}
