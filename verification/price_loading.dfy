/** Whether a page asks CoinGecko for prices, and for which ids. The
    request itself is I/O; what is modelled is the decision taken before it. */
module PriceLoading {
  import opened Market
  import opened Text

  /** `Reset`: `setPrices({})` without a request; `Fetch(ids)`: request the
      comma-joined `ids`; `Keep`: return early and leave the prices as they are. */
  datatype PriceLoad = Reset | Fetch(ids: string) | Keep

  /** `portfolio.map(p => p.coinId).filter(Boolean)`: the non-empty coin ids, in order. */
  function RequestIds(hs: seq<Holding>): (ids: seq<string>)
    ensures |ids| <= |hs|
    ensures forall k :: 0 <= k < |ids| ==> ids[k] != ""
    ensures forall id :: id in ids <==> id != "" && exists i :: 0 <= i < |hs| && hs[i].coinId == id
    ensures ids == [] <==> forall i :: 0 <= i < |hs| ==> hs[i].coinId == ""
  {
    if hs == [] then []
    else
      var rest := RequestIds(hs[1..]);
      assert forall i :: 1 <= i < |hs| ==> hs[i] == hs[1..][i - 1];
      if hs[0].coinId == "" then rest else [hs[0].coinId] + rest
  }

  /** The ids of a concatenation are the ids of the first part followed by
      those of the second: the filter keeps portfolio order. */
  lemma {:induction false} RequestIdsAppend(a: seq<Holding>, b: seq<Holding>)
    ensures RequestIds(a + b) == RequestIds(a) + RequestIds(b)
  {
    if a == [] {
      assert a + b == b;
    } else {
      assert (a + b)[1..] == a[1..] + b;
      RequestIdsAppend(a[1..], b);
    }
  }

  /** `portfolio.map(p => p.coinId)`: every coin id, blank or not. */
  function AllIds(hs: seq<Holding>): seq<string> {
    seq(|hs|, i requires 0 <= i < |hs| => hs[i].coinId)
  }

  /** Portfolio Summary's `loadPrices`: reset for an empty portfolio, reset
      when the joined non-empty ids are empty, otherwise fetch. It never
      returns early without resetting, and it resets exactly when no holding
      has a non-empty coin id. */
  function SummaryPriceLoad(hs: seq<Holding>): (r: PriceLoad)
    ensures r != Keep
    ensures r == Reset <==> forall i :: 0 <= i < |hs| ==> hs[i].coinId == ""
    ensures r.Fetch? ==> r.ids == Join(RequestIds(hs), ",") && r.ids != ""
  {
    if |hs| == 0 then Reset
    else
      var ids := Join(RequestIds(hs), ",");
      JoinEmptyIff(RequestIds(hs), ",");
      assert |RequestIds(hs)| == 1 ==> RequestIds(hs)[0] != "";
      if ids == "" then Reset else Fetch(ids)
  }

  /** Portfolio's `loadLivePrices`: reset when there is no non-empty id,
      otherwise fetch them joined; the joined text is then never empty. */
  function PagePriceLoad(hs: seq<Holding>): (r: PriceLoad)
    ensures r != Keep
    ensures r == Reset <==> forall i :: 0 <= i < |hs| ==> hs[i].coinId == ""
    ensures r.Fetch? ==> r.ids == Join(RequestIds(hs), ",") && r.ids != ""
  {
    var ids := RequestIds(hs);
    JoinEmptyIff(ids, ",");
    assert |ids| == 1 ==> ids[0] != "";
    if |ids| == 0 then Reset else Fetch(Join(ids, ","))
  }

  /** Portfolio Charts' `loadPrices`: joins every id, blank ones included,
      and returns early, keeping the old prices, when the joined string is
      empty. That happens only for an empty portfolio or a single holding
      with a blank id: two or more holdings always produce a request, even
      when every id is blank (the joined text holds commas). */
  function ChartsPriceLoad(hs: seq<Holding>): (r: PriceLoad)
    ensures r != Reset
    ensures r == Keep <==> |hs| == 0 || (|hs| == 1 && hs[0].coinId == "")
    ensures |hs| >= 2 ==> r.Fetch?
    ensures r.Fetch? ==> r.ids == Join(AllIds(hs), ",") && r.ids != ""
  {
    var ids := Join(AllIds(hs), ",");
    JoinEmptyIff(AllIds(hs), ",");
    if ids == "" then Keep else Fetch(ids)
  }

  /** The Portfolio and Portfolio Summary pages take the same decision: they
      reset the prices, with no request, exactly when no holding has a
      non-empty coin id, and otherwise ask for the same ids. The requests
      still differ in one parameter that PriceLoad does not record: only
      Portfolio Summary also asks for the 24h change
      (`include_24hr_change: true`). */
  lemma SummaryAndPageAgree(hs: seq<Holding>)
    ensures SummaryPriceLoad(hs) == PagePriceLoad(hs)
  {
  }
}
