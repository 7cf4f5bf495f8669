/** Portfolio valuation as the Portfolio, Portfolio Summary and Portfolio
    Charts pages compute it: per-holding and total invested amount, current
    value and profit/loss, and the pie and bar chart series. Real arithmetic
    stands for JavaScript numbers (rounding is not modelled). */
module Valuation {
  import opened Common
  import opened Market

  /** The three figures of the summary cards, and of one holding. */
  datatype Figures = Figures(invested: real, current: real, profit: real)

  /** One slice of the distribution pie: `{ name, value }`. */
  datatype Slice = Slice(name: string, value: real)

  /** One bar of the profit/loss chart: `{ name, profit }`. */
  datatype Bar = Bar(name: string, profit: real)

  function Invested(h: Holding): real {
    Num(h.quantity) * Num(h.buyPrice)
  }

  function CurrentValue(h: Holding, prices: PriceMap): real {
    Num(h.quantity) * PriceOf(prices, h.coinId)
  }

  /** The per-holding breakdown. A holding whose coin has no quote is kept,
      with current value 0 and a loss of everything invested. */
  function EntryFigures(h: Holding, prices: PriceMap): (f: Figures)
    ensures f.profit == f.current - f.invested
    ensures h.coinId !in prices ==> f.current == 0.0 && f.profit == -f.invested
  {
    Figures(Invested(h), CurrentValue(h, prices), CurrentValue(h, prices) - Invested(h))
  }

  /** Σ quantity × buyPrice, accumulated in portfolio order. */
  function TotalInvested(hs: seq<Holding>): real {
    if hs == [] then 0.0 else TotalInvested(hs[..|hs| - 1]) + Invested(hs[|hs| - 1])
  }

  /** Σ quantity × live price, accumulated in portfolio order. */
  function TotalCurrent(hs: seq<Holding>, prices: PriceMap): real {
    if hs == [] then 0.0 else TotalCurrent(hs[..|hs| - 1], prices) + CurrentValue(hs[|hs| - 1], prices)
  }

  /** The `summary` memo: a `forEach` with two `+=` accumulators, then
      profit = current value − invested. */
  method Summarize(hs: seq<Holding>, prices: PriceMap) returns (s: Figures)
    ensures s.invested == TotalInvested(hs)
    ensures s.current == TotalCurrent(hs, prices)
    ensures s.profit == s.current - s.invested
  {
    var invested, current := 0.0, 0.0;
    var i := 0;
    while i < |hs|
      invariant 0 <= i <= |hs|
      invariant invested == TotalInvested(hs[..i])
      invariant current == TotalCurrent(hs[..i], prices)
    {
      assert hs[..i + 1][..i] == hs[..i];
      invested := invested + Invested(hs[i]);
      current := current + CurrentValue(hs[i], prices);
      i := i + 1;
    }
    assert hs[..|hs|] == hs;
    s := Figures(invested, current, current - invested);
  }

  /** The totals of a concatenation are the sums of the parts' totals: the
      aggregate is exactly the sum of the per-holding figures, whatever the
      grouping. */
  lemma {:induction false} TotalsAppend(a: seq<Holding>, b: seq<Holding>, prices: PriceMap)
    ensures TotalInvested(a + b) == TotalInvested(a) + TotalInvested(b)
    ensures TotalCurrent(a + b, prices) == TotalCurrent(a, prices) + TotalCurrent(b, prices)
    decreases |b|
  {
    if b == [] {
      assert a + b == a;
    } else {
      var b' := b[..|b| - 1];
      assert (a + b)[..|a + b| - 1] == a + b';
      assert (a + b)[|a + b| - 1] == b[|b| - 1];
      TotalsAppend(a, b', prices);
    }
  }

  /** Holdings none of whose coins has a quote are worth 0, so the profit is
      minus the amount invested; in particular with an empty price map. */
  lemma {:induction false} NoQuotesMeansNoValue(hs: seq<Holding>, prices: PriceMap)
    requires forall i :: 0 <= i < |hs| ==> hs[i].coinId !in prices
    ensures TotalCurrent(hs, prices) == 0.0
    ensures TotalCurrent(hs, prices) - TotalInvested(hs) == -TotalInvested(hs)
  {
    if hs != [] {
      NoQuotesMeansNoValue(hs[..|hs| - 1], prices);
    }
  }

  /** `pieData`: one slice per holding, in portfolio order, named by the
      coin and valued at price × quantity. */
  function PieData(hs: seq<Holding>, prices: PriceMap): (r: seq<Slice>)
    ensures |r| == |hs|
    ensures forall i :: 0 <= i < |hs| ==> r[i] == SliceOf(hs[i], prices)
    ensures forall i :: 0 <= i < |hs| && hs[i].coinId !in prices ==> r[i].value == 0.0
  {
    seq(|hs|, i requires 0 <= i < |hs| => SliceOf(hs[i], prices))
  }

  /** `{ name: coinName, value: (prices[coinId]?.usd || 0) * quantity }` */
  function SliceOf(h: Holding, prices: PriceMap): Slice {
    Slice(h.coinName, PriceOf(prices, h.coinId) * Num(h.quantity))
  }

  function SliceTotal(s: seq<Slice>): real {
    if s == [] then 0.0 else SliceTotal(s[..|s| - 1]) + s[|s| - 1].value
  }

  /** The pie slices add up to the summary's current value. */
  lemma {:induction false} PieAddsUpToCurrent(hs: seq<Holding>, prices: PriceMap)
    ensures SliceTotal(PieData(hs, prices)) == TotalCurrent(hs, prices)
  {
    if hs != [] {
      var h' := hs[..|hs| - 1];
      assert forall k :: 0 <= k < |h'| ==> h'[k] == hs[k];
      assert PieData(hs, prices)[..|hs| - 1] == PieData(h', prices);
      PieAddsUpToCurrent(h', prices);
    }
  }

  /** The bar label of the Portfolio page: names longer than 10 characters
      are cut to their first 10 and followed by an ellipsis. */
  function ShortLabel(name: string): (r: string)
    ensures |name| <= 10 ==> r == name
    ensures |name| > 10 ==> |r| == 11 && r[..10] == name[..10] && r[10] == '…'
  {
    if |name| > 10 then name[..10] + "…" else name
  }

  /** Labels are at most 11 characters and shortening a label again changes
      nothing. */
  lemma ShortLabelIdempotent(name: string)
    ensures |ShortLabel(name)| <= 11
    ensures ShortLabel(ShortLabel(name)) == ShortLabel(name)
  {
    var r := ShortLabel(name);
    if |name| > 10 {
      assert r[..10] + "…" == r;
    }
  }

  /** `barData`: one bar per holding, in order, with profit
      quantity × price − buyPrice × quantity. The Portfolio page shortens
      the names (`shorten`); the Portfolio Charts page does not. */
  function BarData(hs: seq<Holding>, prices: PriceMap, shorten: bool): (r: seq<Bar>)
    ensures |r| == |hs|
    ensures forall i :: 0 <= i < |hs| ==> r[i].profit == EntryFigures(hs[i], prices).profit
    ensures forall i :: 0 <= i < |hs| ==> r[i].name == if shorten then ShortLabel(hs[i].coinName) else hs[i].coinName
    ensures forall i :: 0 <= i < |hs| && hs[i].coinId !in prices ==> r[i].profit == -EntryFigures(hs[i], prices).invested
  {
    seq(|hs|, i requires 0 <= i < |hs| => BarOf(hs[i], prices, shorten))
  }

  /** `{ name, profit: currentValue - invested }` */
  function BarOf(h: Holding, prices: PriceMap, shorten: bool): Bar {
    Bar(if shorten then ShortLabel(h.coinName) else h.coinName,
        Num(h.quantity) * PriceOf(prices, h.coinId) - Num(h.buyPrice) * Num(h.quantity))
  }

  function BarTotal(s: seq<Bar>): real {
    if s == [] then 0.0 else BarTotal(s[..|s| - 1]) + s[|s| - 1].profit
  }

  /** The bars add up to the summary's profit. */
  lemma {:induction false} BarsAddUpToProfit(hs: seq<Holding>, prices: PriceMap, shorten: bool)
    ensures BarTotal(BarData(hs, prices, shorten)) == TotalCurrent(hs, prices) - TotalInvested(hs)
  {
    if hs != [] {
      var h' := hs[..|hs| - 1];
      assert forall k :: 0 <= k < |h'| ==> h'[k] == hs[k];
      assert BarData(hs, prices, shorten)[..|hs| - 1] == BarData(h', prices, shorten);
      BarsAddUpToProfit(h', prices, shorten);
    }
  }

  /** The pie colour palette `COLORS`. */
  const Colors: seq<string> := ["#0088FE", "#00C49F", "#FF8042", "#FF6384", "#AA66CC"]

  /** `COLORS[index % COLORS.length]` */
  function SliceColor(index: nat): string {
    Colors[index % |Colors|]
  }

  /** Two slices share a colour exactly when their indexes agree modulo 5:
      the palette repeats every five slices and neighbours within a cycle
      always differ. */
  lemma SliceColorsCycle(i: nat, j: nat)
    ensures SliceColor(i) == SliceColor(j) <==> i % 5 == j % 5
  {
    var a, b := i % 5, j % 5;
    if a != b {
      assert Colors[a] != Colors[b] by {
        assert forall k :: 0 <= k < 5 ==> |Colors[k]| == 7;
        assert Colors[0][3] == '8' && Colors[1][3] == 'C' && Colors[2][3] == '8' && Colors[3][3] == '6' && Colors[4][3] == '6';
        assert Colors[0][1] == '0' && Colors[2][1] == 'F' && Colors[3][1] == 'F' && Colors[4][1] == 'A';
        assert Colors[2][2] == 'F' && Colors[3][2] == 'F' && Colors[2][4] == '0' && Colors[3][4] == '3';
        assert Colors[0][2] == '0' && Colors[1][2] == '0' && Colors[1][1] == '0' && Colors[4][2] == 'A';
      }
    }
  }
}
