/** The "Export CSV" action of the Portfolio Summary page: a header row and
    one row per holding, every cell quoted as in section 2, rule 7 of
    RFC 4180 (enclosed in double quotes, inner double quotes doubled),
    cells joined by "," and rows by a line feed (not the CRLF of RFC 4180).
    The download itself (Blob, object URL, dated file name) is not
    modelled. Numbers reach the cells through `fmt`, which stands for
    `String(number)`. */
module CsvExport {
  import opened Common
  import opened Market
  import opened Text
  import opened Valuation

  const Header: seq<string> := ["coinId", "coinName", "quantity", "buyPrice", "currentPrice", "currentValue", "profitLoss"]

  /** `String(x)` of a field that may be absent: "undefined" when it is. */
  function NumberCell(x: Option<real>, fmt: real -> string): string {
    if x.Some? then fmt(x.value) else "undefined"
  }

  /** `[coinId, coinName, quantity, buyPrice, cur, currentValue, profitLoss]`.
      `currentValue` guards an absent quantity with 0; `invested` does not,
      so an absent quantity or buy price makes the profit NaN. */
  function Row(h: Holding, prices: PriceMap, fmt: real -> string): (r: seq<string>)
    ensures |r| == |Header|
    ensures r[0] == h.coinId && r[1] == h.coinName
    ensures r[2] == NumberCell(h.quantity, fmt) && r[3] == NumberCell(h.buyPrice, fmt)
    ensures r[4] == fmt(PriceOf(prices, h.coinId))
    ensures r[5] == fmt(EntryFigures(h, prices).current)
    ensures h.quantity.Some? && h.buyPrice.Some? ==> r[6] == fmt(EntryFigures(h, prices).profit)
    ensures h.quantity.None? || h.buyPrice.None? ==> r[6] == "NaN"
  {
    var cur := PriceOf(prices, h.coinId);
    var currentValue := cur * Num(h.quantity);
    assert currentValue == EntryFigures(h, prices).current;
    assert h.quantity.Some? && h.buyPrice.Some? ==>
      currentValue - h.buyPrice.value * h.quantity.value == EntryFigures(h, prices).profit;
    var profitLoss :=
      if h.quantity.None? || h.buyPrice.None? then "NaN"
      else fmt(currentValue - h.buyPrice.value * h.quantity.value);
    [h.coinId, h.coinName, NumberCell(h.quantity, fmt), NumberCell(h.buyPrice, fmt), fmt(cur), fmt(currentValue), profitLoss]
  }

  /** The rows after the header, one per holding, in portfolio order. */
  function Rows(hs: seq<Holding>, prices: PriceMap, fmt: real -> string): seq<seq<string>> {
    seq(|hs|, i requires 0 <= i < |hs| => Row(hs[i], prices, fmt))
  }

  /** `rows = [header]`, then `rows.push(...)` for each holding. */
  method BuildRows(hs: seq<Holding>, prices: PriceMap, fmt: real -> string) returns (rows: seq<seq<string>>)
    ensures rows == [Header] + Rows(hs, prices, fmt)
    ensures |rows| == |hs| + 1
  {
    rows := [Header];
    var i := 0;
    while i < |hs|
      invariant 0 <= i <= |hs|
      invariant rows == [Header] + Rows(hs[..i], prices, fmt)
    {
      assert Rows(hs[..i + 1], prices, fmt) == Rows(hs[..i], prices, fmt) + [Row(hs[i], prices, fmt)];
      rows := rows + [Row(hs[i], prices, fmt)];
      i := i + 1;
    }
    assert hs[..|hs|] == hs;
  }

  /** `c.replace(/"/g, '""')` */
  function Escape(c: string): string {
    if c == [] then []
    else (if c[0] == '"' then "\"\"" else [c[0]]) + Escape(c[1..])
  }

  /** `"${...}"`: the escaped cell between double quotes. */
  function Quote(c: string): string {
    "\"" + Escape(c) + "\""
  }

  /** Every cell quoted, in order; each quoted cell opens with a double
      quote after which the reader gets the cell back, with nothing left. */
  function QuoteAll(cells: seq<string>): (r: seq<string>)
    ensures |r| == |cells| && forall i :: 0 <= i < |cells| ==> r[i] == Quote(cells[i])
    ensures forall i :: 0 <= i < |cells| ==> r[i] != [] && r[i][0] == '"' && ParseQuoted(r[i][1..]) == Some((cells[i], ""))
  {
    var r := seq(|cells|, i requires 0 <= i < |cells| => Quote(cells[i]));
    assert forall i :: 0 <= i < |cells| ==> ParseQuoted(r[i][1..]) == Some((cells[i], "")) by {
      forall i | 0 <= i < |cells| ensures ParseQuoted(r[i][1..]) == Some((cells[i], "")) {
        QuotedRoundTrip(cells[i], "");
        assert r[i][1..] == Escape(cells[i]) + "\"" + "";
      }
    }
    r
  }

  /** `r.map(quote).join(",")` */
  function Line(cells: seq<string>): string {
    Join(QuoteAll(cells), ",")
  }

  /** One line per row, in order; each line of a non-empty row reads back
      as that row, with nothing left. */
  function Lines(rows: seq<seq<string>>): (r: seq<string>)
    ensures |r| == |rows| && forall i :: 0 <= i < |rows| ==> r[i] == Line(rows[i])
    ensures forall i :: 0 <= i < |rows| && |rows[i]| >= 1 ==> ParseRecord(r[i]) == Some((rows[i], ""))
  {
    var r := seq(|rows|, i requires 0 <= i < |rows| => Line(rows[i]));
    assert forall i :: 0 <= i < |rows| && |rows[i]| >= 1 ==> ParseRecord(r[i]) == Some((rows[i], "")) by {
      forall i | 0 <= i < |rows| && |rows[i]| >= 1 ensures ParseRecord(r[i]) == Some((rows[i], "")) {
        RecordRoundTrip(rows[i], "");
        assert r[i] + "" == r[i];
      }
    }
    r
  }

  /** `rows.map(...).join("\n")` */
  function Csv(rows: seq<seq<string>>): string {
    Join(Lines(rows), "\n")
  }

  /** `handleExportCSV`: nothing is exported for an empty portfolio;
      otherwise the text, read back by a reader for the all-quoted,
      LF-separated format, gives the header
      and then one row per holding, in portfolio order, cell for cell. */
  method ExportCsv(hs: seq<Holding>, prices: PriceMap, fmt: real -> string) returns (csv: Option<string>)
    ensures csv.None? <==> hs == []
    ensures csv.Some? ==> ParseCsv(csv.value) == Some([Header] + Rows(hs, prices, fmt))
  {
    if |hs| == 0 {
      return None;
    }
    var rows := BuildRows(hs, prices, fmt);
    forall i | 0 <= i < |rows| ensures |rows[i]| >= 1 {
      if i > 0 {
        assert rows[i] == Row(hs[i - 1], prices, fmt);
      }
    }
    CsvRoundTrip(rows);
    csv := Some(Csv(rows));
  }

  // ---- A reader for the all-quoted, LF-separated format ----

  /** Reads the inside of a quoted field, up to and including its closing
      quote: the unescaped content and what follows the closing quote. */
  function ParseQuoted(t: string): (r: Option<(string, string)>)
    ensures r.Some? ==> |r.value.1| < |t|
    decreases |t|
  {
    if t == [] then None
    else if t[0] == '"' then
      if |t| >= 2 && t[1] == '"' then
        match ParseQuoted(t[2..])
        case None => None
        case Some((c, rest)) => Some(("\"" + c, rest))
      else Some(("", t[1..]))
    else
      match ParseQuoted(t[1..])
      case None => None
      case Some((c, rest)) => Some(([t[0]] + c, rest))
  }

  /** Reads one record: quoted fields separated by commas, ended by a line
      feed (left in the rest) or by the end of the text. */
  function ParseRecord(t: string): (r: Option<(seq<string>, string)>)
    ensures r.Some? ==> |r.value.1| < |t|
    ensures r.Some? ==> r.value.1 == [] || r.value.1[0] == '\n'
    decreases |t|
  {
    if t == [] || t[0] != '"' then None
    else
      match ParseQuoted(t[1..])
      case None => None
      case Some((cell, rest)) =>
        if rest != [] && rest[0] == ',' then
          match ParseRecord(rest[1..])
          case None => None
          case Some((cells, rest')) => Some(([cell] + cells, rest'))
        else if rest == [] || rest[0] == '\n' then Some(([cell], rest))
        else None
  }

  /** Reads records separated by line feeds. */
  function ParseCsv(t: string): Option<seq<seq<string>>>
    decreases |t|
  {
    match ParseRecord(t)
    case None => None
    case Some((cells, rest)) =>
      if rest == [] then Some([cells])
      else
        match ParseCsv(rest[1..])
        case None => None
        case Some(rows) => Some([cells] + rows)
  }

  /** Unescaping recovers the cell: the reader stops at the quote that
      closes it, never at a doubled one. */
  lemma {:induction false} QuotedRoundTrip(c: string, rest: string)
    requires rest == [] || rest[0] != '"'
    ensures ParseQuoted(Escape(c) + "\"" + rest) == Some((c, rest))
    decreases |c|
  {
    var t := Escape(c) + "\"" + rest;
    if c == [] {
      assert t == "\"" + rest;
      assert t[1..] == rest;
    } else {
      QuotedRoundTrip(c[1..], rest);
      var tail := Escape(c[1..]) + "\"" + rest;
      if c[0] == '"' {
        assert t == "\"\"" + tail;
        assert t[2..] == tail;
        assert "\"" + c[1..] == c;
      } else {
        assert t == [c[0]] + tail;
        assert t[1..] == tail;
        assert [c[0]] + c[1..] == c;
      }
    }
  }

  /** A line of two or more cells is the first quoted cell, a comma and
      the line of the others. */
  lemma LineCons(cells: seq<string>)
    requires |cells| >= 2
    ensures Line(cells) == Quote(cells[0]) + "," + Line(cells[1..])
  {
    assert QuoteAll(cells)[1..] == QuoteAll(cells[1..]);
  }

  /** One field of a record: after the opening quote, ParseQuoted reads
      the cell back. */
  lemma FieldStep(c: string, after: string, t: string)
    requires after == [] || after[0] != '"'
    requires t == ['"'] + (Escape(c) + "\"" + after)
    ensures t != [] && t[0] == '"'
    ensures ParseQuoted(t[1..]) == Some((c, after))
  {
    var body := Escape(c) + "\"" + after;
    assert t[1..] == body;
    QuotedRoundTrip(c, after);
  }

  /** A line of one cell reads back as that cell. */
  lemma SingleCellRecord(c: string, rest: string)
    requires rest == [] || rest[0] == '\n'
    ensures ParseRecord(Quote(c) + rest) == Some(([c], rest))
  {
    var t := Quote(c) + rest;
    assert t == ['"'] + (Escape(c) + "\"" + rest);
    FieldStep(c, rest, t);
  }

  /** A record whose first field reads back as `c`, followed by a comma
      and the rest of the record. */
  lemma RecordCons(t: string, c: string, after: string, cs: seq<string>, rest: string)
    requires t != [] && t[0] == '"' && ParseQuoted(t[1..]) == Some((c, after))
    requires after != [] && after[0] == ',' && ParseRecord(after[1..]) == Some((cs, rest))
    ensures ParseRecord(t) == Some(([c] + cs, rest))
  {
  }

  /** A quoted cell followed by a comma and more text, split after its
      opening quote. */
  lemma QuoteThenComma(c: string, line: string, rest: string)
    ensures Quote(c) + "," + line + rest == ['"'] + (Escape(c) + "\"" + ("," + (line + rest)))
  {
  }

  /** A quoted cell, a comma and a record that reads back as `cs` read
      back as the cell followed by `cs`. */
  lemma ConsCellRecord(c: string, line: string, rest: string, cs: seq<string>)
    requires ParseRecord(line + rest) == Some((cs, rest))
    ensures ParseRecord(Quote(c) + "," + line + rest) == Some(([c] + cs, rest))
  {
    var after := "," + (line + rest);
    var t := ['"'] + (Escape(c) + "\"" + after);
    QuoteThenComma(c, line, rest);
    FieldStep(c, after, t);
    assert after[1..] == line + rest;
    RecordCons(t, c, after, cs, rest);
  }

  /** One exported line reads back as its cells. */
  lemma {:induction false} RecordRoundTrip(cells: seq<string>, rest: string)
    requires |cells| >= 1
    requires rest == [] || rest[0] == '\n'
    ensures ParseRecord(Line(cells) + rest) == Some((cells, rest))
    decreases |cells|
  {
    if |cells| == 1 {
      assert Line(cells) == Quote(cells[0]);
      SingleCellRecord(cells[0], rest);
      assert [cells[0]] == cells;
    } else {
      LineCons(cells);
      RecordRoundTrip(cells[1..], rest);
      ConsCellRecord(cells[0], Line(cells[1..]), rest, cells[1..]);
      assert [cells[0]] + cells[1..] == cells;
    }
  }

  /** The whole export reads back as its rows, in order. */
  lemma {:induction false} CsvRoundTrip(rows: seq<seq<string>>)
    requires |rows| >= 1
    requires forall i :: 0 <= i < |rows| ==> |rows[i]| >= 1
    ensures ParseCsv(Csv(rows)) == Some(rows)
    decreases |rows|
  {
    var ls := Lines(rows);
    if |rows| == 1 {
      RecordRoundTrip(rows[0], []);
      assert Csv(rows) == Line(rows[0]) + [];
      assert [rows[0]] == rows;
    } else {
      assert ls[1..] == Lines(rows[1..]);
      var after := "\n" + Csv(rows[1..]);
      assert Csv(rows) == Line(rows[0]) + after;
      RecordRoundTrip(rows[0], after);
      assert after[1..] == Csv(rows[1..]);
      CsvRoundTrip(rows[1..]);
      assert [rows[0]] + rows[1..] == rows;
    }
  }
}
