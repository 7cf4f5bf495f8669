# cryptotrack: a verified model of the portfolio logic and the backend stores

cryptotrack is a crypto portfolio tracker. It has a React client that shows
live CoinGecko prices, and an Express/Mongoose backend that stores users,
portfolio lots and watchlist entries. This project is a Dafny model of the
deterministic parts of both, with proofs of what they promise.

Client side:

- **Valuation** (`valuation.dfy`). Per-holding and total invested amount,
  current value and profit/loss. This is the `summary` fold of the Portfolio
  and Portfolio Summary pages. The module also holds the pie and bar chart
  series of the Portfolio and Portfolio Charts pages, and the cyclic slice
  colours.
- **Price loading** (`price_loading.dfy`). Each page's decision, taken before
  the request, whether to ask CoinGecko for prices and for which ids.
- **Performers** (`performers.dfy`). Best and worst performer by 24h change.
  This is an in-place stable sort of a copy of the holdings.
- **Sparkline** (`sparkline.dfy`). Which samples are drawn, how they are
  scaled into the 120 × 30 box, and the trend colour.
- **CSV export** (`csv_export.dfy`). The rows and the quoting of section 2,
  rule 7 of RFC 4180, with rows separated by a line feed rather than CRLF.
  A reader for this all-quoted, LF-separated format shows that the export
  reads back cell for cell.
- **Coin list** (`crypto_list.dfy`). Search, top-N cut, 50-row pages, row
  numbers, and the Prev/Next page counter.
- **Add form** (`portfolio_form.dfy`). The client-side check of the add form,
  the request it sends, and when its fields are cleared.

Server side:

- **Records** (`records.dfy`). The Portfolio and Watchlist schemas, the
  `createdAt` default and the `required` validators.
- **Auth gate** (`auth_gate.dfy`). The bearer-token middleware, which both
  route files repeat.
- **Collections** (`collections.dfy`). Mongoose's `find({ userId })` and
  `findByIdAndDelete`.
- **Watchlist, portfolio and user stores** (`watchlist_store.dfy`,
  `portfolio_store.dfy`, `user_store.dfy`). Each store is a class holding its
  collection as a sequence, with one method per route. Each method is
  specified by a pure function of the old collection, and that function's
  invariants are proved as lemmas.

Common pieces:

- `common.dfy` holds the Option, Result and reply types.
- `text.dfy` holds `trim`, `toLowerCase`, `includes` and `join`.
- `market.dfy` holds the holding and price-map shapes.

Prices are JavaScript numbers in the source. Here they are `real`, with
rounding abstracted away.

External parts become parameters:

- `verify` stands for token checking (`jwt.verify` with the secret and the
  clock).
- `sign` stands for token signing (`jwt.sign`).
- `hash` and `compare` stand for bcrypt.
- `fmt` stands for `String(number)`.
- `toNumber` stands for `Number(text)`.

Requests are handled one at a time.

## Model

| member | source | states |
|---|---|---|
| Text.TrimStart | src/pages/CryptoList.jsx:49 | what `trim` drops at the front is white space, and the kept part is a suffix starting with a non-space |
| Text.TrimEnd | src/pages/CryptoList.jsx:49 | what `trim` drops at the end is white space, and the kept part is a prefix ending with a non-space |
| Text.TrimEmptyIff | src/pages/CryptoList.jsx:49 | `s.trim()` is empty (falsy) exactly when `s` is all white space |
| Text.JoinEmptyIff | src/pages/PortfolioCharts.jsx:34-35 | with a non-empty separator, a join is empty only for no parts or one empty part |
| Valuation.EntryFigures | src/pages/PortfolioSummary.jsx:110-114 | a holding's profit is current − invested; a coin with no quote is worth 0, so its loss is everything invested |
| Valuation.Summarize | src/pages/PortfolioSummary.jsx:106-121 | the `forEach` with two accumulators yields Σ quantity×buyPrice and Σ quantity×price (absent fields and prices count 0), and profit = current − invested; the Portfolio page's copy (src/pages/Portfolio.jsx:114-131) is the same fold |
| Valuation.TotalsAppend | src/pages/PortfolioSummary.jsx:109-115 | the totals of a concatenation are the sums of the parts' totals |
| Valuation.NoQuotesMeansNoValue | src/pages/PortfolioSummary.jsx:113-120 | when no holding's coin is in the price map, current value is 0 and profit is −invested |
| Valuation.PieData | src/pages/Portfolio.jsx:135-138 | one slice per holding, in order, named by the coin, valued at price × quantity and 0 when the price is missing; the same map is at src/pages/PortfolioCharts.jsx:52-58 |
| Valuation.PieAddsUpToCurrent | src/pages/PortfolioCharts.jsx:52-58 | the slice values add up to the summary's current value |
| Valuation.ShortLabel | src/pages/Portfolio.jsx:146-149 | a name of at most 10 characters is kept; a longer one becomes its first 10 characters and "…" |
| Valuation.ShortLabelIdempotent | src/pages/Portfolio.jsx:146-149 | labels have at most 11 characters, and shortening twice changes nothing more |
| Valuation.BarData | src/pages/Portfolio.jsx:140-152 | one bar per holding, in order; each bar's profit is that holding's profit (current − invested, so −invested for a coin without a quote), and its name is the shortened (Portfolio) or full (Portfolio Charts, src/pages/PortfolioCharts.jsx:63-70) coin name |
| Valuation.BarsAddUpToProfit | src/pages/PortfolioCharts.jsx:63-70 | the bars add up to the summary's profit |
| Valuation.SliceColorsCycle | src/pages/PortfolioCharts.jsx:93-98 | slices i and j share a colour exactly when i ≡ j (mod 5), the palette of line 20 |
| PriceLoading.RequestIds | src/pages/Portfolio.jsx:50 | an id is requested exactly when it is the non-empty coin id of some holding; there are none exactly when every coin id is empty |
| PriceLoading.RequestIdsAppend | src/pages/Portfolio.jsx:50 | the ids keep portfolio order: the ids of a concatenation are those of the first part followed by those of the second |
| PriceLoading.SummaryPriceLoad | src/pages/PortfolioSummary.jsx:40-52 | Portfolio Summary never returns early without resetting: it resets exactly when no holding has a non-empty coin id, and otherwise fetches the non-empty ids joined by commas |
| PriceLoading.PagePriceLoad | src/pages/Portfolio.jsx:48-59 | Portfolio resets exactly when no holding has a non-empty coin id, and otherwise fetches a non-empty comma-joined id list |
| PriceLoading.SummaryAndPageAgree | src/pages/PortfolioSummary.jsx:42-52 | Portfolio Summary and Portfolio (src/pages/Portfolio.jsx:50-54) take the same decision for every portfolio |
| PriceLoading.ChartsPriceLoad | src/pages/PortfolioCharts.jsx:33-35 | the charts page never resets; it keeps its old prices exactly for an empty portfolio or a single blank id, and two or more holdings always fetch |
| Market.ChangeOf | src/pages/PortfolioSummary.jsx:130-131 | the 24h change is `usd_24h_change` when present, else the legacy `usd_24h`, else 0; a coin without a quote has change 0 |
| Performers.SwapStep | src/pages/PortfolioSummary.jsx:138 | moving an item left past one with strictly lower change keeps the others in order and keeps the item ahead of everything after it |
| Performers.InsertDone | src/pages/PortfolioSummary.jsx:138 | once the item meets one with an equal or higher change, the prefix is sorted, which is where stability comes from |
| Performers.InsertIntoSorted | src/pages/PortfolioSummary.jsx:138 | one insertion step: the prefix stays sorted by change, highest first, ties in input order, and the array is a permutation of its old contents |
| Performers.SortByChange | src/pages/PortfolioSummary.jsx:138 | the sort leaves the copy ordered by change, highest first, stable among ties, and a permutation of the input |
| Performers.FindPerformers | src/pages/PortfolioSummary.jsx:127-143 | no performers for an empty portfolio; otherwise, among the copies of the holdings carrying their change and price, best goes before and worst after every other copy in the sort order; one holding is both |
| Performers.BestIsEarliestMaximum | src/pages/PortfolioSummary.jsx:138-142 | the best performer has the highest change, and no earlier holding has that change |
| Performers.WorstIsLatestMinimum | src/pages/PortfolioSummary.jsx:138-142 | the worst performer has the lowest change, and no later holding has that change |
| Sparkline.LastSamples | src/pages/PortfolioSummary.jsx:164 | `slice(-12)` keeps the last min(12, n) samples |
| Sparkline.Series | src/pages/PortfolioSummary.jsx:160-174 | a stored series, even an empty one, is used in preference to `smallData`; an empty or missing series means the random fallback; a drawn series has 1 to 12 samples |
| Sparkline.SeqMin | src/pages/PortfolioSummary.jsx:178 | the minimum is a sample and no sample is below it |
| Sparkline.SeqMax | src/pages/PortfolioSummary.jsx:179 | the maximum is a sample and no sample is above it |
| Sparkline.Range | src/pages/PortfolioSummary.jsx:180 | the range is max − min, or 1 for a constant series; it is positive and bounds every sample's distance above the minimum |
| Sparkline.Points | src/pages/PortfolioSummary.jsx:181-187 | one point per sample; a single sample gets x = NaN, otherwise sample i sits at i equal steps of width / (n − 1); every y lies in [0, 30] |
| Sparkline.ScaledWithinBox | src/pages/PortfolioSummary.jsx:184 | a sample between min and min + range is drawn within 0 ≤ y ≤ height |
| Sparkline.PointY | src/pages/PortfolioSummary.jsx:184 | a point's y is height − ((v − min) / range) × height |
| Sparkline.LowestSampleOnBottom | src/pages/PortfolioSummary.jsx:178-184 | a sample equal to the minimum is drawn on the bottom edge, y = height |
| Sparkline.HighestSampleOnTop | src/pages/PortfolioSummary.jsx:178-184 | in a series that is not constant, a sample equal to the maximum is drawn on the top edge, y = 0 |
| Sparkline.HigherSampleDrawnHigher | src/pages/PortfolioSummary.jsx:184 | a higher sample is never drawn below a lower one |
| Sparkline.XAtIsMultipleOfStep | src/pages/PortfolioSummary.jsx:183 | the x of sample i is i steps of width / (n − 1), and the last sample's x is the width |
| Sparkline.XRunsAcrossWidth | src/pages/PortfolioSummary.jsx:183 | with two or more samples, x runs from 0 to the width in equal steps |
| Sparkline.FlatSeriesIsFlatLine | src/pages/PortfolioSummary.jsx:180-184 | a constant series has range 1, and every point sits at y = height |
| Sparkline.StrokeColor | src/pages/PortfolioSummary.jsx:189 | purple exactly when the last sample ≥ the first, red exactly when it is lower |
| Sparkline.ColorDependsOnEndsOnly | src/pages/PortfolioSummary.jsx:189 | two series with the same first and last samples get the same colour |
| CsvExport.BuildRows | src/pages/PortfolioSummary.jsx:203-212 | the loop yields the header followed by one row per holding, in portfolio order |
| CsvExport.Row | src/pages/PortfolioSummary.jsx:207-211 | seven cells: id, name, quantity and buy price ("undefined" when absent), live price, the holding's current value, and its profit, which is "NaN" when quantity or buy price is absent |
| CsvExport.QuoteAll | src/pages/PortfolioSummary.jsx:213 | every cell is quoted, in order, and reads back as that cell after its opening quote, whatever quotes it holds |
| CsvExport.Lines | src/pages/PortfolioSummary.jsx:213 | one line per row, in order, and each line of a non-empty row reads back as exactly that row |
| CsvExport.ExportCsv | src/pages/PortfolioSummary.jsx:198-213 | nothing is exported for an empty portfolio; otherwise a reader for the all-quoted, LF-separated format gets back the header and one row per holding, cell for cell |
| CsvExport.ParseQuoted | src/pages/PortfolioSummary.jsx:213 | the reader of one quoted field always consumes input |
| CsvExport.ParseRecord | src/pages/PortfolioSummary.jsx:213 | a record read stops at a line feed or at the end of the text |
| CsvExport.QuotedRoundTrip | src/pages/PortfolioSummary.jsx:213 | unescaping a cell with its `"` doubled, up to the closing quote, gives back the cell |
| CsvExport.LineCons | src/pages/PortfolioSummary.jsx:213 | a line is the first quoted cell, a comma, then the line of the remaining cells |
| CsvExport.FieldStep | src/pages/PortfolioSummary.jsx:213 | after the opening quote, the reader returns the cell and the text after its closing quote |
| CsvExport.SingleCellRecord | src/pages/PortfolioSummary.jsx:213 | a line of one quoted cell reads back as that cell |
| CsvExport.ConsCellRecord | src/pages/PortfolioSummary.jsx:213 | a quoted cell, a comma and the rest of a line read back as the cell followed by the rest's cells |
| CsvExport.RecordRoundTrip | src/pages/PortfolioSummary.jsx:213 | one exported line reads back as its cells |
| CsvExport.CsvRoundTrip | src/pages/PortfolioSummary.jsx:213 | the rows joined by line feeds read back as the rows |
| CryptoList.Filter | src/pages/CryptoList.jsx:50-52 | a coin is kept exactly when its lower-cased name contains the lower-cased search |
| CryptoList.FilterAppend | src/pages/CryptoList.jsx:50-52 | filtering preserves relative order, since it distributes over concatenation |
| CryptoList.FilterIdempotent | src/pages/CryptoList.jsx:50-52 | filtering a second time with the same search changes nothing |
| CryptoList.TopN | src/pages/CryptoList.jsx:54-56 | the cut is a prefix of the list: of length min(N, length) under a top-N filter, and the whole list when there is none (None or 0) |
| CryptoList.Processed | src/pages/CryptoList.jsx:45-59 | the processed list only holds fetched coins, and at most N of them under a top-N filter |
| CryptoList.BlankSearchKeepsList | src/pages/CryptoList.jsx:47-57 | a blank search keeps the list in order, and a top-N filter then keeps its first min(N, length) coins |
| CryptoList.SearchKeepsMatches | src/pages/CryptoList.jsx:48-56 | a non-blank search keeps exactly the matching coins, using the untrimmed search text, and a top-N filter then keeps the first min(N, length) of them |
| CryptoList.TotalPages | src/pages/CryptoList.jsx:66 | `ceil(n / 50)`: enough pages for n, no page too many, and 0 exactly for an empty list |
| CryptoList.Page | src/pages/CryptoList.jsx:63-65 | page p holds at most 50 coins, namely those at positions (p−1)·50 onwards |
| CryptoList.RowNumberIsPosition | src/pages/CryptoList.jsx:139 | the displayed row number is the coin's 1-based position in the processed list |
| CryptoList.PageSizes | src/pages/CryptoList.jsx:63-66 | pages before the last are full, no page up to totalPages is empty, and pages past it are empty |
| CryptoList.PagesUpToIsPrefix | src/pages/CryptoList.jsx:63-65 | pages 1…k put end to end are the first min(50k, n) coins |
| CryptoList.PagesConcatenateToList | src/pages/CryptoList.jsx:63-66 | pages 1…totalPages put end to end give back the processed list |
| CryptoList.EmptyListLeavesNextEnabled | src/pages/CryptoList.jsx:233-236 | an empty list has 0 pages, so Next is never disabled |
| CryptoList.Pager.constructor | src/pages/CryptoList.jsx:14 | the page counter starts at 1 |
| CryptoList.Pager.ClickPrev | src/pages/CryptoList.jsx:221-224 | Prev does nothing at page 1 and otherwise goes back exactly one page; the page stays ≥ 1 |
| CryptoList.Pager.ClickNext | src/pages/CryptoList.jsx:233-236 | Next does nothing when page = totalPages and otherwise goes forward exactly one page |
| CryptoList.Pager.Rows | src/pages/CryptoList.jsx:65 | the rows on show are at most 50 |
| Records.PortfolioMissing | backend/models/Portfolio.js:4-12 | a path is reported exactly when its required check fails: absent, or an empty String; a present Number of any value passes |
| Records.ValidatePortfolio | backend/models/Portfolio.js:3-14 | a document is stored exactly when all five required fields pass; it is stored field for field, with `createdAt` defaulting to the creation time; otherwise a Portfolio validation error naming exactly the failing paths |
| Records.WatchlistMissing | backend/models/Watchlist.js:4-10 | a path is reported exactly when its required check fails |
| Records.ValidateWatchlist | backend/models/Watchlist.js:3-12 | a document is stored exactly when userId, coinId and coinName pass; it becomes exactly (userId, coinId, coinName, createdAt), with `createdAt` defaulting to now; otherwise a Watchlist validation error naming exactly the failing paths |
| Records.OnlyMissingPathsAreNamed | backend/models/Portfolio.js:4-12 | example: a document missing only its quantity fails with exactly that one path |
| AuthGate.Authenticate | backend/routes/watchlistRoutes.js:8-19 | no or empty header gives 401 "No token provided"; a token verify rejects gives 401 "Invalid token"; otherwise the acting user is the token's id (the same middleware is at backend/routes/portfolioRoutes.js:8-20) |
| Collections.FindByUser | backend/routes/watchlistRoutes.js:50 | `find({ userId })` returns exactly the user's records (also backend/routes/portfolioRoutes.js:49) |
| Collections.FindByUserAppend | backend/routes/portfolioRoutes.js:49 | in the model's insertion order, the query distributes over concatenation: records added later are listed later |
| Collections.DeleteById | backend/routes/watchlistRoutes.js:60 | `findByIdAndDelete` keeps every record but the one with that id, in order, and changes nothing for an unknown id (also backend/routes/portfolioRoutes.js:62) |
| Collections.DeleteByIdAppend | backend/routes/watchlistRoutes.js:60 | deleting distributes over concatenation, so the kept records stay in order |
| Collections.DeleteKeepsUnique | backend/routes/portfolioRoutes.js:62 | deleting keeps any uniqueness the collection had |
| Collections.DeleteRemovesOne | backend/routes/watchlistRoutes.js:60 | with unique ids, deleting a present id removes exactly one record |
| Watchlists.AddEntry | backend/routes/watchlistRoutes.js:22-45 | a coin the caller already has gets 400 "Already in watchlist" with nothing changed; otherwise the store appends exactly one record (caller, coinId, coinName, now) when validation passes, or answers 500 with nothing changed, carrying the Watchlist validation error for exactly the failing paths |
| Watchlists.AddKeepsValid | backend/routes/watchlistRoutes.js:27-39 | sequential adds keep ids fresh and (userId, coinId) pairs unique; the schema has no unique index (backend/models/Watchlist.js:3-12) |
| Watchlists.SecondAddIsRefused | backend/routes/watchlistRoutes.js:27-33 | adding the same coin again is refused and changes nothing |
| Watchlists.AddLeavesOthersAlone | backend/routes/watchlistRoutes.js:35-39 | an add leaves every other user's list as it was |
| Watchlists.WatchlistStore.constructor | backend/models/Watchlist.js:3-12 | the collection starts empty |
| Watchlists.WatchlistStore.Add | backend/routes/watchlistRoutes.js:22-45 | the gate refuses with the store untouched; otherwise the reply and the new collection are AddEntry's, as the token's user |
| Watchlists.WatchlistStore.List | backend/routes/watchlistRoutes.js:48-55 | exactly the caller's entries, in the model's insertion order |
| Watchlists.WatchlistStore.Delete | backend/routes/watchlistRoutes.js:58-65 | removes the entry with the id whoever owns it, leaves the others, and answers "Removed from watchlist" even for an unknown id |
| Portfolios.AddEntry | backend/routes/portfolioRoutes.js:25-42 | no duplicate check: an add that passes validation appends one lot (caller, coinId, coinName, quantity, buyPrice, now); a failed validation gives 500, stores nothing and carries the Portfolio validation error for exactly the failing paths |
| Portfolios.AddKeepsValid | backend/routes/portfolioRoutes.js:29-35 | adds keep ids fresh and records valid |
| Portfolios.SameCoinTwiceMakesTwoLots | backend/models/Portfolio.js:3-14 | adding the same coin twice gives two lots with different ids, both listed for the caller |
| Portfolios.PortfolioStore.constructor | backend/models/Portfolio.js:3-14 | the collection starts empty |
| Portfolios.PortfolioStore.Add | backend/routes/portfolioRoutes.js:25-42 | the gate refuses with the store untouched; otherwise the reply and the new collection are AddEntry's, as the token's user |
| Portfolios.PortfolioStore.List | backend/routes/portfolioRoutes.js:47-55 | exactly the caller's lots, in the model's insertion order |
| Portfolios.PortfolioStore.Delete | backend/routes/portfolioRoutes.js:60-67 | removes the lot with the id whoever owns it and answers "Entry deleted" even for an unknown id |
| Users.FindByEmail | backend/routes/authRoutes.js:14 | finds a user with exactly that email (case-sensitive) exactly when one exists |
| Users.RegisterUser | backend/routes/authRoutes.js:9-31 | a known email gets 400 "Email already exists" and nothing is added; otherwise exactly one user is appended, holding hash(password) |
| Users.RegisterKeepsValid | backend/routes/authRoutes.js:14-23 | sequential registrations keep emails unique |
| Users.LoginFor | backend/routes/authRoutes.js:34-60 | unknown email gives 400 "Invalid email"; a rejected password gives 400 "Invalid password"; otherwise a token signed over the id of the user found by that email, for 7 days, with the email given |
| Users.RegisterThenLogin | backend/routes/authRoutes.js:44-54 | after registering, logging in with the same password succeeds, and its token passes the routes' gate as the new user |
| Users.WrongPasswordGetsNoToken | backend/routes/authRoutes.js:41-42 | a password the stored hash rejects never yields a token |
| Users.UserStore.constructor | backend/routes/authRoutes.js:9-31 | the user collection starts empty |
| Users.UserStore.Register | backend/routes/authRoutes.js:9-31 | the reply and the new collection are RegisterUser's, and emails stay unique |
| Users.UserStore.Login | backend/routes/authRoutes.js:34-60 | returns LoginFor's decision, which reads the store and never changes it |
| PortfolioForm.Submission | src/pages/Portfolio.jsx:79-90 | nothing is sent exactly when a field is empty; otherwise the trimmed id and name and the converted numbers are sent |
| PortfolioForm.ServerAcceptsIff | src/pages/Portfolio.jsx:84-90 | a sent request is stored exactly when neither text field is blank and both numbers convert; a coin id of spaces passes the form but is refused by the server |
| PortfolioForm.AddForm.constructor | src/pages/Portfolio.jsx:27-30 | the four fields start empty |
| PortfolioForm.AddForm.HandleAdd | src/pages/Portfolio.jsx:78-102 | sends Submission's body; the fields are cleared only when the add was accepted, and kept otherwise |

## Left out

- Rendering is not modelled: JSX, SVG strings, toasts, alerts and navigation. This includes the Landing, Dashboard, Home, Watchlist and CryptoChart pages, the components, and `App.js`.
- Network I/O is not modelled. The price map, the coin list and the server's reply to an add are inputs.
- Timers and `useEffect` ordering are not modelled.
- localStorage is not modelled: the token, the user name, and parsing the stored sparkline coins. The stored series of a coin is an input to `Sparkline.Series`.
- The random fallback sparkline is not modelled. `Sparkline.Series` returns None where the component would draw it.
- Floating point is abstracted. Numbers are reals; rounding, `toLocaleString` and `toFixed` are not modelled. `String(number)` in CSV cells is the parameter `fmt`.
- Valuation.Summarize: a holding without quantity or buy price counts 0, as on the Portfolio Summary page. The Portfolio and Portfolio Charts pages read `item.quantity` unguarded and would get NaN. Records the server returns always carry both fields.
- Valuation.PieData: an absent quantity counts 0, where the Portfolio and Portfolio Charts pages (src/pages/Portfolio.jsx:137, src/pages/PortfolioCharts.jsx:53) multiply by `item.quantity` unguarded and would get NaN.
- Valuation.BarData: an absent quantity or buy price counts 0, where src/pages/Portfolio.jsx:142-143 and src/pages/PortfolioCharts.jsx:64-65 read them unguarded and would get NaN.
- The CSV download side effects are not modelled: the Blob, the object URL, the dated file name and the click.
- Valuation.ShortLabel: counts characters as Unicode scalar values. JavaScript's `length` and `slice` count UTF-16 code units, so a name with characters outside the Basic Multilingual Plane (emoji, for example) is cut at a different place in the source, possibly inside a surrogate pair.
- `Text.Lower` lower-cases ASCII letters only, and `Text.IsSpace` is the ASCII part of JavaScript's white-space set. Unicode case mapping and Unicode spaces are not modelled.
- The Sparkline inside the coin list page (src/pages/CryptoList.jsx:68-82) is not modelled. It divides by a zero range on a constant series.
- `CryptoList.Processed` accepts any top-N value. The page only offers None, 10, 20, 50 and 100.
- `Performers.SortByChange` is an insertion sort standing in for `Array.prototype.sort`. It has the same stable result for this comparator, which never yields NaN.
- bcrypt and jwt are the parameters `hash`, `compare`, `sign` and `verify`. Token expiry is part of `verify`. A valid token without an `id` claim is not modelled.
- Mongoose casting is not modelled. A non-numeric quantity, or a malformed id in a delete, would fail with 500. Ids are natural numbers handed out in order.
- Database failures in the `catch` branches are not modelled. The only 500 that is modelled is a failed validation.
- models/User.js is not part of this model. The user record is (id, email, password hash), and register's create is taken to succeed.
- `Watchlists.AddEntry` treats a request without `coinId` as matching no stored entry. Mongoose's handling of an `undefined` filter value is not modelled, so that create fails validation with 500.
- Collections.FindByUser: `find({ userId })` has no `.sort()`, and MongoDB does not promise an order for it. The model lists records in insertion order, which is one order MongoDB may return; other orders are not modelled.
- Collections.FindByUserAppend: the order it states is the model's insertion order, not an order MongoDB promises.
- Watchlists.WatchlistStore.List: lists the caller's entries in insertion order; the real query's order is unspecified.
- Portfolios.PortfolioStore.List: lists the caller's lots in insertion order; the real query's order is unspecified.
- Market.ChangeOf: the final `|| 0` also maps a NaN change to 0. Numbers are reals here, so NaN is not modelled.
- Users.RegisterUser: `email` and `password` are always present. A request body without them, where `bcrypt.hash` rejects and the handler answers 500 with nothing stored, is not modelled. The register page is not part of this model.
- Users.LoginFor: `email` and `password` are always present. A missing password, where `bcrypt.compare` rejects and the handler answers 500, is not modelled; neither is `findOne` with an absent email. The login form (src/pages/Login.jsx:14) never sends an empty email or password.
- Concurrency is not modelled. The check-then-insert races in register and watchlist add are out of scope, and requests are sequential.
