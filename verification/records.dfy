/** The two Mongoose schemas of the backend, Portfolio and Watchlist, as
    record types, and what `Model.create` does with a document: apply the
    `createdAt` default, run the `required` validators and either store
    the record or fail with a validation error naming the failing paths. */
module Records {
  import opened Common

  /** A user's `_id`. */
  type UserId = nat
  /** A stored record's `_id`. */
  type EntryId = nat
  /** A `Date`, as a count of milliseconds. */
  type Timestamp = nat

  /** A stored Portfolio record: one lot of a coin bought by a user. */
  datatype PortfolioEntry = PortfolioEntry(
    id: EntryId, userId: UserId, coinId: string, coinName: string,
    quantity: real, buyPrice: real, createdAt: Timestamp)

  /** A stored Watchlist record. */
  datatype WatchlistEntry = WatchlistEntry(
    id: EntryId, userId: UserId, coinId: string, coinName: string, createdAt: Timestamp)

  /** The document handed to `Portfolio.create`: any field may be absent. */
  datatype PortfolioDoc = PortfolioDoc(
    userId: Option<UserId>, coinId: Option<string>, coinName: Option<string>,
    quantity: Option<real>, buyPrice: Option<real>, createdAt: Option<Timestamp>)

  /** The document handed to `Watchlist.create`. */
  datatype WatchlistDoc = WatchlistDoc(
    userId: Option<UserId>, coinId: Option<string>, coinName: Option<string>,
    createdAt: Option<Timestamp>)

  /** `{ msg, entry }`: the reply to a successful add. */
  datatype Added<+E> = Added(msg: string, entry: E)

  /** Mongoose's `required` check on a String path: present and not "". */
  predicate StringGiven(s: Option<string>) {
    s.Some? && s.value != ""
  }

  /** The paths of a Portfolio document whose `required` check fails, in
      schema order. A Number passes whenever it is present, whatever its
      sign or size. */
  function PortfolioMissing(doc: PortfolioDoc): (paths: seq<string>)
    ensures "userId" in paths <==> doc.userId.None?
    ensures "coinId" in paths <==> !StringGiven(doc.coinId)
    ensures "coinName" in paths <==> !StringGiven(doc.coinName)
    ensures "quantity" in paths <==> doc.quantity.None?
    ensures "buyPrice" in paths <==> doc.buyPrice.None?
    ensures forall p :: p in paths ==> p in ["userId", "coinId", "coinName", "quantity", "buyPrice"]
  {
    var u := if doc.userId.None? then ["userId"] else [];
    var ci := if !StringGiven(doc.coinId) then ["coinId"] else [];
    var cn := if !StringGiven(doc.coinName) then ["coinName"] else [];
    var q := if doc.quantity.None? then ["quantity"] else [];
    var b := if doc.buyPrice.None? then ["buyPrice"] else [];
    var paths := u + ci + cn + q + b;
    assert forall p :: p in paths <==> p in u || p in ci || p in cn || p in q || p in b;
    paths
  }

  /** `Portfolio.create(doc)` as far as validation goes: the stored record
      gets the id `id` and, when the document has none, `createdAt = now`. */
  function ValidatePortfolio(doc: PortfolioDoc, id: EntryId, now: Timestamp): (r: Result<PortfolioEntry, ApiError>)
    ensures r.Ok? <==> doc.userId.Some? && StringGiven(doc.coinId) && StringGiven(doc.coinName)
                       && doc.quantity.Some? && doc.buyPrice.Some?
    ensures r.Ok? ==> r.value == PortfolioEntry(id, doc.userId.value, doc.coinId.value, doc.coinName.value,
                                                doc.quantity.value, doc.buyPrice.value, doc.createdAt.GetOr(now))
    ensures r.Err? ==> r.error == ValidationFailed("Portfolio", PortfolioMissing(doc)) && r.error.paths != []
  {
    var missing := PortfolioMissing(doc);
    if missing != [] then Err(ValidationFailed("Portfolio", missing))
    else Ok(PortfolioEntry(id, doc.userId.value, doc.coinId.value, doc.coinName.value,
                           doc.quantity.value, doc.buyPrice.value, doc.createdAt.GetOr(now)))
  }

  /** The paths of a Watchlist document whose `required` check fails, in
      schema order. */
  function WatchlistMissing(doc: WatchlistDoc): (paths: seq<string>)
    ensures "userId" in paths <==> doc.userId.None?
    ensures "coinId" in paths <==> !StringGiven(doc.coinId)
    ensures "coinName" in paths <==> !StringGiven(doc.coinName)
    ensures forall p :: p in paths ==> p in ["userId", "coinId", "coinName"]
  {
    (if doc.userId.None? then ["userId"] else [])
    + (if !StringGiven(doc.coinId) then ["coinId"] else [])
    + (if !StringGiven(doc.coinName) then ["coinName"] else [])
  }

  /** `Watchlist.create(doc)` as far as validation goes. */
  function ValidateWatchlist(doc: WatchlistDoc, id: EntryId, now: Timestamp): (r: Result<WatchlistEntry, ApiError>)
    ensures r.Ok? <==> doc.userId.Some? && StringGiven(doc.coinId) && StringGiven(doc.coinName)
    ensures r.Ok? ==> r.value == WatchlistEntry(id, doc.userId.value, doc.coinId.value, doc.coinName.value,
                                                doc.createdAt.GetOr(now))
    ensures r.Err? ==> r.error == ValidationFailed("Watchlist", WatchlistMissing(doc)) && r.error.paths != []
  {
    var missing := WatchlistMissing(doc);
    if missing != [] then Err(ValidationFailed("Watchlist", missing))
    else Ok(WatchlistEntry(id, doc.userId.value, doc.coinId.value, doc.coinName.value, doc.createdAt.GetOr(now)))
  }

  /** An example: a document missing only its quantity fails with exactly
      that one path. */
  lemma OnlyMissingPathsAreNamed(doc: PortfolioDoc, id: EntryId, now: Timestamp)
    requires doc.userId.Some? && StringGiven(doc.coinId) && StringGiven(doc.coinName)
    requires doc.quantity.None? && doc.buyPrice.Some?
    ensures ValidatePortfolio(doc, id, now) == Err(ValidationFailed("Portfolio", ["quantity"]))
  {
    var none: seq<string> := [];
    assert PortfolioMissing(doc) == none + none + none + ["quantity"] + none;
    assert none + none + none + ["quantity"] + none == ["quantity"];
  }
}
