/** The "add holding" form of the Portfolio page: four text fields, a
    client-side emptiness check, and the request it sends. Whether the
    server accepts a request is the parameter `accepts` (the reply of
    `POST /api/portfolio/add`); `toNumber` stands for `Number(text)`, None
    being NaN, which reaches the server as `null`. */
module PortfolioForm {
  import opened Common
  import opened Text
  import opened Records
  import opened Portfolios

  /** `!coinId || !coinName || !quantity || !buyPrice`: the form refuses to
      send, or else the body it sends: trimmed coin id and name and the
      numbers converted from the text fields. */
  function Submission(coinId: string, coinName: string, quantity: string, buyPrice: string,
                      toNumber: string -> Option<real>): (b: Option<PortfolioBody>)
    ensures b.None? <==> coinId == "" || coinName == "" || quantity == "" || buyPrice == ""
    ensures b.Some? ==> b.value.coinId == Some(Trim(coinId)) && b.value.coinName == Some(Trim(coinName))
    ensures b.Some? ==> b.value.quantity == toNumber(quantity) && b.value.buyPrice == toNumber(buyPrice)
  {
    if coinId == "" || coinName == "" || quantity == "" || buyPrice == "" then None
    else Some(PortfolioBody(Some(Trim(coinId)), Some(Trim(coinName)), toNumber(quantity), toNumber(buyPrice)))
  }

  /** A request the form sends is stored exactly when neither text field is
      blank and both numbers convert. So a coin id of spaces gets past the
      form's check and is then refused by the server. */
  lemma ServerAcceptsIff(coinId: string, coinName: string, quantity: string, buyPrice: string,
                         toNumber: string -> Option<real>,
                         entries: seq<PortfolioEntry>, nextId: EntryId, user: UserId, now: Timestamp)
    requires Submission(coinId, coinName, quantity, buyPrice, toNumber).Some?
    ensures var body := Submission(coinId, coinName, quantity, buyPrice, toNumber).value;
            AddEntry(entries, nextId, user, body, now).0.Json?
            <==> !AllSpace(coinId) && !AllSpace(coinName) && toNumber(quantity).Some? && toNumber(buyPrice).Some?
  {
    TrimEmptyIff(coinId);
    TrimEmptyIff(coinName);
  }

  /** The form's state. */
  class AddForm {
    var coinId: string
    var coinName: string
    var quantity: string
    var buyPrice: string

    constructor()
      ensures coinId == "" && coinName == "" && quantity == "" && buyPrice == ""
    {
      coinId, coinName, quantity, buyPrice := "", "", "", "";
    }

    /** `handleAdd`: sends Submission's body, if any; the four fields are
        cleared only when the server took the request (the reload that
        follows catches its own errors), and kept as typed otherwise. */
    method HandleAdd(toNumber: string -> Option<real>, accepts: PortfolioBody -> bool) returns (sent: Option<PortfolioBody>)
      modifies this
      ensures sent == Submission(old(coinId), old(coinName), old(quantity), old(buyPrice), toNumber)
      ensures sent.Some? && accepts(sent.value) ==> coinId == "" && coinName == "" && quantity == "" && buyPrice == ""
      ensures sent.None? || !accepts(sent.value) ==>
                coinId == old(coinId) && coinName == old(coinName) && quantity == old(quantity) && buyPrice == old(buyPrice)
    {
      sent := Submission(coinId, coinName, quantity, buyPrice, toNumber);
      if sent.Some? && accepts(sent.value) {
        coinId, coinName, quantity, buyPrice := "", "", "", "";
      }
    }
  }
}
