/** The portfolio routes: add a lot, list the caller's lots, delete a lot by
    id. Unlike the watchlist there is no duplicate check: every add that
    passes validation is a new lot. */
module Portfolios {
  import opened Common
  import opened Records
  import opened AuthGate
  import opened Collections

  /** The fields the add handler takes from `req.body`. */
  datatype PortfolioBody = PortfolioBody(coinId: Option<string>, coinName: Option<string>, quantity: Option<real>, buyPrice: Option<real>)

  const AddedMsg: string := "Added to portfolio"
  const DeletedMsg: string := "Entry deleted"

  function IdOf(e: PortfolioEntry): EntryId { e.id }
  function OwnerOf(e: PortfolioEntry): UserId { e.userId }

  /** Ids are distinct and below the next id; every record passed validation. */
  predicate StoreValid(entries: seq<PortfolioEntry>, nextId: EntryId) {
    (forall i :: 0 <= i < |entries| ==> entries[i].id < nextId && entries[i].coinId != "" && entries[i].coinName != "")
    && UniqueBy(entries, IdOf)
  }

  /** The add handler after authentication: `Portfolio.create` with the
      caller as `userId` and the four body fields. */
  function AddEntry(entries: seq<PortfolioEntry>, nextId: EntryId, user: UserId, body: PortfolioBody, now: Timestamp)
    : (out: (Response<Added<PortfolioEntry>>, seq<PortfolioEntry>))
    ensures out.0.Json? <==> StringGiven(body.coinId) && StringGiven(body.coinName) && body.quantity.Some? && body.buyPrice.Some?
    ensures out.0.Json? ==> out.0.body.msg == AddedMsg
                            && out.0.body.entry == PortfolioEntry(nextId, user, body.coinId.value, body.coinName.value,
                                                                  body.quantity.value, body.buyPrice.value, now)
                            && out.1 == entries + [out.0.body.entry]
    ensures out.0.ErrorStatus? ==> out.0.code == 500 && out.1 == entries
                                   && out.0.error == ValidationFailed("Portfolio", PortfolioMissing(
                                        PortfolioDoc(Some(user), body.coinId, body.coinName, body.quantity, body.buyPrice, None)))
  {
    match ValidatePortfolio(PortfolioDoc(Some(user), body.coinId, body.coinName, body.quantity, body.buyPrice, None), nextId, now)
    case Err(e) => (ErrorStatus(500, e), entries)
    case Ok(e) => (Json(Added(AddedMsg, e)), entries + [e])
  }

  lemma AddKeepsValid(entries: seq<PortfolioEntry>, nextId: EntryId, user: UserId, body: PortfolioBody, now: Timestamp)
    requires StoreValid(entries, nextId)
    ensures var out := AddEntry(entries, nextId, user, body, now);
            StoreValid(out.1, if out.0.Json? then nextId + 1 else nextId)
  {
    var out := AddEntry(entries, nextId, user, body, now);
    if out.0.Json? {
      var s := out.1;
      forall i, j | 0 <= i < j < |s| ensures IdOf(s[i]) != IdOf(s[j]) {
        if j < |entries| {
          assert s[i] == entries[i] && s[j] == entries[j];
        }
      }
    }
  }

  /** Adding the same coin twice gives two separate lots of the caller's,
      with different ids; both show in the caller's list. */
  lemma SameCoinTwiceMakesTwoLots(entries: seq<PortfolioEntry>, nextId: EntryId, user: UserId, body: PortfolioBody, t1: Timestamp, t2: Timestamp)
    requires AddEntry(entries, nextId, user, body, t1).0.Json?
    ensures var first := AddEntry(entries, nextId, user, body, t1);
            var second := AddEntry(first.1, nextId + 1, user, body, t2);
            second.0.Json?
            && second.1 == entries + [first.0.body.entry, second.0.body.entry]
            && first.0.body.entry.coinId == second.0.body.entry.coinId
            && first.0.body.entry.id != second.0.body.entry.id
            && FindByUser(second.1, user, OwnerOf) == FindByUser(entries, user, OwnerOf) + [first.0.body.entry, second.0.body.entry]
  {
    var first := AddEntry(entries, nextId, user, body, t1);
    var second := AddEntry(first.1, nextId + 1, user, body, t2);
    var a, b := first.0.body.entry, second.0.body.entry;
    assert second.1 == entries + [a, b];
    FindByUserAppend(entries, [a, b], user, OwnerOf);
    assert FindByUser([a, b], user, OwnerOf) == [a, b] by {
      assert [a, b][1..] == [b];
    }
  }

  /** The Portfolio collection behind the three routes. */
  class PortfolioStore {
    var entries: seq<PortfolioEntry>
    var nextId: EntryId

    predicate Valid()
      reads this
    {
      StoreValid(entries, nextId)
    }

    constructor()
      ensures Valid() && entries == []
    {
      entries := [];
      nextId := 0;
    }

    /** `POST /add`: the gate, then AddEntry as the caller. */
    method Add(header: Option<string>, verify: string -> Option<UserId>, body: PortfolioBody, now: Timestamp)
      returns (r: Response<Added<PortfolioEntry>>)
      requires Valid()
      modifies this
      ensures Valid()
      ensures Authenticate(header, verify).ErrorStatus? ==>
                r == Refuse(Authenticate(header, verify)) && entries == old(entries) && nextId == old(nextId)
      ensures Authenticate(header, verify).Json? ==>
                (r, entries) == AddEntry(old(entries), old(nextId), Authenticate(header, verify).body, body, now)
                && nextId == if r.Json? then old(nextId) + 1 else old(nextId)
    {
      var gate := Authenticate(header, verify);
      if gate.ErrorStatus? {
        return Refuse(gate);
      }
      AddKeepsValid(entries, nextId, gate.body, body, now);
      var out := AddEntry(entries, nextId, gate.body, body, now);
      r, entries := out.0, out.1;
      if r.Json? {
        nextId := nextId + 1;
      }
    }

    /** `GET /user`: exactly the caller's lots, in collection order. */
    method List(header: Option<string>, verify: string -> Option<UserId>) returns (r: Response<seq<PortfolioEntry>>)
      ensures Authenticate(header, verify).ErrorStatus? ==> r == Refuse(Authenticate(header, verify))
      ensures Authenticate(header, verify).Json? ==>
                r == Json(FindByUser(entries, Authenticate(header, verify).body, OwnerOf))
      ensures r.Json? ==> forall e :: e in r.body <==> e in entries && e.userId == verify(header.value).value
    {
      var gate := Authenticate(header, verify);
      if gate.ErrorStatus? {
        return Refuse(gate);
      }
      r := Json(FindByUser(entries, gate.body, OwnerOf));
    }

    /** `DELETE /:id`: removes the lot with that id, whoever owns it, and
        answers the same whether or not there was one. */
    method Delete(header: Option<string>, verify: string -> Option<UserId>, id: EntryId) returns (r: Response<string>)
      requires Valid()
      modifies this
      ensures Valid() && nextId == old(nextId)
      ensures Authenticate(header, verify).ErrorStatus? ==>
                r == Refuse(Authenticate(header, verify)) && entries == old(entries)
      ensures Authenticate(header, verify).Json? ==>
                r == Json(DeletedMsg) && entries == DeleteById(old(entries), id, IdOf)
    {
      var gate := Authenticate(header, verify);
      if gate.ErrorStatus? {
        return Refuse(gate);
      }
      DeleteKeepsUnique(entries, id, IdOf, IdOf);
      var kept := DeleteById(entries, id, IdOf);
      forall i | 0 <= i < |kept| ensures kept[i].id < nextId && kept[i].coinId != "" && kept[i].coinName != "" {
        assert kept[i] in entries;
      }
      entries := kept;
      r := Json(DeletedMsg);
    }
  }
}
