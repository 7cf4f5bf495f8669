/** The watchlist routes: add a coin (once per user), list the caller's
    coins, remove an entry by id. The Watchlist collection is the store's
    state; requests are handled one at a time. */
module Watchlists {
  import opened Common
  import opened Records
  import opened AuthGate
  import opened Collections

  /** The fields the add handler takes from `req.body`; nothing else in the
      body is read. */
  datatype WatchlistBody = WatchlistBody(coinId: Option<string>, coinName: Option<string>)

  const Duplicate: ApiError := Msg("Already in watchlist")
  const AddedMsg: string := "Added to watchlist"
  const RemovedMsg: string := "Removed from watchlist"

  function IdOf(e: WatchlistEntry): EntryId { e.id }
  function OwnerOf(e: WatchlistEntry): UserId { e.userId }
  function PairOf(e: WatchlistEntry): (UserId, string) { (e.userId, e.coinId) }

  /** `Watchlist.findOne({ userId, coinId })` finds something. */
  predicate Listed(entries: seq<WatchlistEntry>, user: UserId, coinId: string) {
    exists e :: e in entries && e.userId == user && e.coinId == coinId
  }

  /** What every reachable collection satisfies: ids are distinct and below
      the next id to hand out, every record passed validation, and no user
      has the same coin twice. */
  predicate StoreValid(entries: seq<WatchlistEntry>, nextId: EntryId) {
    (forall i :: 0 <= i < |entries| ==> entries[i].id < nextId && entries[i].coinId != "" && entries[i].coinName != "")
    && UniqueBy(entries, IdOf)
    && UniqueBy(entries, PairOf)
  }

  /** The add handler after authentication, as a function of the collection:
      the reply and the new collection. A coin the user already has is
      refused with 400; otherwise `Watchlist.create` either stores the new
      record at the end or fails validation with 500. The record's user is
      always `user`. */
  function AddEntry(entries: seq<WatchlistEntry>, nextId: EntryId, user: UserId, body: WatchlistBody, now: Timestamp)
    : (out: (Response<Added<WatchlistEntry>>, seq<WatchlistEntry>))
    ensures body.coinId.Some? && Listed(entries, user, body.coinId.value) ==> out == (ErrorStatus(400, Duplicate), entries)
    ensures out.0.Json? <==> !(body.coinId.Some? && Listed(entries, user, body.coinId.value))
                             && StringGiven(body.coinId) && StringGiven(body.coinName)
    ensures out.0.Json? ==> out.0.body.msg == AddedMsg
                            && out.0.body.entry == WatchlistEntry(nextId, user, body.coinId.value, body.coinName.value, now)
                            && out.1 == entries + [out.0.body.entry]
    ensures out.0.ErrorStatus? ==> out.1 == entries && (out.0.code == 400 || out.0.code == 500)
    ensures out.0.ErrorStatus? && !(body.coinId.Some? && Listed(entries, user, body.coinId.value))
            ==> out.0.code == 500
                && out.0.error == ValidationFailed("Watchlist", WatchlistMissing(WatchlistDoc(Some(user), body.coinId, body.coinName, None)))
  {
    if body.coinId.Some? && Listed(entries, user, body.coinId.value) then (ErrorStatus(400, Duplicate), entries)
    else
      match ValidateWatchlist(WatchlistDoc(Some(user), body.coinId, body.coinName, None), nextId, now)
      case Err(e) => (ErrorStatus(500, e), entries)
      case Ok(e) => (Json(Added(AddedMsg, e)), entries + [e])
  }

  /** Adding keeps the collection valid: the fresh record takes the next id
      and the duplicate check keeps (user, coin) pairs unique. */
  lemma AddKeepsValid(entries: seq<WatchlistEntry>, nextId: EntryId, user: UserId, body: WatchlistBody, now: Timestamp)
    requires StoreValid(entries, nextId)
    ensures var out := AddEntry(entries, nextId, user, body, now);
            StoreValid(out.1, if out.0.Json? then nextId + 1 else nextId)
  {
    var out := AddEntry(entries, nextId, user, body, now);
    if out.0.Json? {
      var e := out.0.body.entry;
      var s := out.1;
      forall i | 0 <= i < |entries| ensures PairOf(entries[i]) != PairOf(e) {
        assert entries[i] in entries;
      }
      forall i, j | 0 <= i < j < |s| ensures IdOf(s[i]) != IdOf(s[j]) && PairOf(s[i]) != PairOf(s[j]) {
        if j < |entries| {
          assert s[i] == entries[i] && s[j] == entries[j];
        }
      }
    }
  }

  /** The same user adding the same coin a second time is refused and
      changes nothing. */
  lemma SecondAddIsRefused(entries: seq<WatchlistEntry>, nextId: EntryId, user: UserId, body: WatchlistBody, now: Timestamp, later: Timestamp)
    requires AddEntry(entries, nextId, user, body, now).0.Json?
    ensures var s := AddEntry(entries, nextId, user, body, now).1;
            AddEntry(s, nextId + 1, user, body, later) == (ErrorStatus(400, Duplicate), s)
  {
    var out := AddEntry(entries, nextId, user, body, now);
    assert out.0.body.entry in out.1;
  }

  /** Another user's list is the same before and after an add. */
  lemma AddLeavesOthersAlone(entries: seq<WatchlistEntry>, nextId: EntryId, user: UserId, other: UserId, body: WatchlistBody, now: Timestamp)
    requires other != user
    ensures FindByUser(AddEntry(entries, nextId, user, body, now).1, other, OwnerOf) == FindByUser(entries, other, OwnerOf)
  {
    var out := AddEntry(entries, nextId, user, body, now);
    if out.0.Json? {
      FindByUserAppend(entries, [out.0.body.entry], other, OwnerOf);
    }
  }

  /** The Watchlist collection behind the three routes. */
  class WatchlistStore {
    var entries: seq<WatchlistEntry>
    var nextId: EntryId

    predicate Valid()
      reads this
    {
      StoreValid(entries, nextId)
    }

    constructor()
      ensures Valid() && entries == []
    {
      entries := [];
      nextId := 0;
    }

    /** `POST /add`: the gate, then AddEntry as the caller. */
    method Add(header: Option<string>, verify: string -> Option<UserId>, body: WatchlistBody, now: Timestamp)
      returns (r: Response<Added<WatchlistEntry>>)
      requires Valid()
      modifies this
      ensures Valid()
      ensures Authenticate(header, verify).ErrorStatus? ==>
                r == Refuse(Authenticate(header, verify)) && entries == old(entries) && nextId == old(nextId)
      ensures Authenticate(header, verify).Json? ==>
                (r, entries) == AddEntry(old(entries), old(nextId), Authenticate(header, verify).body, body, now)
                && nextId == if r.Json? then old(nextId) + 1 else old(nextId)
    {
      var gate := Authenticate(header, verify);
      if gate.ErrorStatus? {
        return Refuse(gate);
      }
      AddKeepsValid(entries, nextId, gate.body, body, now);
      var out := AddEntry(entries, nextId, gate.body, body, now);
      r, entries := out.0, out.1;
      if r.Json? {
        nextId := nextId + 1;
      }
    }

    /** `GET /user`: exactly the caller's entries, in collection order. */
    method List(header: Option<string>, verify: string -> Option<UserId>) returns (r: Response<seq<WatchlistEntry>>)
      ensures Authenticate(header, verify).ErrorStatus? ==> r == Refuse(Authenticate(header, verify))
      ensures Authenticate(header, verify).Json? ==>
                r == Json(FindByUser(entries, Authenticate(header, verify).body, OwnerOf))
      ensures r.Json? ==> forall e :: e in r.body <==> e in entries && e.userId == verify(header.value).value
    {
      var gate := Authenticate(header, verify);
      if gate.ErrorStatus? {
        return Refuse(gate);
      }
      r := Json(FindByUser(entries, gate.body, OwnerOf));
    }

    /** `DELETE /:id`: removes the record with that id, whoever owns it, and
      answers the same whether or not there was one. */
    method Delete(header: Option<string>, verify: string -> Option<UserId>, id: EntryId) returns (r: Response<string>)
      requires Valid()
      modifies this
      ensures Valid() && nextId == old(nextId)
      ensures Authenticate(header, verify).ErrorStatus? ==>
                r == Refuse(Authenticate(header, verify)) && entries == old(entries)
      ensures Authenticate(header, verify).Json? ==>
                r == Json(RemovedMsg) && entries == DeleteById(old(entries), id, IdOf)
    {
      var gate := Authenticate(header, verify);
      if gate.ErrorStatus? {
        return Refuse(gate);
      }
      DeleteKeepsUnique(entries, id, IdOf, IdOf);
      DeleteKeepsUnique(entries, id, IdOf, PairOf);
      var kept := DeleteById(entries, id, IdOf);
      forall i | 0 <= i < |kept| ensures kept[i].id < nextId && kept[i].coinId != "" && kept[i].coinName != "" {
        assert kept[i] in entries;
      }
      entries := kept;
      r := Json(RemovedMsg);
    }
  }
}
