/** The two Mongoose queries the routes run on a collection besides
    `create`: `Model.find({ userId })` and `Model.findByIdAndDelete(id)`.
    A collection is the sequence of its records in insertion order; `idOf`
    and `ownerOf` read a record's `_id` and `userId`. */
module Collections {
  import opened Records

  /** No two records agree on `key`. */
  predicate UniqueBy<E, K(==)>(entries: seq<E>, key: E -> K) {
    forall i, j :: 0 <= i < j < |entries| ==> key(entries[i]) != key(entries[j])
  }

  /** `Model.find({ userId: user })`: exactly the user's records, in
      collection order. */
  function FindByUser<E(==,!new)>(entries: seq<E>, user: UserId, ownerOf: E -> UserId): (r: seq<E>)
    ensures |r| <= |entries|
    ensures forall e :: e in r <==> e in entries && ownerOf(e) == user
  {
    if entries == [] then []
    else
      var rest := FindByUser(entries[1..], user, ownerOf);
      assert forall e :: e in entries <==> e == entries[0] || e in entries[1..];
      if ownerOf(entries[0]) == user then [entries[0]] + rest else rest
  }

  /** The query distributes over a concatenation: records appended later
      are listed after those already there, and records of other users
      never show. */
  lemma {:induction false} FindByUserAppend<E(!new)>(a: seq<E>, b: seq<E>, user: UserId, ownerOf: E -> UserId)
    ensures FindByUser(a + b, user, ownerOf) == FindByUser(a, user, ownerOf) + FindByUser(b, user, ownerOf)
  {
    if a == [] {
      assert a + b == b;
    } else {
      assert (a + b)[1..] == a[1..] + b;
      FindByUserAppend(a[1..], b, user, ownerOf);
    }
  }

  /** `Model.findByIdAndDelete(id)`: every record but the one with that id,
      in the same order; nothing changes when no record has it. */
  function DeleteById<E(==,!new)>(entries: seq<E>, id: EntryId, idOf: E -> EntryId): (r: seq<E>)
    ensures |r| <= |entries|
    ensures forall e :: e in r <==> e in entries && idOf(e) != id
    ensures (forall e :: e in entries ==> idOf(e) != id) ==> r == entries
  {
    if entries == [] then []
    else
      var rest := DeleteById(entries[1..], id, idOf);
      assert forall e :: e in entries <==> e == entries[0] || e in entries[1..];
      if idOf(entries[0]) == id then rest else [entries[0]] + rest
  }

  /** Deleting distributes over a concatenation: the kept records stay in
      their order. */
  lemma {:induction false} DeleteByIdAppend<E(!new)>(a: seq<E>, b: seq<E>, id: EntryId, idOf: E -> EntryId)
    ensures DeleteById(a + b, id, idOf) == DeleteById(a, id, idOf) + DeleteById(b, id, idOf)
  {
    if a == [] {
      assert a + b == b;
    } else {
      assert (a + b)[1..] == a[1..] + b;
      DeleteByIdAppend(a[1..], b, id, idOf);
    }
  }

  /** Deleting keeps every uniqueness the collection had. */
  lemma {:induction false} DeleteKeepsUnique<E(!new), K>(entries: seq<E>, id: EntryId, idOf: E -> EntryId, key: E -> K)
    requires UniqueBy(entries, key)
    ensures UniqueBy(DeleteById(entries, id, idOf), key)
  {
    if entries != [] {
      var tail := entries[1..];
      assert UniqueBy(tail, key) by {
        forall i, j | 0 <= i < j < |tail| ensures key(tail[i]) != key(tail[j]) {
          assert tail[i] == entries[i + 1] && tail[j] == entries[j + 1];
        }
      }
      DeleteKeepsUnique(tail, id, idOf, key);
      var rest := DeleteById(tail, id, idOf);
      if idOf(entries[0]) != id {
        var r := [entries[0]] + rest;
        forall j | 1 <= j < |r| ensures key(r[0]) != key(r[j]) {
          assert r[j] in rest;
          var k :| 0 <= k < |tail| && tail[k] == r[j];
          assert entries[k + 1] == r[j];
        }
        forall i, j | 0 <= i < j < |r| ensures key(r[i]) != key(r[j]) {
          if i > 0 {
            assert r[i] == rest[i - 1] && r[j] == rest[j - 1];
          }
        }
      }
    }
  }

  /** With unique ids, deleting an id that is present removes exactly one
      record. */
  lemma {:induction false} DeleteRemovesOne<E(!new)>(entries: seq<E>, id: EntryId, idOf: E -> EntryId)
    requires UniqueBy(entries, idOf)
    requires exists e :: e in entries && idOf(e) == id
    ensures |DeleteById(entries, id, idOf)| == |entries| - 1
  {
    var tail := entries[1..];
    assert UniqueBy(tail, idOf) by {
      forall i, j | 0 <= i < j < |tail| ensures idOf(tail[i]) != idOf(tail[j]) {
        assert tail[i] == entries[i + 1] && tail[j] == entries[j + 1];
      }
    }
    if idOf(entries[0]) == id {
      forall e | e in tail ensures idOf(e) != id {
        var k :| 0 <= k < |tail| && tail[k] == e;
        assert entries[k + 1] == e;
      }
    } else {
      var e :| e in entries && idOf(e) == id;
      assert e in tail;
      DeleteRemovesOne(tail, id, idOf);
    }
  }
}
