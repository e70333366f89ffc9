/** The in-memory item store of the older tree: a hash map from id to item,
    an index from owner id to that owner's items in the order they were
    saved, and a counter that hands out the ids (a static field in the
    source, a field of the one store here). The index and the map share the
    item objects, so the index is kept as a list of ids that are read back
    through the map: a change to a stored item shows up in both. */
module ItemRepository {
  import opened Common

  /** The older tree's `Item`: it knows its owner by id only. */
  datatype StoredItem = StoredItem(id: int, name: string, description: string,
                                   available: bool, ownerId: int)

  predicate Increasing(ids: seq<int>)
  {
    forall i, j :: 0 <= i < j < |ids| ==> ids[i] < ids[j]
  }

  /** `findItemBySearch`'s filter: available, and the name or the
      description contains the text, ignoring case. */
  predicate Matches(it: StoredItem, text: string)
  {
    it.available && (ContainsIgnoreCase(it.name, text) || ContainsIgnoreCase(it.description, text))
  }

  /** Lower-casing the text first does not change what matches. */
  lemma MatchesIgnoresCaseOfText(it: StoredItem, text: string)
    ensures Matches(it, ToLower(text)) == Matches(it, text)
  {
    ToLowerIdempotent(text);
  }

  /** Every stored item sits under its own id, which the counter handed
      out; an owner appears in the index exactly when it owns an item, and
      its list holds the ids of its items, each once, oldest first. */
  ghost predicate StoreValid(items: map<int, StoredItem>, index: map<int, seq<int>>, gen: int)
  {
    gen >= 0 &&
    (forall k :: k in items ==> items[k].id == k && 1 <= k <= gen) &&
    (forall k :: k in items ==> items[k].ownerId in index && k in index[items[k].ownerId]) &&
    (forall o :: o in index ==> EntryValid(items, o, index[o]))
  }

  ghost predicate EntryValid(items: map<int, StoredItem>, o: int, ids: seq<int>)
  {
    |ids| > 0 && Increasing(ids) &&
    forall i :: 0 <= i < |ids| ==> ids[i] in items && items[ids[i]].ownerId == o
  }

  /** The owner's items, read through the index; `None` when the owner is
      not in the index. */
  function OwnerItems(items: map<int, StoredItem>, index: map<int, seq<int>>, gen: int, userId: int)
    : (r: Option<seq<StoredItem>>)
    requires StoreValid(items, index, gen)
    ensures r.None? <==> forall k :: k in items ==> items[k].ownerId != userId
    ensures r.Some? ==> forall i :: 0 <= i < |r.value| ==>
              r.value[i].ownerId == userId && r.value[i].id in items && items[r.value[i].id] == r.value[i]
    ensures r.Some? ==> forall k :: k in items && items[k].ownerId == userId ==> items[k] in r.value
    ensures r.Some? ==> forall i, j :: 0 <= i < j < |r.value| ==> r.value[i].id < r.value[j].id
  {
    if userId in index then
      var ids := index[userId];
      assert EntryValid(items, userId, ids);
      var r := seq(|ids|, i requires 0 <= i < |ids| => items[ids[i]]);
      assert items[ids[0]].ownerId == userId;
      forall k | k in items && items[k].ownerId == userId
        ensures items[k] in r
      {
        var i :| 0 <= i < |ids| && ids[i] == k;
        assert r[i] == items[k];
      }
      Some(r)
    else
      None
  }

  /** Storing a new item under the next id and appending the id to its
      owner's list keeps the store valid. */
  lemma SaveKeepsValid(items: map<int, StoredItem>, index: map<int, seq<int>>, gen: int,
                       saved: StoredItem)
    requires StoreValid(items, index, gen)
    requires saved.id == gen + 1
    ensures StoreValid(items[saved.id := saved], index[saved.ownerId := Appended(index, saved)], gen + 1)
  {
    var items' := items[saved.id := saved];
    var index' := index[saved.ownerId := Appended(index, saved)];
    var ids := Appended(index, saved);
    forall o | o in index'
      ensures EntryValid(items', o, index'[o])
    {
      if o == saved.ownerId {
        if o in index {
          assert EntryValid(items, o, index[o]);
        }
        assert Increasing(ids);
      } else {
        assert EntryValid(items, o, index[o]);
      }
    }
  }

  /** The owner's list with the new id at its end. */
  function Appended(index: map<int, seq<int>>, saved: StoredItem): (ids: seq<int>)
    ensures ids == (if saved.ownerId in index then index[saved.ownerId] else []) + [saved.id]
  {
    (if saved.ownerId in index then index[saved.ownerId] else []) + [saved.id]
  }

  /** After a save, the owner's items are the ones before, then the new one. */
  lemma SaveAppendsToOwner(items: map<int, StoredItem>, index: map<int, seq<int>>, gen: int,
                           saved: StoredItem)
    requires StoreValid(items, index, gen)
    requires saved.id == gen + 1
    ensures StoreValid(items[saved.id := saved], index[saved.ownerId := Appended(index, saved)], gen + 1)
    ensures var before := OwnerItems(items, index, gen, saved.ownerId);
            OwnerItems(items[saved.id := saved], index[saved.ownerId := Appended(index, saved)], gen + 1,
                       saved.ownerId)
            == Some((if before.Some? then before.value else []) + [saved])
  {
    SaveKeepsValid(items, index, gen, saved);
    var items' := items[saved.id := saved];
    var index' := index[saved.ownerId := Appended(index, saved)];
    var before := OwnerItems(items, index, gen, saved.ownerId);
    var after := OwnerItems(items', index', gen + 1, saved.ownerId);
    var expected := (if before.Some? then before.value else []) + [saved];
    var o := saved.ownerId;
    var ids := if o in index then index[o] else [];
    assert index'[o] == ids + [saved.id];
    assert after == Some(seq(|ids| + 1, i requires 0 <= i < |ids| + 1 => items'[index'[o][i]]));
    if o in index {
      assert EntryValid(items, o, ids);
      assert before == Some(seq(|ids|, i requires 0 <= i < |ids| => items[ids[i]]));
    }
    assert |after.value| == |expected|;
    forall i | 0 <= i < |expected|
      ensures after.value[i] == expected[i]
    {
      if i < |ids| {
        assert ids[i] in items && ids[i] != saved.id;
      }
    }
    assert after.value == expected;
  }

  class ItemRepository {
    var items: map<int, StoredItem>
    var userItemIndex: map<int, seq<int>>
    var generatorId: int

    ghost predicate Valid()
      reads this
    {
      StoreValid(items, userItemIndex, generatorId)
    }

    constructor ()
      ensures Valid() && items == map[] && userItemIndex == map[] && generatorId == 0
    {
      items := map[];
      userItemIndex := map[];
      generatorId := 0;
    }

    /** `findById`: the item stored under the id, if any. */
    function FindById(itemId: int): (r: Option<StoredItem>)
      reads this
      requires Valid()
      ensures r.Some? <==> itemId in items
      ensures r.Some? ==> r.value.id == itemId && r.value in items.Values
    {
      if itemId in items then Some(items[itemId]) else None
    }

    /** `findItemsByOwner`: the owner's list from the index, which is null
        (`None`) for a user who has never saved an item. */
    function FindItemsByOwner(userId: int): (r: Option<seq<StoredItem>>)
      reads this
      requires Valid()
      ensures r.None? <==> forall k :: k in items ==> items[k].ownerId != userId
      ensures r.Some? ==> forall i :: 0 <= i < |r.value| ==>
                r.value[i].ownerId == userId && r.value[i].id in items && items[r.value[i].id] == r.value[i]
      ensures r.Some? ==> forall k :: k in items && items[k].ownerId == userId ==> items[k] in r.value
      ensures r.Some? ==> forall i, j :: 0 <= i < j < |r.value| ==> r.value[i].id < r.value[j].id
    {
      OwnerItems(items, userItemIndex, generatorId, userId)
    }

    /** `findItemBySearch`: the available items whose name or description
        contains the text, ignoring case. The source lists them in the hash
        map's order, which it leaves unspecified; here they form a set. */
    function FindItemBySearch(text: string): (r: set<StoredItem>)
      reads this
      requires Valid()
      ensures forall it :: it in r ==> Matches(it, text) && it.id in items && items[it.id] == it
      ensures forall k :: k in items && Matches(items[k], text) ==> items[k] in r
    {
      set k | k in items && Matches(items[k], text) :: items[k]
    }

    /** `save`: the item gets the next id and the owner, is stored under the
        id, and its id goes to the end of the owner's list, which is created
        on the owner's first item. */
    method Save(it: StoredItem, userId: int) returns (saved: StoredItem)
      requires Valid()
      modifies this
      ensures Valid()
      ensures generatorId == old(generatorId) + 1
      ensures saved == it.(id := generatorId, ownerId := userId)
      ensures saved.id !in old(items)
      ensures items == old(items)[saved.id := saved]
      ensures userItemIndex == old(userItemIndex)[userId := Appended(old(userItemIndex), saved)]
      ensures FindById(saved.id) == Some(saved)
      ensures FindItemsByOwner(userId) ==
                Some((if old(FindItemsByOwner(userId)).Some? then old(FindItemsByOwner(userId)).value else []) + [saved])
    {
      saved := it.(id := generatorId + 1, ownerId := userId);
      SaveAppendsToOwner(items, userItemIndex, generatorId, saved);
      generatorId := generatorId + 1;
      items := items[saved.id := saved];
      userItemIndex := userItemIndex[userId := Appended(userItemIndex, saved)];
    }

    /** The one change the service makes to a stored item: writing back an
        updated copy under the same id and owner. The index is untouched and
        sees the change through the shared id. */
    method Put(it: StoredItem)
      requires Valid()
      requires it.id in items && items[it.id].ownerId == it.ownerId
      modifies this
      ensures Valid()
      ensures items == old(items)[it.id := it]
      ensures userItemIndex == old(userItemIndex) && generatorId == old(generatorId)
      ensures FindById(it.id) == Some(it)
      ensures FindItemsByOwner(it.ownerId).Some? && it in FindItemsByOwner(it.ownerId).value
    {
      assert forall o :: o in userItemIndex ==> EntryValid(items, o, userItemIndex[o]);
      items := items[it.id := it];
      assert forall o :: o in userItemIndex ==> EntryValid(items, o, userItemIndex[o]);
    }
  }
}
