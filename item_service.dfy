/** The item catalog of the older tree: lookup, the owner's list, search,
    creation and the owner-only partial update, over the in-memory item store
    and the user directory. The older tree's item mapper is not part of this
    model; its two conversions are taken to copy the fields they share. */
module ItemService {
  import opened Common
  import opened ItemRepository
  import UserService

  /** The older tree's `ItemDto`: on an update any field may be absent, and
      `available` is a `Boolean` that may be null. */
  datatype ItemDto = ItemDto(id: int, name: Option<string>, description: Option<string>,
                             available: Option<bool>)

  function ToItemDto(it: StoredItem): (d: ItemDto)
    ensures d.id == it.id && d.name == Some(it.name) && d.description == Some(it.description)
    ensures d.available == Some(it.available)
  {
    ItemDto(it.id, Some(it.name), Some(it.description), Some(it.available))
  }

  /** `toItem`: on creation the validation layer has already required name,
      description and availability; the store sets id and owner. */
  function ToStoredItem(d: ItemDto): (it: StoredItem)
    requires d.name.Some? && d.description.Some? && d.available.Some?
    ensures ToItemDto(it).name == d.name && ToItemDto(it).description == d.description
    ensures ToItemDto(it).available == d.available
  {
    StoredItem(d.id, d.name.value, d.description.value, d.available.value, 0)
  }

  /** The changes `updateItem` makes to the owner's item: a name or a
      description replaces the stored one only when it has text, while
      `available` is replaced whenever it is present, false included. */
  function PatchItem(it: StoredItem, d: ItemDto): (r: StoredItem)
    ensures r.id == it.id && r.ownerId == it.ownerId
    ensures r.name == (if HasText(d.name) then d.name.value else it.name)
    ensures r.description == (if HasText(d.description) then d.description.value else it.description)
    ensures r.available == (if d.available.Some? then d.available.value else it.available)
  {
    var named := if HasText(d.name) then it.(name := d.name.value) else it;
    var described := if HasText(d.description) then named.(description := d.description.value) else named;
    if d.available.Some? then described.(available := d.available.value) else described
  }

  /** A patch with no text and no availability leaves the item as it was;
      patching twice with the same DTO is patching once. */
  lemma PatchNothingIsIdentity(it: StoredItem, d: ItemDto)
    requires !HasText(d.name) && !HasText(d.description) && d.available.None?
    ensures PatchItem(it, d) == it
  {
  }

  lemma PatchItemIdempotent(it: StoredItem, d: ItemDto)
    ensures PatchItem(PatchItem(it, d), d) == PatchItem(it, d)
  {
  }

  /** `available` is three-valued: absent keeps the flag, present sets it,
      and `false` is a value like any other. */
  lemma AvailabilityIsTriState(it: StoredItem, d: ItemDto)
    ensures d.available == Some(false) ==> !PatchItem(it, d).available
    ensures d.available == Some(true) ==> PatchItem(it, d).available
    ensures d.available.None? ==> PatchItem(it, d).available == it.available
  {
  }

  /** The DTOs of a list of items, in its order. */
  function ToItemDtos(items: seq<StoredItem>): (ds: seq<ItemDto>)
    ensures |ds| == |items|
    ensures forall i :: 0 <= i < |items| ==> ds[i] == ToItemDto(items[i])
  {
    seq(|items|, i requires 0 <= i < |items| => ToItemDto(items[i]))
  }

  /** `ds` lists exactly the DTOs of the owner's items, each once, in the
      order the items were saved (by increasing id). */
  ghost predicate OwnerListing(items: map<int, StoredItem>, userId: int, ds: seq<ItemDto>)
  {
    (forall i :: 0 <= i < |ds| ==>
       ds[i].id in items && items[ds[i].id].ownerId == userId && ds[i] == ToItemDto(items[ds[i].id])) &&
    (forall k :: k in items && items[k].ownerId == userId ==> ToItemDto(items[k]) in ds) &&
    (forall i, j :: 0 <= i < j < |ds| ==> ds[i].id < ds[j].id)
  }

  /** The store's answer for an owner, converted, is the owner's listing. */
  lemma ListingOfOwnerItems(items: map<int, StoredItem>, userId: int, list: seq<StoredItem>)
    requires forall i :: 0 <= i < |list| ==>
               list[i].ownerId == userId && list[i].id in items && items[list[i].id] == list[i]
    requires forall k :: k in items && items[k].ownerId == userId ==> items[k] in list
    requires forall i, j :: 0 <= i < j < |list| ==> list[i].id < list[j].id
    ensures OwnerListing(items, userId, ToItemDtos(list))
  {
    var ds := ToItemDtos(list);
    forall k | k in items && items[k].ownerId == userId
      ensures ToItemDto(items[k]) in ds
    {
      var i :| 0 <= i < |list| && list[i] == items[k];
      assert ds[i] == ToItemDto(items[k]);
    }
  }

  class ItemService {
    const itemRepo: ItemRepository
    const userService: UserService.UserService

    ghost predicate Valid()
      reads this, itemRepo, userService, userService.repo
    {
      itemRepo.Valid() && userService.Valid()
    }

    constructor (itemRepo: ItemRepository, userService: UserService.UserService)
      requires itemRepo.Valid() && userService.Valid()
      ensures this.itemRepo == itemRepo && this.userService == userService && Valid()
    {
      this.itemRepo := itemRepo;
      this.userService := userService;
    }

    /** `findById`: the item as a DTO, or EntityNotFound. */
    function FindById(itemId: int): (r: Result<ItemDto>)
      reads this, itemRepo
      requires itemRepo.Valid()
      ensures r.Err? <==> itemId !in itemRepo.items
      ensures r.Err? ==> r.error == EntityNotFound
      ensures r.Ok? ==> r.value == ToItemDto(itemRepo.items[itemId]) && r.value.id == itemId
    {
      match itemRepo.FindById(itemId)
      case None => Err(EntityNotFound)
      case Some(it) => Ok(ToItemDto(it))
    }

    /** `getItemsByOwner` as written: after the user check it streams the
        index's list, which is null for a user without items, so such a user
        gets a NullPointerException instead of an empty list. */
    function GetItemsByOwner(userId: int): (r: Result<seq<ItemDto>>)
      reads this, itemRepo, userService, userService.repo
      requires Valid()
      ensures userId !in userService.repo.users ==> r == Err(EntityNotFound)
      ensures (userId in userService.repo.users &&
               forall k :: k in itemRepo.items ==> itemRepo.items[k].ownerId != userId)
              ==> r == Err(NullPointer)
      ensures r.Ok? ==> OwnerListing(itemRepo.items, userId, r.value)
    {
      match userService.GetUserById(userId)
      case Err(e) => Err(e)
      case Ok(_) =>
        match itemRepo.FindItemsByOwner(userId)
        case None => Err(NullPointer)
        case Some(items) =>
          ListingOfOwnerItems(itemRepo.items, userId, items);
          Ok(ToItemDtos(items))
    }

    /** `getItemsByOwner` as evidently intended: an existing user without
        items gets an empty list. The result is exactly the user's items, in
        the order they were saved. */
    function GetItemsByOwnerCorrected(userId: int): (r: Result<seq<ItemDto>>)
      reads this, itemRepo, userService, userService.repo
      requires Valid()
      ensures r.Err? <==> userId !in userService.repo.users
      ensures r.Err? ==> r.error == EntityNotFound
      ensures r.Ok? ==> OwnerListing(itemRepo.items, userId, r.value)
    {
      match userService.GetUserById(userId)
      case Err(e) => Err(e)
      case Ok(_) =>
        match itemRepo.FindItemsByOwner(userId)
        case None => Ok([])
        case Some(items) =>
          ListingOfOwnerItems(itemRepo.items, userId, items);
          Ok(ToItemDtos(items))
    }

    /** The two versions agree whenever the owner has an item, and differ
        exactly for an existing user with none. */
    lemma CorrectionOnlyAffectsOwnersWithoutItems(userId: int)
      requires Valid()
      ensures (exists k :: k in itemRepo.items && itemRepo.items[k].ownerId == userId) ==>
                GetItemsByOwner(userId) == GetItemsByOwnerCorrected(userId)
      ensures userId in userService.repo.users &&
              (forall k :: k in itemRepo.items ==> itemRepo.items[k].ownerId != userId) ==>
                GetItemsByOwner(userId) == Err(NullPointer) && GetItemsByOwnerCorrected(userId) == Ok([])
    {
    }

    /** `getItemBySearch`: a blank text gives the empty result without asking
        the store; otherwise the DTOs of the store's matches. */
    function GetItemBySearch(text: string): (r: set<ItemDto>)
      reads this, itemRepo
      requires itemRepo.Valid()
      ensures IsBlank(text) ==> r == {}
      ensures !IsBlank(text) ==> forall k :: k in itemRepo.items && Matches(itemRepo.items[k], text) ==>
                ToItemDto(itemRepo.items[k]) in r
      ensures forall d :: d in r ==>
                d.available == Some(true) &&
                exists k :: k in itemRepo.items && Matches(itemRepo.items[k], text) &&
                            d == ToItemDto(itemRepo.items[k])
    {
      if IsBlank(text) then {}
      else
        var found := itemRepo.FindItemBySearch(text);
        set it | it in found :: ToItemDto(it)
    }

    /** The blank check is what keeps an empty text from listing the whole
        catalogue: the store itself matches the empty text against every
        available item. */
    lemma EmptyTextWouldMatchAll()
      requires itemRepo.Valid()
      ensures GetItemBySearch("") == {}
      ensures forall k :: k in itemRepo.items && itemRepo.items[k].available ==>
                itemRepo.items[k] in itemRepo.FindItemBySearch("")
    {
      forall k | k in itemRepo.items && itemRepo.items[k].available
        ensures itemRepo.items[k] in itemRepo.FindItemBySearch("")
      {
        EmptyIsContained(itemRepo.items[k].name);
      }
    }

    /** `saveNewItem`: EntityNotFound, and nothing stored, for an unknown
        user; otherwise the item is stored under a fresh id with the user as
        its owner. */
    method SaveNewItem(d: ItemDto, userId: int) returns (r: Result<ItemDto>)
      requires Valid()
      requires d.name.Some? && d.description.Some? && d.available.Some?
      modifies itemRepo
      ensures Valid()
      ensures userId !in userService.repo.users ==>
                r == Err(EntityNotFound) && itemRepo.items == old(itemRepo.items) &&
                itemRepo.userItemIndex == old(itemRepo.userItemIndex) &&
                itemRepo.generatorId == old(itemRepo.generatorId)
      ensures userId in userService.repo.users ==>
                var it := ToStoredItem(d).(id := old(itemRepo.generatorId) + 1, ownerId := userId);
                it.id !in old(itemRepo.items) && itemRepo.items == old(itemRepo.items)[it.id := it] &&
                itemRepo.FindItemsByOwner(userId).Some? && it in itemRepo.FindItemsByOwner(userId).value &&
                r == Ok(ToItemDto(it))
    {
      if userService.GetUserById(userId).Err? {
        return Err(EntityNotFound);
      }
      var saved := itemRepo.Save(ToStoredItem(d), userId);
      r := Ok(ToItemDto(saved));
    }

    /** `updateItem`: the user must exist, then the item; only its owner may
        change it (NotOwner otherwise, with nothing changed). The change is
        `PatchItem`, visible through the owner's list as well. */
    method UpdateItem(itemId: int, d: ItemDto, userId: int) returns (r: Result<ItemDto>)
      requires Valid()
      modifies itemRepo
      ensures Valid()
      ensures itemRepo.userItemIndex == old(itemRepo.userItemIndex)
      ensures itemRepo.generatorId == old(itemRepo.generatorId)
      ensures userId !in userService.repo.users ==>
                r == Err(EntityNotFound) && itemRepo.items == old(itemRepo.items)
      ensures userId in userService.repo.users && itemId !in old(itemRepo.items) ==>
                r == Err(EntityNotFound) && itemRepo.items == old(itemRepo.items)
      ensures userId in userService.repo.users && itemId in old(itemRepo.items) &&
              old(itemRepo.items)[itemId].ownerId != userId ==>
                r == Err(NotOwner) && itemRepo.items == old(itemRepo.items)
      ensures userId in userService.repo.users && itemId in old(itemRepo.items) &&
              old(itemRepo.items)[itemId].ownerId == userId ==>
                var patched := PatchItem(old(itemRepo.items)[itemId], d);
                itemRepo.items == old(itemRepo.items)[itemId := patched] &&
                patched in itemRepo.FindItemsByOwner(userId).value &&
                r == Ok(ToItemDto(patched))
    {
      if userService.GetUserById(userId).Err? {
        return Err(EntityNotFound);
      }
      var found := itemRepo.FindById(itemId);
      if found.None? {
        return Err(EntityNotFound);
      }
      var it := found.value;
      if it.ownerId != userId {
        return Err(NotOwner);
      }
      var patched := PatchItem(it, d);
      itemRepo.Put(patched);
      r := Ok(ToItemDto(patched));
    }
  }
}
