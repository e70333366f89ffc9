/** Conversions between the server's item entity and its transfer shapes. */
module ItemMapper {
  import opened Common
  import opened Entities
  import UserMapper

  /** `ItemDtoOut`: `requestId` stays null unless the item answers a request. */
  datatype ItemDtoOut = ItemDtoOut(id: int, name: string, description: string, available: bool,
                                   owner: UserMapper.UserDtoShort, requestId: Option<int>)

  /** `ItemDtoShort`: how a booking shows its item. */
  datatype ItemDtoShort = ItemDtoShort(id: int, name: string)

  /** `ItemDtoIn`, as the validation layer admits it on creation. */
  datatype ItemDtoIn = ItemDtoIn(name: string, description: string, available: bool,
                                 requestId: Option<int>)

  /** An item as `toItem` builds it: id, owner and request not yet set. */
  datatype ItemDraft = ItemDraft(name: string, description: string, available: bool)

  function ToDto(item: Item): (d: ItemDtoOut)
    ensures d.id == item.id && d.name == item.name
    ensures d.description == item.description && d.available == item.available
    ensures d.owner.id == item.owner.id && d.owner.name == item.owner.name
    ensures d.requestId.Some? <==> item.request.Some?
    ensures item.request.Some? ==> d.requestId.value == item.request.value.id
  {
    var out := ItemDtoOut(item.id, item.name, item.description, item.available,
                          UserMapper.ToUserDtoShort(item.owner), None);
    if item.request.Some? then out.(requestId := Some(item.request.value.id)) else out
  }

  function ToItemDtoShort(item: Item): (d: ItemDtoShort)
    ensures d.id == item.id && d.name == item.name
  {
    ItemDtoShort(item.id, item.name)
  }

  function ToItem(d: ItemDtoIn): (draft: ItemDraft)
    ensures draft.name == d.name && draft.description == d.description
    ensures draft.available == d.available
  {
    ItemDraft(d.name, d.description, d.available)
  }

  /** The item that saving a draft produces (id assigned, owner and request
      attached) shows the caller exactly what the input DTO said. */
  lemma DraftRoundTrip(d: ItemDtoIn, id: int, owner: User, request: Option<ItemRequest>)
    requires request.Some? <==> d.requestId.Some?
    requires request.Some? ==> request.value.id == d.requestId.value
    ensures var draft := ToItem(d);
            var out := ToDto(Item(id, draft.name, draft.description, draft.available, owner, request));
            out.name == d.name && out.description == d.description &&
            out.available == d.available && out.requestId == d.requestId && out.id == id
  {
  }

  /** The short form agrees with the full DTO on the fields it keeps. */
  lemma ShortAgreesWithDto(item: Item)
    ensures ToItemDtoShort(item).id == ToDto(item).id
    ensures ToItemDtoShort(item).name == ToDto(item).name
  {
  }
}
