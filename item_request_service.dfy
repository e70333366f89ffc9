/** The request board: users post requests for items they wish to borrow,
    and each request is shown with the items that answer it. The store of
    requests is the state the service changes (ids 1, 2, 3, ... in the order
    they are saved); the users and the items it only reads are parameters,
    and so is the clock. The request mapper is not part of this model: its
    DTO is taken to copy id, description and creation time, with the items
    attached afterwards. */
module ItemRequestService {
  import opened Common
  import opened Entities
  import opened Queries
  import opened ItemMapper

  datatype ItemRequestDtoIn = ItemRequestDtoIn(description: string)

  datatype ItemRequestDtoOut = ItemRequestDtoOut(id: int, description: string, created: int,
                                                 items: seq<ItemDtoOut>)

  function ToItemRequestDtoOut(r: ItemRequest): (d: ItemRequestDtoOut)
    ensures d.id == r.id && d.description == r.description && d.created == r.created
    ensures d.items == []
  {
    ItemRequestDtoOut(r.id, r.description, r.created, [])
  }

  predicate Answers(it: Item, requestId: int)
  {
    it.request.Some? && it.request.value.id == requestId
  }

  /** `itemRepository.findAllByRequestId`: the items answering the request.
      The query promises no order; this one keeps the store's. */
  function FindAllByRequestId(items: seq<Item>, requestId: int): (r: seq<Item>)
    ensures forall i :: 0 <= i < |r| ==> r[i] in items && Answers(r[i], requestId)
    ensures forall i :: 0 <= i < |items| && Answers(items[i], requestId) ==> items[i] in r
  {
    Filter(items, (it: Item) => Answers(it, requestId))
  }

  /** A request's DTO with its answering items attached, each converted by
      `toDto`: every attached DTO is that of a stored item answering the
      request, one per item the query returns, and every answering item is
      attached. */
  function WithItems(r: ItemRequest, items: seq<Item>): (d: ItemRequestDtoOut)
    ensures d.id == r.id && d.description == r.description && d.created == r.created
    ensures |d.items| == |FindAllByRequestId(items, r.id)|
    ensures forall i :: 0 <= i < |d.items| ==>
              exists j :: 0 <= j < |items| && Answers(items[j], r.id) && d.items[i] == ToDto(items[j])
    ensures forall i :: 0 <= i < |d.items| ==> d.items[i].requestId == Some(r.id)
    ensures forall i :: 0 <= i < |items| && Answers(items[i], r.id) ==> ToDto(items[i]) in d.items
  {
    var answering := FindAllByRequestId(items, r.id);
    var dtos := seq(|answering|, i requires 0 <= i < |answering| => ToDto(answering[i]));
    forall i | 0 <= i < |items| && Answers(items[i], r.id)
      ensures ToDto(items[i]) in dtos
    {
      var j :| 0 <= j < |answering| && answering[j] == items[i];
      assert dtos[j] == ToDto(items[i]);
    }
    forall i | 0 <= i < |dtos|
      ensures exists j :: 0 <= j < |items| && Answers(items[j], r.id) && dtos[i] == ToDto(items[j])
    {
      var j :| 0 <= j < |items| && items[j] == answering[i];
      assert dtos[i] == ToDto(items[j]);
    }
    ToItemRequestDtoOut(r).(items := dtos)
  }

  /** A request nobody has answered is shown with an empty item list. */
  lemma UnansweredHasNoItems(r: ItemRequest, items: seq<Item>)
    requires forall i :: 0 <= i < |items| ==> !Answers(items[i], r.id)
    ensures WithItems(r, items).items == []
  {
    FilterNone(items, (it: Item) => Answers(it, r.id));
  }

  /** `addItems`: one DTO per request, in the order given, each with its
      answering items. */
  method AddItems(requests: seq<ItemRequest>, items: seq<Item>) returns (out: seq<ItemRequestDtoOut>)
    ensures |out| == |requests|
    ensures forall i :: 0 <= i < |requests| ==> out[i] == WithItems(requests[i], items)
  {
    out := [];
    for n := 0 to |requests|
      invariant |out| == n
      invariant forall i :: 0 <= i < n ==> out[i] == WithItems(requests[i], items)
    {
      var d := ToItemRequestDtoOut(requests[n]);
      var answering := FindAllByRequestId(items, requests[n].id);
      d := d.(items := seq(|answering|, i requires 0 <= i < |answering| => ToDto(answering[i])));
      out := out + [d];
    }
  }

  function CreatedKey(): ItemRequest -> int
  {
    (r: ItemRequest) => r.created
  }

  /** `findAllByRequestorId` sorted by `created`, latest first. */
  function ByRequestor(requests: seq<ItemRequest>, userId: int): (r: seq<ItemRequest>)
    ensures forall x :: x in r <==> x in requests && x.requestor.id == userId
    ensures forall i, j :: 0 <= i < j < |r| ==> r[i].created >= r[j].created
  {
    var mine := Filter(requests, (x: ItemRequest) => x.requestor.id == userId);
    var r := SortDesc(mine, CreatedKey());
    assert forall x :: x in r <==> x in multiset(mine);
    assert forall i, j :: 0 <= i < j < |r| ==> CreatedKey()(r[i]) >= CreatedKey()(r[j]);
    r
  }

  /** `findAllByRequestorIdIsNot` sorted by `created`, latest first. */
  function ByOthers(requests: seq<ItemRequest>, userId: int): (r: seq<ItemRequest>)
    ensures forall x :: x in r <==> x in requests && x.requestor.id != userId
    ensures forall i, j :: 0 <= i < j < |r| ==> r[i].created >= r[j].created
  {
    var others := Filter(requests, (x: ItemRequest) => x.requestor.id != userId);
    var r := SortDesc(others, CreatedKey());
    assert forall x :: x in r <==> x in multiset(others);
    assert forall i, j :: 0 <= i < j < |r| ==> CreatedKey()(r[i]) >= CreatedKey()(r[j]);
    r
  }

  /** A page of requests ordered latest first keeps that order and holds
      only requests of the page's source. */
  lemma PageOfRequests(s: seq<ItemRequest>, from: int, size: int)
    requires from >= 0 && size > 0
    requires forall i, j :: 0 <= i < j < |s| ==> s[i].created >= s[j].created
    ensures forall i :: 0 <= i < |Page(s, from, size)| ==> Page(s, from, size)[i] in s
    ensures forall i, j :: 0 <= i < j < |Page(s, from, size)| ==>
              Page(s, from, size)[i].created >= Page(s, from, size)[j].created
  {
    var p := Page(s, from, size);
    var lo := PageStart(from, size);
    forall i, j | 0 <= i < j < |p|
      ensures p[i].created >= p[j].created
    {
      assert p[i] == s[lo + i] && p[j] == s[lo + j];
    }
    PageInSource(s, from, size);
  }

  class ItemRequestService {
    var requests: seq<ItemRequest>

    ghost predicate Valid()
      reads this
    {
      forall i :: 0 <= i < |requests| ==> requests[i].id == i + 1
    }

    constructor ()
      ensures Valid() && requests == []
    {
      requests := [];
    }

    /** `saveNewRequest`: EntityNotFound, and nothing saved, for an unknown
        user; otherwise a request stamped with `now` and the requestor. */
    method SaveNewRequest(d: ItemRequestDtoIn, userId: int, now: int, users: map<int, User>)
      returns (r: Result<ItemRequestDtoOut>)
      requires Valid()
      modifies this
      ensures Valid()
      ensures userId !in users ==> r == Err(EntityNotFound) && requests == old(requests)
      ensures userId in users ==>
                var saved := ItemRequest(|old(requests)| + 1, d.description, users[userId], now);
                requests == old(requests) + [saved] && r == Ok(ToItemRequestDtoOut(saved))
    {
      if userId !in users {
        return Err(EntityNotFound);
      }
      var saved := ItemRequest(|requests| + 1, d.description, users[userId], now);
      requests := requests + [saved];
      r := Ok(ToItemRequestDtoOut(saved));
    }

    /** `getRequestsByRequestor`: the caller's own requests, latest first,
        each with its answering items. */
    method GetRequestsByRequestor(userId: int, users: map<int, User>, items: seq<Item>)
      returns (r: Result<seq<ItemRequestDtoOut>>)
      ensures r.Err? <==> userId !in users
      ensures r.Err? ==> r.error == EntityNotFound
      ensures r.Ok? ==> |r.value| == |ByRequestor(requests, userId)|
      ensures r.Ok? ==> forall i :: 0 <= i < |r.value| ==>
                r.value[i] == WithItems(ByRequestor(requests, userId)[i], items)
      ensures r.Ok? ==> forall x :: x in requests && x.requestor.id == userId ==>
                WithItems(x, items) in r.value
      ensures r.Ok? ==> forall i, j :: 0 <= i < j < |r.value| ==> r.value[i].created >= r.value[j].created
    {
      if userId !in users {
        return Err(EntityNotFound);
      }
      var mine := ByRequestor(requests, userId);
      var out := AddItems(mine, items);
      forall i, j | 0 <= i < j < |out|
        ensures out[i].created >= out[j].created
      {
        assert out[i].created == mine[i].created && out[j].created == mine[j].created;
      }
      forall x | x in requests && x.requestor.id == userId
        ensures WithItems(x, items) in out
      {
        var i :| 0 <= i < |mine| && mine[i] == x;
        assert out[i] == WithItems(x, items);
      }
      r := Ok(out);
    }

    /** `getAllRequests`: one page of the other users' requests, latest
        first, each with its answering items. */
    method GetAllRequests(from: int, size: int, userId: int, users: map<int, User>, items: seq<Item>)
      returns (r: Result<seq<ItemRequestDtoOut>>)
      requires from >= 0 && size > 0
      ensures r.Err? <==> userId !in users
      ensures r.Err? ==> r.error == EntityNotFound
      ensures r.Ok? ==> |r.value| <= size
      ensures r.Ok? ==> |r.value| == |Page(ByOthers(requests, userId), from, size)|
      ensures r.Ok? ==> forall i :: 0 <= i < |r.value| ==>
                r.value[i] == WithItems(Page(ByOthers(requests, userId), from, size)[i], items)
      ensures r.Ok? ==> forall i :: 0 <= i < |r.value| ==>
                exists x :: x in requests && x.requestor.id != userId && x.id == r.value[i].id
      ensures r.Ok? ==> forall i, j :: 0 <= i < j < |r.value| ==> r.value[i].created >= r.value[j].created
    {
      if userId !in users {
        return Err(EntityNotFound);
      }
      var others := ByOthers(requests, userId);
      var page := Page(others, from, size);
      PageOfRequests(others, from, size);
      var out := AddItems(page, items);
      forall i | 0 <= i < |out|
        ensures exists x :: x in requests && x.requestor.id != userId && x.id == out[i].id
      {
        assert page[i] in others;
      }
      r := Ok(out);
    }

    /** `getRequestById`: the user is checked before the request; the
        request comes with its answering items. */
    function GetRequestById(requestId: int, userId: int, users: map<int, User>, items: seq<Item>)
      : (r: Result<ItemRequestDtoOut>)
      reads this
      requires Valid()
      ensures userId !in users ==> r == Err(EntityNotFound)
      ensures userId in users && !(1 <= requestId <= |requests|) ==> r == Err(EntityNotFound)
      ensures r.Ok? <==> userId in users && 1 <= requestId <= |requests|
      ensures r.Ok? ==> r.value.id == requestId && r.value == WithItems(requests[requestId - 1], items)
    {
      if userId !in users then Err(EntityNotFound)
      else if !(1 <= requestId <= |requests|) then Err(EntityNotFound)
      else Ok(WithItems(requests[requestId - 1], items))
    }
  }
}
