/** The booking service of the older in-memory tree. It shares the approval
    and viewing rules and the repository queries with the server, but its
    `save` runs its guards in a different order and refuses a booking that
    ends when it starts, and its lists look the user up before the state,
    are not paged, and sort a booker's REJECTED bookings by their end. */
module LegacyBookingService {
  import opened Common
  import opened Entities
  import opened BookingRepository
  import opened BookingRules
  import BookingMapper
  import BookingService

  /** The older tree's `BookingDto`: the same three fields as the server's
      input, with nothing checking the dates for null before they are
      compared. */
  datatype BookingDto = BookingDto(itemId: int, start: Option<int>, end: Option<int>)

  /** `toBooking` of the older mapper: overwrites the dates and resets the
      status; nothing else of the booking changes. */
  function ToBooking(d: BookingDto, b: Booking): (r: Booking)
    requires d.start.Some? && d.end.Some?
    ensures r.status == BookingStatus.WAITING
    ensures Some(r.start) == d.start && Some(r.end) == d.end
    ensures r.id == b.id && r.item == b.item && r.booker == b.booker
  {
    b.(start := d.start.value, end := d.end.value, status := BookingStatus.WAITING)
  }

  /** The guards of the older `save`, in its order. A missing date is first
      touched by the date comparison, which then fails with a
      NullPointerException. An end that is not strictly after the start, or
      a start in the past, is WrongDates. */
  function SaveError(d: BookingDto, userId: int, now: int,
                     users: map<int, User>, items: map<int, Item>): (r: Option<Error>)
    requires Keyed(users)
    ensures userId !in users ==> r == Some(EntityNotFound)
    ensures userId in users && d.itemId !in items ==> r == Some(EntityNotFound)
    ensures (userId in users && d.itemId in items && !items[d.itemId].available)
            ==> r == Some(ItemIsNotAvailable)
    ensures (userId in users && d.itemId in items && items[d.itemId].available &&
             userId == items[d.itemId].owner.id) ==> r == Some(NotAvailableToBookOwnItems)
    ensures (userId in users && d.itemId in items && items[d.itemId].available &&
             userId != items[d.itemId].owner.id && (d.start.None? || d.end.None?))
            ==> r == Some(NullPointer)
    ensures r.None? <==>
              userId in users && d.itemId in items && items[d.itemId].available &&
              userId != items[d.itemId].owner.id && d.start.Some? && d.end.Some? &&
              d.end.value > d.start.value && d.start.value >= now
    ensures (userId in users && d.itemId in items && items[d.itemId].available &&
             userId != items[d.itemId].owner.id && d.start.Some? && d.end.Some? &&
             (d.end.value <= d.start.value || d.start.value < now)) ==> r == Some(WrongDates)
    ensures r == Some(WrongDates) ==>
              d.start.Some? && d.end.Some? && (d.end.value <= d.start.value || d.start.value < now)
  {
    if userId !in users then Some(EntityNotFound)
    else if d.itemId !in items then Some(EntityNotFound)
    else if !items[d.itemId].available then Some(ItemIsNotAvailable)
    else if users[userId].id == items[d.itemId].owner.id then Some(NotAvailableToBookOwnItems)
    else if d.end.None? || d.start.None? then Some(NullPointer)
    else if !(d.end.value > d.start.value) || d.start.value < now then Some(WrongDates)
    else None
  }

  /** The two trees disagree on a booking that ends the moment it starts:
      the server stores it, the older tree refuses it as WrongDates. Every
      booking the older tree accepts the server accepts too. */
  lemma ZeroLengthBookingDiffers(itemId: int, t: int, userId: int, now: int,
                                 users: map<int, User>, items: map<int, Item>)
    requires Keyed(users)
    requires userId in users && itemId in items
    requires items[itemId].available && userId != items[itemId].owner.id
    requires t >= now
    ensures BookingService.SaveError(BookingMapper.BookingDtoIn(itemId, Some(t), Some(t)), userId, now, users, items).None?
    ensures SaveError(BookingDto(itemId, Some(t), Some(t)), userId, now, users, items) == Some(WrongDates)
  {
  }

  lemma LegacyAcceptsOnlyWhatServerAccepts(d: BookingDto, userId: int, now: int,
                                           users: map<int, User>, items: map<int, Item>)
    requires Keyed(users)
    requires SaveError(d, userId, now, users, items).None?
    ensures BookingService.SaveError(BookingMapper.BookingDtoIn(d.itemId, d.start, d.end), userId, now, users, items).None?
  {
  }

  /** The order the older lists use: a booker's REJECTED bookings by end,
      every other list by start, latest first in both. */
  function ListOrder(party: Party, st: BookingState): (o: Order)
    ensures o.descending
    ensures o.field == End <==> party == Booker && st == BookingState.REJECTED
  {
    if party == Booker && st == BookingState.REJECTED then Order(End, true) else Order(Start, true)
  }

  class LegacyBookingService {
    var bookings: seq<Booking>

    ghost predicate Valid()
      reads this
    {
      StoreValid(bookings)
    }

    constructor ()
      ensures Valid() && bookings == []
    {
      bookings := [];
    }

    /** `save`: runs the guards and stores one new WAITING booking. */
    method Save(d: BookingDto, userId: int, now: int, users: map<int, User>, items: map<int, Item>)
      returns (r: Result<BookingMapper.BookingDtoOut>)
      requires Valid() && Keyed(users)
      modifies this
      ensures Valid()
      ensures SaveError(d, userId, now, users, items).Some? ==>
                r == Err(SaveError(d, userId, now, users, items).value) && bookings == old(bookings)
      ensures SaveError(d, userId, now, users, items).None? ==>
                var b := Booking(|old(bookings)| + 1, d.start.value, d.end.value,
                                 items[d.itemId], users[userId], BookingStatus.WAITING);
                bookings == old(bookings) + [b] && r == Ok(BookingMapper.ToBookingDtoOut(b))
    {
      var e := SaveError(d, userId, now, users, items);
      if e.Some? {
        return Err(e.value);
      }
      var blank := Booking(0, 0, 0, items[d.itemId], users[userId], BookingStatus.WAITING);
      var b := ToBooking(d, blank).(id := |bookings| + 1);
      bookings := bookings + [b];
      r := Ok(BookingMapper.ToBookingDtoOut(b));
    }

    /** `approve`: the same decision as the server's. */
    method Approve(bookingId: int, isApproved: bool, userId: int, items: map<int, Item>)
      returns (r: Result<BookingMapper.BookingDtoOut>)
      requires Valid()
      modifies this
      ensures Valid()
      ensures Lookup(old(bookings), bookingId).None? ==>
                r == Err(EntityNotFound) && bookings == old(bookings)
      ensures Lookup(old(bookings), bookingId).Some? ==>
                var decided := Decide(Lookup(old(bookings), bookingId).value, isApproved, userId, items);
                (decided.Err? ==> r == Err(decided.error) && bookings == old(bookings)) &&
                (decided.Ok? ==> bookings == old(bookings)[bookingId - 1 := decided.value] &&
                                 r == Ok(BookingMapper.ToBookingDtoOut(decided.value)))
    {
      var found := BookingRules.GetById(bookings, bookingId);
      if found.Err? {
        return Err(found.error);
      }
      var decided := Decide(found.value, isApproved, userId, items);
      if decided.Err? {
        return Err(decided.error);
      }
      bookings := bookings[bookingId - 1 := decided.value];
      r := Ok(BookingMapper.ToBookingDtoOut(decided.value));
    }

    /** `getBookingById`: the same viewing rule as the server's. */
    function GetBookingById(bookingId: int, userId: int, users: map<int, User>): (r: Result<BookingMapper.BookingDtoOut>)
      reads this
      requires Valid() && Keyed(users)
      ensures Lookup(bookings, bookingId).None? ==> r == Err(EntityNotFound)
      ensures r.Ok? ==> exists i :: 0 <= i < |bookings| && bookings[i].id == bookingId &&
                          (userId == bookings[i].booker.id || userId == bookings[i].item.owner.id)
      ensures r.Ok? ==> r.value == BookingMapper.ToBookingDtoOut(bookings[bookingId - 1])
      ensures Lookup(bookings, bookingId).Some? ==> r == View(bookings[bookingId - 1], userId, users)
    {
      match BookingRules.GetById(bookings, bookingId)
      case Err(e) => Err(e)
      case Ok(b) => View(b, userId, users)
    }

    /** The list behind the older `getAllByBooker` and `getAllByOwner`: the
        user is looked up before the state is parsed, and the whole selection
        comes back, ordered by `ListOrder`. */
    function ListFor(party: Party, state: string, userId: int, users: map<int, User>, now: int)
      : (r: Result<seq<Booking>>)
      reads this
      ensures userId !in users ==> r == Err(EntityNotFound)
      ensures userId in users && ParseState(state).None? ==> r == Err(UnsupportedStatus)
      ensures r.Ok? <==> userId in users && ParseState(state).Some?
      ensures r.Ok? ==> forall b :: b in r.value <==>
                b in bookings && Involves(b, party, userId) &&
                InState(b.start, b.end, b.status, ParseState(state).value, now)
      ensures r.Ok? ==> forall i, j :: 0 <= i < j < |r.value| ==>
                Column(r.value[i], ListOrder(party, ParseState(state).value).field) >=
                Column(r.value[j], ListOrder(party, ParseState(state).value).field)
    {
      if userId !in users then Err(EntityNotFound)
      else
        match ParseState(state)
        case None => Err(UnsupportedStatus)
        case Some(st) => Ok(OrderedSelection(bookings, party, st, userId, now, ListOrder(party, st)))
    }

    /** The older `getAllByBooker`: every booking the caller made that is in
        the state, latest first (by end for REJECTED, by start otherwise). */
    function GetAllByBooker(state: string, bookerId: int, users: map<int, User>, now: int)
      : (r: Result<seq<BookingMapper.BookingDtoOut>>)
      reads this
      ensures bookerId !in users ==> r == Err(EntityNotFound)
      ensures bookerId in users && ParseState(state).None? ==> r == Err(UnsupportedStatus)
      ensures r.Ok? <==> bookerId in users && ParseState(state).Some?
      ensures r.Ok? ==> forall i :: 0 <= i < |r.value| ==>
                r.value[i].booker.id == bookerId &&
                InState(r.value[i].start, r.value[i].end, r.value[i].status, ParseState(state).value, now)
      ensures r.Ok? ==> forall b :: (b in bookings && OfBooker(b, bookerId) &&
                InState(b.start, b.end, b.status, ParseState(state).value, now)) ==> BookingMapper.ToBookingDtoOut(b) in r.value
      ensures r.Ok? && state == "REJECTED" ==>
                forall i, j :: 0 <= i < j < |r.value| ==> r.value[i].end >= r.value[j].end
      ensures r.Ok? && state != "REJECTED" ==>
                forall i, j :: 0 <= i < j < |r.value| ==> r.value[i].start >= r.value[j].start
      ensures r.Ok? ==> r.value == BookingMapper.ToBookingDtoOuts(ListFor(Booker, state, bookerId, users, now).value)
    {
      match ListFor(Booker, state, bookerId, users, now)
      case Err(e) => Err(e)
      case Ok(list) =>
        var st := ParseState(state).value;
        var ds := BookingMapper.ToBookingDtoOuts(list);
        forall i | 0 <= i < |ds|
          ensures ds[i].booker.id == bookerId && InState(ds[i].start, ds[i].end, ds[i].status, st, now)
        {
          assert list[i] in list;
        }
        forall b | b in bookings && OfBooker(b, bookerId) &&
                   InState(b.start, b.end, b.status, ParseState(state).value, now)
          ensures BookingMapper.ToBookingDtoOut(b) in ds
        {
          var i :| 0 <= i < |list| && list[i] == b;
          assert ds[i] == BookingMapper.ToBookingDtoOut(b);
        }
        Ok(ds)
    }

    /** The older `getAllByOwner`: every booking of the caller's items that is
        in the state, latest start first. */
    function GetAllByOwner(ownerId: int, state: string, users: map<int, User>, now: int)
      : (r: Result<seq<BookingMapper.BookingDtoOut>>)
      reads this
      ensures ownerId !in users ==> r == Err(EntityNotFound)
      ensures ownerId in users && ParseState(state).None? ==> r == Err(UnsupportedStatus)
      ensures r.Ok? <==> ownerId in users && ParseState(state).Some?
      ensures r.Ok? ==> forall i :: 0 <= i < |r.value| ==>
                InState(r.value[i].start, r.value[i].end, r.value[i].status, ParseState(state).value, now)
      ensures r.Ok? ==> forall b :: (b in bookings && OfOwner(b, ownerId) &&
                InState(b.start, b.end, b.status, ParseState(state).value, now)) ==> BookingMapper.ToBookingDtoOut(b) in r.value
      ensures r.Ok? ==> forall i, j :: 0 <= i < j < |r.value| ==> r.value[i].start >= r.value[j].start
      ensures r.Ok? ==> r.value == BookingMapper.ToBookingDtoOuts(ListFor(Owner, state, ownerId, users, now).value)
    {
      match ListFor(Owner, state, ownerId, users, now)
      case Err(e) => Err(e)
      case Ok(list) =>
        var ds := BookingMapper.ToBookingDtoOuts(list);
        forall b | b in bookings && OfOwner(b, ownerId) &&
                   InState(b.start, b.end, b.status, ParseState(state).value, now)
          ensures BookingMapper.ToBookingDtoOut(b) in ds
        {
          var i :| 0 <= i < |list| && list[i] == b;
          assert ds[i] == BookingMapper.ToBookingDtoOut(b);
        }
        Ok(ds)
    }
  }
}
