/** The server's booking service. The store of bookings is the one piece of
    state it changes; the user and item repositories it only reads are
    passed in as maps keyed by id, and the clock as `now`. */
module BookingService {
  import opened Common
  import opened Entities
  import opened Queries
  import opened BookingRepository
  import opened BookingRules
  import opened BookingMapper

  /** The guards of `save`, in the order it runs them; `None` when the
      booking may be stored. Dates equal to each other pass: only an end
      strictly before the start is refused. */
  function SaveError(d: BookingDtoIn, userId: int, now: int,
                     users: map<int, User>, items: map<int, Item>): (r: Option<Error>)
    ensures userId !in users ==> r == Some(EntityNotFound)
    ensures userId in users && d.itemId !in items ==> r == Some(EntityNotFound)
    ensures userId in users && d.itemId in items && (d.start.None? || d.end.None?)
            ==> r == Some(InvalidBookingDate)
    ensures (userId in users && d.itemId in items && d.start.Some? && d.end.Some? &&
             !items[d.itemId].available) ==> r == Some(ItemIsNotAvailable)
    ensures (userId in users && d.itemId in items && d.start.Some? && d.end.Some? &&
             items[d.itemId].available && userId == items[d.itemId].owner.id)
            ==> r == Some(NotAvailableToBookOwnItems)
    ensures r.None? <==>
              userId in users && d.itemId in items && d.start.Some? && d.end.Some? &&
              items[d.itemId].available && userId != items[d.itemId].owner.id &&
              d.start.value >= now && d.end.value >= d.start.value
    ensures (userId in users && d.itemId in items && d.start.Some? && d.end.Some? &&
             items[d.itemId].available && userId != items[d.itemId].owner.id &&
             (d.start.value < now || d.end.value < d.start.value)) ==> r == Some(InvalidBookingDate)
    ensures r.Some? && r.value == InvalidBookingDate ==>
              d.start.None? || d.end.None? || d.start.value < now || d.end.value < d.start.value
  {
    if userId !in users then Some(EntityNotFound)
    else if d.itemId !in items then Some(EntityNotFound)
    else if d.start.None? then Some(InvalidBookingDate)
    else if d.end.None? then Some(InvalidBookingDate)
    else if !items[d.itemId].available then Some(ItemIsNotAvailable)
    else if userId == items[d.itemId].owner.id then Some(NotAvailableToBookOwnItems)
    else if d.start.value < now then Some(InvalidBookingDate)
    else if d.end.value < d.start.value then Some(InvalidBookingDate)
    else None
  }

  /** The order `getAllByBooker` and `getAllByOwner` ask for. */
  const ByStartDesc := Order(Start, true)

  /** A page of the ordered selection holds only selected bookings and keeps
      their order by start, latest first. */
  lemma PageOfSelection(bs: seq<Booking>, party: Party, st: BookingState, userId: int, now: int,
                        from: int, size: int)
    requires from >= 0 && size > 0
    ensures var page := Page(OrderedSelection(bs, party, st, userId, now, ByStartDesc), from, size);
            |page| <= size &&
            (forall i :: 0 <= i < |page| ==>
               page[i] in bs && Involves(page[i], party, userId) &&
               InState(page[i].start, page[i].end, page[i].status, st, now)) &&
            (forall i, j :: 0 <= i < j < |page| ==> page[i].start >= page[j].start)
  {
    var ordered := OrderedSelection(bs, party, st, userId, now, ByStartDesc);
    var page := Page(ordered, from, size);
    forall i | 0 <= i < |page|
      ensures page[i] in bs && Involves(page[i], party, userId) &&
              InState(page[i].start, page[i].end, page[i].status, st, now)
    {
      PageInSource(ordered, from, size);
      assert page[i] in ordered;
    }
    PageSlice(ordered, from, size);
  }

  /** A page of a sequence ordered by start, latest first, is so ordered. */
  lemma PageSlice(s: seq<Booking>, from: int, size: int)
    requires from >= 0 && size > 0
    requires forall i, j :: 0 <= i < j < |s| ==> Column(s[i], Start) >= Column(s[j], Start)
    ensures forall i, j :: 0 <= i < j < |Page(s, from, size)| ==>
              Page(s, from, size)[i].start >= Page(s, from, size)[j].start
  {
    var page := Page(s, from, size);
    var lo := PageStart(from, size);
    forall i, j | 0 <= i < j < |page|
      ensures page[i].start >= page[j].start
    {
      assert Column(s[lo + i], Start) >= Column(s[lo + j], Start);
    }
  }

  class BookingService {
    var bookings: seq<Booking>

    ghost predicate Valid()
      reads this
    {
      StoreValid(bookings)
    }

    constructor ()
      ensures Valid() && bookings == []
    {
      bookings := [];
    }

    /** `save`: runs the guards and stores one new WAITING booking of the
        resolved item by the resolved booker. */
    method Save(d: BookingDtoIn, userId: int, now: int, users: map<int, User>, items: map<int, Item>)
      returns (r: Result<BookingDtoOut>)
      requires Valid()
      modifies this
      ensures Valid()
      ensures SaveError(d, userId, now, users, items).Some? ==>
                r == Err(SaveError(d, userId, now, users, items).value) && bookings == old(bookings)
      ensures SaveError(d, userId, now, users, items).None? ==>
                var b := Booking(|old(bookings)| + 1, d.start.value, d.end.value,
                                 items[d.itemId], users[userId], BookingStatus.WAITING);
                bookings == old(bookings) + [b] && r == Ok(ToBookingDtoOut(b))
    {
      var e := SaveError(d, userId, now, users, items);
      if e.Some? {
        return Err(e.value);
      }
      var booker := users[userId];
      var item := items[d.itemId];
      var blank := Booking(0, 0, 0, item, booker, BookingStatus.WAITING);
      var b := ToBooking(d, blank).(id := |bookings| + 1);
      bookings := bookings + [b];
      r := Ok(ToBookingDtoOut(b));
    }

    /** `approve`: finds the booking, then decides it (see `Decide`); on
        success the status is the only thing that changes. */
    method Approve(bookingId: int, isApproved: bool, userId: int, items: map<int, Item>)
      returns (r: Result<BookingDtoOut>)
      requires Valid()
      modifies this
      ensures Valid()
      ensures Lookup(old(bookings), bookingId).None? ==>
                r == Err(EntityNotFound) && bookings == old(bookings)
      ensures Lookup(old(bookings), bookingId).Some? ==>
                var decided := Decide(Lookup(old(bookings), bookingId).value, isApproved, userId, items);
                (decided.Err? ==> r == Err(decided.error) && bookings == old(bookings)) &&
                (decided.Ok? ==> bookings == old(bookings)[bookingId - 1 := decided.value] &&
                                 r == Ok(ToBookingDtoOut(decided.value)))
    {
      var found := BookingRules.GetById(bookings, bookingId);
      if found.Err? {
        return Err(found.error);
      }
      var decided := Decide(found.value, isApproved, userId, items);
      if decided.Err? {
        return Err(decided.error);
      }
      bookings := bookings[bookingId - 1 := decided.value];
      r := Ok(ToBookingDtoOut(decided.value));
    }

    /** `getBookingById`: only the booker and the item's owner see it. */
    function GetBookingById(bookingId: int, userId: int, users: map<int, User>): (r: Result<BookingDtoOut>)
      reads this
      requires Valid() && Keyed(users)
      ensures Lookup(bookings, bookingId).None? ==> r == Err(EntityNotFound)
      ensures r.Ok? ==> exists i :: 0 <= i < |bookings| && bookings[i].id == bookingId &&
                          (userId == bookings[i].booker.id || userId == bookings[i].item.owner.id)
      ensures r.Ok? ==> r.value == ToBookingDtoOut(bookings[bookingId - 1])
      ensures Lookup(bookings, bookingId).Some? ==> r == View(bookings[bookingId - 1], userId, users)
    {
      match BookingRules.GetById(bookings, bookingId)
      case Err(e) => Err(e)
      case Ok(b) => View(b, userId, users)
    }

    /** The list behind `getAllByBooker` and `getAllByOwner`: the state is
        parsed before the user is looked up; the page is taken from the
        selection ordered by start, latest first. */
    function ListFor(party: Party, from: int, size: int, state: string, userId: int,
                     users: map<int, User>, now: int): (r: Result<seq<Booking>>)
      reads this
      requires from >= 0 && size > 0
      ensures ParseState(state).None? ==> r == Err(UnsupportedStatus)
      ensures ParseState(state).Some? && userId !in users ==> r == Err(EntityNotFound)
      ensures r.Ok? <==> ParseState(state).Some? && userId in users
      ensures r.Ok? ==> |r.value| <= size
      ensures r.Ok? ==> forall i :: 0 <= i < |r.value| ==>
                r.value[i] in bookings && Involves(r.value[i], party, userId) &&
                InState(r.value[i].start, r.value[i].end, r.value[i].status, ParseState(state).value, now)
      ensures r.Ok? ==> forall i, j :: 0 <= i < j < |r.value| ==> r.value[i].start >= r.value[j].start
      ensures r.Ok? ==>
                r.value == Page(OrderedSelection(bookings, party, ParseState(state).value, userId, now, ByStartDesc),
                                from, size)
    {
      match ParseState(state)
      case None => Err(UnsupportedStatus)
      case Some(st) =>
        if userId !in users then Err(EntityNotFound)
        else
          PageOfSelection(bookings, party, st, userId, now, from, size);
          Ok(Page(OrderedSelection(bookings, party, st, userId, now, ByStartDesc), from, size))
    }

    /** `getAllByBooker`: a page of the caller's own bookings in the state. */
    function GetAllByBooker(from: int, size: int, state: string, bookerId: int,
                            users: map<int, User>, now: int): (r: Result<seq<BookingDtoOut>>)
      reads this
      requires from >= 0 && size > 0
      ensures ParseState(state).None? ==> r == Err(UnsupportedStatus)
      ensures ParseState(state).Some? && bookerId !in users ==> r == Err(EntityNotFound)
      ensures r.Ok? <==> ParseState(state).Some? && bookerId in users
      ensures r.Ok? ==> |r.value| <= size
      ensures r.Ok? ==> forall i :: 0 <= i < |r.value| ==>
                r.value[i].booker.id == bookerId &&
                InState(r.value[i].start, r.value[i].end, r.value[i].status, ParseState(state).value, now)
      ensures r.Ok? ==> forall i, j :: 0 <= i < j < |r.value| ==> r.value[i].start >= r.value[j].start
      ensures r.Ok? ==> r.value == ToBookingDtoOuts(ListFor(Booker, from, size, state, bookerId, users, now).value)
    {
      match ListFor(Booker, from, size, state, bookerId, users, now)
      case Err(e) => Err(e)
      case Ok(page) => Ok(ToBookingDtoOuts(page))
    }

    /** `getAllByOwner`: a page of the bookings of the caller's items in the
        state. */
    function GetAllByOwner(from: int, size: int, state: string, ownerId: int,
                           users: map<int, User>, now: int): (r: Result<seq<BookingDtoOut>>)
      reads this
      requires from >= 0 && size > 0
      ensures ParseState(state).None? ==> r == Err(UnsupportedStatus)
      ensures ParseState(state).Some? && ownerId !in users ==> r == Err(EntityNotFound)
      ensures r.Ok? <==> ParseState(state).Some? && ownerId in users
      ensures r.Ok? ==> |r.value| <= size
      ensures r.Ok? ==> forall i :: 0 <= i < |r.value| ==>
                InState(r.value[i].start, r.value[i].end, r.value[i].status, ParseState(state).value, now)
      ensures r.Ok? ==> forall i, j :: 0 <= i < j < |r.value| ==> r.value[i].start >= r.value[j].start
      ensures r.Ok? ==> r.value == ToBookingDtoOuts(ListFor(Owner, from, size, state, ownerId, users, now).value)
    {
      match ListFor(Owner, from, size, state, ownerId, users, now)
      case Err(e) => Err(e)
      case Ok(page) => Ok(ToBookingDtoOuts(page))
    }
  }
}
