/** The parts of the booking service that the server and the older in-memory
    tree share word for word: the booking state names, the dispatch from a
    state to a repository query, the approval decision and the viewing
    rule. Each service module builds its operations from these. */
module BookingRules {
  import opened Common
  import opened Entities
  import opened Queries
  import opened BookingRepository
  import BookingMapper

  /** `BookingStateEnum`: the filters a booking list can be asked for. */
  datatype BookingState = ALL | CURRENT | PAST | FUTURE | WAITING | REJECTED

  function StateName(st: BookingState): string
  {
    match st
    case ALL => "ALL"
    case CURRENT => "CURRENT"
    case PAST => "PAST"
    case FUTURE => "FUTURE"
    case WAITING => "WAITING"
    case REJECTED => "REJECTED"
  }

  /** `BookingStateEnum.valueOf`: the constant whose name is exactly `s`;
      `None` stands for the IllegalArgumentException. */
  function ParseState(s: string): (r: Option<BookingState>)
    ensures r.Some? ==> StateName(r.value) == s
    ensures r.None? ==> forall st: BookingState :: StateName(st) != s
  {
    if s == "ALL" then Some(ALL)
    else if s == "CURRENT" then Some(CURRENT)
    else if s == "PAST" then Some(PAST)
    else if s == "FUTURE" then Some(FUTURE)
    else if s == "WAITING" then Some(BookingState.WAITING)
    else if s == "REJECTED" then Some(BookingState.REJECTED)
    else None
  }

  /** Parsing the name of a state gives that state back. */
  lemma ParseStateName(st: BookingState)
    ensures ParseState(StateName(st)) == Some(st)
  {
  }

  /** The state table: which bookings, by their dates and status, a state
      selects at moment `now`. */
  predicate InState(start: int, end: int, status: BookingStatus, st: BookingState, now: int)
  {
    match st
    case ALL => true
    case CURRENT => start <= now <= end
    case PAST => now > end
    case FUTURE => now < start
    case WAITING => status == BookingStatus.WAITING
    case REJECTED => status == BookingStatus.REJECTED
  }

  /** Whose bookings a list is about: those the user made, or those of the
      user's items. */
  datatype Party = Booker | Owner

  predicate Involves(b: Booking, party: Party, userId: int)
  {
    match party
    case Booker => OfBooker(b, userId)
    case Owner => OfOwner(b, userId)
  }

  /** The `switch` of `getAllByBooker` (party Booker) and `getAllByOwner`
      (party Owner): each state calls its own repository query. */
  function Selection(bs: seq<Booking>, party: Party, st: BookingState, userId: int, now: int): seq<Booking>
  {
    match party
    case Booker => (
      match st
      case ALL => FindAllByBookerId(bs, userId)
      case CURRENT => FindAllByBookerIdAndStateCurrent(bs, userId, now)
      case PAST => FindAllByBookerIdAndStatePast(bs, userId, now)
      case FUTURE => FindAllByBookerIdAndStateFuture(bs, userId, now)
      case WAITING => FindAllByBookerIdAndStatus(bs, userId, BookingStatus.WAITING)
      case REJECTED => FindAllByBookerIdAndStatus(bs, userId, BookingStatus.REJECTED))
    case Owner => (
      match st
      case ALL => FindAllByOwnerId(bs, userId)
      case CURRENT => FindAllByOwnerIdAndStateCurrent(bs, userId, now)
      case PAST => FindAllByOwnerIdAndStatePast(bs, userId, now)
      case FUTURE => FindAllByOwnerIdAndStateFuture(bs, userId, now)
      case WAITING => FindAllByOwnerIdAndStatus(bs, userId, BookingStatus.WAITING)
      case REJECTED => FindAllByOwnerIdAndStatus(bs, userId, BookingStatus.REJECTED))
  }

  /** The query each state dispatches to selects exactly the party's bookings
      that the state table admits. */
  lemma SelectionMeansState(bs: seq<Booking>, party: Party, st: BookingState, userId: int, now: int)
    ensures forall b :: b in Selection(bs, party, st, userId, now) <==>
              b in bs && Involves(b, party, userId) && InState(b.start, b.end, b.status, st, now)
  {
    var sel := Selection(bs, party, st, userId, now);
    forall b | b in sel
      ensures b in bs && Involves(b, party, userId) && InState(b.start, b.end, b.status, st, now)
    {
      var i :| 0 <= i < |sel| && sel[i] == b;
    }
    forall b | b in bs && Involves(b, party, userId) && InState(b.start, b.end, b.status, st, now)
      ensures b in sel
    {
      var i :| 0 <= i < |bs| && bs[i] == b;
    }
  }

  /** The selection ordered as the service's `Sort` asks. */
  function OrderedSelection(bs: seq<Booking>, party: Party, st: BookingState, userId: int, now: int,
                            o: Order): (r: seq<Booking>)
    requires o.descending
    ensures forall b :: b in r <==>
              b in bs && Involves(b, party, userId) && InState(b.start, b.end, b.status, st, now)
    ensures forall i, j :: 0 <= i < j < |r| ==> Column(r[i], o.field) >= Column(r[j], o.field)
  {
    var sel := Selection(bs, party, st, userId, now);
    SelectionMeansState(bs, party, st, userId, now);
    var r := Ordered(sel, o);
    assert forall b :: b in r <==> b in multiset(sel);
    r
  }

  // ---- the booking store ---------------------------------------------------

  /** The store hands out ids 1, 2, 3, ... in the order bookings are saved,
      so a booking's id is its position plus one. */
  ghost predicate StoreValid(bs: seq<Booking>)
  {
    forall i :: 0 <= i < |bs| ==> bs[i].id == i + 1
  }

  /** `bookingRepository.findById`. */
  function Lookup(bs: seq<Booking>, id: int): (r: Option<Booking>)
    requires StoreValid(bs)
    ensures r.Some? <==> exists i :: 0 <= i < |bs| && bs[i].id == id
    ensures r.Some? ==> r.value.id == id && r.value == bs[id - 1]
  {
    if 1 <= id <= |bs| then Some(bs[id - 1]) else None
  }

  /** `getById`: the booking, or EntityNotFound. */
  function GetById(bs: seq<Booking>, bookingId: int): (r: Result<Booking>)
    requires StoreValid(bs)
    ensures r.Ok? <==> 1 <= bookingId <= |bs|
    ensures r.Ok? ==> r.value in bs && r.value.id == bookingId
    ensures r.Err? ==> r.error == EntityNotFound
  {
    match Lookup(bs, bookingId)
    case Some(b) => Ok(b)
    case None => Err(EntityNotFound)
  }

  /** Every user in a repository map sits under its own id. */
  ghost predicate Keyed(users: map<int, User>)
  {
    forall k :: k in users ==> users[k].id == k
  }

  // ---- approve ---------------------------------------------------------------

  /** The checks `approve` makes once the booking is found, in their order:
      the item must still exist, the booking must still be WAITING, and the
      caller must own the item. The decision then sets the status and
      nothing else. */
  function Decide(b: Booking, isApproved: bool, userId: int, items: map<int, Item>): (r: Result<Booking>)
    ensures b.item.id !in items ==> r == Err(EntityNotFound)
    ensures b.item.id in items && b.status != BookingStatus.WAITING ==> r == Err(ItemIsNotAvailable)
    ensures b.item.id in items && b.status == BookingStatus.WAITING && b.item.owner.id != userId
            ==> r == Err(IllegalViewAndUpdate)
    ensures r.Ok? <==> b.item.id in items && b.status == BookingStatus.WAITING && b.item.owner.id == userId
    ensures r.Ok? ==> r.value.status == (if isApproved then BookingStatus.APPROVED else BookingStatus.REJECTED)
    ensures r.Ok? ==> r.value == b.(status := r.value.status)
  {
    if b.item.id !in items then Err(EntityNotFound)
    else if b.status != BookingStatus.WAITING then Err(ItemIsNotAvailable)
    else if b.item.owner.id != userId then Err(IllegalViewAndUpdate)
    else Ok(b.(status := if isApproved then BookingStatus.APPROVED else BookingStatus.REJECTED))
  }

  /** Approval is one-shot: once decided, a booking is refused every further
      decision, whoever asks and whatever they ask for. */
  lemma DecisionIsFinal(b: Booking, isApproved: bool, userId: int, items: map<int, Item>,
                        again: bool, anyone: int)
    requires Decide(b, isApproved, userId, items).Ok?
    ensures Decide(Decide(b, isApproved, userId, items).value, again, anyone, items) == Err(ItemIsNotAvailable)
  {
  }

  // ---- getBookingById ----------------------------------------------------------

  /** The check `getBookingById` makes once the booking is found: the item's
      owner must still be a user, and only the booker or that owner may see
      the booking. */
  function View(b: Booking, userId: int, users: map<int, User>): (r: Result<BookingMapper.BookingDtoOut>)
    requires Keyed(users)
    ensures b.item.owner.id !in users ==> r == Err(EntityNotFound)
    ensures b.item.owner.id in users ==>
              (r.Ok? <==> userId == b.booker.id || userId == b.item.owner.id)
    ensures b.item.owner.id in users && userId != b.booker.id && userId != b.item.owner.id
            ==> r == Err(IllegalViewAndUpdate)
    ensures r.Err? ==> r.error == EntityNotFound || r.error == IllegalViewAndUpdate
    ensures r.Ok? ==> r.value == BookingMapper.ToBookingDtoOut(b)
  {
    if b.item.owner.id !in users then Err(EntityNotFound)
    else
      var owner := users[b.item.owner.id];
      if b.booker.id != userId && owner.id != userId then Err(IllegalViewAndUpdate)
      else Ok(BookingMapper.ToBookingDtoOut(b))
  }
}
