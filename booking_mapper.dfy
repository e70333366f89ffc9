/** Conversions between bookings and their transfer shapes. The older tree
    carries the same conversions; only its input DTO differs (see
    LegacyBookingService). */
module BookingMapper {
  import opened Common
  import opened Entities
  import UserMapper
  import ItemMapper

  /** `BookingDtoIn` as the server receives it: either date may be null. */
  datatype BookingDtoIn = BookingDtoIn(itemId: int, start: Option<int>, end: Option<int>)

  datatype BookingDtoOut = BookingDtoOut(id: int, start: int, end: int,
                                         item: ItemMapper.ItemDtoShort,
                                         booker: UserMapper.UserDtoShort,
                                         status: BookingStatus)

  datatype BookingDtoShort = BookingDtoShort(id: int, start: int, end: int,
                                             status: BookingStatus, bookerId: int)

  function ToBookingDtoOut(b: Booking): (d: BookingDtoOut)
    ensures d.id == b.id && d.start == b.start && d.end == b.end && d.status == b.status
    ensures d.item.id == b.item.id && d.item.name == b.item.name
    ensures d.booker.id == b.booker.id && d.booker.name == b.booker.name
  {
    BookingDtoOut(b.id, b.start, b.end, ItemMapper.ToItemDtoShort(b.item),
                  UserMapper.ToUserDtoShort(b.booker), b.status)
  }

  function ToBookingDtoShort(b: Booking): (d: BookingDtoShort)
    ensures d.id == b.id && d.start == b.start && d.end == b.end && d.status == b.status
    ensures d.bookerId == b.booker.id
  {
    BookingDtoShort(b.id, b.start, b.end, b.status, b.booker.id)
  }

  /** `toBooking` overwrites the dates and the status of the booking it is
      given and hands the same booking back. Its one caller has already
      rejected null dates. */
  function ToBooking(d: BookingDtoIn, b: Booking): (r: Booking)
    requires d.start.Some? && d.end.Some?
    ensures r.status == WAITING
    ensures Some(r.start) == d.start && Some(r.end) == d.end
    ensures r.id == b.id && r.item == b.item && r.booker == b.booker
  {
    b.(start := d.start.value, end := d.end.value, status := WAITING)
  }

  /** Whatever status a booking held, converting a DTO into it resets the
      status to WAITING, and doing so twice is doing it once. */
  lemma ToBookingResetsDecision(d: BookingDtoIn, b: Booking)
    requires d.start.Some? && d.end.Some?
    ensures ToBooking(d, b.(status := APPROVED)) == ToBooking(d, b.(status := REJECTED))
    ensures ToBooking(d, ToBooking(d, b)) == ToBooking(d, b)
  {
  }

  /** The short and the full form agree on every field the short one keeps. */
  lemma ShortAgreesWithOut(b: Booking)
    ensures var s := ToBookingDtoShort(b); var o := ToBookingDtoOut(b);
            s.id == o.id && s.start == o.start && s.end == o.end &&
            s.status == o.status && s.bookerId == o.booker.id
  {
  }

  /** The list a query returns: each booking converted, in order. */
  function ToBookingDtoOuts(bs: seq<Booking>): (ds: seq<BookingDtoOut>)
    ensures |ds| == |bs|
    ensures forall i :: 0 <= i < |bs| ==> ds[i] == ToBookingDtoOut(bs[i])
  {
    seq(|bs|, i requires 0 <= i < |bs| => ToBookingDtoOut(bs[i]))
  }
}
