/** The booking queries of the repository, restated as selections over the
    sequence of stored bookings. `now` is the database's `current_timestamp`.
    Ordering and paging, which the caller passes in as `Sort`/`Pageable`, are
    applied afterwards by `Ordered` and `Queries.Page`. */
module BookingRepository {
  import opened Common
  import opened Entities
  import opened Queries

  // ---- the WHERE clauses ---------------------------------------------------

  predicate OfBooker(b: Booking, bookerId: int) { b.booker.id == bookerId }

  predicate OfOwner(b: Booking, ownerId: int) { b.item.owner.id == ownerId }

  /** `current_timestamp BETWEEN b.start AND b.end`: both bounds included. */
  predicate IsCurrent(b: Booking, now: int) { b.start <= now <= b.end }

  /** `current_timestamp > b.end` */
  predicate IsPast(b: Booking, now: int) { now > b.end }

  /** `current_timestamp < b.start` */
  predicate IsFuture(b: Booking, now: int) { now < b.start }

  predicate HasStatus(b: Booking, status: BookingStatus) { b.status == status }

  /** Current never overlaps past or future. For a booking that does not end
      before it starts, past and future do not overlap either and exactly one
      of the three holds at any moment. */
  lemma TimeStatesPartition(b: Booking, now: int)
    ensures !(IsPast(b, now) && IsCurrent(b, now))
    ensures !(IsCurrent(b, now) && IsFuture(b, now))
    ensures b.start <= b.end ==> !(IsPast(b, now) && IsFuture(b, now))
    ensures b.start <= b.end ==> (IsPast(b, now) || IsCurrent(b, now) || IsFuture(b, now))
  {
  }

  // ---- the finder methods --------------------------------------------------

  function FindAllByBookerId(bs: seq<Booking>, bookerId: int): (r: seq<Booking>)
    ensures forall b :: b in r <==> b in bs && OfBooker(b, bookerId)
  {
    Filter(bs, b => OfBooker(b, bookerId))
  }

  function FindAllByBookerIdAndStateCurrent(bs: seq<Booking>, bookerId: int, now: int): (r: seq<Booking>)
    ensures forall b :: b in r <==> b in bs && OfBooker(b, bookerId) && IsCurrent(b, now)
  {
    Filter(bs, b => OfBooker(b, bookerId) && IsCurrent(b, now))
  }

  function FindAllByBookerIdAndStatePast(bs: seq<Booking>, bookerId: int, now: int): (r: seq<Booking>)
    ensures forall b :: b in r <==> b in bs && OfBooker(b, bookerId) && IsPast(b, now)
  {
    Filter(bs, b => OfBooker(b, bookerId) && IsPast(b, now))
  }

  function FindAllByBookerIdAndStateFuture(bs: seq<Booking>, bookerId: int, now: int): (r: seq<Booking>)
    ensures forall b :: b in r <==> b in bs && OfBooker(b, bookerId) && IsFuture(b, now)
  {
    Filter(bs, b => OfBooker(b, bookerId) && IsFuture(b, now))
  }

  function FindAllByBookerIdAndStatus(bs: seq<Booking>, bookerId: int, status: BookingStatus): (r: seq<Booking>)
    ensures forall b :: b in r <==> b in bs && OfBooker(b, bookerId) && HasStatus(b, status)
  {
    Filter(bs, b => OfBooker(b, bookerId) && HasStatus(b, status))
  }

  function FindAllByOwnerId(bs: seq<Booking>, ownerId: int): (r: seq<Booking>)
    ensures forall b :: b in r <==> b in bs && OfOwner(b, ownerId)
  {
    Filter(bs, b => OfOwner(b, ownerId))
  }

  function FindAllByOwnerIdAndStateCurrent(bs: seq<Booking>, ownerId: int, now: int): (r: seq<Booking>)
    ensures forall b :: b in r <==> b in bs && OfOwner(b, ownerId) && IsCurrent(b, now)
  {
    Filter(bs, b => OfOwner(b, ownerId) && IsCurrent(b, now))
  }

  function FindAllByOwnerIdAndStatePast(bs: seq<Booking>, ownerId: int, now: int): (r: seq<Booking>)
    ensures forall b :: b in r <==> b in bs && OfOwner(b, ownerId) && IsPast(b, now)
  {
    Filter(bs, b => OfOwner(b, ownerId) && IsPast(b, now))
  }

  function FindAllByOwnerIdAndStateFuture(bs: seq<Booking>, ownerId: int, now: int): (r: seq<Booking>)
    ensures forall b :: b in r <==> b in bs && OfOwner(b, ownerId) && IsFuture(b, now)
  {
    Filter(bs, b => OfOwner(b, ownerId) && IsFuture(b, now))
  }

  function FindAllByOwnerIdAndStatus(bs: seq<Booking>, ownerId: int, status: BookingStatus): (r: seq<Booking>)
    ensures forall b :: b in r <==> b in bs && OfOwner(b, ownerId) && HasStatus(b, status)
  {
    Filter(bs, b => OfOwner(b, ownerId) && HasStatus(b, status))
  }

  // ---- ordering --------------------------------------------------------------

  /** The booking column a `Sort` names. */
  datatype SortField = Start | End

  /** A `Sort` on one column, descending or ascending. */
  datatype Order = Order(field: SortField, descending: bool)

  function Column(b: Booking, f: SortField): int
  {
    match f
    case Start => b.start
    case End => b.end
  }

  /** The key under which a descending sort yields the requested order; an
      ascending order is a descending one on the negated column. */
  function RankKey(o: Order): Booking -> int
  {
    b => if o.descending then Column(b, o.field) else -Column(b, o.field)
  }

  function Ordered(bs: seq<Booking>, o: Order): (r: seq<Booking>)
    ensures multiset(r) == multiset(bs)
    ensures forall i, j :: 0 <= i < j < |r| ==>
              if o.descending then Column(r[i], o.field) >= Column(r[j], o.field)
              else Column(r[i], o.field) <= Column(r[j], o.field)
  {
    var r := SortDesc(bs, RankKey(o));
    assert forall i, j :: 0 <= i < j < |r| ==> RankKey(o)(r[i]) >= RankKey(o)(r[j]);
    r
  }

  // ---- the single-row and existence finders ---------------------------------

  predicate StartedBy(b: Booking, itemId: int, t: int, status: BookingStatus)
  {
    b.item.id == itemId && b.start <= t && b.status == status
  }

  predicate StartsAfter(b: Booking, itemId: int, t: int, status: BookingStatus)
  {
    b.item.id == itemId && b.start > t && b.status == status
  }

  function First(bs: seq<Booking>): Option<Booking>
  {
    if bs == [] then None else Some(bs[0])
  }

  /** `findFirstByItemIdAndStartLessThanEqualAndStatus`: the first, in the
      given order, of the item's bookings with that status that have started
      by `t` (the item's last booking). */
  function FindFirstByItemIdAndStartLessThanEqualAndStatus(
    bs: seq<Booking>, itemId: int, t: int, status: BookingStatus, o: Order): (r: Option<Booking>)
    ensures r.Some? <==> exists i :: 0 <= i < |bs| && StartedBy(bs[i], itemId, t, status)
    ensures r.Some? ==> r.value in bs && StartedBy(r.value, itemId, t, status)
    ensures r.Some? ==> forall i :: 0 <= i < |bs| && StartedBy(bs[i], itemId, t, status) ==>
              RankKey(o)(r.value) >= RankKey(o)(bs[i])
  {
    var candidates := Filter(bs, b => StartedBy(b, itemId, t, status));
    var sorted := SortDesc(candidates, RankKey(o));
    FirstIsBest(candidates, sorted, RankKey(o));
    First(sorted)
  }

  /** `findFirstByItemIdAndStartAfterAndStatus`: the first, in the given
      order, of the item's bookings with that status that start after `t`
      (the item's next booking). */
  function FindFirstByItemIdAndStartAfterAndStatus(
    bs: seq<Booking>, itemId: int, t: int, status: BookingStatus, o: Order): (r: Option<Booking>)
    ensures r.Some? <==> exists i :: 0 <= i < |bs| && StartsAfter(bs[i], itemId, t, status)
    ensures r.Some? ==> r.value in bs && StartsAfter(r.value, itemId, t, status)
    ensures r.Some? ==> forall i :: 0 <= i < |bs| && StartsAfter(bs[i], itemId, t, status) ==>
              RankKey(o)(r.value) >= RankKey(o)(bs[i])
  {
    var candidates := Filter(bs, b => StartsAfter(b, itemId, t, status));
    var sorted := SortDesc(candidates, RankKey(o));
    FirstIsBest(candidates, sorted, RankKey(o));
    First(sorted)
  }

  /** The head of a descending permutation of `candidates` exists exactly when
      a candidate does, is one, and ranks no lower than any. */
  lemma FirstIsBest(candidates: seq<Booking>, sorted: seq<Booking>, key: Booking -> int)
    requires multiset(sorted) == multiset(candidates)
    requires SortedDesc(sorted, key)
    ensures sorted != [] <==> candidates != []
    ensures sorted != [] ==> sorted[0] in candidates
    ensures sorted != [] ==> forall i :: 0 <= i < |candidates| ==> key(sorted[0]) >= key(candidates[i])
  {
    if sorted != [] {
      assert sorted[0] in multiset(sorted);
      forall i | 0 <= i < |candidates|
        ensures key(sorted[0]) >= key(candidates[i])
      {
        assert candidates[i] in multiset(sorted);
        var j :| 0 <= j < |sorted| && sorted[j] == candidates[i];
      }
    }
  }

  /** `item IN (:items)` compares items by primary key, so a booking whose
      embedded copy of an item is older than the listed one still matches. */
  predicate ItemListed(b: Booking, items: seq<Item>)
  {
    exists k :: 0 <= k < |items| && items[k].id == b.item.id
  }

  /** `findByItemInAndStartLessThanEqualAndStatus`: bookings with that status,
      started by `t`, of any of the given items, in the given order. */
  function FindByItemInAndStartLessThanEqualAndStatus(
    bs: seq<Booking>, items: seq<Item>, t: int, status: BookingStatus, o: Order): (r: seq<Booking>)
    ensures forall b :: b in r <==> b in bs && ItemListed(b, items) && b.start <= t && b.status == status
    ensures forall i, j :: 0 <= i < j < |r| ==>
              if o.descending then Column(r[i], o.field) >= Column(r[j], o.field)
              else Column(r[i], o.field) <= Column(r[j], o.field)
  {
    var matching := Filter(bs, (b: Booking) => ItemListed(b, items) && b.start <= t && b.status == status);
    var r := Ordered(matching, o);
    assert forall b :: b in r <==> b in multiset(matching);
    r
  }

  /** `findByItemInAndStartAfterAndStatus`: bookings with that status starting
      after `t`, of any of the given items, in the given order. */
  function FindByItemInAndStartAfterAndStatus(
    bs: seq<Booking>, items: seq<Item>, t: int, status: BookingStatus, o: Order): (r: seq<Booking>)
    ensures forall b :: b in r <==> b in bs && ItemListed(b, items) && b.start > t && b.status == status
    ensures forall i, j :: 0 <= i < j < |r| ==>
              if o.descending then Column(r[i], o.field) >= Column(r[j], o.field)
              else Column(r[i], o.field) <= Column(r[j], o.field)
  {
    var matching := Filter(bs, (b: Booking) => ItemListed(b, items) && b.start > t && b.status == status);
    var r := Ordered(matching, o);
    assert forall b :: b in r <==> b in multiset(matching);
    r
  }

  predicate EndedBefore(b: Booking, bookerId: int, itemId: int, t: int)
  {
    b.booker.id == bookerId && b.item.id == itemId && b.end < t
  }

  /** `existsByBookerIdAndItemIdAndEndBefore`: the booker has a booking of the
      item that ended before `t` (the gate for posting a comment). */
  function ExistsByBookerIdAndItemIdAndEndBefore(bs: seq<Booking>, bookerId: int, itemId: int, t: int): (r: bool)
    ensures r <==> exists i :: 0 <= i < |bs| && EndedBefore(bs[i], bookerId, itemId, t)
  {
    if bs == [] then false
    else if EndedBefore(bs[0], bookerId, itemId, t) then true
    else
      var r := ExistsByBookerIdAndItemIdAndEndBefore(bs[1..], bookerId, itemId, t);
      assert forall i :: 1 <= i < |bs| ==> bs[i] == bs[1..][i - 1];
      r
  }
}
