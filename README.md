# shareit core in Dafny

A model of the core of *shareit*, a Java backend for lending things between
users. Owners list items. Other users book them for a period. The owner
approves or rejects each booking. Users also post requests for items, and
items can answer them. The repository carries two versions of the booking
engine: the newer, database-backed `server` tree and an older, in-memory
`src` tree. Both are modelled, together with their differences.

Modules, one per source component:

- `Common`: the Java conventions the services rely on.
  - `null` becomes `Option`; a thrown exception becomes `Result.Err` carrying the exception's kind.
  - `isBlank`, and an ASCII `toLowerCase` / `contains`.
- `Entities`: users, items, item requests, bookings and comments as values.
  - A JPA reference (a booking's item and booker, an item's owner) is embedded as the referenced value.
- `Queries`: what the database does for a repository call.
  - Filtering, sorting descending by one column, and cutting the page `from / size` of length `size`.
- `BookingRepository`: the finder methods of `BookingRepository.java`.
  - Each JPQL query is restated as a filter over the sequence of stored bookings, with `current_timestamp` as `now`.
- `BookingRules`: what the two booking services share.
  - The state names and their parsing, the state-to-query dispatch, the lookup by id, the approval decision and the viewing rule.
- `BookingService`: the server's booking service.
  - A class whose one field is the booking store.
  - `save` and `approve` change it. The list queries are functions over it.
- `LegacyBookingService`: the older booking service.
  - Its guards run in another order and refuse zero-length bookings.
  - Its lists look the user up first, are not paged, and sort a booker's REJECTED bookings by end.
- `UserRepository`, `UserService`: the in-memory user store (a map and an id counter) and the user directory built on it.
  - The directory handles creation with a unique email, partial update, lookup, listing and deletion.
- `ItemRepository`, `ItemService`: the in-memory item store and the item catalog built on it.
  - The store has an id counter, an owner index in save order and a case-insensitive search.
  - The catalog adds owner-only partial update with a three-valued `available`.
- `ItemRequestService`: the request board.
  - Requests are stamped with the clock and listed with the items that answer them.
- `BookingMapper`, `UserMapper`, `ItemMapper`, `CommentMapper`: the field-copying conversions.

Parameters stand in for the outside world:
- the clock is an integer `now`;
- the repositories a service only reads are maps or sequences;
- ids handed out by the database are positions in a sequence plus one.

The two trees differ on a booking that ends when it starts. The server's
`save` refuses only an end *before* the start, so it accepts such a booking;
the older tree refuses any end not strictly after the start.
`LegacyBookingService.ZeroLengthBookingDiffers` proves the difference.

## Model

| member | source | states |
|---|---|---|
| Common.OccurrenceIgnoringCase | src/main/java/ru/practicum/shareit/item/repository/ItemRepositoryImpl.java:26-31 | a text occurring verbatim is also found by the case-insensitive `contains` the search uses |
| Common.EmptyIsContained | src/main/java/ru/practicum/shareit/item/repository/ItemRepositoryImpl.java:26-31 | the empty text is contained in every string, ignoring case |
| Queries.Filter | server/src/main/java/ru/practicum/shareit/booking/repository/BookingRepository.java:18-59 | a query returns only rows its predicate accepts, drawn from the store, and every such row of the store |
| Queries.FilterNone | server/src/main/java/ru/practicum/shareit/request/ItemRequestService.java:76-78 | a predicate accepting no row selects nothing, so a request no item answers gets an empty list |
| Queries.SortDesc | server/src/main/java/ru/practicum/shareit/booking/service/BookingServiceImpl.java:113 | sorting descending is a permutation of its input (same multiset) and is sorted by the key, largest first |
| Queries.Page | server/src/main/java/ru/practicum/shareit/booking/service/BookingServiceImpl.java:113 | page `from / size` holds at most `size` rows, exactly the rows of the source from index `(from / size) * size` on, in order |
| Queries.PageInSource | server/src/main/java/ru/practicum/shareit/booking/service/BookingServiceImpl.java:113 | every row of a page is a row of the source, counted with multiplicity |
| Queries.PageKeepsOrder | server/src/main/java/ru/practicum/shareit/booking/service/BookingServiceImpl.java:113 | a page of a sequence sorted descending is sorted descending |
| BookingRepository.TimeStatesPartition | server/src/main/java/ru/practicum/shareit/booking/repository/BookingRepository.java:20-33 | CURRENT, PAST and FUTURE are pairwise disjoint, and for a booking with start <= end exactly one holds at any moment |
| BookingRepository.Ordered | server/src/main/java/ru/practicum/shareit/booking/service/BookingServiceImpl.java:113 | ordering by a `Sort` on one column permutes the bookings and orders them by that column in the requested direction |
| BookingRepository.FindAllByBookerId | server/src/main/java/ru/practicum/shareit/booking/repository/BookingRepository.java:18 | exactly the stored bookings made by the booker |
| BookingRepository.FindAllByBookerIdAndStateCurrent | server/src/main/java/ru/practicum/shareit/booking/repository/BookingRepository.java:20-23 | exactly the booker's bookings with `now` between start and end, both ends included |
| BookingRepository.FindAllByBookerIdAndStatePast | server/src/main/java/ru/practicum/shareit/booking/repository/BookingRepository.java:25-28 | exactly the booker's bookings that ended before `now` |
| BookingRepository.FindAllByBookerIdAndStateFuture | server/src/main/java/ru/practicum/shareit/booking/repository/BookingRepository.java:30-33 | exactly the booker's bookings that start after `now` |
| BookingRepository.FindAllByBookerIdAndStatus | server/src/main/java/ru/practicum/shareit/booking/repository/BookingRepository.java:35 | exactly the booker's bookings with the given status |
| BookingRepository.FindAllByOwnerId | server/src/main/java/ru/practicum/shareit/booking/repository/BookingRepository.java:37-39 | exactly the stored bookings of items the owner owns |
| BookingRepository.FindAllByOwnerIdAndStateCurrent | server/src/main/java/ru/practicum/shareit/booking/repository/BookingRepository.java:41-44 | exactly the owner's item bookings with `now` between start and end, both ends included |
| BookingRepository.FindAllByOwnerIdAndStatePast | server/src/main/java/ru/practicum/shareit/booking/repository/BookingRepository.java:46-49 | exactly the owner's item bookings that ended before `now` |
| BookingRepository.FindAllByOwnerIdAndStateFuture | server/src/main/java/ru/practicum/shareit/booking/repository/BookingRepository.java:51-54 | exactly the owner's item bookings that start after `now` |
| BookingRepository.FindAllByOwnerIdAndStatus | server/src/main/java/ru/practicum/shareit/booking/repository/BookingRepository.java:56-59 | exactly the owner's item bookings with the given status |
| BookingRepository.FindByItemInAndStartLessThanEqualAndStatus | server/src/main/java/ru/practicum/shareit/booking/repository/BookingRepository.java:67-68 | exactly the stored bookings with the status that started by `t` and whose item has the id of a listed item (the `IN` clause compares by key, so a stale embedded copy still matches), ordered by the given sort |
| BookingRepository.FindByItemInAndStartAfterAndStatus | server/src/main/java/ru/practicum/shareit/booking/repository/BookingRepository.java:70-71 | exactly the stored bookings with the status that start after `t` and whose item has the id of a listed item, ordered by the given sort |
| BookingRepository.FindFirstByItemIdAndStartLessThanEqualAndStatus | server/src/main/java/ru/practicum/shareit/booking/repository/BookingRepository.java:61-62 | a result exists iff some booking of the item with the status started by `t`; it is such a booking and ranks first in the given order |
| BookingRepository.FindFirstByItemIdAndStartAfterAndStatus | server/src/main/java/ru/practicum/shareit/booking/repository/BookingRepository.java:64-65 | a result exists iff some booking of the item with the status starts after `t`; it is such a booking and ranks first in the given order |
| BookingRepository.FirstIsBest | server/src/main/java/ru/practicum/shareit/booking/repository/BookingRepository.java:61-65 | the head of a sorted permutation of the candidates is a candidate, exists iff a candidate does, and outranks every candidate |
| BookingRepository.ExistsByBookerIdAndItemIdAndEndBefore | server/src/main/java/ru/practicum/shareit/booking/repository/BookingRepository.java:73 | true iff some booking has that booker and that item and ended before `t` |
| BookingRules.ParseState | server/src/main/java/ru/practicum/shareit/booking/service/BookingServiceImpl.java:105-110 | `valueOf` yields the state whose name is exactly the string, and fails iff no state has that name |
| BookingRules.ParseStateName | server/src/main/java/ru/practicum/shareit/booking/service/BookingServiceImpl.java:105-110 | parsing a state's name gives the state back |
| BookingRules.SelectionMeansState | server/src/main/java/ru/practicum/shareit/booking/service/BookingServiceImpl.java:114-135 | the query each state dispatches to (booker side by booker id, owner side by the item owner's id) selects exactly the stored bookings of that party that the state admits |
| BookingRules.OrderedSelection | server/src/main/java/ru/practicum/shareit/booking/service/BookingServiceImpl.java:140-172 | the ordered selection holds exactly the party's bookings in the state, latest first by the sort column |
| BookingRules.Lookup | server/src/main/java/ru/practicum/shareit/booking/service/BookingServiceImpl.java:176-180 | `findById` finds a booking iff one has that id, and returns that booking |
| BookingRules.GetById | server/src/main/java/ru/practicum/shareit/booking/service/BookingServiceImpl.java:176-180 | the stored booking with the id, or EntityNotFound when there is none |
| BookingRules.Decide | server/src/main/java/ru/practicum/shareit/booking/service/BookingServiceImpl.java:74-86 | item missing gives EntityNotFound; a status other than WAITING gives ItemIsNotAvailable, checked before the owner; a non-owner gets IllegalViewAndUpdate; otherwise the status becomes APPROVED iff `isApproved`, else REJECTED, and nothing else changes |
| BookingRules.DecisionIsFinal | server/src/main/java/ru/practicum/shareit/booking/service/BookingServiceImpl.java:77-79 | once decided, a booking is refused every further decision with ItemIsNotAvailable, whoever asks and with either flag |
| BookingRules.View | server/src/main/java/ru/practicum/shareit/booking/service/BookingServiceImpl.java:93-100 | a missing owner gives EntityNotFound; otherwise the booking's DTO is shown iff the caller is its booker or its item's owner, and anyone else gets IllegalViewAndUpdate |
| BookingService.SaveError | server/src/main/java/ru/practicum/shareit/booking/service/BookingServiceImpl.java:38-61 | guards in order: user, item (EntityNotFound), null start or end (InvalidBookingDate), unavailable (ItemIsNotAvailable), own item (NotAvailableToBookOwnItems), start before now or end before start (InvalidBookingDate); each guard that fails after the earlier ones pass gives its error, and the booking is accepted iff all pass, so end == start is accepted |
| BookingService.PageOfSelection | server/src/main/java/ru/practicum/shareit/booking/service/BookingServiceImpl.java:113-135 | a page of the selection has at most `size` bookings, each the party's and in the state, latest start first |
| BookingService.PageSlice | server/src/main/java/ru/practicum/shareit/booking/service/BookingServiceImpl.java:113 | a page of bookings ordered by start, latest first, keeps that order |
| BookingService.BookingService.Save | server/src/main/java/ru/practicum/shareit/booking/service/BookingServiceImpl.java:37-70 | a failed guard returns its error and stores nothing; otherwise exactly one WAITING booking of the given dates, the resolved item and the resolved booker is appended under the next id |
| BookingService.BookingService.Approve | server/src/main/java/ru/practicum/shareit/booking/service/BookingServiceImpl.java:73-88 | an unknown id gives EntityNotFound; a refused decision changes nothing; an accepted one replaces only that booking, by the decided one |
| BookingService.BookingService.GetBookingById | server/src/main/java/ru/practicum/shareit/booking/service/BookingServiceImpl.java:92-101 | unknown id gives EntityNotFound; a stored booking gives exactly what `BookingRules.View` gives for it: its DTO for its booker or its item's owner, IllegalViewAndUpdate for anyone else |
| BookingService.BookingService.ListFor | server/src/main/java/ru/practicum/shareit/booking/service/BookingServiceImpl.java:104-137 | an unknown state gives UnsupportedStatus before the user is looked up; a missing user then gives EntityNotFound; otherwise exactly the page `from / size` of the party's bookings in the state, latest start first |
| BookingService.BookingService.GetAllByBooker | server/src/main/java/ru/practicum/shareit/booking/service/BookingServiceImpl.java:104-137 | the same errors in the same order; the DTOs of `ListFor`'s page for the booker: page `from / size` of the caller's bookings in the state, latest start first |
| BookingService.BookingService.GetAllByOwner | server/src/main/java/ru/practicum/shareit/booking/service/BookingServiceImpl.java:140-173 | the same errors in the same order; the DTOs of `ListFor`'s page for the owner: page `from / size` of the bookings of the caller's items in the state, latest start first |
| LegacyBookingService.ToBooking | src/main/java/ru/practicum/shareit/booking/mapper/BookingMapper.java:35-40 | the older `toBooking` sets WAITING, copies the dates, and keeps id, item and booker |
| LegacyBookingService.SaveError | src/main/java/ru/practicum/shareit/booking/service/BookingServiceImpl.java:38-49 | guards in order: user, item (EntityNotFound), unavailable (ItemIsNotAvailable), own item (NotAvailableToBookOwnItems), null date (NullPointer), end not strictly after start or start before now (WrongDates); each guard that fails after the earlier ones pass gives its error, and the booking is accepted iff all pass |
| LegacyBookingService.ZeroLengthBookingDiffers | src/main/java/ru/practicum/shareit/booking/service/BookingServiceImpl.java:46-49 | a booking ending when it starts, not in the past, is accepted by the server and refused with WrongDates by the older tree |
| LegacyBookingService.LegacyAcceptsOnlyWhatServerAccepts | src/main/java/ru/practicum/shareit/booking/service/BookingServiceImpl.java:38-49 | every booking the older tree accepts, the server accepts too |
| LegacyBookingService.ListOrder | src/main/java/ru/practicum/shareit/booking/service/BookingServiceImpl.java:100-167 | lists sort latest first, by end iff it is a booker's REJECTED list, by start otherwise (owner REJECTED included) |
| LegacyBookingService.LegacyBookingService.Save | src/main/java/ru/practicum/shareit/booking/service/BookingServiceImpl.java:37-56 | a failed guard returns its error and stores nothing; otherwise one WAITING booking of the resolved item and booker is appended under the next id |
| LegacyBookingService.LegacyBookingService.Approve | src/main/java/ru/practicum/shareit/booking/service/BookingServiceImpl.java:59-74 | unknown id gives EntityNotFound; a non-WAITING booking is refused before the owner check; the owner's call sets APPROVED or REJECTED from the flag and changes only that booking |
| LegacyBookingService.LegacyBookingService.GetBookingById | src/main/java/ru/practicum/shareit/booking/service/BookingServiceImpl.java:78-87 | unknown id gives EntityNotFound; a stored booking gives exactly what `BookingRules.View` gives for it: its DTO for its booker or its item's owner, IllegalViewAndUpdate for anyone else |
| LegacyBookingService.LegacyBookingService.ListFor | src/main/java/ru/practicum/shareit/booking/service/BookingServiceImpl.java:91-170 | a missing user gives EntityNotFound before the state is parsed; then an unknown state gives UnsupportedStatus; otherwise exactly the party's bookings in the state, ordered by `ListOrder` |
| LegacyBookingService.LegacyBookingService.GetAllByBooker | src/main/java/ru/practicum/shareit/booking/service/BookingServiceImpl.java:91-128 | user first, then state; exactly the DTOs of `ListFor`'s booker list: every one of the caller's bookings in the state, and only those; latest end first for "REJECTED", latest start first otherwise |
| LegacyBookingService.LegacyBookingService.GetAllByOwner | src/main/java/ru/practicum/shareit/booking/service/BookingServiceImpl.java:132-170 | user first, then state; exactly the DTOs of `ListFor`'s owner list: every booking of the caller's items in the state, and only those; latest start first, REJECTED included |
| BookingMapper.ToBookingDtoOut | server/src/main/java/ru/practicum/shareit/booking/dto/BookingMapper.java:11-20 | id, start, end and status are kept; the item and booker are shown by id and name |
| BookingMapper.ToBookingDtoShort | server/src/main/java/ru/practicum/shareit/booking/dto/BookingMapper.java:22-30 | id, start, end and status are kept and `bookerId` is the booker's id |
| BookingMapper.ToBooking | server/src/main/java/ru/practicum/shareit/booking/dto/BookingMapper.java:32-37 | the status becomes WAITING, the dates come from the DTO, and id, item and booker are untouched |
| BookingMapper.ToBookingResetsDecision | server/src/main/java/ru/practicum/shareit/booking/dto/BookingMapper.java:32-37 | whatever status the booking held the result is the same, and applying the conversion twice is applying it once |
| BookingMapper.ShortAgreesWithOut | src/main/java/ru/practicum/shareit/booking/mapper/BookingMapper.java:14-33 | the short and the full form agree on id, dates, status and booker id |
| BookingMapper.ToBookingDtoOuts | server/src/main/java/ru/practicum/shareit/booking/service/BookingServiceImpl.java:136 | the stream map converts each booking, in order, one DTO per booking |
| UserMapper.ToUserDto | server/src/main/java/ru/practicum/shareit/user/mapper/UserMapper.java:10-16 | id, name and email are copied (also the older `toDto`) |
| UserMapper.ToUserDtoShort | server/src/main/java/ru/practicum/shareit/user/mapper/UserMapper.java:18-23 | keeps id and name |
| UserMapper.ToEntity | server/src/main/java/ru/practicum/shareit/user/mapper/UserMapper.java:25-31 | id, name and email are copied |
| UserMapper.EntityRoundTrip | src/main/java/ru/practicum/shareit/user/mapper/UserMapper.java:10-31 | converting a user to its DTO and back gives the user |
| UserMapper.DtoRoundTrip | server/src/main/java/ru/practicum/shareit/user/mapper/UserMapper.java:10-31 | a complete DTO survives the trip through the entity |
| UserMapper.ShortIsDtoWithoutEmail | src/main/java/ru/practicum/shareit/user/mapper/UserMapper.java:18-23 | the short form is the full DTO without the email |
| ItemMapper.ToDto | server/src/main/java/ru/practicum/shareit/item/mapper/ItemMapper.java:12-24 | id, name, description, available are kept, the owner is shown by id and name, and `requestId` is set iff the item answers a request, to that request's id |
| ItemMapper.ToItemDtoShort | server/src/main/java/ru/practicum/shareit/item/mapper/ItemMapper.java:26-31 | keeps id and name |
| ItemMapper.ToItem | server/src/main/java/ru/practicum/shareit/item/mapper/ItemMapper.java:33-39 | copies name, description and available |
| ItemMapper.DraftRoundTrip | server/src/main/java/ru/practicum/shareit/item/mapper/ItemMapper.java:12-39 | an item built from a DTO and shown again gives back the DTO's name, description, availability and request id |
| ItemMapper.ShortAgreesWithDto | server/src/main/java/ru/practicum/shareit/item/mapper/ItemMapper.java:12-31 | the short form agrees with the full DTO on id and name |
| CommentMapper.ToCommentDtoOut | server/src/main/java/ru/practicum/shareit/item/comment/mapper/CommentMapper.java:14-19 | id, text and created are kept, and the author is shown by name |
| CommentMapper.ToComment | server/src/main/java/ru/practicum/shareit/item/comment/mapper/CommentMapper.java:21-28 | item, author and text come from the arguments, created is the clock's `now`, and the id is unset (0) |
| CommentMapper.CommentRoundTrip | server/src/main/java/ru/practicum/shareit/item/comment/mapper/CommentMapper.java:14-28 | a posted comment comes back with its text, signed with the author's name and the moment it was made |
| UserRepository.UserRepository.FindById | src/main/java/ru/practicum/shareit/user/repository/UserRepositoryImpl.java:27-29 | a user is found iff its id is stored, and it carries that id |
| UserRepository.UserRepository.Save | src/main/java/ru/practicum/shareit/user/repository/UserRepositoryImpl.java:20-24 | the counter is pre-incremented and becomes the user's id, which is fresh; only that entry is added and then found, every other lookup is unchanged |
| UserRepository.UserRepository.DeleteById | src/main/java/ru/practicum/shareit/user/repository/UserRepositoryImpl.java:32-37 | an absent id gives EntityNotFound and changes nothing; a present one removes that key only |
| UserRepository.UserRepository.FindAll | src/main/java/ru/practicum/shareit/user/repository/UserRepositoryImpl.java:15-17 | exactly the stored users, each once |
| UserService.Patch | server/src/main/java/ru/practicum/shareit/user/service/UserServiceImpl.java:47-56 | a name or email is replaced only by a non-null, non-blank value; the id is kept |
| UserService.PatchBlankIsIdentity | server/src/main/java/ru/practicum/shareit/user/service/UserServiceImpl.java:47-56 | a DTO with no text in either field leaves the user unchanged |
| UserService.PatchIdempotent | server/src/main/java/ru/practicum/shareit/user/service/UserServiceImpl.java:47-56 | applying the same update twice is applying it once |
| UserService.PatchKeepsUniqueEmails | server/src/main/java/ru/practicum/shareit/user/service/UserServiceImpl.java:52-56 | an update the email check lets through keeps all emails distinct |
| UserService.UserService.GetUserById | server/src/main/java/ru/practicum/shareit/user/service/UserServiceImpl.java:26-30 | the stored user's DTO, or EntityNotFound iff the id is unknown |
| UserService.UserService.SaveNewUser | server/src/main/java/ru/practicum/shareit/user/service/UserServiceImpl.java:33-37 | an email already held by any user gives NotUniqueEmail and stores nothing; otherwise the user is stored under a fresh id |
| UserService.UserService.UpdateUser | server/src/main/java/ru/practicum/shareit/user/service/UserServiceImpl.java:41-58 | unknown id gives EntityNotFound; a changed email held by another user gives NotUniqueEmail with the new name already written; an unchanged email skips the check; otherwise the patched user is stored and returned |
| UserService.UserService.DeleteUserById | server/src/main/java/ru/practicum/shareit/user/service/UserServiceImpl.java:61-63 | the store's delete: EntityNotFound for an absent id, else that entry goes |
| UserService.UserService.FindAll | server/src/main/java/ru/practicum/shareit/user/service/UserServiceImpl.java:21-23 | one DTO per stored user, and every stored user has one |
| ItemRepository.MatchesIgnoresCaseOfText | src/main/java/ru/practicum/shareit/item/repository/ItemRepositoryImpl.java:26-31 | lower-casing the search text first does not change which items match |
| ItemRepository.OwnerItems | src/main/java/ru/practicum/shareit/item/repository/ItemRepositoryImpl.java:21-23 | null iff the owner has no item; otherwise exactly the owner's stored items, in the order they were saved |
| ItemRepository.SaveKeepsValid | src/main/java/ru/practicum/shareit/item/repository/ItemRepositoryImpl.java:34-41 | storing under the next id and appending to the owner's list keeps every item under its id and every owner list exact and in save order |
| ItemRepository.Appended | src/main/java/ru/practicum/shareit/item/repository/ItemRepositoryImpl.java:38-39 | the owner's list, created empty when absent, with the new id at its end |
| ItemRepository.SaveAppendsToOwner | src/main/java/ru/practicum/shareit/item/repository/ItemRepositoryImpl.java:34-41 | after a save the owner's items are the ones before, then the new one |
| ItemRepository.ItemRepository.FindById | src/main/java/ru/practicum/shareit/item/repository/ItemRepositoryImpl.java:16-18 | an item is found iff its id is stored, and it carries that id |
| ItemRepository.ItemRepository.FindItemsByOwner | src/main/java/ru/practicum/shareit/item/repository/ItemRepositoryImpl.java:21-23 | null iff the owner has no item; otherwise exactly the owner's items, oldest first |
| ItemRepository.ItemRepository.FindItemBySearch | src/main/java/ru/practicum/shareit/item/repository/ItemRepositoryImpl.java:26-31 | exactly the stored available items whose name or description contains the text, ignoring case |
| ItemRepository.ItemRepository.Save | src/main/java/ru/practicum/shareit/item/repository/ItemRepositoryImpl.java:34-41 | id = pre-incremented counter (fresh), owner = the user, stored under the id, appended to the end of the owner's list; other owners' lists untouched |
| ItemRepository.ItemRepository.Put | src/main/java/ru/practicum/shareit/item/service/ItemServiceImpl.java:59-67 | writing back a changed item under its id changes that entry only, and the owner's list shows the change |
| ItemService.ToItemDto | src/main/java/ru/practicum/shareit/item/service/ItemServiceImpl.java:24-28 | id, name, description and availability are shown |
| ItemService.ToStoredItem | src/main/java/ru/practicum/shareit/item/service/ItemServiceImpl.java:45-48 | converting a complete DTO keeps what it says about name, description and availability |
| ItemService.PatchItem | src/main/java/ru/practicum/shareit/item/service/ItemServiceImpl.java:59-67 | name and description are replaced only by non-blank text; availability whenever present, false included; id and owner kept |
| ItemService.PatchNothingIsIdentity | src/main/java/ru/practicum/shareit/item/service/ItemServiceImpl.java:59-67 | an update with nothing to say leaves the item as it was |
| ItemService.PatchItemIdempotent | src/main/java/ru/practicum/shareit/item/service/ItemServiceImpl.java:59-67 | applying the same update twice is applying it once |
| ItemService.AvailabilityIsTriState | src/main/java/ru/practicum/shareit/item/service/ItemServiceImpl.java:65-67 | absent keeps the flag; true and false both set it |
| ItemService.ToItemDtos | src/main/java/ru/practicum/shareit/item/service/ItemServiceImpl.java:33 | each item converted, in order |
| ItemService.ListingOfOwnerItems | src/main/java/ru/practicum/shareit/item/service/ItemServiceImpl.java:31-34 | the owner's list from the store, converted, lists exactly the owner's items, each once, oldest first |
| ItemService.ItemService.FindById | src/main/java/ru/practicum/shareit/item/service/ItemServiceImpl.java:24-28 | the item's DTO, or EntityNotFound iff the id is unknown |
| ItemService.ItemService.GetItemsByOwner | src/main/java/ru/practicum/shareit/item/service/ItemServiceImpl.java:31-34 | as written: unknown user gives EntityNotFound; an existing user with no items gets a NullPointerException; otherwise exactly the owner's items |
| ItemService.ItemService.GetItemsByOwnerCorrected | src/main/java/ru/practicum/shareit/item/service/ItemServiceImpl.java:31-34 | fails iff the user is unknown (EntityNotFound); otherwise exactly the owner's items, oldest first, the empty list included |
| ItemService.ItemService.CorrectionOnlyAffectsOwnersWithoutItems | src/main/java/ru/practicum/shareit/item/repository/ItemRepositoryImpl.java:21-23 | the two versions agree for an owner with items and differ exactly on an existing user with none |
| ItemService.ItemService.GetItemBySearch | src/main/java/ru/practicum/shareit/item/service/ItemServiceImpl.java:37-42 | blank text gives nothing without asking the store; otherwise exactly the DTOs of available matching items |
| ItemService.ItemService.EmptyTextWouldMatchAll | src/main/java/ru/practicum/shareit/item/service/ItemServiceImpl.java:38-40 | the store alone would return every available item for the empty text; the blank check returns none |
| ItemService.ItemService.SaveNewItem | src/main/java/ru/practicum/shareit/item/service/ItemServiceImpl.java:45-48 | unknown user gives EntityNotFound and stores nothing; otherwise the item is stored under a fresh id, owned by the user and listed under them |
| ItemService.ItemService.UpdateItem | src/main/java/ru/practicum/shareit/item/service/ItemServiceImpl.java:51-73 | unknown user, then unknown item, give EntityNotFound; a non-owner gets NotOwner and nothing changes; otherwise only that item changes, by `PatchItem`, visible in the owner's list |
| ItemRequestService.ToItemRequestDtoOut | server/src/main/java/ru/practicum/shareit/request/ItemRequestService.java:43 | id, description and created are shown, with no items yet |
| ItemRequestService.FindAllByRequestId | server/src/main/java/ru/practicum/shareit/request/ItemRequestService.java:76 | exactly the items answering the request |
| ItemRequestService.WithItems | server/src/main/java/ru/practicum/shareit/request/ItemRequestService.java:74-78 | one DTO per item the query returns, each the DTO of a stored item answering the request, and every answering item's DTO is attached |
| ItemRequestService.UnansweredHasNoItems | server/src/main/java/ru/practicum/shareit/request/ItemRequestService.java:76-78 | a request no item answers is shown with an empty list |
| ItemRequestService.AddItems | server/src/main/java/ru/practicum/shareit/request/ItemRequestService.java:72-82 | one output per input request, in the same order, each with its answering items |
| ItemRequestService.ByRequestor | server/src/main/java/ru/practicum/shareit/request/ItemRequestService.java:49 | exactly the user's own requests, latest first |
| ItemRequestService.ByOthers | server/src/main/java/ru/practicum/shareit/request/ItemRequestService.java:56-57 | exactly the other users' requests, latest first |
| ItemRequestService.PageOfRequests | server/src/main/java/ru/practicum/shareit/request/ItemRequestService.java:56-57 | a page of requests ordered latest first holds only source requests and keeps the order |
| ItemRequestService.ItemRequestService.SaveNewRequest | server/src/main/java/ru/practicum/shareit/request/ItemRequestService.java:37-44 | unknown user gives EntityNotFound and saves nothing; otherwise one request stamped `now`, with the user as requestor, is appended under the next id |
| ItemRequestService.ItemRequestService.GetRequestsByRequestor | server/src/main/java/ru/practicum/shareit/request/ItemRequestService.java:46-51 | fails iff the user is unknown; otherwise every one of the user's requests, latest first, each with its items |
| ItemRequestService.ItemRequestService.GetAllRequests | server/src/main/java/ru/practicum/shareit/request/ItemRequestService.java:53-59 | fails iff the user is unknown; otherwise page `from / size` of at most `size` of the other users' requests, latest first, each with its items |
| ItemRequestService.ItemRequestService.GetRequestById | server/src/main/java/ru/practicum/shareit/request/ItemRequestService.java:61-70 | the user is checked before the request, either missing gives EntityNotFound; otherwise that request with its items |

## Left out

- Controllers, the gateway's duplicate date check, `ErrorHandler` and the HTTP status mapping: errors are the `Error` kinds carried in `Result.Err`.
- Log calls and `@Transactional`. A stored entity changed in place by JPA dirty checking is modelled as an explicit write of its map or sequence entry.
- JPA references are embedded as values. A change to a user is therefore not seen through the copies that bookings and items hold.
- Database execution of queries, sorting and paging: restated as filter, sort and slice over sequences.
  - Rows whose sort keys tie come in an order the database does not promise. The model keeps the store's order for them.
- `LocalDateTime` and the system clock: integer timestamps, with `now` a parameter. No calendar arithmetic.
- Bean validation on DTOs, including `@Email` format: taken as preconditions where a converter needs the fields present.
  - These are `UserMapper.ToEntity`, `UserService.UserService.SaveNewUser`, `ItemService.ToStoredItem` and `ItemService.ItemService.SaveNewItem`.
- `String.toLowerCase` and `isBlank` are modelled for ASCII letters and ASCII whitespace only.
- The static id counters of the in-memory stores are fields of the one store instance. Their `int` overflow is ignored.
- `HashMap` iteration order is left unspecified.
  - `UserRepository.UserRepository.FindAll` picks keys in an arbitrary order.
  - `ItemRepository.ItemRepository.FindItemBySearch` and `ItemService.ItemService.GetItemBySearch` return sets, not lists.
- `toBooking` mutates the booking it receives and returns it. It is modelled as a function returning the updated value, so `BookingMapper.ToBooking` and `LegacyBookingService.ToBooking` do not capture aliasing.
- The older tree's item mapper, the request mapper and the older tree's `BookingDto` class are not part of this model. They are taken to copy the fields they share.
- The older item service calls a user service that is not part of this model. `ItemService` uses the server's `UserService` over the in-memory user store instead. Only its lookup is used.
- The server's `UserService` runs here over the in-memory `UserRepository`, not a JPA repository. The two offer the same lookups and writes.
- The request store's `save` is modelled as appending under the next id, like the other JPA stores.
- The server `save`'s `Long.valueOf(userId).equals(...)` owner comparison is modelled as integer equality.
- ItemRequestService.ItemRequestService.GetAllRequests: the page is stated as a slice of `ByOthers`; which requests fall on a given page is left to `Queries.Page`.

## Findings

| source | as written | input that shows it | evidently intended | confidence | as-written member | corrected member |
|---|---|---|---|---|---|---|
| src/main/java/ru/practicum/shareit/item/service/ItemServiceImpl.java:31-34 | `getItemsByOwner` streams `findItemsByOwner(userId)`, and `findItemsByOwner` returns `userItemIndex.get(userId)`, which is null for a user who has never saved an item | an existing user with no items asks for their items: `findItemsByOwner` gives null and `.stream()` throws a NullPointerException | an empty list for a user without items | not executed | ItemService.ItemService.GetItemsByOwner | ItemService.ItemService.GetItemsByOwnerCorrected |
