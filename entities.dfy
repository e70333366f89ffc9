/** The persistent entities of the server. A JPA reference to another entity
    (`@ManyToOne`) is modelled as the referenced entity's value, embedded: a
    booking holds its item, which holds its owner. Timestamps
    (`LocalDateTime`) are integers on one clock. */
module Entities {
  import opened Common

  datatype User = User(id: int, name: string, email: string)

  /** A request for an item someone wishes to borrow. */
  datatype ItemRequest = ItemRequest(id: int, description: string, requestor: User, created: int)

  /** An item offered for sharing; `request` is the request it answers, if any. */
  datatype Item = Item(id: int, name: string, description: string, available: bool,
                       owner: User, request: Option<ItemRequest>)

  /** `BookingStatusEnum`. WAITING is the only status a decision can leave. */
  datatype BookingStatus = WAITING | APPROVED | REJECTED

  datatype Booking = Booking(id: int, start: int, end: int, item: Item, booker: User,
                             status: BookingStatus)

  datatype Comment = Comment(id: int, text: string, item: Item, author: User, created: int)
}
