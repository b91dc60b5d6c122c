/**
 * The records the booking and invoice services share: ticket types with their
 * stock, bookings and their line items. Money is in minor units (hundredths),
 * matching the numeric(12,2) columns.
 */
module BookingEntities {
  import opened Common

  /** Ids the database generates; the model issues them as sequence numbers. */
  type UserId = nat
  type BookingId = nat

  /** Ids the reservation receives from its caller. */
  type TicketTypeId = string

  datatype TicketType = TicketType(
    id: TicketTypeId,
    name: string,
    price: int,
    initialQuantity: int,
    remainingQuantity: int,
    eventId: string)

  datatype BookingStatus = Pending | Paid

  /** One line of a booking: the quantity bought and the unit price at purchase time. */
  datatype BookingItem = BookingItem(ticketTypeId: TicketTypeId, quantity: int, price: int)

  datatype Booking = Booking(
    id: BookingId,
    userId: UserId,
    totalAmount: int,
    status: BookingStatus,
    paymentGateway: Option<string>,
    items: seq<BookingItem>,
    createdAt: int)

  /** The booking stored under an id: a lookup `WHERE id = :id`. */
  function FindBooking(bookings: seq<Booking>, id: BookingId): (r: Option<Booking>)
    ensures r.Some? ==> r.value in bookings && r.value.id == id
    ensures r.None? <==> forall b :: b in bookings ==> b.id != id
  {
    if bookings == [] then None
    else if bookings[0].id == id then Some(bookings[0])
    else
      assert bookings == [bookings[0]] + bookings[1..];
      FindBooking(bookings[1..], id)
  }
}
