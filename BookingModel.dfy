/** The booking record and the invariants of the store that holds it. */
module BookingModel {
  import opened Wrappers

  /** The three states of a booking. */
  datatype BookingStatus = Pending | Confirmed | Cancelled

  /** The literal name of a status, as `Status.ToString()` renders it. */
  function StatusName(s: BookingStatus): string {
    match s
    case Pending => "Pending"
    case Confirmed => "Confirmed"
    case Cancelled => "Cancelled"
  }

  /**
   * One booking. Timestamps (`bookingDate`, `createdAt`) are instants on a
   * single clock, counted in ticks; `price` is an exact decimal.
   */
  datatype Booking = Booking(
    bookingId: string,
    invoiceId: string,
    bookingDate: int,
    userId: string,
    customerName: string,
    eventId: string,
    eventName: string,
    categoryId: string,
    categoryName: string,
    ticketCategoryId: string,
    ticketCategoryName: string,
    price: real,
    quantity: int,
    eVoucher: Option<string>,
    status: BookingStatus,
    createdAt: int)
  {
    /** The derived total: computed on every read, never stored. */
    function TotalAmount(): real {
      price * quantity as real
    }
  }

  /** The primary-key invariant of the store: every record sits under its own, non-empty id. */
  ghost predicate WellKeyed(store: map<string, Booking>) {
    forall id :: id in store ==> id != "" && store[id].bookingId == id
  }
}
