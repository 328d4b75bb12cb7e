/**
 * The decisions of the bookings endpoint: which service call each action
 * makes, with which arguments, and which response it reports. The caller's
 * identity arrives as `caller` (the name-identifier claim, absent when the
 * token carries none) and `identityName` (the identity's display name).
 */
module BookingApi {
  import opened Wrappers
  import opened BookingModel
  import opened BookingQuery
  import opened BookingStore

  /** The request body of a new booking. */
  datatype CreateBookingDto = CreateBookingDto(
    invoiceId: string,
    bookingDate: int,
    userId: string,
    customerName: string,
    eventId: string,
    eventName: string,
    categoryId: string,
    categoryName: string,
    ticketCategoryId: string,
    ticketCategoryName: string,
    price: real,
    quantity: int,
    eVoucher: Option<string>)

  /** The request body of an update. */
  datatype UpdateBookingDto = UpdateBookingDto(status: BookingStatus, quantity: int, eVoucher: Option<string>)

  /** The outcome of an action, with the payload it carries. */
  datatype Response =
    | OkList(bookings: seq<Booking>)
    | OkBooking(booking: Booking)
    | OkEmpty
    | Created(created: Booking)
    | NoContent
    | NotFound
    | Unauthorized
    | BadRequest

  /** The fields of a new entity that the controller does not set. */
  const BlankEntity: Booking :=
    Booking("", "", 0, "", "", "", "", "", "", "", "", 0.0, 0, None, Pending, 0)

  /** `b` carries the descriptive fields of the request body unchanged. */
  predicate CarriesRequest(b: Booking, dto: CreateBookingDto) {
    && b.invoiceId == dto.invoiceId && b.bookingDate == dto.bookingDate
    && b.eventId == dto.eventId && b.eventName == dto.eventName
    && b.categoryId == dto.categoryId && b.categoryName == dto.categoryName
    && b.ticketCategoryId == dto.ticketCategoryId && b.ticketCategoryName == dto.ticketCategoryName
    && b.price == dto.price && b.quantity == dto.quantity && b.eVoucher == dto.eVoucher
  }

  class BookingsController {
    const service: BookingService

    constructor (service: BookingService)
      ensures this.service == service
    {
      this.service := service;
    }

    /** Administrators list every owner's records: the query runs unrestricted. */
    function GetAllBookings(table: seq<Booking>, filter: BookingFilter): (r: Response)
      reads service
      requires Enumerates(table, service.bookings)
      ensures r.OkList? && |r.bookings| <= filter.pageSize
      ensures forall b :: b in r.bookings ==>
        b.bookingId in service.bookings && service.bookings[b.bookingId] == b && Matches(b, filter, true, None)
      ensures r == OkList(ListBookings(table, filter, true, None))
    {
      ListedBookingsAreStored(table, service.bookings, filter, true, None);
      OkList(ListBookings(table, filter, true, None))
    }

    /** Members list their own records; without a caller id the answer is Unauthorized. */
    function GetUserBookings(table: seq<Booking>, filter: BookingFilter, caller: Option<string>): (r: Response)
      reads service
      requires Enumerates(table, service.bookings)
      ensures caller.None? <==> r == Unauthorized
      ensures caller.Some? ==> r.OkList? && |r.bookings| <= filter.pageSize
      ensures caller.Some? ==> forall b :: b in r.bookings ==>
        b.userId == caller.value && b.bookingId in service.bookings && service.bookings[b.bookingId] == b
      ensures caller.Some? ==> r == OkList(ListBookings(table, filter, false, caller))
    {
      if caller.None? then Unauthorized
      else
        ListedBookingsAreStored(table, service.bookings, filter, false, caller);
        OkList(ListBookings(table, filter, false, caller))
    }

    /** The record with key `id`, or NotFound. */
    function GetById(id: string): (r: Response)
      reads service
      requires service.Valid()
      ensures r.OkBooking? <==> id in service.bookings
      ensures r.OkBooking? ==> r.booking == service.bookings[id] && r.booking.bookingId == id
      ensures !r.OkBooking? ==> r == NotFound
    {
      var booking := service.GetById(id);
      if booking.Some? then OkBooking(booking.value) else NotFound
    }

    /**
     * A member books: the owner becomes the caller, the customer name the
     * identity's name (or "Member"), whatever the body says; the status
     * starts at Pending. Without a caller id nothing is stored.
     */
    method CreateBooking(dto: CreateBookingDto, caller: Option<string>, identityName: Option<string>, newId: string, now: int)
      returns (r: Response)
      requires service.Valid()
      requires newId != "" && newId !in service.bookings
      modifies service
      ensures service.Valid()
      ensures caller.None? ==> r == Unauthorized && service.bookings == old(service.bookings)
      ensures caller.Some? ==> && r.Created?
                               && r.created.bookingId == newId && r.created.createdAt == now
                               && r.created.userId == caller.value
                               && r.created.customerName == identityName.GetOr("Member")
                               && r.created.status == Pending
                               && CarriesRequest(r.created, dto)
                               && service.bookings == old(service.bookings)[newId := r.created]
    {
      if caller.None? {
        return Unauthorized;
      }
      var request := dto.(userId := caller.value, customerName := identityName.GetOr("Member"));
      var booking := Booking(
        BlankEntity.bookingId,
        request.invoiceId,
        request.bookingDate,
        request.userId,
        request.customerName,
        request.eventId,
        request.eventName,
        request.categoryId,
        request.categoryName,
        request.ticketCategoryId,
        request.ticketCategoryName,
        request.price,
        request.quantity,
        request.eVoucher,
        Pending,
        BlankEntity.createdAt);
      var created := service.Create(booking, newId, now);
      r := Created(created);
    }

    /**
     * Updates the record `id` from the body's status, quantity and voucher:
     * NoContent when it exists, NotFound (and no change) otherwise.
     */
    method UpdateBooking(id: string, dto: UpdateBookingDto) returns (r: Response)
      requires service.Valid()
      modifies service
      ensures service.Valid()
      ensures r == NoContent || r == NotFound
      ensures r == NoContent <==> id in old(service.bookings)
      ensures r == NoContent ==> service.bookings == old(service.bookings)[id :=
        old(service.bookings)[id].(status := dto.status, quantity := dto.quantity, eVoucher := dto.eVoucher)]
      ensures r == NotFound ==> service.bookings == old(service.bookings)
    {
      var patch := BlankEntity.(bookingId := id, status := dto.status, quantity := dto.quantity, eVoucher := dto.eVoucher);
      var updated := service.Update(patch);
      r := if updated then NoContent else NotFound;
    }

    /** Deletes the record `id`: NoContent when it existed, NotFound otherwise. */
    method Delete(id: string) returns (r: Response)
      requires service.Valid()
      modifies service
      ensures service.Valid()
      ensures r == NoContent || r == NotFound
      ensures r == NoContent <==> id in old(service.bookings)
      ensures service.bookings == old(service.bookings) - {id}
    {
      var deleted := service.Delete(id);
      r := if deleted then NoContent else NotFound;
    }

    /**
     * A member cancels their own booking. A missing record and someone
     * else's record both answer NotFound and change nothing; the owner's
     * record turns Cancelled, keeping its quantity and voucher.
     */
    method MemberCancelBooking(id: string, caller: Option<string>) returns (r: Response)
      requires service.Valid()
      modifies service
      ensures service.Valid()
      ensures r != BadRequest
      ensures caller.None? ==> r == Unauthorized && service.bookings == old(service.bookings)
      ensures caller.Some? && (id !in old(service.bookings) || old(service.bookings)[id].userId != caller.value)
        ==> r == NotFound && service.bookings == old(service.bookings)
      ensures caller.Some? && id in old(service.bookings) && old(service.bookings)[id].userId == caller.value
        ==> r == OkEmpty && service.bookings == old(service.bookings)[id := old(service.bookings)[id].(status := Cancelled)]
    {
      if caller.None? {
        return Unauthorized;
      }
      var booking := service.GetById(id);
      if booking.None? || booking.value.userId != caller.value {
        return NotFound;
      }
      var cancelled := booking.value.(status := Cancelled);
      var updated := service.Update(cancelled);
      r := if updated then OkEmpty else BadRequest;
    }
  }
}
