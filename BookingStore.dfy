/**
 * The booking service's record operations over the store, a map from booking
 * id to record. Identity generation and the clock are inputs: `newId` stands
 * for a freshly generated id and `now` for the current time.
 */
module BookingStore {
  import opened Wrappers
  import opened BookingModel

  /**
   * The record an update leaves behind: `existing` with the status, quantity
   * and voucher of `patch`, and every other field as it was.
   */
  function Patched(existing: Booking, patch: Booking): (r: Booking)
    ensures r.status == patch.status && r.quantity == patch.quantity && r.eVoucher == patch.eVoucher
    ensures r.(status := existing.status, quantity := existing.quantity, eVoucher := existing.eVoucher) == existing
    ensures r.TotalAmount() == existing.price * patch.quantity as real
  {
    existing.(status := patch.status, quantity := patch.quantity, eVoucher := patch.eVoucher)
  }

  class BookingService {
    var bookings: map<string, Booking>

    ghost predicate Valid()
      reads this
    {
      WellKeyed(bookings)
    }

    constructor (store: map<string, Booking>)
      requires WellKeyed(store)
      ensures Valid() && bookings == store
    {
      bookings := store;
    }

    /** Direct key lookup; a missing id yields `None`. */
    function GetById(id: string): (r: Option<Booking>)
      reads this
      requires Valid()
      ensures r.Some? <==> id in bookings
      ensures r.Some? ==> r.value == bookings[id] && r.value.bookingId == id
    {
      if id in bookings then Some(bookings[id]) else None
    }

    /**
     * Stores `booking` under the fresh id `newId`, stamped with `now`. Every
     * field the caller supplied is kept, and no other record changes.
     */
    method Create(booking: Booking, newId: string, now: int) returns (created: Booking)
      requires Valid()
      requires newId != "" && newId !in bookings
      modifies this
      ensures Valid()
      ensures created.bookingId == newId && created.createdAt == now
      ensures created.(bookingId := booking.bookingId, createdAt := booking.createdAt) == booking
      ensures created.TotalAmount() == booking.price * booking.quantity as real
      ensures bookings == old(bookings)[newId := created]
    {
      created := booking.(bookingId := newId, createdAt := now);
      bookings := bookings[newId := created];
    }

    /**
     * Overwrites the status, quantity and voucher of the record `patch` names.
     * No transition rule applies: any status may follow any other. A missing
     * id reports `false` and changes nothing.
     */
    method Update(patch: Booking) returns (found: bool)
      requires Valid()
      modifies this
      ensures Valid()
      ensures found <==> patch.bookingId in old(bookings)
      ensures found ==> bookings == old(bookings)[patch.bookingId := Patched(old(bookings)[patch.bookingId], patch)]
      ensures !found ==> bookings == old(bookings)
    {
      var existing := GetById(patch.bookingId);
      if existing.None? {
        return false;
      }
      bookings := bookings[patch.bookingId := Patched(existing.value, patch)];
      found := true;
    }

    /** Removes the record with key `id`; a missing id reports `false` and changes nothing. */
    method Delete(id: string) returns (found: bool)
      requires Valid()
      modifies this
      ensures Valid()
      ensures found <==> id in old(bookings)
      ensures bookings == old(bookings) - {id}
      ensures GetById(id).None?
    {
      var booking := GetById(id);
      if booking.None? {
        return false;
      }
      bookings := bookings - {id};
      found := true;
    }
  }
}
