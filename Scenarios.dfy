/**
 * Scenarios of the service: the test file's create, update, delete and lookup
 * cases, plus a member's cancel and the two kinds of listing. They are written
 * as clients that rely only on the contracts of the service and the
 * controller. Fresh ids and the clock are inputs, as they are for the service
 * itself.
 */
module Scenarios {
  import opened Wrappers
  import opened BookingModel
  import opened BookingQuery
  import opened BookingStore
  import opened BookingApi

  /** A draft as a caller hands it to the service: no id and no creation time yet. */
  function Draft(invoiceId: string, userId: string, customerName: string, price: real, quantity: int): Booking {
    Booking("", invoiceId, 0, userId, customerName, "event001", "Sample Event", "cat001", "Music",
            "tc001", "VIP", price, quantity, None, Pending, 0)
  }

  /** Creating a booking returns it with the caller's fields and the derived total 299.99 x 2 = 599.98. */
  method CreateKeepsFieldsAndTotal(newId: string, now: int) returns (created: Booking, stored: Option<Booking>)
    requires newId != ""
    ensures created.invoiceId == "INV-001" && created.customerName == "Test User"
    ensures created.quantity == 2 && created.price == 299.99
    ensures created.TotalAmount() == 599.98
    ensures created.bookingId == newId && stored == Some(created)
  {
    var service := new BookingService(map[]);
    created := service.Create(Draft("INV-001", "user123", "Test User", 299.99, 2), newId, now);
    stored := service.GetById(created.bookingId);
  }

  /** A deleted booking can no longer be found. */
  method DeleteThenLookup(newId: string, now: int) returns (deleted: bool, after: Option<Booking>)
    requires newId != ""
    ensures deleted && after == None
  {
    var service := new BookingService(map[]);
    var created := service.Create(Draft("Z", "u", "C", 99.0, 2), newId, now);
    deleted := service.Delete(created.bookingId);
    after := service.GetById(created.bookingId);
  }

  /** An update of quantity and status is visible on the next lookup. */
  method UpdateThenLookup(newId: string, now: int) returns (updated: bool, after: Option<Booking>)
    requires newId != ""
    ensures updated
    ensures after.Some? && after.value.quantity == 5 && after.value.status == Confirmed
    ensures after.Some? && after.value.invoiceId == "INV-002" && after.value.createdAt == now
  {
    var service := new BookingService(map[]);
    var created := service.Create(Draft("INV-002", "user789", "Update Test", 100.0, 1), newId, now);
    updated := service.Update(created.(quantity := 5, status := Confirmed));
    after := service.GetById(created.bookingId);
  }

  /** The owner's cancel succeeds and the record turns Cancelled; another member's cancel answers NotFound. */
  method CancelByOwnerAndStranger(newId: string, now: int) returns (stranger: Response, owner: Response, after: Response)
    requires newId != ""
    ensures stranger == NotFound
    ensures owner == OkEmpty
    ensures after.OkBooking? && after.booking.status == Cancelled && after.booking.quantity == 2
  {
    var service := new BookingService(map[]);
    var controller := new BookingsController(service);
    var created := service.Create(Draft("INV-003", "member-1", "Owner", 50.0, 2), newId, now);
    stranger := controller.MemberCancelBooking(created.bookingId, Some("member-2"));
    owner := controller.MemberCancelBooking(created.bookingId, Some("member-1"));
    after := controller.GetById(created.bookingId);
  }

  /** Two stored bookings, created one after the other. */
  const First: Booking := Draft("A", "u1", "Test1", 50.0, 1).(bookingId := "id-1", createdAt := 1)
  const Second: Booking := Draft("B", "u2", "Test2", 60.0, 2).(bookingId := "id-2", createdAt := 2)

  /** No filter, no sort key, the first page of ten. */
  const Unfiltered: BookingFilter := BookingFilter(None, None, None, None, None, false, 0, 10)

  /**
   * An administrator's unfiltered listing returns both bookings, newest first,
   * with totals 50 and 120.
   */
  lemma AdminListsBothNewestFirst()
    ensures ListBookings([First, Second], Unfiltered, true, None) == [Second, First]
    ensures First.TotalAmount() == 50.0 && Second.TotalAmount() == 120.0
  {
    var table := [First, Second];
    var s := Ordered(table, Unfiltered, true, None);
    assert multiset(s) == multiset(table) by {
      forall b ensures multiset(s)[b] == multiset(table)[b] {
        assert Matches(b, Unfiltered, true, None);
      }
    }
    assert |s| == 2 by {
      assert |multiset(s)| == |multiset(table)|;
    }
    assert ChooseOrdering(Unfiltered) == Ordering(ByCreatedAt, true);
    assert s[0] == Second && s[1] == First by {
      assert First in multiset(s) && Second in multiset(s);
      assert forall b :: b in s ==> b == First || b == Second;
    }
  }

  /** A member's listing holds only that member's booking. */
  lemma MemberListsOwnOnly()
    ensures ListBookings([First, Second], Unfiltered, false, Some("u1")) == [First]
  {
    var table := [First, Second];
    var s := Ordered(table, Unfiltered, false, Some("u1"));
    assert multiset(s) == multiset{First} by {
      forall b ensures multiset(s)[b] == multiset{First}[b] {
        if b == First {
          assert Matches(b, Unfiltered, false, Some("u1"));
        }
      }
    }
    assert |s| == 1 by {
      assert |multiset(s)| == 1;
    }
    assert s[0] in multiset(s);
  }
}
