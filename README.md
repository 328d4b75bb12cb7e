# Ventixe bookings: a verified model of the booking service

This project models the core of the Ventixe bookings API in Dafny. It covers the
booking service, its listing query and its record operations, and the decisions of
the bookings controller that calls them.

- **Listing query** (`GetAllAsync`), in module `BookingQuery`. It is a pipeline of
  functions over the records of the store. The steps are an ownership restriction for
  members, a status-name filter, inclusive from/to date bounds, an ordinal text search
  over customer name, event name and invoice id, a three-way choice of sort order, and
  an offset/limit page window. The store's records reach the query as `table`, the
  order in which the store enumerates them. `Enumerates` ties that sequence to the
  keyed store. `Matches` states in one predicate what the filters admit. The lemmas
  prove that the result is a window of a sorted permutation of exactly the records
  `Matches` admits.
- **Record operations** (`GetByIdAsync`, `CreateAsync`, `UpdateAsync`, `DeleteAsync`),
  in module `BookingStore`. They are the methods of class `BookingService`, which
  holds the store as a `map` from booking id to record. `Valid()` is the primary-key
  invariant: every record sits under its own non-empty id. Every method preserves it.
- **Controller decisions** (`BookingsController`), in module `BookingApi`. Each action
  returns a `Response`: Ok with a payload, Created, NoContent, NotFound, Unauthorized
  or BadRequest.
- **Scenarios**, in module `Scenarios`. These are scenarios of the service: the test
  file's create, update, delete and lookup cases, plus a member's cancel and the two
  kinds of listing. They are written as clients that rely only on the contracts above.

`BookingModel` holds the record. `TotalAmount()` is derived on every read as
`price * quantity`. Prices are exact decimals (`real`), so 299.99 × 2 = 599.98 holds
exactly. Timestamps are integer ticks. Strings are `seq<char>`, and `Strings` gives the
.NET predicates the query uses: `char.IsWhiteSpace`, `string.IsNullOrWhiteSpace` and
ordinal `string.Contains`.

Inputs the service takes from its environment are parameters. `newId` stands for the
freshly generated GUID. It is required to be non-empty and not yet a key of the store.
`now` stands for `DateTime.UtcNow`. `caller` stands for the name-identifier claim and
`identityName` for the identity's display name. Both are `None` when absent.

Two behaviours of the code are worth stating outright:
- The service's `CreateAsync` does not set the status. It is the controller that
  stores `Pending`. `BookingService.Create` keeps whatever status it is given, and
  `BookingsController.CreateBooking` proves that the status is `Pending`.
- A non-blank but unrecognised sort key orders by creation time ascending, whatever
  the direction flag says. A blank or absent key orders by creation time descending.

## Model

| member | source | states |
|---|---|---|
| `BookingQuery.Where` | Ventixe.Bookings.Grupp5.Api/Services/BookingService.cs:21-48 | Each `Where` step keeps exactly the records satisfying its predicate, each as often as in its input. |
| `BookingQuery.Filtered` | Ventixe.Bookings.Grupp5.Api/Services/BookingService.cs:21-48 | The five conditional filter steps, applied in source order, keep exactly the records `Matches` admits, with their multiplicity. The ownership test applies only to a non-admin caller with an id. The status test applies only for a present, non-empty set. Each date bound applies only when present and is inclusive. The search applies only for a non-blank term. |
| `BookingQuery.ChooseOrdering` | Ventixe.Bookings.Grupp5.Api/Services/BookingService.cs:50-68 | "BookingDate" and "Price" sort by that key, descending iff `SortDesc`. Any other non-blank key sorts by creation time ascending. A blank or absent key sorts by creation time descending. |
| `BookingQuery.Insert` | Ventixe.Bookings.Grupp5.Api/Services/BookingService.cs:50-68 | Inserting into a sorted sequence keeps it sorted and adds exactly that one record. |
| `BookingQuery.OrderBy` | Ventixe.Bookings.Grupp5.Api/Services/BookingService.cs:50-68 | The ordering step returns a permutation of its input, sorted by the chosen key and direction. |
| `BookingQuery.Window` | Ventixe.Bookings.Grupp5.Api/Services/BookingService.cs:70-71 | Skip-then-take yields `Min(size, remaining)` records. Its i-th record is the record at position offset + i. It is empty once the offset passes the end. |
| `BookingQuery.Ordered` | Ventixe.Bookings.Grupp5.Api/Services/BookingService.cs:19-68 | Before paging, the query's records are sorted by the chosen ordering and are a permutation of the table's records that `Matches` admits. |
| `BookingQuery.ListBookings` | Ventixe.Bookings.Grupp5.Api/Services/BookingService.cs:17-75 | The result has at most `PageSize` records, and its length is exact after clipping. It is the slice starting at `Page * PageSize` of the ordered selection. Every record in it is in the table and passes every active filter. A non-admin caller with an id sees only their own records. The result is sorted by the chosen key. |
| `BookingQuery.WindowOfSorted` | Ventixe.Bookings.Grupp5.Api/Services/BookingService.cs:70-71 | A page holds only records of the sequence it is cut from, and a page of a sorted sequence is sorted. |
| `BookingQuery.SelectionMembership` | Ventixe.Bookings.Grupp5.Api/Services/BookingService.cs:21-48 | A record is selected before paging iff it is in the table and `Matches` admits it. So an admin, or a caller without an id, gets no ownership restriction, and an empty or absent status set does not filter. |
| `BookingQuery.DateBoundsInclusive` | Ventixe.Bookings.Grupp5.Api/Services/BookingService.cs:31-39 | A record whose booking date equals both bounds is still selected. |
| `BookingQuery.AdjacentWindows` | Ventixe.Bookings.Grupp5.Api/Services/BookingService.cs:70-71 | Two windows of size n, the second starting where the first ends, together form one contiguous slice. |
| `BookingQuery.ConsecutivePages` | Ventixe.Bookings.Grupp5.Api/Services/BookingService.cs:70-73 | Pages p and p + 1 of a listing, concatenated, are the contiguous slice starting at `p * PageSize` with length up to `2 * PageSize`. |
| `BookingQuery.PageDoesNotSelect` | Ventixe.Bookings.Grupp5.Api/Services/BookingService.cs:26-71 | The page index plays no part in selection or ordering. Only the window uses it. |
| `BookingQuery.LaterOffset` | Ventixe.Bookings.Grupp5.Api/Services/BookingService.cs:70 | A later page starts at least one page size further on. The next page starts exactly one page size further on. |
| `BookingQuery.SeparateWindows` | Ventixe.Bookings.Grupp5.Api/Services/BookingService.cs:70-71 | Windows over non-overlapping ranges of a duplicate-free sequence share no record. |
| `BookingQuery.PagesDisjoint` | Ventixe.Bookings.Grupp5.Api/Services/BookingService.cs:70-73 | If the table holds each record once, two different pages of one listing share no record. |
| `BookingQuery.ListedBookingsAreStored` | Ventixe.Bookings.Grupp5.Api/Services/BookingService.cs:19-73 | When the table enumerates the store, every listed record is the stored record under its own id. |
| `BookingQuery.SkipCount32` | Ventixe.Bookings.Grupp5.Api/Services/BookingService.cs:70 | The offset as the source computes it is the 32-bit two's-complement product: it stays in the 32-bit range and differs from `Page * PageSize` by a multiple of 2^32, so it equals the product whenever that fits. |
| `BookingQuery.WindowAsWritten` | Ventixe.Bookings.Grupp5.Api/Services/BookingService.cs:70-71 | The page window as written is the window at the wrapped offset, with a negative offset skipping nothing. |
| `BookingQuery.PageOffsetWraps` | Ventixe.Bookings.Grupp5.Api/Services/BookingService.cs:70-71 | Page 65536 of size 65536 wraps to offset 0 and returns the first page again. The intended window for that page is empty for any table of at most 2^32 records. |
| `BookingStore.Patched` | Ventixe.Bookings.Grupp5.Api/Services/BookingService.cs:99-101 | An update takes status, quantity and voucher from the patch and leaves every other field, including id, owner and creation time, as it was. The derived total follows the new quantity. |
| `BookingStore.BookingService.constructor` | Ventixe.Bookings.Grupp5.Api/Services/BookingService.cs:12-15 | The service starts over the store it is given, which satisfies the key invariant. |
| `BookingStore.BookingService.GetById` | Ventixe.Bookings.Grupp5.Api/Services/BookingService.cs:77-80 | Lookup yields a record iff the id is a key. The record is the stored one and carries that id. |
| `BookingStore.BookingService.Create` | Ventixe.Bookings.Grupp5.Api/Services/BookingService.cs:82-91 | Create assigns the fresh id and the creation time, and keeps every caller-supplied field. The total is `Price * Quantity`. It adds exactly that one record under a key not in the store, and keeps the key invariant. |
| `BookingStore.BookingService.Update` | Ventixe.Bookings.Grupp5.Api/Services/BookingService.cs:93-105 | Update returns true iff the id is stored, then overwrites only status, quantity and voucher of that one record. It applies no transition rule. An unknown id returns false and leaves the store unchanged. |
| `BookingStore.BookingService.Delete` | Ventixe.Bookings.Grupp5.Api/Services/BookingService.cs:107-116 | Delete returns true iff the id was stored, removes exactly that key, and afterwards the lookup of that id is absent. |
| `BookingApi.BookingsController.constructor` | Ventixe.Bookings.Grupp5.Api/Controllers/BookingController.cs:16-19 | The controller holds the service it is given. |
| `BookingApi.BookingsController.GetAllBookings` | Ventixe.Bookings.Grupp5.Api/Controllers/BookingController.cs:27-31 | The admin listing runs the query with `isAdmin = true` and no user. It returns Ok with at most `PageSize` stored records that pass the filters, whoever owns them. |
| `BookingApi.BookingsController.GetUserBookings` | Ventixe.Bookings.Grupp5.Api/Controllers/BookingController.cs:39-45 | Without a caller id the answer is Unauthorized. Otherwise the query runs with `isAdmin = false` and the caller's id, and every returned record is a stored record owned by the caller. |
| `BookingApi.BookingsController.GetById` | Ventixe.Bookings.Grupp5.Api/Controllers/BookingController.cs:53-57 | The answer is Ok with the stored record iff the id is stored, and NotFound otherwise. |
| `BookingApi.BookingsController.CreateBooking` | Ventixe.Bookings.Grupp5.Api/Controllers/BookingController.cs:65-93 | Without a caller id the answer is Unauthorized and nothing is stored. Otherwise the stored record's owner is the caller and its customer name is the identity's name or "Member", overriding the body. Its status is Pending. The other fields come from the body. It is the one record added. |
| `BookingApi.BookingsController.UpdateBooking` | Ventixe.Bookings.Grupp5.Api/Controllers/BookingController.cs:102-115 | The patch carries the route id, status, quantity and voucher only. The answer is NoContent iff the id is stored, which changes only those three fields of that record. Otherwise it is NotFound and the store is unchanged. |
| `BookingApi.BookingsController.Delete` | Ventixe.Bookings.Grupp5.Api/Controllers/BookingController.cs:123-128 | The answer is NoContent iff a record was deleted, and NotFound otherwise. The store loses exactly that key. |
| `BookingApi.BookingsController.MemberCancelBooking` | Ventixe.Bookings.Grupp5.Api/Controllers/BookingController.cs:136-149 | Without a caller id the answer is Unauthorized. A missing booking, or someone else's, is NotFound and changes nothing. The owner's booking becomes Cancelled, keeps its quantity and voucher, and the answer is Ok. BadRequest never occurs. |
| `Scenarios.CreateKeepsFieldsAndTotal` | BookingApi_Tests/BookingServiceTests.cs:22-71 | A created booking keeps invoice id, customer name, quantity 2 and price 299.99. Its total is 599.98, and a lookup by its new id finds it. |
| `Scenarios.DeleteThenLookup` | BookingApi_Tests/BookingServiceTests.cs:72-88 | Deleting a created booking succeeds, and looking it up afterwards yields absent. |
| `Scenarios.UpdateThenLookup` | BookingApi_Tests/BookingServiceTests.cs:89-122 | Updating quantity to 5 and status to Confirmed succeeds and is visible on lookup. The other fields keep their values. |
| `Scenarios.CancelByOwnerAndStranger` | Ventixe.Bookings.Grupp5.Api/Controllers/BookingController.cs:136-149 | Another member's cancel answers NotFound. The owner's cancel answers Ok, and the booking is then Cancelled with its quantity kept. |
| `Scenarios.AdminListsBothNewestFirst` | Ventixe.Bookings.Grupp5.Api/Services/BookingService.cs:17-75 | An unfiltered admin listing of bookings priced 50 × 1 and 60 × 2 returns both, newest first, with totals 50 and 120. |
| `Scenarios.MemberListsOwnOnly` | Ventixe.Bookings.Grupp5.Api/Services/BookingService.cs:21-24 | A member's unfiltered listing over the same two bookings returns only their own. |

## Left out

- Persistence is modelled as a map from id to record, not as EF Core: no `SaveChangesAsync`, no change tracking, no `FindAsync`. `MemberCancelBooking` sets the status on the tracked entity, and update then copies status, quantity and voucher from that same entity. The model works on values, which gives the same final record but does not capture the aliasing.
- async/await and concurrent read-modify-write races are left out. The source has no locking, and each operation is modelled as one atomic step. Because of this, the controller's BadRequest branch cannot be reached in the model.
- GUID generation and the clock are inputs (`newId`, `now`).
- Authorisation attributes, claim lookups and `IActionResult` construction are left out. Only the outcome decisions are modelled.
- `GetStatisticsAsync` (called by the controller's `GetStats`) and `GetAllBookingsAsync` (called by one test) do not exist in the service file. `GetStats` is therefore not part of this model.
- `BookingEntity`, `BookingFilterDto`, `CreateBookingDto` and `UpdateBookingDto` are not part of this model. Their fields are inferred from their uses. The entity fields the controller leaves unset are given default values in `BlankEntity`.
- Negative `Page` or `PageSize` values are left out: both are `nat`. Outside the finding below, the offset `Page * PageSize` is the unbounded product.
- Search is ordinal and case-sensitive. The database collation, which may ignore case, is left out. Status names are compared as the literal names `Pending`, `Confirmed` and `Cancelled`.
- BookingQuery.PagesDisjoint, BookingQuery.ConsecutivePages: these assume the store returns records with equal sort keys in the same order on every call, because the model's `OrderBy` is one fixed function. In-memory LINQ does so. A SQL `ORDER BY` on a non-unique key such as `Price` or `BookingDate` with OFFSET/FETCH does not promise it, and then two separate page queries may repeat or skip a record.
- BookingQuery.OrderBy: the contract promises a sorted permutation and no particular order among records with equal keys. The database gives none, and the model's insertion sort is one admissible choice.

## Findings

| source | as written | input that shows it | evidently intended | confidence | as-written member | corrected member |
|---|---|---|---|---|---|---|
| Ventixe.Bookings.Grupp5.Api/Services/BookingService.cs:70 | The skip count `filter.Page * filter.PageSize` is a 32-bit `int` product, which wraps | `Page = 65536`, `PageSize = 65536`: the product wraps to 0, so the first page comes back again | Skip `Page * PageSize` records, so that this page is empty for any table shorter than 2^32 records | medium, not executed. This assumes both filter fields are `int` and the product is unchecked. The filter type is not part of this model. "A negative count skips nothing" is the in-memory LINQ `Skip`; how a SQL store treats a negative OFFSET is not modelled. | `BookingQuery.PageOffsetWraps` | `BookingQuery.ListBookings` |
