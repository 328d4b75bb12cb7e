/**
 * The booking listing query: ownership restriction, status, date and text
 * filters, a three-way choice of ordering, and an offset/limit page window,
 * applied in that order to the records of the store.
 *
 * The store's records reach the query as `table`, the sequence in which the
 * store enumerates them; `Enumerates` ties that sequence to the keyed store.
 */
module BookingQuery {
  import opened Wrappers
  import opened BookingModel
  import opened Strings

  /** What the caller asks for: which records, in which order, which page. */
  datatype BookingFilter = BookingFilter(
    statuses: Option<seq<string>>,
    fromDate: Option<int>,
    toDate: Option<int>,
    search: Option<string>,
    sortBy: Option<string>,
    sortDesc: bool,
    page: nat,
    pageSize: nat)

  function Min(a: int, b: int): int {
    if a <= b then a else b
  }

  // ---------------------------------------------------------------------------
  // Selection: what the filters admit, stated once as a single predicate.
  // ---------------------------------------------------------------------------

  /** The status filter takes part only when the requested set is present and non-empty. */
  predicate StatusFilterActive(statuses: Option<seq<string>>) {
    statuses.Some? && |statuses.value| > 0
  }

  /** The free-text test: `term` occurs in the customer name, the event name or the invoice id. */
  predicate Mentions(b: Booking, term: string) {
    Contains(b.customerName, term) || Contains(b.eventName, term) || Contains(b.invoiceId, term)
  }

  /**
   * A record is selected when it passes every restriction that is switched on:
   * ownership (members who give an id), status names, the inclusive date
   * bounds, and the text search (when the term is not blank).
   */
  predicate Matches(b: Booking, f: BookingFilter, isAdmin: bool, userId: Option<string>) {
    && (!isAdmin && userId.Some? ==> b.userId == userId.value)
    && (StatusFilterActive(f.statuses) ==> StatusName(b.status) in f.statuses.value)
    && (f.fromDate.Some? ==> f.fromDate.value <= b.bookingDate)
    && (f.toDate.Some? ==> b.bookingDate <= f.toDate.value)
    && (!IsNullOrWhiteSpace(f.search) ==> Mentions(b, f.search.value))
  }

  // ---------------------------------------------------------------------------
  // The pipeline, stage by stage.
  // ---------------------------------------------------------------------------

  /** `Where`: keeps the records that satisfy `p`, each with its multiplicity. */
  function Where(s: seq<Booking>, p: Booking -> bool): (r: seq<Booking>)
    ensures forall b :: multiset(r)[b] == if p(b) then multiset(s)[b] else 0
  {
    if s == [] then []
    else
      assert s == [s[0]] + s[1..];
      (if p(s[0]) then [s[0]] else []) + Where(s[1..], p)
  }

  /**
   * The five conditional filtering stages. The result holds exactly the
   * records of `table` that `Matches` admits, each as often as in `table`.
   */
  function Filtered(table: seq<Booking>, f: BookingFilter, isAdmin: bool, userId: Option<string>): (r: seq<Booking>)
    ensures forall b :: multiset(r)[b] == if Matches(b, f, isAdmin, userId) then multiset(table)[b] else 0
  {
    var owned :=
      if !isAdmin && userId.Some? then Where(table, (b: Booking) => b.userId == userId.value) else table;
    var byStatus :=
      if StatusFilterActive(f.statuses) then Where(owned, (b: Booking) => StatusName(b.status) in f.statuses.value) else owned;
    var fromBound :=
      if f.fromDate.Some? then Where(byStatus, (b: Booking) => b.bookingDate >= f.fromDate.value) else byStatus;
    var toBound :=
      if f.toDate.Some? then Where(fromBound, (b: Booking) => b.bookingDate <= f.toDate.value) else fromBound;
    if !IsNullOrWhiteSpace(f.search) then Where(toBound, (b: Booking) => Mentions(b, f.search.value)) else toBound
  }

  /** The sort keys the query can order by. */
  datatype SortKey = ByBookingDate | ByPrice | ByCreatedAt

  datatype Ordering = Ordering(key: SortKey, descending: bool)

  function Key(b: Booking, k: SortKey): real {
    match k
    case ByBookingDate => b.bookingDate as real
    case ByPrice => b.price
    case ByCreatedAt => b.createdAt as real
  }

  /** `a` may come before `b` under ordering `o`. */
  predicate InOrder(a: Booking, b: Booking, o: Ordering) {
    if o.descending then Key(b, o.key) <= Key(a, o.key) else Key(a, o.key) <= Key(b, o.key)
  }

  predicate SortedBy(s: seq<Booking>, o: Ordering) {
    forall i, j :: 0 <= i < j < |s| ==> InOrder(s[i], s[j], o)
  }

  /**
   * The ordering the query applies: "BookingDate" and "Price" sort by that key
   * in the requested direction; any other non-blank key sorts by creation
   * time ascending whatever the direction flag says; a blank or absent key
   * sorts by creation time descending.
   */
  function ChooseOrdering(f: BookingFilter): (o: Ordering)
    ensures o.key == ByBookingDate <==> f.sortBy == Some("BookingDate")
    ensures o.key == ByPrice <==> f.sortBy == Some("Price")
    ensures o.key != ByCreatedAt ==> o.descending == f.sortDesc
    ensures o.key == ByCreatedAt ==> (o.descending <==> IsNullOrWhiteSpace(f.sortBy))
  {
    if !IsNullOrWhiteSpace(f.sortBy) then
      if f.sortBy.value == "BookingDate" then Ordering(ByBookingDate, f.sortDesc)
      else if f.sortBy.value == "Price" then Ordering(ByPrice, f.sortDesc)
      else Ordering(ByCreatedAt, false)
    else
      assert f.sortBy == Some("BookingDate") ==> !IsWhiteSpace(f.sortBy.value[0]);
      assert f.sortBy == Some("Price") ==> !IsWhiteSpace(f.sortBy.value[0]);
      Ordering(ByCreatedAt, true)
  }

  /** Places `x` into the sorted sequence `s`, after the records it may not precede. */
  function Insert(x: Booking, s: seq<Booking>, o: Ordering): (r: seq<Booking>)
    requires SortedBy(s, o)
    ensures SortedBy(r, o)
    ensures multiset(r) == multiset(s) + multiset{x}
  {
    if s == [] then [x]
    else if InOrder(x, s[0], o) then [x] + s
    else
      assert s == [s[0]] + s[1..];
      var rest := Insert(x, s[1..], o);
      assert forall y :: y in rest ==> InOrder(s[0], y, o) by {
        forall y | y in rest ensures InOrder(s[0], y, o) {
          assert y in multiset(rest);
          if y != x {
            assert y in s[1..];
          }
        }
      }
      [s[0]] + rest
  }

  /** `OrderBy`/`OrderByDescending`: a permutation of `s` sorted by `o`. */
  function OrderBy(s: seq<Booking>, o: Ordering): (r: seq<Booking>)
    ensures SortedBy(r, o)
    ensures multiset(r) == multiset(s)
  {
    if s == [] then []
    else
      assert s == [s[0]] + s[1..];
      Insert(s[0], OrderBy(s[1..], o), o)
  }

  /** The number of records the page window skips: `Page * PageSize`. */
  function Offset(f: BookingFilter): nat {
    f.page * f.pageSize
  }

  /**
   * `Skip(offset).Take(size)`: the records of `s` from position `offset` on,
   * at most `size` of them; empty once the offset passes the end.
   */
  function Window(s: seq<Booking>, offset: nat, size: nat): (r: seq<Booking>)
    ensures |r| == Min(size, if offset <= |s| then |s| - offset else 0)
    ensures forall i :: 0 <= i < |r| ==> r[i] == s[offset + i]
  {
    var skipped := if offset <= |s| then s[offset..] else [];
    if size <= |skipped| then skipped[..size] else skipped
  }

  /**
   * The filtered records in the chosen order, before paging: sorted by the
   * chosen key, and a permutation of the records `Matches` admits.
   */
  function Ordered(table: seq<Booking>, f: BookingFilter, isAdmin: bool, userId: Option<string>): (r: seq<Booking>)
    ensures SortedBy(r, ChooseOrdering(f))
    ensures forall b :: multiset(r)[b] == if Matches(b, f, isAdmin, userId) then multiset(table)[b] else 0
  {
    OrderBy(Filtered(table, f, isAdmin, userId), ChooseOrdering(f))
  }

  /**
   * The listing query. Its result is page `f.page` of the ordered selection:
   * at most `f.pageSize` records, each a record of `table` that passes every
   * active filter (so a member sees only their own records), in the chosen order.
   */
  function ListBookings(table: seq<Booking>, f: BookingFilter, isAdmin: bool, userId: Option<string>): (r: seq<Booking>)
    ensures |r| <= f.pageSize
    ensures forall b :: b in r ==> b in table && Matches(b, f, isAdmin, userId)
    ensures !isAdmin && userId.Some? ==> forall b :: b in r ==> b.userId == userId.value
    ensures SortedBy(r, ChooseOrdering(f))
    ensures var s := Ordered(table, f, isAdmin, userId);
      && |r| == Min(f.pageSize, if Offset(f) <= |s| then |s| - Offset(f) else 0)
      && forall i :: 0 <= i < |r| ==> r[i] == s[Offset(f) + i]
  {
    var s := Ordered(table, f, isAdmin, userId);
    WindowOfSorted(s, Offset(f), f.pageSize, ChooseOrdering(f));
    assert forall b :: b in s ==> multiset(s)[b] > 0;
    Window(s, Offset(f), f.pageSize)
  }

  /** A window holds only records of the sequence it is cut from, in the same order. */
  lemma WindowOfSorted(s: seq<Booking>, offset: nat, size: nat, o: Ordering)
    ensures forall b :: b in Window(s, offset, size) ==> b in s
    ensures SortedBy(s, o) ==> SortedBy(Window(s, offset, size), o)
  {
    var r := Window(s, offset, size);
    forall b | b in r ensures b in s {
      var i :| 0 <= i < |r| && r[i] == b;
      assert s[offset + i] == b;
    }
    if SortedBy(s, o) {
      forall i, j | 0 <= i < j < |r| ensures InOrder(r[i], r[j], o) {
        assert r[i] == s[offset + i] && r[j] == s[offset + j];
      }
    }
  }

  // ---------------------------------------------------------------------------
  // Properties of the listing.
  // ---------------------------------------------------------------------------

  /** A record is listed (before paging) exactly when it is in the table and passes every active filter. */
  lemma {:induction false} SelectionMembership(table: seq<Booking>, f: BookingFilter, isAdmin: bool, userId: Option<string>, b: Booking)
    ensures b in Ordered(table, f, isAdmin, userId) <==> b in table && Matches(b, f, isAdmin, userId)
  {
    var s := Ordered(table, f, isAdmin, userId);
    assert b in s <==> multiset(s)[b] > 0;
    assert b in table <==> multiset(table)[b] > 0;
  }

  /**
   * Both date bounds are inclusive: a record that passes the other filters is
   * still selected when its booking date equals the from bound and the to bound.
   */
  lemma DateBoundsInclusive(table: seq<Booking>, f: BookingFilter, isAdmin: bool, userId: Option<string>, b: Booking)
    requires b in table
    requires Matches(b, f.(fromDate := None, toDate := None), isAdmin, userId)
    ensures b in Ordered(table, f.(fromDate := Some(b.bookingDate), toDate := Some(b.bookingDate)), isAdmin, userId)
  {
    SelectionMembership(table, f.(fromDate := Some(b.bookingDate), toDate := Some(b.bookingDate)), isAdmin, userId, b);
  }

  /** Two windows of size `n`, the second starting where the first ends, form one contiguous run. */
  lemma AdjacentWindows(s: seq<Booking>, offset: nat, n: nat)
    ensures Window(s, offset, n) + Window(s, offset + n, n) == s[Min(offset, |s|)..Min(offset + 2 * n, |s|)]
  {
    var a := Window(s, offset, n);
    var b := Window(s, offset + n, n);
    var lo := Min(offset, |s|);
    var hi := Min(offset + 2 * n, |s|);
    assert |a + b| == hi - lo;
    forall i | 0 <= i < |a + b| ensures (a + b)[i] == s[lo..hi][i] {
      if i < |a| {
        assert (a + b)[i] == s[offset + i];
      } else {
        assert |a| == n;
        assert (a + b)[i] == b[i - n] == s[offset + n + (i - n)];
      }
    }
  }

  /** Pages `p` and `p + 1` are consecutive: together they are one contiguous run of the ordered selection. */
  lemma ConsecutivePages(table: seq<Booking>, f: BookingFilter, isAdmin: bool, userId: Option<string>)
    ensures var s := Ordered(table, f, isAdmin, userId);
      ListBookings(table, f, isAdmin, userId) + ListBookings(table, f.(page := f.page + 1), isAdmin, userId)
        == s[Min(Offset(f), |s|)..Min(Offset(f) + 2 * f.pageSize, |s|)]
  {
    LaterOffset(f, f.page + 1);
    PageDoesNotSelect(table, f, f.page + 1, isAdmin, userId);
    AdjacentWindows(Ordered(table, f, isAdmin, userId), Offset(f), f.pageSize);
  }

  /** The page index takes no part in selecting or ordering records. */
  lemma PageDoesNotSelect(table: seq<Booking>, f: BookingFilter, page: nat, isAdmin: bool, userId: Option<string>)
    ensures Ordered(table, f.(page := page), isAdmin, userId) == Ordered(table, f, isAdmin, userId)
  {
    var g := f.(page := page);
    assert g.statuses == f.statuses && g.fromDate == f.fromDate && g.toDate == f.toDate;
    assert g.search == f.search && g.sortBy == f.sortBy && g.sortDesc == f.sortDesc;
    assert Filtered(table, g, isAdmin, userId) == Filtered(table, f, isAdmin, userId);
    assert ChooseOrdering(g) == ChooseOrdering(f);
  }

  /** A later page starts at least one page size further on; the next page exactly one. */
  lemma LaterOffset(f: BookingFilter, later: nat)
    requires f.page < later
    ensures Offset(f) + f.pageSize <= Offset(f.(page := later))
    ensures later == f.page + 1 ==> Offset(f.(page := later)) == Offset(f) + f.pageSize
  {
    var n := f.pageSize;
    var d := later - f.page - 1;
    assert later * n == f.page * n + n + d * n by {
      Distribute(f.page + 1, d, n);
      Distribute(f.page, 1, n);
    }
  }

  lemma Distribute(a: nat, d: nat, n: nat)
    ensures (a + d) * n == a * n + d * n
  {
  }

  /** A sequence holds each record at most once. */
  ghost predicate NoDuplicates(s: seq<Booking>) {
    forall b :: multiset(s)[b] <= 1
  }

  /** A record at two distinct positions occurs at least twice. */
  lemma TwoPositions(s: seq<Booking>, i: nat, j: nat)
    requires i < j < |s| && s[i] == s[j]
    ensures multiset(s)[s[i]] >= 2
  {
    assert s == s[..j] + s[j..];
    assert s[i] in s[..j];
    assert s[j] in s[j..];
  }

  /** Windows over non-overlapping ranges of a duplicate-free sequence share no record. */
  lemma SeparateWindows(s: seq<Booking>, first: nat, second: nat, n: nat)
    requires NoDuplicates(s)
    requires first + n <= second
    ensures forall b :: b in Window(s, first, n) ==> b !in Window(s, second, n)
  {
    var a := Window(s, first, n);
    var c := Window(s, second, n);
    forall b | b in a ensures b !in c {
      if b in c {
        var i :| 0 <= i < |a| && a[i] == b;
        var j :| 0 <= j < |c| && c[j] == b;
        TwoPositions(s, first + i, second + j);
        assert false;
      }
    }
  }

  /** Distinct pages of one listing share no record when the table holds each record once. */
  lemma PagesDisjoint(table: seq<Booking>, f: BookingFilter, isAdmin: bool, userId: Option<string>, later: nat)
    requires NoDuplicates(table)
    requires f.page < later
    ensures forall b :: b in ListBookings(table, f, isAdmin, userId) ==>
      b !in ListBookings(table, f.(page := later), isAdmin, userId)
  {
    var s := Ordered(table, f, isAdmin, userId);
    var g := f.(page := later);
    assert NoDuplicates(s) by {
      forall b ensures multiset(s)[b] <= 1 {
        assert multiset(s)[b] <= multiset(table)[b];
      }
    }
    LaterOffset(f, later);
    PageDoesNotSelect(table, f, later, isAdmin, userId);
    SeparateWindows(s, Offset(f), Offset(g), f.pageSize);
  }

  /**
   * Every listed record is a stored record, when `table` is the store's
   * enumeration: each stored record once, and nothing else.
   */
  ghost predicate Enumerates(table: seq<Booking>, store: map<string, Booking>) {
    && NoDuplicates(table)
    && (forall b :: b in table ==> b.bookingId in store && store[b.bookingId] == b)
    && (forall id :: id in store ==> store[id] in table)
  }

  lemma {:induction false} ListedBookingsAreStored(table: seq<Booking>, store: map<string, Booking>, f: BookingFilter, isAdmin: bool, userId: Option<string>)
    requires Enumerates(table, store)
    ensures forall b :: b in ListBookings(table, f, isAdmin, userId) ==> b.bookingId in store && store[b.bookingId] == b
  {
  }

  // ---------------------------------------------------------------------------
  // The offset as the source computes it: a 32-bit product.
  // ---------------------------------------------------------------------------

  const Int32Range: int := 0x1_0000_0000

  /** `page * pageSize` in 32-bit two's-complement arithmetic, as the unchecked C# `int` product gives it. */
  function SkipCount32(page: nat, size: nat): (k: int)
    requires page < 0x8000_0000 && size < 0x8000_0000
    ensures -0x8000_0000 <= k < 0x8000_0000
    ensures (k - page * size) % Int32Range == 0
    ensures page * size < 0x8000_0000 ==> k == page * size
  {
    var product := page * size;
    var p := product % Int32Range;
    if p < 0x8000_0000 then p else p - Int32Range
  }

  /**
   * The page window with the wrapped offset: the window at that offset, where
   * a negative count skips nothing, as LINQ-to-objects `Skip` does.
   */
  function WindowAsWritten(s: seq<Booking>, page: nat, size: nat): (r: seq<Booking>)
    requires page < 0x8000_0000 && size < 0x8000_0000
    ensures var k := SkipCount32(page, size); r == Window(s, if k <= 0 then 0 else k, size)
  {
    var k := SkipCount32(page, size);
    var skipped := if k <= 0 then s else if k <= |s| then s[k..] else [];
    if size <= |skipped| then skipped[..size] else skipped
  }

  /**
   * Page 65536 of size 65536 wraps to offset 0: the source answers it with the
   * first page again, where the page window lies past the end of any table of
   * at most 2^32 records.
   */
  lemma PageOffsetWraps(s: seq<Booking>)
    requires 0 < |s| <= Int32Range
    ensures SkipCount32(0x1_0000, 0x1_0000) == 0
    ensures WindowAsWritten(s, 0x1_0000, 0x1_0000) == s[..Min(0x1_0000, |s|)] != []
    ensures Window(s, 0x1_0000 * 0x1_0000, 0x1_0000) == []
  {
    assert 0x1_0000 * 0x1_0000 == Int32Range;
  }
}
