/** RecordsService (records_service.py): the four record-loading
    strategies as filters over the stored bookings and "today", the
    charges each returned row carries, the check-in-descending order, and
    the observer notification of `load_records`. */
module RecordsService {
  import opened Wrappers
  import opened Calendar
  import opened DateService
  import opened Persistence
  import opened RoomService
  import opened Observers

  /** The strategy classes: `AllRecordsStrategy`, `ActiveRecordsStrategy`,
      `UpcomingRecordsStrategy`, `CompletedRecordsStrategy`. */
  datatype RecordFilter = AllRecords | ActiveRecords | UpcomingRecords | CompletedRecords

  /** One row of the strategies' SELECT, column for column. `nights` is
      the `julianday` difference, a real number in SQLite. */
  datatype RecordRow = RecordRow(
    bookingId: int,
    customerName: string,
    roomType: string,
    checkin: ValidDate,
    checkout: ValidDate,
    nights: real,
    pricePerNight: real,
    roomCharge: real,
    tax: real,
    serviceCharge: real,
    total: real,
    status: string)

  // ----- Filters -----

  /** The WHERE clause of each strategy. `BETWEEN` is inclusive at both ends. */
  predicate Selects(f: RecordFilter, today: ValidDate, b: BookingRow) {
    match f
    case AllRecords => true
    case ActiveRecords => b.status == ActiveStatus && AtOrBefore(b.checkin, today) && AtOrBefore(today, b.checkout)
    case UpcomingRecords => b.status == ActiveStatus && Before(today, b.checkin)
    case CompletedRecords => b.status == ActiveStatus && Before(b.checkout, today)
  }

  /** The same clauses on the stored and the bound `YYYY-MM-DD` texts. */
  predicate SelectsText(f: RecordFilter, today: ValidDate, b: BookingRow) {
    var (bi, bo, td) := (ToString(b.checkin), ToString(b.checkout), ToString(today));
    match f
    case AllRecords => true
    case ActiveRecords => b.status == ActiveStatus && TextAtMost(bi, td) && TextAtMost(td, bo)
    case UpcomingRecords => b.status == ActiveStatus && TextLess(td, bi)
    case CompletedRecords => b.status == ActiveStatus && TextLess(bo, td)
  }

  /** Comparing the texts is comparing the dates. */
  lemma SelectsTextIsDateOrder(f: RecordFilter, today: ValidDate, b: BookingRow)
    ensures SelectsText(f, today, b) <==> Selects(f, today, b)
  {
    TextOrderIsDateOrder(b.checkin, today);
    TextOrderIsDateOrder(today, b.checkout);
    TextOrderIsDateOrder(today, b.checkin);
    TextOrderIsDateOrder(b.checkout, today);
  }

  /** The `status` column: the stored status for "all", a fixed label otherwise. */
  function Label(f: RecordFilter, b: BookingRow): string {
    match f
    case AllRecords => b.status
    case ActiveRecords => "Active"
    case UpcomingRecords => "Upcoming"
    case CompletedRecords => "Completed"
  }

  /** The row for booking `b`: its columns, and the computed ones for
      the nights between its dates (charges as in `RowWithCharges`). */
  function Enrich(b: BookingRow, customerName: string, price: real, statusText: string): (r: RecordRow)
    ensures r.bookingId == b.id && r.customerName == customerName && r.roomType == b.roomType
    ensures r.checkin == b.checkin && r.checkout == b.checkout && r.status == statusText
    ensures r.nights == DaysBetween(b.checkin, b.checkout) as real && r.pricePerNight == price
  {
    RowWithCharges(b, customerName, DaysBetween(b.checkin, b.checkout) as real, price, statusText)
  }

  /** The computed columns for `nights` nights at `price`: the room
      charge, 18% tax and a 10% service charge on it, and their sum. */
  function RowWithCharges(b: BookingRow, customerName: string, nights: real, price: real,
                          statusText: string): (r: RecordRow)
    ensures r.bookingId == b.id && r.customerName == customerName && r.roomType == b.roomType
    ensures r.checkin == b.checkin && r.checkout == b.checkout && r.status == statusText
    ensures r.nights == nights && r.pricePerNight == price && r.roomCharge == nights * price
    ensures r.tax == 0.18 * r.roomCharge && r.serviceCharge == 0.10 * r.roomCharge
    ensures r.total == r.roomCharge + r.tax + r.serviceCharge == 1.28 * r.roomCharge
  {
    var roomCharge := nights * price;
    var charges := SqlCharges(roomCharge);
    RecordRow(b.id, customerName, b.roomType, b.checkin, b.checkout, nights, price,
              roomCharge, charges.0, charges.1, charges.2, statusText)
  }

  /** The `tax`, `service_charge` and `total` columns, each its own
      multiple of the room charge; they add up. */
  function SqlCharges(roomCharge: real): (r: (real, real, real))
    ensures r.0 == 0.18 * roomCharge && r.1 == 0.10 * roomCharge
    ensures r.2 == roomCharge + r.0 + r.1 == 1.28 * roomCharge
  {
    (roomCharge * 0.18, roomCharge * 0.10, roomCharge * 1.28)
  }

  /** The row one booking contributes: none when the filter drops it or
      the inner joins find no customer or no room type. */
  function RowFor(s: Store, f: RecordFilter, today: ValidDate, b: BookingRow): (r: seq<RecordRow>)
    ensures |r| <= 1
  {
    if !Selects(f, today, b) then []
    else match (FindCustomer(s.customers, b.customerId), FindRoomType(s.roomTypes, b.roomType))
      case (Some(c), Some(rt)) => [Enrich(b, c.name, rt.price, Label(f, b))]
      case _ => []
  }

  /** The joined and filtered rows, in store order. */
  function Matches(s: Store, f: RecordFilter, today: ValidDate, bookings: seq<BookingRow>): (r: seq<RecordRow>)
    ensures forall row :: row in r <==> exists b | b in bookings :: row in RowFor(s, f, today, b)
    decreases |bookings|
  {
    if |bookings| == 0 then []
    else
      var init := bookings[..|bookings| - 1];
      var last := bookings[|bookings| - 1];
      assert bookings == init + [last];
      Matches(s, f, today, init) + RowFor(s, f, today, last)
  }

  // ----- Ordering -----

  /** `ORDER BY b.checkin_date DESC`; the stored `YYYY-MM-DD` text sorts
      as the dates do. */
  predicate SortedByCheckinDesc(rows: seq<RecordRow>) {
    forall i, j | 0 <= i < j < |rows| :: AtOrBefore(rows[j].checkin, rows[i].checkin)
  }

  lemma AtOrBeforeTransitive(a: Date, b: Date, c: Date)
    requires AtOrBefore(a, b) && AtOrBefore(b, c)
    ensures AtOrBefore(a, c)
  {
  }

  /** A row checking in no earlier than every row of a sorted list may go in front. */
  lemma PrependSorted(h: RecordRow, rows: seq<RecordRow>)
    requires SortedByCheckinDesc(rows)
    requires forall i | 0 <= i < |rows| :: AtOrBefore(rows[i].checkin, h.checkin)
    ensures SortedByCheckinDesc([h] + rows)
  {
    var r := [h] + rows;
    assert forall j | 0 < j < |r| :: r[j] == rows[j - 1];
  }

  /** What is inserted behind the head of a sorted list checks in no later than the head. */
  lemma BoundedByHead(x: RecordRow, rows: seq<RecordRow>, tail: seq<RecordRow>)
    requires SortedByCheckinDesc(rows) && |rows| > 0
    requires !AtOrBefore(rows[0].checkin, x.checkin)
    requires multiset(tail) == multiset(rows[1..]) + multiset{x}
    ensures forall i | 0 <= i < |tail| :: AtOrBefore(tail[i].checkin, rows[0].checkin)
  {
    forall i | 0 <= i < |tail| ensures AtOrBefore(tail[i].checkin, rows[0].checkin) {
      var y := tail[i];
      assert y in multiset(tail);
      if y != x {
        assert y in rows[1..];
        var k :| 0 <= k < |rows[1..]| && rows[1..][k] == y;
        assert rows[k + 1] == y;
      }
    }
  }

  /** Puts `x` before the first row that checks in no later than it. */
  function InsertDesc(x: RecordRow, rows: seq<RecordRow>): (r: seq<RecordRow>)
    requires SortedByCheckinDesc(rows)
    ensures SortedByCheckinDesc(r)
    ensures multiset(r) == multiset(rows) + multiset{x}
  {
    if |rows| == 0 then [x]
    else if AtOrBefore(rows[0].checkin, x.checkin) then
      assert forall i | 0 <= i < |rows| :: AtOrBefore(rows[i].checkin, x.checkin) by {
        forall i | 0 <= i < |rows| ensures AtOrBefore(rows[i].checkin, x.checkin) {
          if i > 0 { AtOrBeforeTransitive(rows[i].checkin, rows[0].checkin, x.checkin); }
        }
      }
      PrependSorted(x, rows);
      [x] + rows
    else
      var tail := InsertDesc(x, rows[1..]);
      BoundedByHead(x, rows, tail);
      PrependSorted(rows[0], tail);
      assert rows == [rows[0]] + rows[1..];
      [rows[0]] + tail
  }

  /** The rows reordered by check-in, latest first (rows that check in
      on the same day keep their relative order). */
  function SortByCheckinDesc(rows: seq<RecordRow>): (r: seq<RecordRow>)
    ensures SortedByCheckinDesc(r)
    ensures multiset(r) == multiset(rows)
  {
    if |rows| == 0 then []
    else
      assert rows == [rows[0]] + rows[1..];
      InsertDesc(rows[0], SortByCheckinDesc(rows[1..]))
  }

  /** On day numbers: a later row never checks in after an earlier one. */
  lemma SortedMeansDayNumbersFall(rows: seq<RecordRow>)
    requires SortedByCheckinDesc(rows)
    ensures forall i, j | 0 <= i < j < |rows| :: Ordinal(rows[j].checkin) <= Ordinal(rows[i].checkin)
  {
    DateOrderIsOrdinalOrder();
  }

  // ----- Loading -----

  /** `strategy.load(database_service)` as `load_records` sees it: the
      sorted rows, or `[]` when the fetch fails (`fetch_query` returns
      `None` on a sqlite error and anything else is caught). */
  function Load(s: Store, faults: Faults, f: RecordFilter, today: ValidDate): (r: seq<RecordRow>)
    ensures SortedByCheckinDesc(r)
    ensures RecordsFetch in faults ==> r == []
    ensures RecordsFetch !in faults ==>
              forall row :: row in r <==> exists b | b in s.bookings :: row in RowFor(s, f, today, b)
    ensures RecordsFetch !in faults ==> multiset(r) == multiset(Matches(s, f, today, s.bookings))
  {
    if RecordsFetch in faults then []
    else
      var rows := Matches(s, f, today, s.bookings);
      var sorted := SortByCheckinDesc(rows);
      assert forall row :: row in sorted <==> row in rows by {
        forall row ensures row in sorted <==> row in rows {
          assert row in sorted <==> row in multiset(sorted);
          assert row in rows <==> row in multiset(rows);
        }
      }
      sorted
  }

  /** The service: its observers and its current strategy. */
  datatype RecordsState = RecordsState(observers: seq<ObserverRef>, strategy: RecordFilter)

  /** `RecordsService.__init__`: no observers, the "all" strategy. */
  const InitialRecords := RecordsState([], AllRecords)

  /** `load_records`: every observer is called once, in attachment order,
      with the same list. */
  function LoadRecords(st: RecordsState, s: Store, faults: Faults, today: ValidDate)
    : (r: seq<Delivery<ObserverRef, seq<RecordRow>>>)
    ensures |r| == |st.observers|
    ensures forall i | 0 <= i < |r| :: r[i] == Delivery(st.observers[i], Load(s, faults, st.strategy, today))
  {
    Notify(st.observers, Load(s, faults, st.strategy, today))
  }

  /** `set_strategy`: replaces the strategy, then loads once with it. */
  function SetStrategy(st: RecordsState, f: RecordFilter, s: Store, faults: Faults, today: ValidDate)
    : (r: (RecordsState, seq<Delivery<ObserverRef, seq<RecordRow>>>))
    ensures r.0.strategy == f && r.0.observers == st.observers
    ensures |r.1| == |st.observers|
    ensures forall i | 0 <= i < |r.1| :: r.1[i].event == Load(s, faults, f, today)
  {
    var st' := st.(strategy := f);
    (st', LoadRecords(st', s, faults, today))
  }

  function AttachRecordsObserver(st: RecordsState, o: ObserverRef): (r: RecordsState)
    ensures r.observers == st.observers + [o] && r.strategy == st.strategy
  {
    st.(observers := Attach(st.observers, o))
  }

  /** `detach`: `None` when `o` is not attached (`list.remove` raises). */
  function DetachRecordsObserver(st: RecordsState, o: ObserverRef): (r: Option<RecordsState>)
    ensures r.Some? <==> o in st.observers
    ensures r.Some? ==> r.value.strategy == st.strategy
                        && multiset(r.value.observers) == multiset(st.observers) - multiset{o}
                        && r.value.observers == Detach(st.observers, o).value
  {
    match Detach(st.observers, o)
    case None => None
    case Some(rest) =>
      DetachRemovesOne(st.observers, o);
      Some(st.(observers := rest))
  }

  // ----- Properties -----

  /** A stored-active booking whose stay does not end before it starts is
      selected by exactly one of "active", "upcoming" and "completed"; a
      booking with any other status by none of them. */
  lemma TimeFiltersPartition(today: ValidDate, b: BookingRow)
    ensures b.status == ActiveStatus && AtOrBefore(b.checkin, b.checkout) ==>
              && (Selects(ActiveRecords, today, b) || Selects(UpcomingRecords, today, b)
                  || Selects(CompletedRecords, today, b))
              && !(Selects(ActiveRecords, today, b) && Selects(UpcomingRecords, today, b))
              && !(Selects(ActiveRecords, today, b) && Selects(CompletedRecords, today, b))
              && !(Selects(UpcomingRecords, today, b) && Selects(CompletedRecords, today, b))
    ensures b.status != ActiveStatus ==>
              !Selects(ActiveRecords, today, b) && !Selects(UpcomingRecords, today, b)
              && !Selects(CompletedRecords, today, b)
  {
    OrderIsOrdinalOrder(b.checkin, b.checkout);
    OrderIsOrdinalOrder(b.checkin, today);
    OrderIsOrdinalOrder(today, b.checkin);
    OrderIsOrdinalOrder(b.checkout, today);
    OrderIsOrdinalOrder(today, b.checkout);
  }

  /** Every loaded row comes from a selected booking, its customer and
      its room type, with the filter's status text. */
  lemma LoadSound(s: Store, faults: Faults, f: RecordFilter, today: ValidDate, row: RecordRow)
    requires row in Load(s, faults, f, today)
    ensures RecordsFetch !in faults
    ensures exists b, c, rt | b in s.bookings && c in s.customers && rt in s.roomTypes ::
              && Selects(f, today, b) && c.id == b.customerId && rt.name == b.roomType
              && row == Enrich(b, c.name, rt.price, Label(f, b))
  {
    var b :| b in s.bookings && row in RowFor(s, f, today, b);
    RowForShape(s, f, today, b, row);
    var c := FindCustomer(s.customers, b.customerId).value;
    var rt := FindRoomType(s.roomTypes, b.roomType).value;
    assert c in s.customers && c.id == b.customerId;
    assert rt in s.roomTypes && rt.name == b.roomType;
  }

  /** A booking contributes at most its own enriched row, joined by key. */
  lemma RowForShape(s: Store, f: RecordFilter, today: ValidDate, b: BookingRow, row: RecordRow)
    requires row in RowFor(s, f, today, b)
    ensures Selects(f, today, b)
    ensures FindCustomer(s.customers, b.customerId).Some? && FindRoomType(s.roomTypes, b.roomType).Some?
    ensures row == Enrich(b, FindCustomer(s.customers, b.customerId).value.name,
                          FindRoomType(s.roomTypes, b.roomType).value.price, Label(f, b))
  {
  }

  /** In a valid store, every selected booking with a customer and a room
      type is loaded (`JOIN … ON` finds the one row with that key). */
  lemma LoadComplete(s: Store, faults: Faults, f: RecordFilter, today: ValidDate,
                     b: BookingRow, c: CustomerRow, rt: RoomTypeRow)
    requires Valid(s) && RecordsFetch !in faults
    requires b in s.bookings && c in s.customers && rt in s.roomTypes
    requires Selects(f, today, b) && c.id == b.customerId && rt.name == b.roomType
    ensures Enrich(b, c.name, rt.price, Label(f, b)) in Load(s, faults, f, today)
  {
    ValidStoreLookups(s);
    assert RowFor(s, f, today, b) == [Enrich(b, c.name, rt.price, Label(f, b))];
  }

  /** The SQL's charge columns agree with `calculate_total_bill` for the
      same price and number of nights. */
  lemma RowChargesMatchBill(b: BookingRow, customerName: string, nights: int, price: real, statusText: string)
    ensures var r := RowWithCharges(b, customerName, nights as real, price, statusText);
            var bill := BillFor(price, nights);
            && r.roomCharge == bill.roomCharge && r.tax == bill.tax
            && r.serviceCharge == bill.serviceCharge && r.total == bill.total
  {
  }

  /** Every loaded row carries the charges `calculate_total_bill` gives
      for its price and its nights, and its total is the sum of the room
      charge, the tax and the service charge, 1.28 times the room charge. */
  lemma LoadedRowsCarryBill(s: Store, faults: Faults, f: RecordFilter, today: ValidDate, row: RecordRow)
    requires row in Load(s, faults, f, today)
    ensures row.nights == DaysBetween(row.checkin, row.checkout) as real
    ensures row.total == BillFor(row.pricePerNight, DaysBetween(row.checkin, row.checkout)).total
    ensures row.total == row.roomCharge + row.tax + row.serviceCharge == 1.28 * row.roomCharge
  {
    var b :| b in s.bookings && row in RowFor(s, f, today, b);
    RowForShape(s, f, today, b, row);
    EnrichCarriesBill(b, FindCustomer(s.customers, b.customerId).value.name,
                      FindRoomType(s.roomTypes, b.roomType).value.price, Label(f, b));
  }

  /** An enriched row's charges are the bill for its price and its nights. */
  lemma EnrichCarriesBill(b: BookingRow, customerName: string, price: real, statusText: string)
    ensures var r := Enrich(b, customerName, price, statusText);
            && r.total == BillFor(price, DaysBetween(b.checkin, b.checkout)).total
            && r.total == r.roomCharge + r.tax + r.serviceCharge == 1.28 * r.roomCharge
  {
    RowChargesMatchBill(b, customerName, DaysBetween(b.checkin, b.checkout), price, statusText);
  }

  /** "all" keeps the stored status text; the other filters label their rows. */
  lemma RowStatusText(s: Store, faults: Faults, f: RecordFilter, today: ValidDate, row: RecordRow)
    requires row in Load(s, faults, f, today)
    ensures f == ActiveRecords ==> row.status == "Active"
    ensures f == UpcomingRecords ==> row.status == "Upcoming"
    ensures f == CompletedRecords ==> row.status == "Completed"
    ensures f == AllRecords ==> exists b | b in s.bookings :: b.id == row.bookingId && b.status == row.status
  {
    var b :| b in s.bookings && row in RowFor(s, f, today, b);
  }
}
