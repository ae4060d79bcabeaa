/** RoomService (room_service.py): price and capacity lookups, the
    availability check and the bill. Every store access may fail (see
    Persistence.Faults); `is_room_available` turns any failure into
    "not available", while the lookups and the bill raise. */
module RoomService {
  import opened Wrappers
  import opened Calendar
  import opened DateService
  import opened Persistence

  const TaxRate: real := 0.18
  const ServiceRate: real := 0.10
  const ActiveStatus := "active"

  function InvalidRoomType(roomType: string): string {
    "Invalid room type: " + roomType
  }

  /** `get_room_price`: the price of the named room type, or the
      `ValueError` raised for an unknown one. */
  function GetRoomPrice(s: Store, faults: Faults, roomType: string): (r: Result<real>)
    ensures r.Success? <==> PriceLookup !in faults && exists rt | rt in s.roomTypes :: rt.name == roomType
    ensures r.Success? ==> exists rt | rt in s.roomTypes :: rt.name == roomType && rt.price == r.value
    ensures PriceLookup !in faults && r.Failure? ==> r.error == InvalidRoomType(roomType)
  {
    if PriceLookup in faults then Failure(faults[PriceLookup])
    else match FindRoomType(s.roomTypes, roomType)
      case None => Failure(InvalidRoomType(roomType))
      case Some(rt) => Success(rt.price)
  }

  /** `get_room_capacity`: as `GetRoomPrice`, for the capacity column. */
  function GetRoomCapacity(s: Store, faults: Faults, roomType: string): (r: Result<int>)
    ensures r.Success? <==> CapacityLookup !in faults && exists rt | rt in s.roomTypes :: rt.name == roomType
    ensures r.Success? ==> exists rt | rt in s.roomTypes :: rt.name == roomType && rt.capacity == r.value
    ensures CapacityLookup !in faults && r.Failure? ==> r.error == InvalidRoomType(roomType)
  {
    if CapacityLookup in faults then Failure(faults[CapacityLookup])
    else match FindRoomType(s.roomTypes, roomType)
      case None => Failure(InvalidRoomType(roomType))
      case Some(rt) => Success(rt.capacity)
  }

  /** The three-part SQL condition of `is_room_available` (room_service.py:181-185):
      the stored stay starts on or before the requested check-in and ends
      after it, or starts before the requested check-out and ends on or
      after it, or lies within the requested range. */
  predicate ThreePartOverlap(b: BookingRow, checkin: ValidDate, checkout: ValidDate) {
    || (AtOrBefore(b.checkin, checkin) && Before(checkin, b.checkout))
    || (Before(b.checkin, checkout) && AtOrBefore(checkout, b.checkout))
    || (AtOrBefore(checkin, b.checkin) && AtOrBefore(b.checkout, checkout))
  }

  /** The same condition as the query states it, on the stored and the
      bound `YYYY-MM-DD` texts. */
  predicate ThreePartOverlapText(b: BookingRow, checkin: ValidDate, checkout: ValidDate) {
    var (bi, bo, ci, co) := (ToString(b.checkin), ToString(b.checkout), ToString(checkin), ToString(checkout));
    || (TextAtMost(bi, ci) && TextLess(ci, bo))
    || (TextLess(bi, co) && TextAtMost(co, bo))
    || (TextAtMost(ci, bi) && TextAtMost(bo, co))
  }

  /** Comparing the texts is comparing the dates. */
  lemma ThreePartTextIsDateOrder(b: BookingRow, checkin: ValidDate, checkout: ValidDate)
    ensures ThreePartOverlapText(b, checkin, checkout) <==> ThreePartOverlap(b, checkin, checkout)
  {
    TextOrderIsDateOrder(b.checkin, checkin);
    TextOrderIsDateOrder(checkin, b.checkout);
    TextOrderIsDateOrder(b.checkin, checkout);
    TextOrderIsDateOrder(checkout, b.checkout);
    TextOrderIsDateOrder(checkin, b.checkin);
    TextOrderIsDateOrder(b.checkout, checkout);
  }

  /** Ordinary overlap of the half-open night ranges [checkin, checkout). */
  predicate HalfOpenOverlap(b: BookingRow, checkin: ValidDate, checkout: ValidDate) {
    Before(b.checkin, checkout) && Before(checkin, b.checkout)
  }

  /** A stored booking that the availability query counts. */
  predicate Blocks(b: BookingRow, roomType: string, checkin: ValidDate, checkout: ValidDate) {
    b.roomType == roomType && b.status == ActiveStatus && ThreePartOverlap(b, checkin, checkout)
  }

  /** `SELECT COUNT(*) … WHERE room_type = ? AND status = 'active' AND (…)`. */
  function CountOverlapping(bookings: seq<BookingRow>, roomType: string,
                            checkin: ValidDate, checkout: ValidDate): (n: nat)
    ensures n <= |bookings|
    ensures n == 0 <==> forall b | b in bookings :: !Blocks(b, roomType, checkin, checkout)
  {
    if |bookings| == 0 then 0
    else
      var last := bookings[|bookings| - 1];
      var rest := bookings[..|bookings| - 1];
      assert bookings == rest + [last];
      CountOverlapping(rest, roomType, checkin, checkout)
        + (if Blocks(last, roomType, checkin, checkout) then 1 else 0)
  }

  /** `is_room_available`: fails closed. Invalid dates, an unknown room
      type (the capacity lookup raises) and a failed count all answer
      false; otherwise the room type is available while fewer active
      overlapping bookings exist than its capacity. */
  function IsRoomAvailable(s: Store, faults: Faults, today: ValidDate, roomType: string,
                           checkin: ValidDate, checkout: ValidDate): (r: bool)
    ensures !ValidateDates(today, checkin, checkout).0 ==> !r
    ensures (forall rt | rt in s.roomTypes :: rt.name != roomType) ==> !r
    ensures CapacityLookup in faults || OverlapCount in faults ==> !r
    ensures r ==> exists rt | rt in s.roomTypes :: rt.name == roomType
                    && CountOverlapping(s.bookings, roomType, checkin, checkout) < rt.capacity
  {
    if !ValidateDates(today, checkin, checkout).0 then false
    else match GetRoomCapacity(s, faults, roomType)
      case Failure(_) => false
      case Success(capacity) =>
        if OverlapCount in faults then false
        else CountOverlapping(s.bookings, roomType, checkin, checkout) < capacity
  }

  /** The bill `calculate_total_bill` returns. */
  datatype Bill = Bill(pricePerNight: real, nights: int, roomCharge: real,
                       tax: real, serviceCharge: real, total: real)

  /** The charges for `nights` nights at `price` a night: 18% tax and a
      10% service charge on the room charge. */
  function BillFor(price: real, nights: int): (b: Bill)
    ensures b.pricePerNight == price && b.nights == nights
    ensures b.roomCharge == price * nights as real
    ensures b.tax == 0.18 * b.roomCharge && b.serviceCharge == 0.10 * b.roomCharge
    ensures b.total == b.roomCharge + b.tax + b.serviceCharge == 1.28 * b.roomCharge
  {
    var roomCharge := price * nights as real;
    var tax := roomCharge * TaxRate;
    var serviceCharge := roomCharge * ServiceRate;
    ChargesSum(roomCharge);
    Bill(price, nights, roomCharge, tax, serviceCharge, roomCharge + tax + serviceCharge)
  }

  /** `calculate_total_bill`: exact arithmetic on the nightly price; the
      `ValueError` of `get_room_price` propagates. */
  function CalculateTotalBill(s: Store, faults: Faults, roomType: string,
                              checkin: ValidDate, checkout: ValidDate): (r: Result<Bill>)
    ensures r.Success? <==> GetRoomPrice(s, faults, roomType).Success?
    ensures r.Failure? ==> r.error == GetRoomPrice(s, faults, roomType).error
    ensures r.Success? ==> r.value.pricePerNight == GetRoomPrice(s, faults, roomType).value
    ensures r.Success? ==> exists rt | rt in s.roomTypes :: rt.name == roomType && rt.price == r.value.pricePerNight
    ensures r.Success? ==> r.value.nights == Ordinal(checkout) - Ordinal(checkin)
    ensures r.Success? ==> r.value == BillFor(r.value.pricePerNight, r.value.nights)
  {
    match GetRoomPrice(s, faults, roomType)
    case Failure(e) => Failure(e)
    case Success(price) => Success(BillFor(price, DaysBetween(checkin, checkout)))
  }

  /** The total charged for a stay is 128% of the stored nightly price
      times the number of nights (which `CalculateTotalBill` fixes as
      the day difference between check-out and check-in). */
  lemma TotalIsMarkedUpPrice(s: Store, faults: Faults, roomType: string,
                             checkin: ValidDate, checkout: ValidDate)
    requires CalculateTotalBill(s, faults, roomType, checkin, checkout).Success?
    ensures var b := CalculateTotalBill(s, faults, roomType, checkin, checkout).value;
            b.total == 1.28 * (GetRoomPrice(s, faults, roomType).value * b.nights as real)
  {
    var b := CalculateTotalBill(s, faults, roomType, checkin, checkout).value;
    BillTotal(b, GetRoomPrice(s, faults, roomType).value);
  }

  /** A bill's total is 128% of its price times its nights. */
  lemma BillTotal(b: Bill, price: real)
    requires b == BillFor(price, b.nights)
    ensures b.total == 1.28 * (price * b.nights as real)
  {
  }

  /** The three charges add up to 128% of the room charge. */
  lemma ChargesSum(roomCharge: real)
    ensures roomCharge + roomCharge * TaxRate + roomCharge * ServiceRate == 1.28 * roomCharge
  {
  }

  // ----- Properties -----

  /** For well-formed ranges the three-part test is ordinary half-open
      interval overlap. */
  lemma ThreePartIsHalfOpen(b: BookingRow, checkin: ValidDate, checkout: ValidDate)
    requires Before(b.checkin, b.checkout) && Before(checkin, checkout)
    ensures ThreePartOverlap(b, checkin, checkout) <==> HalfOpenOverlap(b, checkin, checkout)
  {
    DateOrderIsOrdinalOrder();
  }

  /** Stays that only touch the requested range are not counted: one that
      ends on the requested check-in, or starts on the requested check-out. */
  lemma TouchingRangesDoNotOverlap(b: BookingRow, checkin: ValidDate, checkout: ValidDate)
    requires Before(b.checkin, b.checkout) && Before(checkin, checkout)
    requires b.checkout == checkin || b.checkin == checkout
    ensures !ThreePartOverlap(b, checkin, checkout)
  {
    ThreePartIsHalfOpen(b, checkin, checkout);
    DateOrderIsOrdinalOrder();
  }

  predicate WellFormedRanges(bookings: seq<BookingRow>) {
    forall b | b in bookings :: Before(b.checkin, b.checkout)
  }

  /** A booking the count would include under half-open overlap. */
  predicate BlocksHalfOpen(b: BookingRow, roomType: string, checkin: ValidDate, checkout: ValidDate) {
    b.roomType == roomType && b.status == ActiveStatus && HalfOpenOverlap(b, checkin, checkout)
  }

  /** Positions of the bookings that overlap under half-open overlap. */
  function HalfOpenIndices(bookings: seq<BookingRow>, roomType: string,
                           checkin: ValidDate, checkout: ValidDate): set<int>
  {
    set i | 0 <= i < |bookings| && BlocksHalfOpen(bookings[i], roomType, checkin, checkout)
  }

  /** The count written with half-open overlap, as a reference definition. */
  function CountHalfOpen(bookings: seq<BookingRow>, roomType: string,
                         checkin: ValidDate, checkout: ValidDate): nat
  {
    |HalfOpenIndices(bookings, roomType, checkin, checkout)|
  }

  lemma HalfOpenIndicesAppend(rest: seq<BookingRow>, last: BookingRow, roomType: string,
                              checkin: ValidDate, checkout: ValidDate)
    ensures CountHalfOpen(rest + [last], roomType, checkin, checkout)
              == CountHalfOpen(rest, roomType, checkin, checkout)
                 + (if BlocksHalfOpen(last, roomType, checkin, checkout) then 1 else 0)
  {
    var n := |rest|;
    var all := HalfOpenIndices(rest + [last], roomType, checkin, checkout);
    var before := HalfOpenIndices(rest, roomType, checkin, checkout);
    assert n !in before;
    var extra := if BlocksHalfOpen(last, roomType, checkin, checkout) then {n} else {};
    forall i ensures i in all <==> i in before + extra {
      if 0 <= i < n {
        assert (rest + [last])[i] == rest[i];
      } else if i == n {
        assert (rest + [last])[i] == last;
      }
    }
    assert all == before + extra;
  }

  lemma {:induction false} CountIsHalfOpenCount(bookings: seq<BookingRow>, roomType: string,
                                                checkin: ValidDate, checkout: ValidDate)
    requires WellFormedRanges(bookings) && Before(checkin, checkout)
    ensures CountOverlapping(bookings, roomType, checkin, checkout)
              == CountHalfOpen(bookings, roomType, checkin, checkout)
  {
    if |bookings| > 0 {
      var n := |bookings| - 1;
      var rest := bookings[..n];
      var last := bookings[n];
      assert bookings == rest + [last];
      CountIsHalfOpenCount(rest, roomType, checkin, checkout);
      ThreePartIsHalfOpen(last, checkin, checkout);
      HalfOpenIndicesAppend(rest, last, roomType, checkin, checkout);
    }
  }

  /** Availability stated with the half-open count: valid dates, a known
      room type, no failed lookup, and fewer overlapping active bookings of
      that type than its capacity. */
  lemma AvailableIffBelowCapacity(s: Store, faults: Faults, today: ValidDate, roomType: string,
                                  checkin: ValidDate, checkout: ValidDate)
    requires Valid(s) && WellFormedRanges(s.bookings)
    ensures IsRoomAvailable(s, faults, today, roomType, checkin, checkout) <==>
              && ValidateDates(today, checkin, checkout).0
              && CapacityLookup !in faults && OverlapCount !in faults
              && exists rt | rt in s.roomTypes :: rt.name == roomType
                   && CountHalfOpen(s.bookings, roomType, checkin, checkout) < rt.capacity
  {
    if ValidateDates(today, checkin, checkout).0 && CapacityLookup !in faults && OverlapCount !in faults {
      assert Before(checkin, checkout) by {
        OrderIsOrdinalOrder(checkin, checkout);
        OrderIsOrdinalOrder(checkout, checkin);
      }
      CountIsHalfOpenCount(s.bookings, roomType, checkin, checkout);
      var found := FindRoomType(s.roomTypes, roomType);
      if found.Some? {
        forall rt | rt in s.roomTypes && rt.name == roomType ensures rt == found.value {
          FindRoomTypeUnique(s.roomTypes, rt);
        }
      }
    }
  }

  lemma CountAppend(bookings: seq<BookingRow>, b: BookingRow, roomType: string,
                    checkin: ValidDate, checkout: ValidDate)
    ensures CountOverlapping(bookings + [b], roomType, checkin, checkout)
              == CountOverlapping(bookings, roomType, checkin, checkout)
                 + (if Blocks(b, roomType, checkin, checkout) then 1 else 0)
  {
    assert (bookings + [b])[..|bookings|] == bookings;
  }

  /** Only active bookings of the same room type are counted: adding any
      other booking leaves the answer unchanged. */
  lemma OtherBookingsIgnored(s: Store, faults: Faults, today: ValidDate, b: BookingRow,
                             roomType: string, checkin: ValidDate, checkout: ValidDate)
    requires b.roomType != roomType || b.status != ActiveStatus
    ensures IsRoomAvailable(s.(bookings := s.bookings + [b]), faults, today, roomType, checkin, checkout)
              == IsRoomAvailable(s, faults, today, roomType, checkin, checkout)
  {
    CountAppend(s.bookings, b, roomType, checkin, checkout);
  }

  /** One more booking never turns "unavailable" into "available". */
  lemma AddingBookingNeverFreesRoom(s: Store, faults: Faults, today: ValidDate, b: BookingRow,
                                    roomType: string, checkin: ValidDate, checkout: ValidDate)
    ensures IsRoomAvailable(s.(bookings := s.bookings + [b]), faults, today, roomType, checkin, checkout) ==>
            IsRoomAvailable(s, faults, today, roomType, checkin, checkout)
  {
    CountAppend(s.bookings, b, roomType, checkin, checkout);
  }

  /** A room type with `capacity` rooms is full once `capacity` active
      bookings overlap the request. */
  lemma {:induction false} FullAtCapacity(s: Store, faults: Faults, today: ValidDate, roomType: string,
                                          checkin: ValidDate, checkout: ValidDate)
    requires forall b | b in s.bookings :: Blocks(b, roomType, checkin, checkout)
    requires exists rt | rt in s.roomTypes :: rt.name == roomType && rt.capacity <= |s.bookings|
    requires Valid(s)
    ensures !IsRoomAvailable(s, faults, today, roomType, checkin, checkout)
  {
    AllBlockingCounted(s.bookings, roomType, checkin, checkout);
  }

  lemma {:induction false} AllBlockingCounted(bookings: seq<BookingRow>, roomType: string,
                                              checkin: ValidDate, checkout: ValidDate)
    requires forall b | b in bookings :: Blocks(b, roomType, checkin, checkout)
    ensures CountOverlapping(bookings, roomType, checkin, checkout) == |bookings|
  {
    if |bookings| > 0 {
      var n := |bookings| - 1;
      assert bookings[n] in bookings;
      AllBlockingCounted(bookings[..n], roomType, checkin, checkout);
    }
  }

  /** The worked example: two rooms of type "Double", two stays booked
      for 1-5 March 2024. The type is full for the same dates and free
      from 5 March, when both stays have ended. */
  lemma DoubleRoomExample()
    ensures var rooms := [RoomTypeRow("Double", 150.0, 2, "")];
            var b1 := BookingRow(1, 1, "Double", Date(2024, 3, 1), Date(2024, 3, 5), ActiveStatus);
            var b2 := BookingRow(2, 2, "Double", Date(2024, 3, 1), Date(2024, 3, 5), ActiveStatus);
            var one := Store([], [b1], [], rooms, 1, 3, 1);
            var two := Store([], [b1, b2], [], rooms, 1, 3, 1);
            && !IsRoomAvailable(two, NoFaults, Date(2024, 2, 1), "Double", Date(2024, 3, 1), Date(2024, 3, 5))
            && IsRoomAvailable(one, NoFaults, Date(2024, 2, 1), "Double", Date(2024, 3, 1), Date(2024, 3, 5))
            && IsRoomAvailable(two, NoFaults, Date(2024, 2, 1), "Double", Date(2024, 3, 5), Date(2024, 3, 10))
  {
    var rooms := [RoomTypeRow("Double", 150.0, 2, "")];
    var b1 := BookingRow(1, 1, "Double", Date(2024, 3, 1), Date(2024, 3, 5), ActiveStatus);
    var b2 := BookingRow(2, 2, "Double", Date(2024, 3, 1), Date(2024, 3, 5), ActiveStatus);
    DoubleRoomCounts(b1, b2);
    MarchDatesValid();
  }

  lemma DoubleRoomCounts(b1: BookingRow, b2: BookingRow)
    requires b1 == BookingRow(1, 1, "Double", Date(2024, 3, 1), Date(2024, 3, 5), ActiveStatus)
    requires b2 == BookingRow(2, 2, "Double", Date(2024, 3, 1), Date(2024, 3, 5), ActiveStatus)
    ensures CountOverlapping([b1, b2], "Double", Date(2024, 3, 1), Date(2024, 3, 5)) == 2
    ensures CountOverlapping([b1], "Double", Date(2024, 3, 1), Date(2024, 3, 5)) == 1
    ensures CountOverlapping([b1, b2], "Double", Date(2024, 3, 5), Date(2024, 3, 10)) == 0
  {
    CountAppend([b1], b2, "Double", Date(2024, 3, 1), Date(2024, 3, 5));
    CountAppend([b1], b2, "Double", Date(2024, 3, 5), Date(2024, 3, 10));
    CountAppend([], b1, "Double", Date(2024, 3, 1), Date(2024, 3, 5));
    CountAppend([], b1, "Double", Date(2024, 3, 5), Date(2024, 3, 10));
    assert [b1] + [b2] == [b1, b2];
    assert [] + [b1] == [b1];
  }

  lemma MarchDatesValid()
    ensures ValidateDates(Date(2024, 2, 1), Date(2024, 3, 1), Date(2024, 3, 5)).0
    ensures ValidateDates(Date(2024, 2, 1), Date(2024, 3, 5), Date(2024, 3, 10)).0
  {
    assert Ordinal(Date(2024, 3, 5)) - Ordinal(Date(2024, 3, 1)) == 4;
    assert Ordinal(Date(2024, 3, 10)) - Ordinal(Date(2024, 3, 5)) == 5;
  }

  /** The worked example: three nights at 100 a night. */
  lemma BillExample()
    ensures var s := Store([], [], [], [RoomTypeRow("Single", 100.0, 20, "")], 1, 1, 1);
            CalculateTotalBill(s, NoFaults, "Single", Date(2024, 1, 1), Date(2024, 1, 4))
              == Success(Bill(100.0, 3, 300.0, 54.0, 30.0, 384.0))
  {
  }
}
