/** The dataclasses of models.py: customers, bookings, rooms and
    payments as the application builds them from database tuples. */
module Models {
  import opened Wrappers
  import opened Calendar
  import opened DateService
  import opened Persistence
  import opened RoomService

  // ----- Customer -----

  datatype Customer = Customer(name: string, phone: string, address: string, id: Option<int>)

  /** `Customer.from_db((id, name, phone, address))`. */
  function CustomerFromDb(data: (int, string, string, string)): (c: Customer)
    ensures c.id == Some(data.0)
    ensures c.name == data.1 && c.phone == data.2 && c.address == data.3
  {
    var (id, name, phone, address) := data;
    Customer(name, phone, address, Some(id))
  }

  /** The `customers` columns `from_db` reads, in order. */
  function CustomerTuple(row: CustomerRow): (int, string, string, string) {
    (row.id, row.name, row.phone, row.address)
  }

  /** A stored customer comes back with the same id, name, phone and address. */
  lemma CustomerFromStoredRow(row: CustomerRow)
    ensures CustomerFromDb(CustomerTuple(row)) == Customer(row.name, row.phone, row.address, Some(row.id))
  {
  }

  // ----- Booking -----

  /** Dates are calendar dates: `strptime` gives midnight, so the time
      part plays no role. */
  datatype Booking = Booking(customerId: int, roomType: string, checkin: ValidDate, checkout: ValidDate,
                             id: Option<int>, status: Option<string>)

  /** `Booking.from_db((id, customer_id, room_type, checkin, checkout))`:
      both date texts go through `strptime('%Y-%m-%d')`, which raises
      `ValueError` (here `None`) on text that is not a date; the status is
      left unset. */
  function BookingFromDb(data: (int, int, string, string, string)): (r: Option<Booking>)
    ensures r.Some? <==> Strptime(data.3).Some? && Strptime(data.4).Some?
    ensures r.Some? ==> && r.value.id == Some(data.0) && r.value.customerId == data.1
                        && r.value.roomType == data.2 && r.value.status == None
                        && r.value.checkin == Strptime(data.3).value
                        && r.value.checkout == Strptime(data.4).value
  {
    var (id, customerId, roomType, checkin, checkout) := data;
    match (Strptime(checkin), Strptime(checkout))
    case (Some(ci), Some(co)) => Some(Booking(customerId, roomType, ci, co, Some(id), None))
    case _ => None
  }

  /** The five `bookings` columns `from_db` reads, dates as their stored text. */
  function BookingTuple(row: BookingRow): (int, int, string, string, string) {
    (row.id, row.customerId, row.roomType, ToString(row.checkin), ToString(row.checkout))
  }

  /** A stored booking is read back with its own dates and no status. */
  lemma BookingFromStoredRow(row: BookingRow)
    ensures BookingFromDb(BookingTuple(row))
              == Some(Booking(row.customerId, row.roomType, row.checkin, row.checkout, Some(row.id), None))
  {
    ParseToString(row.checkin);
    ParseToString(row.checkout);
  }

  /** `Booking.duration`: `(checkout - checkin).days`. */
  function Duration(b: Booking): (n: int)
    ensures n > 0 <==> Before(b.checkin, b.checkout)
    ensures n == 0 <==> b.checkin == b.checkout
  {
    OrderIsOrdinalOrder(b.checkin, b.checkout);
    DaysBetween(b.checkin, b.checkout)
  }

  /** The duration is the number of nights `calculate_total_bill` charges. */
  lemma DurationIsBilledNights(s: Store, faults: Faults, b: Booking)
    requires CalculateTotalBill(s, faults, b.roomType, b.checkin, b.checkout).Success?
    ensures CalculateTotalBill(s, faults, b.roomType, b.checkin, b.checkout).value.nights == Duration(b)
  {
  }

  // ----- Room -----

  datatype Room = Room(roomType: string, price: real, capacity: int, currentBookings: int)

  /** `Room(room_type, price)` with the dataclass defaults. */
  function NewRoom(roomType: string, price: real): (r: Room)
    ensures r.roomType == roomType && r.price == price
    ensures r.capacity == 20 && r.currentBookings == 0
  {
    Room(roomType, price, 20, 0)
  }

  /** `Room.is_available`. */
  predicate IsAvailable(r: Room) {
    r.currentBookings < r.capacity
  }

  /** A room with the default capacity and no bookings is available, and
      stays available for its first nineteen bookings only. */
  lemma NewRoomAvailable(roomType: string, price: real, booked: int)
    ensures IsAvailable(NewRoom(roomType, price))
    ensures IsAvailable(NewRoom(roomType, price).(currentBookings := booked)) <==> booked < 20
  {
  }

  /** The model's rule is the service's rule: a room type whose current
      bookings are the overlapping active ones is available exactly when
      `is_room_available` says so, given valid dates and working lookups. */
  lemma RoomAgreesWithService(s: Store, today: ValidDate, rt: RoomTypeRow, checkin: ValidDate, checkout: ValidDate)
    requires Valid(s) && rt in s.roomTypes
    requires ValidateDates(today, checkin, checkout).0
    ensures var booked := CountOverlapping(s.bookings, rt.name, checkin, checkout);
            IsAvailable(Room(rt.name, rt.price, rt.capacity, booked)) <==>
              IsRoomAvailable(s, NoFaults, today, rt.name, checkin, checkout)
  {
    ValidStoreLookups(s);
    assert FindRoomType(s.roomTypes, rt.name) == Some(rt);
  }

  // ----- Payment -----

  datatype Payment = Payment(amount: real, paymentMethod: string, customerId: Option<int>,
                             status: string, id: Option<int>)

  /** `Payment(amount, method)` with the dataclass defaults. */
  function NewPayment(amount: real, paymentMethod: string): (p: Payment)
    ensures p.amount == amount && p.paymentMethod == paymentMethod
    ensures p.status == "Pending" && p.customerId == None && p.id == None
  {
    Payment(amount, paymentMethod, None, "Pending", None)
  }

  /** `Payment.from_db((id, customer_id, amount, method, status))`. */
  function PaymentFromDb(data: (int, int, real, string, string)): (p: Payment)
    ensures p.id == Some(data.0) && p.customerId == Some(data.1)
    ensures p.amount == data.2 && p.paymentMethod == data.3 && p.status == data.4
  {
    var (id, customerId, amount, paymentMethod, status) := data;
    Payment(amount, paymentMethod, Some(customerId), status, Some(id))
  }

  /** The tuple a stored payment would be written back as. */
  function PaymentTuple(p: Payment): (int, int, real, string, string)
    requires p.id.Some? && p.customerId.Some?
  {
    (p.id.value, p.customerId.value, p.amount, p.paymentMethod, p.status)
  }

  /** `from_db` loses nothing: reading a tuple and writing it back gives
      the tuple, and a payment with both ids survives the round trip. */
  lemma PaymentRoundTrip(data: (int, int, real, string, string), p: Payment)
    requires p.id.Some? && p.customerId.Some?
    ensures PaymentTuple(PaymentFromDb(data)) == data
    ensures PaymentFromDb(PaymentTuple(p)) == p
  {
  }
}
