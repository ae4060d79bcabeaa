/** The relational store behind the services, as in-memory tables
    (the schema of database_service.py: customers, room_types, bookings,
    payments). `INTEGER PRIMARY KEY AUTOINCREMENT` is a per-table counter:
    an insert takes the counter as the new row's id and advances it.
    Timestamps (`created_at`) are not modelled. */
module Persistence {
  import opened Wrappers
  import opened Calendar

  datatype CustomerRow = CustomerRow(id: int, name: string, phone: string, address: string)

  /** Dates are kept as dates; the stored `YYYY-MM-DD` text orders the
      same way (DateService.TextOrderIsDateOrder). */
  datatype BookingRow = BookingRow(id: int, customerId: int, roomType: string,
                                   checkin: ValidDate, checkout: ValidDate, status: string)

  datatype PaymentRow = PaymentRow(id: int, bookingId: int, amount: real, paymentMethod: string, status: string)

  datatype RoomTypeRow = RoomTypeRow(name: string, price: real, capacity: int, description: string)

  datatype Store = Store(
    customers: seq<CustomerRow>,
    bookings: seq<BookingRow>,
    payments: seq<PaymentRow>,
    roomTypes: seq<RoomTypeRow>,
    nextCustomerId: int,
    nextBookingId: int,
    nextPaymentId: int)

  /** The persistence calls a service makes. A call listed in a `Faults`
      map raises, with the mapped text as the exception's message (as when
      `get_connection` cannot open the database and re-raises); the
      services decide what that means for their callers. */
  datatype StoreCall = CapacityLookup | PriceLookup | OverlapCount
                     | CustomerInsert | BookingInsert | PaymentInsert | RecordsFetch

  type Faults = map<StoreCall, string>

  const NoFaults: Faults := map[]

  const EmptyStore := Store([], [], [], [], 1, 1, 1)

  // ----- Well-formedness -----

  /** Distinct ids, each below the table's counter. */
  predicate FreshIds(ids: seq<int>, next: int) {
    && next >= 1
    && (forall i | 0 <= i < |ids| :: 1 <= ids[i] < next)
    && (forall i, j | 0 <= i < j < |ids| :: ids[i] != ids[j])
  }

  /** The id column of a table, read with the row type's `key`. */
  function Ids<T>(rows: seq<T>, key: T -> int): (ids: seq<int>)
    ensures |ids| == |rows| && forall i | 0 <= i < |rows| :: ids[i] == key(rows[i])
  {
    seq(|rows|, i requires 0 <= i < |rows| => key(rows[i]))
  }

  function CustomerKey(c: CustomerRow): int { c.id }
  function BookingKey(b: BookingRow): int { b.id }
  function PaymentKey(p: PaymentRow): int { p.id }

  /** What the schema guarantees: primary keys and `room_type UNIQUE`. */
  predicate Valid(s: Store) {
    && FreshIds(Ids(s.customers, CustomerKey), s.nextCustomerId)
    && FreshIds(Ids(s.bookings, BookingKey), s.nextBookingId)
    && FreshIds(Ids(s.payments, PaymentKey), s.nextPaymentId)
    && (forall i, j | 0 <= i < j < |s.roomTypes| :: s.roomTypes[i].name != s.roomTypes[j].name)
  }

  /** What the booking workflow maintains but SQLite does not enforce
      (foreign keys are off by default): bookings point at customers,
      payments at bookings, and every stay ends after it starts. */
  predicate Integrity(s: Store) {
    && (forall b | b in s.bookings :: (exists c | c in s.customers :: c.id == b.customerId))
    && (forall p | p in s.payments :: (exists b | b in s.bookings :: b.id == p.bookingId))
    && (forall b | b in s.bookings :: Before(b.checkin, b.checkout))
  }

  // ----- Lookups -----

  /** `SELECT … FROM room_types WHERE room_type = ?`, first row. */
  function FindRoomType(rooms: seq<RoomTypeRow>, name: string): (r: Option<RoomTypeRow>)
    ensures r.Some? ==> r.value in rooms && r.value.name == name
    ensures r.None? <==> forall rt | rt in rooms :: rt.name != name
  {
    if |rooms| == 0 then None
    else if rooms[0].name == name then Some(rooms[0])
    else FindRoomType(rooms[1..], name)
  }

  /** `JOIN customers c ON b.customer_id = c.id`, first match. */
  function FindCustomer(customers: seq<CustomerRow>, id: int): (r: Option<CustomerRow>)
    ensures r.Some? ==> r.value in customers && r.value.id == id
    ensures r.None? <==> forall c | c in customers :: c.id != id
  {
    if |customers| == 0 then None
    else if customers[0].id == id then Some(customers[0])
    else FindCustomer(customers[1..], id)
  }

  // ----- Inserts -----

  lemma FreshIdsAppend(ids: seq<int>, next: int)
    requires FreshIds(ids, next)
    ensures FreshIds(ids + [next], next + 1)
    ensures next !in ids
  {
  }

  function InsertCustomer(s: Store, name: string, phone: string, address: string): (r: (Store, int))
    ensures Valid(s) ==> Valid(r.0) && forall c | c in s.customers :: c.id != r.1
    ensures r.0.customers == s.customers + [CustomerRow(r.1, name, phone, address)]
    ensures r.0.bookings == s.bookings && r.0.payments == s.payments && r.0.roomTypes == s.roomTypes
  {
    var id := s.nextCustomerId;
    var s' := s.(customers := s.customers + [CustomerRow(id, name, phone, address)],
                 nextCustomerId := id + 1);
    assert Ids(s'.customers, CustomerKey) == Ids(s.customers, CustomerKey) + [id];
    if Valid(s) then
      FreshIdsAppend(Ids(s.customers, CustomerKey), id);
      (s', id)
    else
      (s', id)
  }

  function InsertBooking(s: Store, customerId: int, roomType: string,
                         checkin: ValidDate, checkout: ValidDate, status: string): (r: (Store, int))
    ensures Valid(s) ==> Valid(r.0) && forall b | b in s.bookings :: b.id != r.1
    ensures r.0.bookings == s.bookings + [BookingRow(r.1, customerId, roomType, checkin, checkout, status)]
    ensures r.0.customers == s.customers && r.0.payments == s.payments && r.0.roomTypes == s.roomTypes
  {
    var id := s.nextBookingId;
    var s' := s.(bookings := s.bookings + [BookingRow(id, customerId, roomType, checkin, checkout, status)],
                 nextBookingId := id + 1);
    assert Ids(s'.bookings, BookingKey) == Ids(s.bookings, BookingKey) + [id];
    if Valid(s) then
      FreshIdsAppend(Ids(s.bookings, BookingKey), id);
      (s', id)
    else
      (s', id)
  }

  function InsertPayment(s: Store, bookingId: int, amount: real, paymentMethod: string, status: string): (r: (Store, int))
    ensures Valid(s) ==> Valid(r.0) && forall p | p in s.payments :: p.id != r.1
    ensures r.0.payments == s.payments + [PaymentRow(r.1, bookingId, amount, paymentMethod, status)]
    ensures r.0.customers == s.customers && r.0.bookings == s.bookings && r.0.roomTypes == s.roomTypes
  {
    var id := s.nextPaymentId;
    var s' := s.(payments := s.payments + [PaymentRow(id, bookingId, amount, paymentMethod, status)],
                 nextPaymentId := id + 1);
    assert Ids(s'.payments, PaymentKey) == Ids(s.payments, PaymentKey) + [id];
    if Valid(s) then
      FreshIdsAppend(Ids(s.payments, PaymentKey), id);
      (s', id)
    else
      (s', id)
  }

  // ----- Integrity of the inserts -----

  lemma InsertCustomerKeepsIntegrity(s: Store, name: string, phone: string, address: string)
    requires Integrity(s)
    ensures Integrity(InsertCustomer(s, name, phone, address).0)
  {
    var s' := InsertCustomer(s, name, phone, address).0;
    forall b | b in s'.bookings ensures exists c | c in s'.customers :: c.id == b.customerId {
      var c :| c in s.customers && c.id == b.customerId;
      assert c in s'.customers;
    }
  }

  /** A booking row keeps the store whole when its customer exists and its
      stay ends after it starts. */
  lemma InsertBookingKeepsIntegrity(s: Store, customerId: int, roomType: string,
                                    checkin: ValidDate, checkout: ValidDate, status: string)
    requires Integrity(s)
    requires exists c | c in s.customers :: c.id == customerId
    requires Before(checkin, checkout)
    ensures Integrity(InsertBooking(s, customerId, roomType, checkin, checkout, status).0)
  {
    var s' := InsertBooking(s, customerId, roomType, checkin, checkout, status).0;
    forall p | p in s'.payments ensures exists b | b in s'.bookings :: b.id == p.bookingId {
      var b :| b in s.bookings && b.id == p.bookingId;
      assert b in s'.bookings;
    }
  }

  /** A payment row keeps the store whole when its booking exists. */
  lemma InsertPaymentKeepsIntegrity(s: Store, bookingId: int, amount: real, paymentMethod: string, status: string)
    requires Integrity(s)
    requires exists b | b in s.bookings :: b.id == bookingId
    ensures Integrity(InsertPayment(s, bookingId, amount, paymentMethod, status).0)
  {
  }

  // ----- Lookups under unique keys -----

  /** With distinct ids, the first customer with an id is the only one. */
  lemma {:induction false} FindCustomerUnique(customers: seq<CustomerRow>, c: CustomerRow)
    requires forall i, j | 0 <= i < j < |customers| :: customers[i].id != customers[j].id
    requires c in customers
    ensures FindCustomer(customers, c.id) == Some(c)
  {
    if customers[0] != c {
      assert customers[0].id != c.id;
      assert c in customers[1..];
      FindCustomerUnique(customers[1..], c);
    }
  }

  /** With distinct names, the first room type with a name is the only one. */
  lemma {:induction false} FindRoomTypeUnique(rooms: seq<RoomTypeRow>, rt: RoomTypeRow)
    requires forall i, j | 0 <= i < j < |rooms| :: rooms[i].name != rooms[j].name
    requires rt in rooms
    ensures FindRoomType(rooms, rt.name) == Some(rt)
  {
    if rooms[0] != rt {
      assert rooms[0].name != rt.name;
      assert rt in rooms[1..];
      FindRoomTypeUnique(rooms[1..], rt);
    }
  }

  /** In a valid store every customer is found by its id and every room
      type by its name. */
  lemma ValidStoreLookups(s: Store)
    requires Valid(s)
    ensures forall c | c in s.customers :: FindCustomer(s.customers, c.id) == Some(c)
    ensures forall rt | rt in s.roomTypes :: FindRoomType(s.roomTypes, rt.name) == Some(rt)
  {
    forall c | c in s.customers ensures FindCustomer(s.customers, c.id) == Some(c) {
      assert forall i | 0 <= i < |s.customers| :: Ids(s.customers, CustomerKey)[i] == s.customers[i].id;
      FindCustomerUnique(s.customers, c);
    }
    forall rt | rt in s.roomTypes ensures FindRoomType(s.roomTypes, rt.name) == Some(rt) {
      FindRoomTypeUnique(s.roomTypes, rt);
    }
  }
}
