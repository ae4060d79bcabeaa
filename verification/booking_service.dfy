/** BookingService (booking_service.py): the fail-fast booking pipeline
    and its observer list. `process_booking` is a transition over the
    store that also yields the notifications it sends. */
module BookingService {
  import opened Wrappers
  import opened Calendar
  import opened DateService
  import opened Persistence
  import opened RoomService
  import opened Observers
  import opened FieldTitles

  /** The `booking_data` dictionary the booking form builds. A key that is
      absent is `None`; text values have already been stripped by the form,
      dates come from the date pickers. */
  datatype BookingRequest = BookingRequest(
    name: Option<string>,
    phone: Option<string>,
    address: Option<string>,
    roomType: Option<string>,
    checkin: Option<ValidDate>,
    checkout: Option<ValidDate>)

  /** What observers receive: `on_booking_success(booking_data)` or
      `on_booking_error(message)`. */
  datatype BookingEvent = BookingSucceeded(request: BookingRequest) | BookingFailed(message: string)

  /** The validation strategies `process_booking` runs after
      `validate_booking_data`. */
  datatype Validator = RequiredFieldsValidation | DateValidation

  datatype BookingServiceState = BookingServiceState(observers: seq<ObserverRef>, validators: seq<Validator>)

  const InitialService := BookingServiceState([], [RequiredFieldsValidation, DateValidation])

  const RoomTypeSentinel := "Select Room Type"
  const SelectRoomType := "Please select a room type!"
  const DatesRequired := "Check-in and Check-out dates are required!"
  const CheckoutAfterCheckin := "Check-out date must be after check-in date!"
  const RoomUnavailable := "Selected room is not available for these dates!"
  const ErrorPrefix := "An error occurred: "
  const PendingStatus := "pending"

  // ----- Field presence -----

  /** Python truthiness of a text value: present and non-empty. */
  predicate Truthy(v: Option<string>) {
    v.Some? && v.value != ""
  }

  /** The keys `validate_booking_data` requires, in the order it checks them. */
  const RequiredFields := ["name", "phone", "address", "room_type", "checkin_date", "checkout_date"]

  /** `field in booking_data and booking_data[field]`. */
  predicate Present(req: BookingRequest, field: string) {
    match field
    case "name" => Truthy(req.name)
    case "phone" => Truthy(req.phone)
    case "address" => Truthy(req.address)
    case "room_type" => Truthy(req.roomType)
    case "checkin_date" => req.checkin.Some?
    case "checkout_date" => req.checkout.Some?
    case _ => false
  }

  predicate AllPresent(req: BookingRequest) {
    && Truthy(req.name) && Truthy(req.phone) && Truthy(req.address) && Truthy(req.roomType)
    && req.checkin.Some? && req.checkout.Some?
  }

  /** The first field of `fields` that is missing or empty. */
  function FirstMissing(req: BookingRequest, fields: seq<string>): (r: Option<string>)
    ensures r.None? <==> forall f | f in fields :: Present(req, f)
    ensures r.Some? ==> exists i | 0 <= i < |fields| :: fields[i] == r.value && !Present(req, r.value)
                          && forall j | 0 <= j < i :: Present(req, fields[j])
  {
    if |fields| == 0 then None
    else if !Present(req, fields[0]) then Some(fields[0])
    else
      var r := FirstMissing(req, fields[1..]);
      assert forall f | f in fields[1..] :: f in fields;
      assert r.Some? ==> exists i | 0 <= i < |fields| :: fields[i] == r.value && !Present(req, r.value)
                           && forall j | 0 <= j < i :: Present(req, fields[j]) by {
        if r.Some? {
          var i :| 0 <= i < |fields[1..]| && fields[1..][i] == r.value && !Present(req, r.value)
                   && forall j | 0 <= j < i :: Present(req, fields[1..][j]);
          assert fields[i + 1] == r.value;
          assert forall j | 0 <= j < i + 1 :: Present(req, fields[j]) by {
            forall j | 0 <= j < i + 1 ensures Present(req, fields[j]) {
              if j > 0 { assert fields[j] == fields[1..][j - 1]; }
            }
          }
        }
      }
      r
  }

  lemma AllPresentIsAllRequired(req: BookingRequest)
    ensures AllPresent(req) <==> forall f | f in RequiredFields :: Present(req, f)
  {
    if forall f | f in RequiredFields :: Present(req, f) {
      assert RequiredFields[0] in RequiredFields && RequiredFields[1] in RequiredFields;
      assert RequiredFields[2] in RequiredFields && RequiredFields[3] in RequiredFields;
      assert RequiredFields[4] in RequiredFields && RequiredFields[5] in RequiredFields;
    }
  }

  // ----- Validation -----

  /** `validate_booking_data`: the first missing field, else the first date rule that fails. */
  function ValidateBookingData(today: ValidDate, req: BookingRequest): (r: Option<string>)
    ensures r.Some? ==> r.value != ""
    ensures r.None? <==> AllPresent(req) && ValidateDates(today, req.checkin.value, req.checkout.value).0
    ensures FirstMissing(req, RequiredFields).Some? ==> r == Some(RequiredMessage(FirstMissing(req, RequiredFields).value))
    ensures AllPresent(req) && r.Some? ==> r.value == ValidateDates(today, req.checkin.value, req.checkout.value).1
  {
    AllPresentIsAllRequired(req);
    match FirstMissing(req, RequiredFields)
    case Some(field) => Some(RequiredMessage(field))
    case None =>
      var (ok, message) := ValidateDates(today, req.checkin.value, req.checkout.value);
      if ok then None else Some(message)
  }

  /** `RequiredFieldsValidation.validate`, with its own labels. */
  function CheckRequiredFields(req: BookingRequest): (r: (bool, string))
    ensures r.0 <==> Truthy(req.name) && Truthy(req.phone) && Truthy(req.address) && Truthy(req.roomType)
                     && req.roomType.value != RoomTypeSentinel
    ensures !Truthy(req.name) ==> r.1 == "Name is required!"
    ensures Truthy(req.name) && !Truthy(req.phone) ==> r.1 == "Phone Number is required!"
    ensures Truthy(req.name) && Truthy(req.phone) && !Truthy(req.address) ==> r.1 == "Address is required!"
    ensures Truthy(req.name) && Truthy(req.phone) && Truthy(req.address) && !Truthy(req.roomType)
            ==> r.1 == "Room Type is required!"
    ensures r.0 ==> r.1 == ""
    ensures !r.0 && Truthy(req.name) && Truthy(req.phone) && Truthy(req.address) && Truthy(req.roomType)
            ==> r.1 == SelectRoomType
  {
    if !Truthy(req.name) then (false, "Name is required!")
    else if !Truthy(req.phone) then (false, "Phone Number is required!")
    else if !Truthy(req.address) then (false, "Address is required!")
    else if !Truthy(req.roomType) then (false, "Room Type is required!")
    else if req.roomType.value == RoomTypeSentinel then (false, SelectRoomType)
    else (true, "")
  }

  /** `DateValidation.validate`. */
  function CheckDates(req: BookingRequest): (r: (bool, string))
    ensures r.0 <==> req.checkin.Some? && req.checkout.Some? && Before(req.checkin.value, req.checkout.value)
    ensures r.0 ==> r.1 == ""
    ensures req.checkin.None? || req.checkout.None? ==> r.1 == DatesRequired
    ensures req.checkin.Some? && req.checkout.Some? && !r.0 ==> r.1 == CheckoutAfterCheckin
  {
    if req.checkin.None? || req.checkout.None? then (false, DatesRequired)
    else if AtOrBefore(req.checkout.value, req.checkin.value) then (false, CheckoutAfterCheckin)
    else (true, "")
  }

  function RunValidator(v: Validator, req: BookingRequest): (bool, string) {
    match v
    case RequiredFieldsValidation => CheckRequiredFields(req)
    case DateValidation => CheckDates(req)
  }

  /** The strategies in order; the message of the first one that fails. */
  function RunValidators(vs: seq<Validator>, req: BookingRequest): (r: Option<string>)
    ensures r.None? <==> forall v | v in vs :: RunValidator(v, req).0
    ensures r.Some? ==> exists i | 0 <= i < |vs| ::
              && !RunValidator(vs[i], req).0 && r.value == RunValidator(vs[i], req).1
              && forall j | 0 <= j < i :: RunValidator(vs[j], req).0
  {
    if |vs| == 0 then None
    else
      var (ok, message) := RunValidator(vs[0], req);
      if !ok then
        assert !RunValidator(vs[0], req).0 && message == RunValidator(vs[0], req).1;
        Some(message)
      else
        assert forall v | v in vs[1..] :: v in vs;
        var rest := RunValidators(vs[1..], req);
        if rest.Some? then
          var k :| 0 <= k < |vs| - 1 && !RunValidator(vs[1..][k], req).0
                   && rest.value == RunValidator(vs[1..][k], req).1
                   && forall j | 0 <= j < k :: RunValidator(vs[1..][j], req).0;
          assert forall j | 0 <= j < k + 1 :: RunValidator(vs[j], req).0 by {
            forall j | 0 <= j < k + 1 ensures RunValidator(vs[j], req).0 {
              if j > 0 { assert vs[j] == vs[1..][j - 1]; }
            }
          }
          assert vs[k + 1] == vs[1..][k];
          rest
        else
          rest
  }

  // ----- The pipeline -----

  /** The three writes of a booking and the bill between them. Each write
      is its own transaction, so a failure part-way leaves the earlier rows
      behind (an orphan customer when the booking insert fails). */
  function Persist(s: Store, faults: Faults, req: BookingRequest): (r: (Store, BookingEvent))
    requires AllPresent(req)
    ensures r.1.BookingSucceeded? ==> r.1.request == req
    ensures r.1.BookingFailed? ==> |r.1.message| >= |ErrorPrefix| && r.1.message[..|ErrorPrefix|] == ErrorPrefix
    ensures r.0.roomTypes == s.roomTypes
    ensures s.customers <= r.0.customers && |r.0.customers| <= |s.customers| + 1
    ensures s.bookings <= r.0.bookings && |r.0.bookings| <= |s.bookings| + 1
    ensures s.payments <= r.0.payments && |r.0.payments| <= |s.payments| + 1
    ensures r.1.BookingSucceeded? <==> |r.0.payments| == |s.payments| + 1
  {
    var roomType, checkin, checkout := req.roomType.value, req.checkin.value, req.checkout.value;
    if CustomerInsert in faults then (s, BookingFailed(ErrorPrefix + faults[CustomerInsert]))
    else
      var (s1, customerId) := InsertCustomer(s, req.name.value, req.phone.value, req.address.value);
      if BookingInsert in faults then (s1, BookingFailed(ErrorPrefix + faults[BookingInsert]))
      else
        var (s2, bookingId) := InsertBooking(s1, customerId, roomType, checkin, checkout, ActiveStatus);
        match CalculateTotalBill(s2, faults, roomType, checkin, checkout)
        case Failure(e) => (s2, BookingFailed(ErrorPrefix + e))
        case Success(bill) =>
          if PaymentInsert in faults then (s2, BookingFailed(ErrorPrefix + faults[PaymentInsert]))
          else
            var (s3, _) := InsertPayment(s2, bookingId, bill.total, PendingStatus, PendingStatus);
            (s3, BookingSucceeded(req))
  }

  /** `process_booking` without the notification: the new store and the
      one event the observers are told about. Nothing is raised. */
  function Submit(validators: seq<Validator>, s: Store, faults: Faults, today: ValidDate,
                  req: BookingRequest): (r: (Store, BookingEvent))
    ensures r.1.BookingSucceeded? ==> r.1.request == req
    ensures r.1.BookingFailed? ==> r.1.message != ""
    ensures r.0.roomTypes == s.roomTypes
    ensures s.customers <= r.0.customers && s.bookings <= r.0.bookings && s.payments <= r.0.payments
    ensures !(&& AllPresent(req)
              && ValidateDates(today, req.checkin.value, req.checkout.value).0
              && IsRoomAvailable(s, faults, today, req.roomType.value, req.checkin.value, req.checkout.value))
            ==> r.0 == s && r.1.BookingFailed?
  {
    var error := ValidateBookingData(today, req);
    if error.Some? && error.value != "" then (s, BookingFailed(error.value))
    else match RunValidators(validators, req)
      case Some(message) => (s, BookingFailed(message))
      case None =>
        var roomType, checkin, checkout := req.roomType.value, req.checkin.value, req.checkout.value;
        if !IsRoomAvailable(s, faults, today, roomType, checkin, checkout) then (s, BookingFailed(RoomUnavailable))
        else Persist(s, faults, req)
  }

  /** `process_booking`: the store after the call and the calls made on
      the observers, every observer told the same single outcome, in
      attachment order. */
  function ProcessBooking(svc: BookingServiceState, s: Store, faults: Faults, today: ValidDate,
                          req: BookingRequest): (r: (Store, seq<Delivery<ObserverRef, BookingEvent>>))
    ensures |r.1| == |svc.observers|
    ensures forall i | 0 <= i < |r.1| :: r.1[i].observer == svc.observers[i]
    ensures forall i, j | 0 <= i < j < |r.1| :: r.1[i].event == r.1[j].event
  {
    var (s', event) := Submit(svc.validators, s, faults, today, req);
    (s', Notify(svc.observers, event))
  }

  /** `attach`: `o` is told about every later booking, after the observers already there. */
  function AttachObserver(svc: BookingServiceState, o: ObserverRef): (r: BookingServiceState)
    ensures r.validators == svc.validators
    ensures |r.observers| == |svc.observers| + 1 && r.observers[|svc.observers|] == o
    ensures r.observers[..|svc.observers|] == svc.observers
    ensures DetachObserver(r, o).Some?
  {
    svc.(observers := Attach(svc.observers, o))
  }

  /** `detach`: `None` when `o` is not attached (`list.remove` raises). */
  function DetachObserver(svc: BookingServiceState, o: ObserverRef): (r: Option<BookingServiceState>)
    ensures r.Some? <==> o in svc.observers
    ensures r.Some? ==> r.value.validators == svc.validators
                        && multiset(r.value.observers) == multiset(svc.observers) - multiset{o}
                        && r.value.observers == Detach(svc.observers, o).value
  {
    match Detach(svc.observers, o)
    case None => None
    case Some(rest) =>
      DetachRemovesOne(svc.observers, o);
      Some(svc.(observers := rest))
  }

  // ----- Properties -----

  /** A missing or empty field is reported, first in the order of
      `RequiredFields`, and nothing is written. */
  lemma MissingFieldRejected(validators: seq<Validator>, s: Store, faults: Faults, today: ValidDate,
                             req: BookingRequest)
    requires FirstMissing(req, RequiredFields).Some?
    ensures Submit(validators, s, faults, today, req)
              == (s, BookingFailed(RequiredMessage(FirstMissing(req, RequiredFields).value)))
  {
  }

  /** A date failure is reported before the room-type sentinel is looked
      at, and nothing is written. */
  lemma DateFailureReportedFirst(validators: seq<Validator>, s: Store, faults: Faults, today: ValidDate,
                                 req: BookingRequest)
    requires AllPresent(req)
    requires !ValidateDates(today, req.checkin.value, req.checkout.value).0
    ensures Submit(validators, s, faults, today, req)
              == (s, BookingFailed(ValidateDates(today, req.checkin.value, req.checkout.value).1))
  {
  }

  /** Once `validate_booking_data` has passed, the only default strategy
      that can still fail is the room-type sentinel check. */
  lemma DefaultValidatorsOnlyCatchSentinel(today: ValidDate, req: BookingRequest)
    requires AllPresent(req) && ValidateDates(today, req.checkin.value, req.checkout.value).0
    ensures RunValidators(InitialService.validators, req)
              == if req.roomType.value == RoomTypeSentinel then Some(SelectRoomType) else None
  {
    ValidateDatesByDayNumber(today, req.checkin.value, req.checkout.value);
    OrderIsOrdinalOrder(req.checkin.value, req.checkout.value);
    assert InitialService.validators[1..] == [DateValidation];
  }

  /** The request passes every check before the writes. */
  predicate Accepted(s: Store, faults: Faults, today: ValidDate, req: BookingRequest) {
    && AllPresent(req)
    && ValidateDates(today, req.checkin.value, req.checkout.value).0
    && req.roomType.value != RoomTypeSentinel
    && IsRoomAvailable(s, faults, today, req.roomType.value, req.checkin.value, req.checkout.value)
  }

  /** The sentinel "Select Room Type" is refused once the dates are valid. */
  lemma SentinelRejected(s: Store, faults: Faults, today: ValidDate, req: BookingRequest)
    requires AllPresent(req) && ValidateDates(today, req.checkin.value, req.checkout.value).0
    requires req.roomType.value == RoomTypeSentinel
    ensures Submit(InitialService.validators, s, faults, today, req) == (s, BookingFailed(SelectRoomType))
  {
    DefaultValidatorsOnlyCatchSentinel(today, req);
  }

  /** A full room type is refused with the fixed message and nothing is written. */
  lemma UnavailableRejected(s: Store, faults: Faults, today: ValidDate, req: BookingRequest)
    requires AllPresent(req) && ValidateDates(today, req.checkin.value, req.checkout.value).0
    requires req.roomType.value != RoomTypeSentinel
    requires !IsRoomAvailable(s, faults, today, req.roomType.value, req.checkin.value, req.checkout.value)
    ensures Submit(InitialService.validators, s, faults, today, req) == (s, BookingFailed(RoomUnavailable))
  {
    DefaultValidatorsOnlyCatchSentinel(today, req);
  }

  /** With the default strategies, an accepted request goes on to the writes. */
  lemma AcceptedReachesWrites(s: Store, faults: Faults, today: ValidDate, req: BookingRequest)
    requires Accepted(s, faults, today, req)
    ensures Submit(InitialService.validators, s, faults, today, req) == Persist(s, faults, req)
  {
    DefaultValidatorsOnlyCatchSentinel(today, req);
  }

  /** Every rejection before the writes leaves the store as it was, with
      one of the validation messages, never an "An error occurred" one. */
  lemma RejectionWritesNothing(s: Store, faults: Faults, today: ValidDate, req: BookingRequest)
    requires !Accepted(s, faults, today, req)
    ensures var (s', e) := Submit(InitialService.validators, s, faults, today, req);
            && s' == s && e.BookingFailed?
            && (|| e.message == SelectRoomType
                || e.message == RoomUnavailable
                || e.message in {PastCheckin, CheckoutNotAfterCheckin, StayTooLong}
                || exists f | f in RequiredFields :: e.message == RequiredMessage(f))
  {
    if !AllPresent(req) {
      AllPresentIsAllRequired(req);
      var f := FirstMissing(req, RequiredFields).value;
      assert f in RequiredFields;
    } else if ValidateDates(today, req.checkin.value, req.checkout.value).0 {
      DefaultValidatorsOnlyCatchSentinel(today, req);
    }
  }

  /** The rows a successful booking adds: one customer holding the form's
      fields, one active booking for that customer, one pending payment of
      the bill total for that booking, each with a fresh id. */
  predicate AppendsBooking(s: Store, s': Store, faults: Faults, req: BookingRequest)
    requires AllPresent(req)
  {
    && |s'.customers| == |s.customers| + 1 && s'.customers[..|s.customers|] == s.customers
    && |s'.bookings| == |s.bookings| + 1 && s'.bookings[..|s.bookings|] == s.bookings
    && |s'.payments| == |s.payments| + 1 && s'.payments[..|s.payments|] == s.payments
    && s'.roomTypes == s.roomTypes
    && var c, b, p := s'.customers[|s.customers|], s'.bookings[|s.bookings|], s'.payments[|s.payments|];
       && c.name == req.name.value && c.phone == req.phone.value && c.address == req.address.value
       && (forall c0 | c0 in s.customers :: c0.id != c.id)
       && b.customerId == c.id && b.roomType == req.roomType.value && b.status == ActiveStatus
       && b.checkin == req.checkin.value && b.checkout == req.checkout.value
       && (forall b0 | b0 in s.bookings :: b0.id != b.id)
       && p.bookingId == b.id && p.paymentMethod == PendingStatus && p.status == PendingStatus
       && (forall p0 | p0 in s.payments :: p0.id != p.id)
       && GetRoomPrice(s, faults, req.roomType.value).Success?
       && p.amount == BillFor(GetRoomPrice(s, faults, req.roomType.value).value,
                              DaysBetween(req.checkin.value, req.checkout.value)).total
  }

  /** With no failing write and a priced room type, the writes add exactly
      one customer, one booking and one payment. */
  lemma PersistAppendsOneOfEach(s: Store, faults: Faults, req: BookingRequest)
    requires Valid(s) && AllPresent(req)
    requires CustomerInsert !in faults && BookingInsert !in faults && PaymentInsert !in faults
    requires GetRoomPrice(s, faults, req.roomType.value).Success?
    ensures Persist(s, faults, req).1 == BookingSucceeded(req)
    ensures AppendsBooking(s, Persist(s, faults, req).0, faults, req)
  {
    var rt, ci, co := req.roomType.value, req.checkin.value, req.checkout.value;
    var (s1, cid) := InsertCustomer(s, req.name.value, req.phone.value, req.address.value);
    var (s2, bid) := InsertBooking(s1, cid, rt, ci, co, ActiveStatus);
    assert s2.roomTypes == s.roomTypes;
    assert GetRoomPrice(s2, faults, rt) == GetRoomPrice(s, faults, rt);
    var bill := CalculateTotalBill(s2, faults, rt, ci, co).value;
    var (s3, pid) := InsertPayment(s2, bid, bill.total, PendingStatus, PendingStatus);
    assert Persist(s, faults, req) == (s3, BookingSucceeded(req));
    assert s3.customers[..|s.customers|] == s.customers;
    assert s3.bookings[..|s.bookings|] == s.bookings;
    assert s3.payments[..|s.payments|] == s.payments;
  }

  /** The writes fail exactly when a write or the price lookup fails, and
      then report "An error occurred: " and the error's text; a failing
      customer insert writes nothing, a failing booking insert leaves the
      new customer behind. */
  lemma PersistOutcome(s: Store, faults: Faults, req: BookingRequest)
    requires AllPresent(req)
    ensures var (s', e) := Persist(s, faults, req);
            && (e.BookingSucceeded? <==>
                  CustomerInsert !in faults && BookingInsert !in faults && PaymentInsert !in faults
                  && GetRoomPrice(s, faults, req.roomType.value).Success?)
            && (e.BookingFailed? ==> |e.message| >= |ErrorPrefix| && e.message[..|ErrorPrefix|] == ErrorPrefix)
            && (CustomerInsert in faults ==> s' == s)
            && (CustomerInsert !in faults && BookingInsert in faults ==>
                  && s'.customers == s.customers + [CustomerRow(s.nextCustomerId, req.name.value,
                                                                req.phone.value, req.address.value)]
                  && s'.bookings == s.bookings && s'.payments == s.payments)
  {
    var rt, ci, co := req.roomType.value, req.checkin.value, req.checkout.value;
    if CustomerInsert !in faults && BookingInsert !in faults {
      var (s1, cid) := InsertCustomer(s, req.name.value, req.phone.value, req.address.value);
      var (s2, bid) := InsertBooking(s1, cid, rt, ci, co, ActiveStatus);
      assert s2.roomTypes == s.roomTypes;
      assert GetRoomPrice(s2, faults, rt) == GetRoomPrice(s, faults, rt);
    }
  }

  /** The writes keep bookings pointing at customers, payments at bookings,
      and every stay ending after it starts, given a stay that does. */
  lemma PersistKeepsIntegrity(s: Store, faults: Faults, req: BookingRequest)
    requires AllPresent(req) && Integrity(s)
    requires Before(req.checkin.value, req.checkout.value)
    ensures Integrity(Persist(s, faults, req).0)
  {
    var rt, ci, co := req.roomType.value, req.checkin.value, req.checkout.value;
    if CustomerInsert !in faults {
      var (s1, cid) := InsertCustomer(s, req.name.value, req.phone.value, req.address.value);
      InsertCustomerKeepsIntegrity(s, req.name.value, req.phone.value, req.address.value);
      assert s1.customers[|s.customers|] in s1.customers;
      if BookingInsert !in faults {
        var (s2, bid) := InsertBooking(s1, cid, rt, ci, co, ActiveStatus);
        InsertBookingKeepsIntegrity(s1, cid, rt, ci, co, ActiveStatus);
        assert s2.bookings[|s1.bookings|] in s2.bookings;
        match CalculateTotalBill(s2, faults, rt, ci, co)
        case Failure(_) =>
        case Success(bill) =>
          InsertPaymentKeepsIntegrity(s2, bid, bill.total, PendingStatus, PendingStatus);
      }
    }
  }

  /** A booking succeeds exactly when it passes every check and no write
      or price lookup fails; it then adds one customer, one booking and one
      payment and changes nothing else. */
  lemma SuccessAppendsOneOfEach(s: Store, faults: Faults, today: ValidDate, req: BookingRequest)
    requires Valid(s)
    ensures var (s', e) := Submit(InitialService.validators, s, faults, today, req);
            && (e.BookingSucceeded? <==>
                  Accepted(s, faults, today, req)
                  && CustomerInsert !in faults && BookingInsert !in faults
                  && PriceLookup !in faults && PaymentInsert !in faults)
            && (e.BookingSucceeded? ==> e.request == req && AppendsBooking(s, s', faults, req))
  {
    if Accepted(s, faults, today, req) {
      AcceptedReachesWrites(s, faults, today, req);
      PersistOutcome(s, faults, req);
      if CustomerInsert !in faults && BookingInsert !in faults && PaymentInsert !in faults
         && GetRoomPrice(s, faults, req.roomType.value).Success? {
        PersistAppendsOneOfEach(s, faults, req);
      }
    } else {
      RejectionWritesNothing(s, faults, today, req);
    }
  }

  /** The gap of separate auto-committed writes: when the booking insert
      fails, the customer row just written stays behind without a booking,
      and the observers hear "An error occurred: " and the error's text. */
  lemma FailedBookingInsertLeavesOrphanCustomer(s: Store, faults: Faults, today: ValidDate, req: BookingRequest)
    requires Accepted(s, faults, today, req)
    requires CustomerInsert !in faults && BookingInsert in faults
    ensures var (s', e) := Submit(InitialService.validators, s, faults, today, req);
            && e == BookingFailed(ErrorPrefix + faults[BookingInsert])
            && s'.customers == s.customers + [CustomerRow(s.nextCustomerId, req.name.value,
                                                          req.phone.value, req.address.value)]
            && s'.bookings == s.bookings && s'.payments == s.payments
  {
    AcceptedReachesWrites(s, faults, today, req);
  }

  /** Whatever the strategies, submitting never breaks the store's keys,
      keeps every booking pointing at a customer and every payment at a
      booking, and only stores stays that end after they start. */
  lemma SubmitPreservesStore(validators: seq<Validator>, s: Store, faults: Faults, today: ValidDate,
                             req: BookingRequest)
    requires Valid(s) && Integrity(s)
    ensures Valid(Submit(validators, s, faults, today, req).0)
    ensures Integrity(Submit(validators, s, faults, today, req).0)
  {
    var error := ValidateBookingData(today, req);
    if error.None? && RunValidators(validators, req).None? {
      var rt, ci, co := req.roomType.value, req.checkin.value, req.checkout.value;
      ValidateDatesByDayNumber(today, ci, co);
      OrderIsOrdinalOrder(ci, co);
      PersistKeepsIntegrity(s, faults, req);
      PersistKeepsValid(s, faults, req);
    }
  }

  lemma PersistKeepsValid(s: Store, faults: Faults, req: BookingRequest)
    requires AllPresent(req) && Valid(s)
    ensures Valid(Persist(s, faults, req).0)
  {
  }

  /** Booking is not idempotent: the same request accepted twice writes
      two customers, two bookings and two payments, with distinct ids. */
  lemma ResubmissionDuplicates(s: Store, faults: Faults, today: ValidDate, req: BookingRequest)
    requires Valid(s)
    requires Submit(InitialService.validators, s, faults, today, req).1.BookingSucceeded?
    requires var s1 := Submit(InitialService.validators, s, faults, today, req).0;
             Submit(InitialService.validators, s1, faults, today, req).1.BookingSucceeded?
    ensures var s1 := Submit(InitialService.validators, s, faults, today, req).0;
            var s2 := Submit(InitialService.validators, s1, faults, today, req).0;
            && |s2.customers| == |s.customers| + 2
            && |s2.bookings| == |s.bookings| + 2
            && |s2.payments| == |s.payments| + 2
            && s2.customers[|s.customers|].name == s2.customers[|s.customers| + 1].name
            && s2.customers[|s.customers|].id != s2.customers[|s.customers| + 1].id
            && s2.bookings[|s.bookings|].id != s2.bookings[|s.bookings| + 1].id
            && s2.payments[|s.payments|].id != s2.payments[|s.payments| + 1].id
  {
    var s1 := Submit(InitialService.validators, s, faults, today, req).0;
    SuccessAppendsOneOfEach(s, faults, today, req);
    AcceptedReachesWrites(s, faults, today, req);
    PersistKeepsValid(s, faults, req);
    SuccessAppendsOneOfEach(s1, faults, today, req);
    var s2 := Submit(InitialService.validators, s1, faults, today, req).0;
    assert s2.customers[|s.customers|] == s1.customers[|s.customers|];
    assert s1.customers[|s.customers|] in s1.customers;
    assert s2.bookings[|s.bookings|] == s1.bookings[|s.bookings|];
    assert s1.bookings[|s.bookings|] in s1.bookings;
    assert s2.payments[|s.payments|] == s1.payments[|s.payments|];
    assert s1.payments[|s.payments|] in s1.payments;
  }

  /** Each call of `process_booking` gives every attached observer one
      outcome, the same one, in attachment order, and adds no observer. */
  lemma OneOutcomePerObserver(svc: BookingServiceState, s: Store, faults: Faults, today: ValidDate,
                              req: BookingRequest)
    ensures var (s', ds) := ProcessBooking(svc, s, faults, today, req);
            var e := Submit(svc.validators, s, faults, today, req).1;
            && s' == Submit(svc.validators, s, faults, today, req).0
            && |ds| == |svc.observers|
            && forall i | 0 <= i < |ds| :: ds[i] == Delivery(svc.observers[i], e)
  {
  }
}
