/** How the booking workflow and the records screen agree: the payment
    `process_booking` stores for a booking (booking_service.py) is the
    `total` the records strategies compute for it (records_service.py). */
module BillingConsistency {
  import opened Calendar
  import opened Persistence
  import opened RoomService
  import opened BookingService
  import opened RecordsService

  /** After a successful booking, the "all" records list has a row for the
      new booking whose total is the amount of the new pending payment. */
  lemma PaymentAmountIsRecordTotal(s: Store, faults: Faults, today: ValidDate, req: BookingRequest)
    requires Valid(s)
    requires Submit(InitialService.validators, s, faults, today, req).1.BookingSucceeded?
    ensures var s' := Submit(InitialService.validators, s, faults, today, req).0;
            && |s'.bookings| == |s.bookings| + 1 && |s'.payments| == |s.payments| + 1
            && var b, p := s'.bookings[|s.bookings|], s'.payments[|s.payments|];
               && p.bookingId == b.id
               && exists row | row in Load(s', NoFaults, AllRecords, today) ::
                    row.bookingId == b.id && row.status == ActiveStatus && row.total == p.amount
  {
    var s' := Submit(InitialService.validators, s, faults, today, req).0;
    SuccessAppendsOneOfEach(s, faults, today, req);
    AcceptedReachesWrites(s, faults, today, req);
    PersistKeepsValid(s, faults, req);
    var c, b, p := s'.customers[|s.customers|], s'.bookings[|s.bookings|], s'.payments[|s.payments|];
    var price := GetRoomPrice(s, faults, req.roomType.value).value;
    var room :| room in s.roomTypes && room.name == req.roomType.value && room.price == price;
    assert c in s'.customers && b in s'.bookings && room in s'.roomTypes;
    LoadComplete(s', NoFaults, AllRecords, today, b, c, room);
    var row := Enrich(b, c.name, room.price, Label(AllRecords, b));
    LoadedRowsCarryBill(s', NoFaults, AllRecords, today, row);
    var n := DaysBetween(b.checkin, b.checkout);
    assert p.amount == BillFor(price, n).total;
  }
}
