# Hotel booking and availability core, in Dafny

This project models the booking and availability core of a small hotel
management application: the date service, the room service (price and capacity
lookups, the overlap count, availability and the bill), the booking service
(field and date validation, the validation strategies, the three writes of a
booking, and observer notification), the records service (the four record
filters with their enriched rows), the data models, the payment factory, and
the computational parts of the main window. That means the restaurant bill, the
revenue sum, the filter switch and the payment form's checks.

The model is functional. The database is an immutable `Persistence.Store` with
four tables and AUTOINCREMENT counters. A `Persistence.Faults` map says which
store calls raise, and with what message. "Today" is a parameter. Money is
exact `real`. `process_booking` is a state transition from a store to a new
store, plus the calls made on each observer.

Modules, in dependency order:

- `Wrappers`: `Option` and `Result`.
- `Calendar`: proleptic Gregorian dates.
  - Python's `toordinal` as `Ordinal`.
  - Field-wise date order, as compared by Python.
- `DateService`: `to_string`, `parse_date` (the `strptime` grammar of `%Y-%m-%d`) and `validate_dates`. It also shows that SQLite's character-by-character comparison of the stored texts is the field-wise date order.
- `Persistence`: the tables, inserts, lookups and store invariants.
- `RoomService`: price and capacity lookups, the three-part overlap query, availability and the bill.
- `Observers`: attach, detach and in-order notification, shared by both services.
- `FieldTitles`: `str.replace('_', ' ').title()` for the "is required" messages.
- `BookingService`: validation, strategies, `process_booking`, attach and detach.
- `RecordsService`: the four load strategies, `set_strategy`, `load_records`, attach and detach.
- `BillingConsistency`: the payment written by a booking equals the total its record row shows.
- `Models`: `Customer`, `Booking`, `Room` and `Payment` with their `from_db` and properties.
- `PaymentFactory`: the processors, their fields, `get_payment_processor` and `get_available_methods`.
- `MainApp`: `toggle_item`, `calculate_bill`, the revenue sum of `RecordsWindow.update`, `change_filter`, and the checks of `PaymentWindow.process_payment`.

## Model

| member | source | states |
|---|---|---|
| Calendar.OrderIsOrdinalOrder | date_service.py:68-73 | Comparing two dates field by field (year, then month, then day) agrees with comparing their day numbers, for `<`, `<=` and `==` |
| Calendar.DateOrderIsOrdinalOrder | date_service.py:68-76 | The same agreement, for all pairs of valid dates at once |
| Calendar.NewYearIsNextDay | room_service.py:215 | Day counting runs on across a year boundary: 1 January is one day after the 31 December before it |
| DateService.ToString | date_service.py:39-45 | `to_string` yields ten characters: four digits, a dash, two digits, a dash and two digits |
| DateService.ParseDate | date_service.py:48-54 | A string that is not a date fails with "Invalid date format. Expected YYYY-MM-DD, got: " followed by the string |
| DateService.Strptime | date_service.py:49-52 | A text that `strptime` accepts has 8 to 10 characters and starts with four digits and a dash. The year is the value of those four digits |
| DateService.ParseToString | date_service.py:39-54 | Parsing what `to_string` produced gives back the same date |
| DateService.ParseCanonical | date_service.py:48-54 | A well-formed `YYYY-MM-DD` text parses exactly when it names a real calendar date; then `to_string` of the result is the text itself |
| DateService.ParseIsLenient | date_service.py:49-52 | `strptime` also accepts an unpadded month and day ("2024-1-5") and a space-padded day ("2024-01- 5") |
| DateService.ParseRefusesNonDates | date_service.py:49-54 | Well-shaped texts naming no date are refused with the format message: 29 February in a common year, month 13, year 0 |
| DateService.ParseRefusesMalformed | date_service.py:49-54 | Text left over after the day and a two-digit year are refused with the format message |
| DateService.ValidateDates | date_service.py:57-79 | A stay is valid exactly when the message is empty; every refusal carries one of the three rule messages |
| DateService.ValidateDatesByDayNumber | date_service.py:67-77 | The rules in their order, in day numbers. A past check-in is reported first, then a check-out not after check-in, then a stay over 30 nights. A stay is accepted iff today <= check-in < check-out <= check-in + 30 |
| DateService.ThirtyNightsAccepted | date_service.py:75-77 | Boundary of the limit: 30 nights are accepted and 31 are refused as too long |
| DateService.TextOrderIsDateOrder | room_service.py:181-185 | SQLite compares the stored `YYYY-MM-DD` texts character by character. For texts written by `to_string`, that comparison agrees with date order for `<`, `<=` and `=` |
| DateService.TextLessIsBefore | room_service.py:181-185 | The `<` half: one date text sorts before another exactly when its date is earlier |
| DateService.TextEqualIsSameDate | room_service.py:181-185 | The `=` half: two date texts are equal exactly when their dates are |
| DateService.Pad4Order | date_service.py:39-45 | Zero-padded four-digit years sort as texts in the order of their numbers, and are equal exactly when the numbers are |
| DateService.Pad2Order | date_service.py:39-45 | The same for the two-digit month and day |
| Persistence.FindRoomType | room_service.py:124-131 | A room-type lookup by name finds a row with that name, and finds nothing only when no row has that name |
| Persistence.FindCustomer | records_service.py:35 | The customer join finds a row with the booking's customer id, and finds nothing only when no customer has it |
| Persistence.InsertCustomer | database_service.py:133-139 | An insert appends one customer row under a fresh id. It keeps the store's ids unique and leaves the other tables as they were |
| Persistence.InsertBooking | database_service.py:151-161 | The same for a booking row |
| Persistence.InsertPayment | database_service.py:164-172 | The same for a payment row |
| Persistence.FreshIdsAppend | database_service.py:134 | Taking the AUTOINCREMENT counter as the new id keeps ids distinct and below the counter |
| Persistence.InsertCustomerKeepsIntegrity | database_service.py:133-139 | Adding a customer keeps every booking's customer reference and every payment's booking reference valid |
| Persistence.InsertBookingKeepsIntegrity | database_service.py:151-161 | Adding a booking keeps references valid when its customer exists and its check-in is before its check-out |
| Persistence.InsertPaymentKeepsIntegrity | database_service.py:164-172 | Adding a payment keeps references valid when its booking exists |
| Persistence.FindCustomerUnique | database_service.py:133-134 | Customer ids are unique, so looking up a customer's id returns that very customer |
| Persistence.FindRoomTypeUnique | database_service.py:142-144 | `room_type` names are UNIQUE, so looking up a room type's name returns that very row |
| Persistence.ValidStoreLookups | database_service.py:133-148 | In a well-formed store, every customer is found by its id and every room type by its name |
| RoomService.GetRoomPrice | room_service.py:117-134 | A price exists exactly when the lookup does not raise and the room type is known. It is that room type's price. An unknown type fails with "Invalid room type: " and the name |
| RoomService.GetRoomCapacity | room_service.py:136-153 | The same for the capacity |
| RoomService.ThreePartOverlap | room_service.py:181-185 | The query's three alternatives, read on dates: the stored stay spans the requested check-in, or spans the requested check-out, or lies within the request. It has no contract of its own; ThreePartTextIsDateOrder and ThreePartIsHalfOpen state what it means |
| RoomService.ThreePartOverlapText | room_service.py:181-185 | The same condition on the stored and bound texts, compared as SQLite compares them. It has no contract of its own; ThreePartTextIsDateOrder relates it to dates |
| RoomService.ThreePartTextIsDateOrder | room_service.py:181-185 | Evaluating the query's condition on the `YYYY-MM-DD` texts gives the same answer as evaluating it on the dates |
| RoomService.CountOverlapping | room_service.py:175-188 | The overlap count never exceeds the number of bookings. It is zero exactly when no booking blocks the requested stay |
| RoomService.IsRoomAvailable | room_service.py:155-206 | It fails closed. An invalid stay, an unknown room type, or a failing capacity or count query all answer "not available". An available room has fewer blocking bookings than its capacity |
| RoomService.ThreePartIsHalfOpen | room_service.py:181-185 | For well-formed stays, the three-part SQL condition is exactly the overlap of half-open ranges [check-in, check-out) |
| RoomService.TouchingRangesDoNotOverlap | room_service.py:181-185 | A booking that ends on the requested check-in, or starts on the requested check-out, does not overlap |
| RoomService.CountIsHalfOpenCount | room_service.py:175-188 | When every stored stay is well formed, the query's count equals the number of active same-type bookings whose half-open range meets the request |
| RoomService.AvailableIffBelowCapacity | room_service.py:155-206 | Available iff all four hold: the stay passes `validate_dates`; no lookup fails; the room type exists; fewer half-open-overlapping active bookings than its capacity |
| RoomService.CountAppend | room_service.py:175-188 | A new booking raises the count by one exactly when it blocks the request |
| RoomService.OtherBookingsIgnored | room_service.py:177-180 | Bookings of another room type, or not `active`, do not change availability |
| RoomService.AddingBookingNeverFreesRoom | room_service.py:175-202 | Adding a booking can make a room unavailable but never available |
| RoomService.FullAtCapacity | room_service.py:197-202 | When at least capacity-many bookings all block the stay, the room is not available |
| RoomService.DoubleRoomExample | room_service.py:155-206 | Double with capacity 2: two active 1-5 March bookings make 1-5 March unavailable, one does not, and 5-10 March stays available |
| RoomService.BillFor | room_service.py:214-230 | The bill's charges: room charge = price x nights, tax 18% of it, service 10% of it, and total = their sum = 1.28 x room charge |
| RoomService.CalculateTotalBill | room_service.py:208-233 | A bill exists exactly when the price lookup succeeds, and otherwise carries its error. Its nightly price is the stored price of that room type. Nights are the day difference between check-out and check-in. Its charges are those of `BillFor` for that price and those nights |
| RoomService.TotalIsMarkedUpPrice | room_service.py:214-230 | The total charged is 1.28 x the stored nightly price x the number of nights |
| RoomService.ChargesSum | room_service.py:218-221 | Room charge plus 18% tax plus 10% service is 1.28 x room charge |
| RoomService.BillExample | room_service.py:208-230 | Single at 100 for 1-4 January 2024: 3 nights, 300 room charge, 54 tax, 30 service, 384 total |
| Observers.Attach | booking_service.py:152-154 | `attach` puts the observer last and keeps the others in order |
| Observers.Detach | booking_service.py:156-158 | `detach` succeeds exactly when the observer is attached. It drops the first occurrence and keeps the others in their order |
| Observers.Notify | booking_service.py:160-168 | Notification calls every attached observer once, in attachment order, with the same event |
| Observers.DetachRemovesOne | booking_service.py:156-158 | `detach` removes exactly one copy of the observer and nothing else |
| Observers.FirstCopy | booking_service.py:156-158 | The position `detach` removes is the first one that holds the observer |
| Observers.DetachKeepsOrder | booking_service.py:156-158 | `detach` drops the first copy. Entries before it keep their positions, entries after it move up by one, so later notifications run in the same relative order |
| Observers.DetachFirstCopy | booking_service.py:156-158 | With the observer attached twice, the first copy goes: `[1, 2, 1]` becomes `[2, 1]` |
| Observers.DetachMembership | booking_service.py:156-158 | After `detach`, every other observer is attached exactly as before, and the detached one stays only if it had been attached twice |
| Observers.DetachUndoesAttach | booking_service.py:152-158 | Detaching a newly attached observer restores the list |
| Observers.NotifyAfterAttach | records_service.py:119-127 | After `attach`, a notification reaches the earlier observers first and the new one last |
| FieldTitles.TitleCases | booking_service.py:183 | `title()` keeps every letter's identity. It upper-cases a letter exactly when the letter starts a word |
| FieldTitles.TitleIdempotent | booking_service.py:183 | Title-casing a title-cased text changes nothing |
| FieldTitles.RequiredMessage | booking_service.py:181-183 | The missing-field message is never empty, so `process_booking` always reports it |
| FieldTitles.ReplaceJoin | booking_service.py:183 | `replace('_', ' ')` turns two underscore-free names joined by `_` into two words |
| FieldTitles.TitleJoin | booking_service.py:183 | `title()` cases the words on either side of a space independently |
| FieldTitles.TitleWord | booking_service.py:183 | `title()` capitalises the first letter of a lower-case word and keeps the rest |
| FieldTitles.TwoWordTitle | booking_service.py:183 | A field name of two lower-case words joined by `_` becomes both words capitalised, separated by a space |
| FieldTitles.RoomTypeMessage | booking_service.py:178-183 | A missing `room_type` is reported as "Room Type is required" |
| FieldTitles.CheckinDateMessage | booking_service.py:178-183 | A missing `checkin_date` is reported as "Checkin Date is required" |
| FieldTitles.NameMessage | booking_service.py:178-183 | A missing `name` is reported as "Name is required" |
| BookingService.FirstMissing | booking_service.py:181-183 | Nothing is missing exactly when every listed field is present. Otherwise the result is the first absent field, with all earlier fields present |
| BookingService.AllPresentIsAllRequired | booking_service.py:178-183 | The six required fields are all present and non-empty exactly when each is |
| BookingService.ValidateBookingData | booking_service.py:176-193 | It passes exactly when all fields are present and `validate_dates` accepts. The first missing field's message wins, then the date rule's message. Messages are never empty |
| BookingService.CheckRequiredFields | booking_service.py:64-80 | It accepts exactly when name, phone, address and room type are truthy and the room type is not "Select Room Type". Its messages follow that order |
| BookingService.CheckDates | booking_service.py:82-94 | It accepts exactly when both dates are given and check-out is after check-in. Otherwise the message says which rule failed |
| BookingService.RunValidators | booking_service.py:204-209 | The run passes exactly when every strategy passes. Otherwise it reports the message of the first failing strategy, and all strategies before it pass |
| BookingService.ProcessBooking | booking_service.py:195-262 | Every observer is called once, in attachment order, all with one and the same outcome |
| BookingService.Submit | booking_service.py:195-262 | A success event carries the submitted request, and a failure message is never empty. Room types never change and rows are only ever added. A request refused by the field check, `validate_dates` or availability leaves the store as it was and is reported as a failure |
| BookingService.Persist | booking_service.py:220-262 | The three writes. A success event carries the request, and a failure message starts with "An error occurred: ". Room types are untouched. Each table keeps its rows and gains at most one. The writes succeed exactly when a payment row is added |
| BookingService.AttachObserver | booking_service.py:152-154 | The observer goes last, the validators are untouched, and it can then be detached |
| BookingService.DetachObserver | booking_service.py:156-158 | It fails exactly when the observer is not attached. Otherwise the first occurrence is removed as `list.remove` does, the order of the rest is kept, and the validators are untouched |
| BookingService.MissingFieldRejected | booking_service.py:199-202 | With a field missing, whatever the strategies, the store is untouched and the first missing field's message is reported |
| BookingService.DateFailureReportedFirst | booking_service.py:185-202 | When `validate_dates` refuses, its message is reported before any strategy runs, and nothing is written |
| BookingService.DefaultValidatorsOnlyCatchSentinel | booking_service.py:64-94 | Once `validate_booking_data` passes, the default strategies can only object to the "Select Room Type" placeholder |
| BookingService.SentinelRejected | booking_service.py:77-78 | The placeholder room type is refused with "Please select a room type!" and nothing is written |
| BookingService.UnavailableRejected | booking_service.py:211-218 | An unavailable room is refused with "Selected room is not available for these dates!" and nothing is written |
| BookingService.AcceptedReachesWrites | booking_service.py:195-218 | A request that passes validation and availability goes on to the writes |
| BookingService.RejectionWritesNothing | booking_service.py:199-218 | A request refused before the writes leaves the store as it was. The error is one of the validation or availability messages |
| BookingService.PersistAppendsOneOfEach | booking_service.py:220-256 | Successful writes append one row to each table. The booking references the new customer and is `active`; the payment references the booking, for the bill total, as `pending`/`pending` |
| BookingService.PersistOutcome | booking_service.py:220-262 | The writes succeed exactly when no insert and no price lookup fails. A failure is reported as "An error occurred: ...". A failed booking insert leaves the customer row behind |
| BookingService.PersistKeepsIntegrity | booking_service.py:220-256 | Whatever fails along the way, the written rows' references stay valid |
| BookingService.SuccessAppendsOneOfEach | booking_service.py:195-262 | `process_booking` succeeds exactly when the request is accepted and none of the four store calls fails. Then one row of each kind is appended, as above |
| BookingService.FailedBookingInsertLeavesOrphanCustomer | booking_service.py:220-240 | The known gap: when the booking insert fails, the customer row stays and no booking or payment is written |
| BookingService.SubmitPreservesStore | booking_service.py:195-262 | With any strategies, `process_booking` keeps ids unique, room names unique and references valid |
| BookingService.PersistKeepsValid | booking_service.py:220-256 | The writes keep ids fresh and unique |
| BookingService.ResubmissionDuplicates | booking_service.py:220-240 | Two successful identical submissions add two customers with the same name but distinct ids, and two distinct bookings and payments |
| BookingService.OneOutcomePerObserver | booking_service.py:195-262 | Each observer receives exactly one event, and it is the outcome of this submission |
| RecordsService.Enrich | records_service.py:21-33 | An enriched row carries the booking's id, dates and room type, the customer's name, the room's price, and nights = day difference |
| RecordsService.Selects | records_service.py:59-108 | The WHERE clauses on dates: all rows; active stays with check-in <= today <= check-out (`BETWEEN` is inclusive); active stays starting after today; active stays ending before today. It has no contract of its own; SelectsTextIsDateOrder and TimeFiltersPartition state what it means |
| RecordsService.SelectsText | records_service.py:59-108 | The same clauses on the stored texts and today's text, compared as SQLite compares them. It has no contract of its own; SelectsTextIsDateOrder relates it to dates |
| RecordsService.SelectsTextIsDateOrder | records_service.py:59-108 | Each WHERE clause evaluated on the `YYYY-MM-DD` texts gives the same answer as on the dates |
| RecordsService.RowWithCharges | records_service.py:27-32 | Row charges: room charge = nights x price, tax 0.18 and service 0.10 of it, total 1.28 x room charge = their sum |
| RecordsService.SqlCharges | records_service.py:30-32 | The SQL's tax, service and total columns add up: total = room charge + tax + service |
| RecordsService.Matches | records_service.py:34-36 | The joined rows are exactly those of selected bookings with a matching customer and room type |
| RecordsService.SortByCheckinDesc | records_service.py:37 | `ORDER BY checkin_date DESC` yields rows sorted by check-in, latest first, and is a permutation of its input |
| RecordsService.SortedMeansDayNumbersFall | records_service.py:37 | In that order, check-in day numbers never increase |
| RecordsService.Load | records_service.py:18-110 | A strategy's result is sorted latest check-in first. It is empty when the fetch fails. Otherwise it is a reordering of the joined rows: each enriched row of a selected booking appears as often as the join produces it |
| RecordsService.LoadRecords | records_service.py:133-139 | `load_records` gives every observer, in order, the same list: the load's result |
| RecordsService.SetStrategy | records_service.py:129-131 | `set_strategy` installs the strategy and triggers one load with it |
| RecordsService.AttachRecordsObserver | records_service.py:119-120 | The observer goes last, and the strategy is untouched |
| RecordsService.DetachRecordsObserver | records_service.py:122-123 | It fails exactly when the observer is absent. Otherwise the first occurrence is removed, the order of the rest is kept, and the strategy is untouched |
| RecordsService.TimeFiltersPartition | records_service.py:40-110 | Active, upcoming and completed never select a booking that is not `active`. For an active booking with check-in <= check-out, exactly one of them selects it |
| RecordsService.LoadSound | records_service.py:18-110 | Every loaded row is the enriched row of a selected booking, joined with its customer and its room type |
| RecordsService.LoadComplete | records_service.py:18-110 | Every selected booking whose customer and room type exist appears, enriched |
| RecordsService.RowChargesMatchBill | records_service.py:27-32 | A record row's charges are the room service's bill for the same price and nights |
| RecordsService.EnrichCarriesBill | records_service.py:27-32 | An enriched row's total is the bill total for its price and nights, and the sum of its three charges |
| RecordsService.LoadedRowsCarryBill | records_service.py:27-32 | Every loaded row has nights = check-out minus check-in, and a total equal to the bill for its price and nights |
| RecordsService.RowStatusText | records_service.py:33-103 | The status column is "Active", "Upcoming" or "Completed" for the three time filters, and the stored status for "all" |
| BillingConsistency.PaymentAmountIsRecordTotal | booking_service.py:242-256 | After a successful booking, the "all" records show the new booking as `active`, with a total equal to the amount of the payment written for it |
| Models.CustomerFromDb | models.py:13-17 | `from_db` puts each tuple component in its field |
| Models.CustomerFromStoredRow | models.py:13-17 | Reading a stored customer row back gives that customer, with its id |
| Models.BookingFromDb | models.py:29-39 | It succeeds exactly when both date texts parse. It keeps id, customer and room type, and leaves status unset |
| Models.BookingFromStoredRow | models.py:29-39 | Reading back a stored booking row, with its dates written by `to_string`, gives that booking |
| Models.Duration | models.py:41-44 | Duration is positive exactly when check-in is before check-out, and zero exactly when they are equal |
| Models.DurationIsBilledNights | models.py:41-44 | A booking's duration is the number of nights the room service bills |
| Models.NewRoom | models.py:46-52 | A room starts with capacity 20 and no bookings |
| Models.IsAvailable | models.py:54-57 | `is_available`: fewer current bookings than capacity. It has no contract of its own; NewRoomAvailable and RoomAgreesWithService state what it means |
| Models.NewRoomAvailable | models.py:54-57 | A new room is available. With n bookings it is available exactly when n < 20 |
| Models.RoomAgreesWithService | models.py:54-57 | A `Room` holding a room type's capacity and overlap count is available exactly when the room service says so |
| Models.NewPayment | models.py:59-66 | A new payment is "Pending", with no customer and no id |
| Models.PaymentFromDb | models.py:68-78 | `from_db` maps the 5-tuple in order |
| Models.PaymentRoundTrip | models.py:68-78 | `from_db` and the tuple of a stored payment are inverse to each other |
| PaymentFactory.AvailableMethods | payment_factory.py:128-131 | Four distinct method names |
| PaymentFactory.GetPaymentProcessor | payment_factory.py:113-126 | It succeeds exactly for the advertised names, with the processor of that name. Anything else fails with "Unsupported payment method: " and the name |
| PaymentFactory.MethodsAndProcessorsCorrespond | payment_factory.py:113-131 | The advertised list is the processors' names in the order Credit Card, Debit Card, Cash, UPI, and each name yields its own processor |
| PaymentFactory.ProcessPayment | payment_factory.py:63-103 | Every processor accepts every amount |
| PaymentFactory.PaymentFields | payment_factory.py:67-108 | Every method asks for at least one field, and its field keys are distinct |
| PaymentFactory.FieldKeys | payment_factory.py:67-108 | Debit Card's keys are Credit Card's (card number, expiry, CVV) plus bank name. Cash asks for the amount tendered, UPI for the UPI id |
| MainApp.Price | main_app.py:620-623 | Every menu item has a positive price |
| MainApp.ToggleItem | main_app.py:638-642 | `toggle_item` flips the item's membership and leaves every other item's membership alone. A duplicate-free selection stays duplicate-free |
| MainApp.DetachKeepsNoDuplicates | main_app.py:638-640 | Removing a selected item from a duplicate-free list removes its only occurrence |
| MainApp.ToggleTwice | main_app.py:638-642 | Toggling an item twice restores the selected set, and the very list when the item was not selected |
| MainApp.MenuTotal | main_app.py:644-645 | The bill is never negative, and it is zero exactly when nothing is selected |
| MainApp.MenuTotalAppend | main_app.py:645 | The bill of two selections together is the sum of their bills |
| MainApp.CalculateBill | main_app.py:644-646 | The loop computes the sum of the selected items' prices |
| MainApp.BillAfterRemove | main_app.py:638-646 | Removing a selected item lowers the bill by exactly its price |
| MainApp.BillAfterAdd | main_app.py:638-646 | Adding an unselected item raises the bill by exactly its price |
| MainApp.BillAfterToggle | main_app.py:638-646 | Toggling an item changes the bill by exactly its price, down if it was selected and up if not |
| MainApp.Revenue | main_app.py:392-412 | The loop computes the sum of the records' totals |
| MainApp.SumTotalsAppend | main_app.py:393-412 | The revenue of two record lists together is the sum of their revenues |
| MainApp.RemoveRow | main_app.py:393-412 | Taking one row out lowers the revenue by that row's total and removes one copy of the row |
| MainApp.RevenueIgnoresOrder | main_app.py:393-412 | Revenue does not depend on row order: permuted lists give the same sum |
| MainApp.RevenueOfLoad | main_app.py:390-412 | The revenue shown for a load is the sum over the joined rows, whatever order the sort produced |
| MainApp.FilterFor | main_app.py:377-386 | A strategy is chosen exactly for "all", "active", "upcoming" and "completed" |
| MainApp.FilterKeysRoundTrip | main_app.py:377-386 | The filter names and the strategies correspond one to one |
| MainApp.ChangeFilter | main_app.py:377-388 | A recognised filter installs its strategy and causes two loads. An unrecognised one keeps the strategy and causes one load. Every load runs the final strategy |
| MainApp.ProcessPaymentForm | main_app.py:497-533 | Checks run in order: an unparsable amount, an amount <= 0, no method, an unsupported method, a blank field. The payment is accepted exactly when all pass, with the selected method's processor |
| MainApp.FirstBlank | main_app.py:515-521 | It finds the first field whose stripped value is empty, and nothing when none is |
| MainApp.FilledFormAccepted | main_app.py:497-528 | A positive amount, an advertised method and every field of that method filled in are always accepted |

## Left out

- `database_service.py` is not part of this model. The store is an in-memory set of tables, and each failure of a store call is a `Faults` entry that raises with a message. Some store behaviour is therefore not modelled:
  - connection pooling;
  - the table DDL and default room-type seeding;
  - `created_at` timestamps;
  - `execute_query`/`fetch_query` swallowing sqlite statement errors and returning `None`.
- Swallowed statement errors in particular: with them, a failed customer insert lets `process_booking` continue with NULL ids, and it reports success. That path is not modelled.
- tkinter windows, message boxes, the `DateEntry` widgets and `get_form_data`'s stripping. The form's values come in as a `BookingRequest` whose optional fields mirror `dict.get`.
- Clocks. `date.today()` and SQLite's `date('now')` are the one parameter `today`. In the source, `date('now')` is UTC, so near midnight the two can differ by a day.
- `datetime` inputs to `validate_dates`, and their truncation to a date. Only calendar dates are modelled, so its "Date validation error" branch, which only a non-date value reaches, is not modelled.
- `StandardBookingProcess`, `set_booking_strategy` and `add_validation_strategy`. `booking_strategy` is stored but never invoked. The lemmas that take any list of strategies cover extra validators.
- Observers that raise, or that detach themselves while a notification is running. Observers are opaque identities compared by equality.
- Two database behaviours are taken as given: the SQL join picks the one customer and room type with the key, and rows with equal check-in dates come out in a fixed order. Under unique ids and names these choices are forced, except for the order of equal check-ins. The model keeps store order there, and the tie order is unconstrained in SQLite.
- `Payment.from_db` reads its second column as `customer_id`, although the payments table's second column is `booking_id`. The model keeps the source's field name; nothing in the source calls `from_db`.
- `PaymentWindow.process_payment` discards the entered field values after checking them. Its "Payment processing failed" branch is unreachable, because every processor returns True.
- RoomService.BillFor: exact `real` arithmetic, not IEEE doubles; `1.28 * x` and `x + 0.18 * x + 0.10 * x` can differ in the last bit in the source.
- RecordsService.RowWithCharges: exact `real` arithmetic, like the bill; the SQL computes in doubles with `julianday` differences.
- MainApp.Revenue: the exact sum, without the `:.2f` display rounding.
- MainApp.ProcessPaymentForm: the amount arrives already parsed as a `Result<real>` (the `float()` conversion and its error text are an input), and NaN or infinity are not modelled.
- MainApp.Price: menu items are a closed datatype, so the `KeyError` for an unknown item cannot arise.
- DateService.ToString: years below 1000 are zero-padded to four digits, as `date.isoformat` does. The C library's `strftime('%Y')` may not pad them.
- DateService.Strptime: only ASCII digits are accepted, where Python's `\d` also accepts other Unicode digits.
- MainApp.IsBlank: only ASCII whitespace counts as blank, where `str.strip()` also removes Unicode spaces.
- FieldTitles.TitleCases: only ASCII letters are cased, as in the field names that reach it.
