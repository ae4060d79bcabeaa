/** The non-widget logic of main_app.py: the restaurant menu's selection
    and bill, the revenue total of the records window, its filter
    buttons, and the order of the payment form's checks. */
module MainApp {
  import opened Wrappers
  import opened Calendar
  import opened Persistence
  import opened Observers
  import opened RecordsService
  import opened PaymentFactory

  // ----- Restaurant menu -----

  /** The keys of `RestaurantMenuWindow.items`. */
  datatype MenuItem = Tea | Coffee | Sandwich | Burger | Pizza

  /** `self.items[item]`, in rupees. */
  function Price(item: MenuItem): (p: int)
    ensures p > 0
  {
    match item
    case Tea => 20
    case Coffee => 25
    case Sandwich => 70
    case Burger => 50
    case Pizza => 150
  }

  predicate NoDuplicates(s: seq<MenuItem>) {
    forall i, j | 0 <= i < j < |s| :: s[i] != s[j]
  }

  /** `toggle_item`: `selected_items.remove(item)` when it is selected,
      `append(item)` otherwise. */
  function ToggleItem(selected: seq<MenuItem>, item: MenuItem): (r: seq<MenuItem>)
    ensures item in r <==> item !in selected || multiset(selected)[item] > 1
    ensures forall x | x != item :: x in r <==> x in selected
    ensures NoDuplicates(selected) ==> NoDuplicates(r) && (item in r <==> item !in selected)
  {
    match Detach(selected, item)
    case None => Attach(selected, item)
    case Some(rest) =>
      DetachMembership(selected, item);
      if NoDuplicates(selected) then
        DetachKeepsNoDuplicates(selected, item);
        rest
      else
        rest
  }

  /** Removing the only copy of an item from a duplicate-free list. */
  lemma DetachKeepsNoDuplicates(selected: seq<MenuItem>, item: MenuItem)
    requires NoDuplicates(selected) && item in selected
    ensures Detach(selected, item).Some?
    ensures NoDuplicates(Detach(selected, item).value)
    ensures multiset(selected)[item] == 1
  {
    var i := IndexOf(selected, item);
    var rest := Detach(selected, item).value;
    assert rest == selected[..i] + selected[i + 1..];
    assert forall k | 0 <= k < |rest| :: rest[k] == if k < i then selected[k] else selected[k + 1];
    assert selected == selected[..i] + [item] + selected[i + 1..];
    assert item !in selected[..i];
    assert forall k | i + 1 <= k < |selected| :: selected[k] != item;
    assert item !in selected[i + 1..];
  }

  /** Toggling the same item twice gives back the same selection, as a
      set: exactly the original list when the item was not selected, a
      reordering of it when it was. */
  lemma ToggleTwice(selected: seq<MenuItem>, item: MenuItem)
    requires NoDuplicates(selected)
    ensures forall x :: x in ToggleItem(ToggleItem(selected, item), item) <==> x in selected
    ensures item !in selected ==> ToggleItem(ToggleItem(selected, item), item) == selected
  {
    if item !in selected {
      DetachUndoesAttach(selected, item);
    }
  }

  /** The bill of a selection: the sum of its prices. */
  function MenuTotal(selected: seq<MenuItem>): (t: int)
    ensures t >= 0
    ensures |selected| == 0 <==> t == 0
  {
    if |selected| == 0 then 0 else Price(selected[0]) + MenuTotal(selected[1..])
  }

  lemma {:induction false} MenuTotalAppend(a: seq<MenuItem>, b: seq<MenuItem>)
    ensures MenuTotal(a + b) == MenuTotal(a) + MenuTotal(b)
    decreases |a|
  {
    if |a| > 0 {
      assert (a + b)[0] == a[0] && (a + b)[1..] == a[1..] + b;
      MenuTotalAppend(a[1..], b);
    } else {
      assert a + b == b;
    }
  }

  /** `calculate_bill`: the sum of the selected items' prices, kept as the
      selection changes: toggling an item on adds its price, toggling it
      off takes it away. */
  method CalculateBill(selected: seq<MenuItem>) returns (total: int)
    ensures total == MenuTotal(selected)
  {
    total := 0;
    var i := 0;
    while i < |selected|
      invariant 0 <= i <= |selected|
      invariant total == MenuTotal(selected[..i])
    {
      MenuTotalAppend(selected[..i], [selected[i]]);
      assert selected[..i + 1] == selected[..i] + [selected[i]];
      total := total + Price(selected[i]);
      i := i + 1;
    }
    assert selected[..|selected|] == selected;
  }

  /** The bill of a list with one item taken out of the middle. */
  lemma {:induction false} MenuTotalSplit(a: seq<MenuItem>, item: MenuItem, b: seq<MenuItem>)
    ensures MenuTotal(a + [item] + b) == MenuTotal(a + b) + Price(item)
  {
    MenuTotalAppend(a, [item] + b);
    assert MenuTotal([item] + b) == Price(item) + MenuTotal(b) by {
      assert ([item] + b)[1..] == b;
    }
    MenuTotalAppend(a, b);
    assert a + [item] + b == a + ([item] + b);
  }

  /** What `toggle_item` leaves when the item was selected. */
  lemma ToggleRemoves(selected: seq<MenuItem>, item: MenuItem)
    requires item in selected
    ensures ToggleItem(selected, item)
              == selected[..IndexOf(selected, item)] + selected[IndexOf(selected, item) + 1..]
  {
  }

  lemma BillAfterToggle(selected: seq<MenuItem>, item: MenuItem)
    requires NoDuplicates(selected)
    ensures MenuTotal(ToggleItem(selected, item))
              == if item in selected then MenuTotal(selected) - Price(item) else MenuTotal(selected) + Price(item)
  {
    if item in selected {
      BillAfterRemove(selected, item);
    } else {
      BillAfterAdd(selected, item);
    }
  }

  lemma SplitAt<T>(s: seq<T>, i: nat)
    requires i < |s|
    ensures s == s[..i] + [s[i]] + s[i + 1..]
  {
  }

  lemma BillAfterRemove(selected: seq<MenuItem>, item: MenuItem)
    requires item in selected
    ensures MenuTotal(ToggleItem(selected, item)) == MenuTotal(selected) - Price(item)
  {
    var i := IndexOf(selected, item);
    var a, b := selected[..i], selected[i + 1..];
    ToggleRemoves(selected, item);
    SplitAt(selected, i);
    MenuTotalSplit(a, item, b);
  }

  lemma BillAfterAdd(selected: seq<MenuItem>, item: MenuItem)
    requires item !in selected
    ensures MenuTotal(ToggleItem(selected, item)) == MenuTotal(selected) + Price(item)
  {
    MenuTotalAppend(selected, [item]);
  }

  // ----- Records window -----

  /** The sum of the `total` column. */
  function SumTotals(records: seq<RecordRow>): real {
    if |records| == 0 then 0.0 else SumTotals(records[..|records| - 1]) + records[|records| - 1].total
  }

  /** `RecordsWindow.update`: the "Total Revenue" it shows. */
  method Revenue(records: seq<RecordRow>) returns (total: real)
    ensures total == SumTotals(records)
  {
    total := 0.0;
    var i := 0;
    while i < |records|
      invariant 0 <= i <= |records|
      invariant total == SumTotals(records[..i])
    {
      assert records[..i + 1][..i] == records[..i];
      total := total + records[i].total;
      i := i + 1;
    }
    assert records[..|records|] == records;
  }

  lemma {:induction false} SumTotalsAppend(a: seq<RecordRow>, b: seq<RecordRow>)
    ensures SumTotals(a + b) == SumTotals(a) + SumTotals(b)
    decreases |b|
  {
    if |b| > 0 {
      assert (a + b)[..|a + b| - 1] == a + b[..|b| - 1];
      assert (a + b)[|a + b| - 1] == b[|b| - 1];
      SumTotalsAppend(a, b[..|b| - 1]);
    } else {
      assert a + b == a;
    }
  }

  lemma SumTotalsMiddle(l: seq<RecordRow>, x: RecordRow, r: seq<RecordRow>)
    ensures SumTotals(l + [x] + r) == SumTotals(l + r) + x.total
  {
    SumTotalsAppend(l + [x], r);
    SumTotalsAppend(l, [x]);
    SumTotalsAppend(l, r);
    assert SumTotals([x]) == x.total by {
      assert [x][..0] == [];
    }
  }

  /** Taking row `k` out of a list takes its total out of the sum and
      one copy of it out of the multiset. */
  lemma RemoveRow(b: seq<RecordRow>, k: nat)
    requires k < |b|
    ensures SumTotals(b[..k] + b[k + 1..]) == SumTotals(b) - b[k].total
    ensures multiset(b[..k] + b[k + 1..]) == multiset(b) - multiset{b[k]}
  {
    var l, x, r := b[..k], b[k], b[k + 1..];
    SplitAt(b, k);
    SumTotalsMiddle(l, x, r);
    assert multiset(b) == multiset(l) + multiset{x} + multiset(r);
  }

  /** The revenue does not depend on the order of the rows, so the
      `ORDER BY` of the strategies does not change it. */
  lemma {:induction false} RevenueIgnoresOrder(a: seq<RecordRow>, b: seq<RecordRow>)
    requires multiset(a) == multiset(b)
    ensures SumTotals(a) == SumTotals(b)
    decreases |a|
  {
    if |a| > 0 {
      var x := a[|a| - 1];
      var init := a[..|a| - 1];
      assert a == init + [x];
      assert multiset(init) == multiset(a) - multiset{x};
      assert x in multiset(b);
      var k :| 0 <= k < |b| && b[k] == x;
      RemoveRow(b, k);
      RevenueIgnoresOrder(init, b[..k] + b[k + 1..]);
    } else {
      assert b == [];
    }
  }

  /** The revenue of a load is the revenue of the joined rows before sorting. */
  lemma RevenueOfLoad(s: Store, faults: Faults, f: RecordFilter, today: ValidDate)
    requires RecordsFetch !in faults
    ensures SumTotals(Load(s, faults, f, today)) == SumTotals(Matches(s, f, today, s.bookings))
  {
    RevenueIgnoresOrder(Load(s, faults, f, today), Matches(s, f, today, s.bookings));
  }

  /** The filter buttons' keys. */
  function FilterFor(filterType: string): (r: Option<RecordFilter>)
    ensures r.Some? <==> filterType in ["all", "active", "upcoming", "completed"]
  {
    match filterType
    case "all" => Some(AllRecords)
    case "active" => Some(ActiveRecords)
    case "upcoming" => Some(UpcomingRecords)
    case "completed" => Some(CompletedRecords)
    case _ => None
  }

  function FilterKey(f: RecordFilter): string {
    match f
    case AllRecords => "all"
    case ActiveRecords => "active"
    case UpcomingRecords => "upcoming"
    case CompletedRecords => "completed"
  }

  /** Each button selects its own strategy. */
  lemma FilterKeysRoundTrip(f: RecordFilter, filterType: string)
    ensures FilterFor(FilterKey(f)) == Some(f)
    ensures FilterFor(filterType).Some? ==> FilterKey(FilterFor(filterType).value) == filterType
  {
  }

  /** `change_filter`: a recognised key installs its strategy through
      `set_strategy`, which loads once, and then `load_records` loads
      again; any other key only loads with the current strategy. Each
      load is one round of notifications. */
  function ChangeFilter(st: RecordsState, filterType: string, s: Store, faults: Faults, today: ValidDate)
    : (r: (RecordsState, seq<seq<Delivery<ObserverRef, seq<RecordRow>>>>))
    ensures r.0.observers == st.observers
    ensures r.0.strategy == if FilterFor(filterType).Some? then FilterFor(filterType).value else st.strategy
    ensures |r.1| == if FilterFor(filterType).Some? then 2 else 1
    ensures forall k | 0 <= k < |r.1| :: r.1[k] == LoadRecords(r.0, s, faults, today)
  {
    match FilterFor(filterType)
    case Some(f) =>
      var (st', first) := SetStrategy(st, f, s, faults, today);
      (st', [first, LoadRecords(st', s, faults, today)])
    case None => (st, [LoadRecords(st, s, faults, today)])
  }

  // ----- Payment form -----

  const AmountNotPositive := "Amount must be greater than 0"
  const SelectPaymentMethod := "Please select a payment method"
  const FillAllFields := "Please fill in all fields"
  const PaymentFailed := "Payment processing failed"

  /** What the payment window shows: an error box, or the success box
      after the processor accepted. Nothing is written to the store. */
  datatype PaymentOutcome = PaymentRejected(message: string) | PaymentAccepted(processor: Processor)

  /** The characters `str.strip()` removes, on ASCII text. */
  predicate IsSpace(c: char) {
    c == ' ' || c == '\t' || c == '\n' || c == '\r' || c == '\U{000B}' || c == '\U{000C}'
  }

  /** `not entry.get().strip()`. */
  predicate IsBlank(text: string) {
    forall i | 0 <= i < |text| :: IsSpace(text[i])
  }

  /** `PaymentWindow.process_payment`. `amount` is `float(amount_text)`,
      whose `ValueError` text is a `Failure`; `entries` are the method's
      field entries as (field id, text), in order. */
  function ProcessPaymentForm(amount: Result<real>, paymentMethod: string, entries: seq<(string, string)>)
    : (r: PaymentOutcome)
    ensures amount.Failure? ==> r == PaymentRejected(amount.error)
    ensures amount.Success? && amount.value <= 0.0 ==> r == PaymentRejected(AmountNotPositive)
    ensures amount.Success? && amount.value > 0.0 && paymentMethod == "" ==> r == PaymentRejected(SelectPaymentMethod)
    ensures amount.Success? && amount.value > 0.0 && paymentMethod != "" && paymentMethod !in AvailableMethods() ==>
              r == PaymentRejected(UnsupportedPrefix + paymentMethod)
    ensures amount.Success? && amount.value > 0.0 && paymentMethod in AvailableMethods()
            && (exists i | 0 <= i < |entries| :: IsBlank(entries[i].1)) ==>
              r == PaymentRejected(FillAllFields)
    ensures r.PaymentAccepted? <==>
              && amount.Success? && amount.value > 0.0 && paymentMethod in AvailableMethods()
              && forall i | 0 <= i < |entries| :: !IsBlank(entries[i].1)
    ensures r.PaymentAccepted? ==> MethodName(r.processor) == paymentMethod
  {
    match amount
    case Failure(e) => PaymentRejected(e)
    case Success(a) =>
      if a <= 0.0 then PaymentRejected(AmountNotPositive)
      else if paymentMethod == "" then PaymentRejected(SelectPaymentMethod)
      else match GetPaymentProcessor(paymentMethod)
        case Failure(e) => PaymentRejected(e)
        case Success(p) =>
          if FirstBlank(entries).Some? then PaymentRejected(FillAllFields)
          else if ProcessPayment(p, a) then PaymentAccepted(p)
          else PaymentRejected(PaymentFailed)
  }

  /** Index of the first entry whose text is blank. */
  function FirstBlank(entries: seq<(string, string)>): (r: Option<nat>)
    ensures r.None? <==> forall i | 0 <= i < |entries| :: !IsBlank(entries[i].1)
    ensures r.Some? ==> r.value < |entries| && IsBlank(entries[r.value].1)
                        && forall i | 0 <= i < r.value :: !IsBlank(entries[i].1)
  {
    if |entries| == 0 then None
    else if IsBlank(entries[0].1) then Some(0)
    else match FirstBlank(entries[1..])
      case None => None
      case Some(k) => Some(k + 1)
  }

  /** A form filled in for a listed method with a positive amount is
      accepted by that method's processor. */
  lemma FilledFormAccepted(p: Processor, a: real, values: seq<string>)
    requires a > 0.0 && |values| == |PaymentFields(p)|
    requires forall i | 0 <= i < |values| :: !IsBlank(values[i])
    ensures var entries := seq(|values|, i requires 0 <= i < |values| => (PaymentFields(p)[i].0, values[i]));
            ProcessPaymentForm(Success(a), MethodName(p), entries) == PaymentAccepted(p)
  {
    MethodsAndProcessorsCorrespond(p);
  }
}
