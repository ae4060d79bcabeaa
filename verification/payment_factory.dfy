/** payment_factory.py: the four payment processors, the form fields
    each asks for, and the factory that picks one by its method name. */
module PaymentFactory {
  import opened Wrappers

  datatype Processor = CreditCard | DebitCard | Cash | Upi

  /** The key under which the factory's dictionary holds each processor. */
  function MethodName(p: Processor): string {
    match p
    case CreditCard => "Credit Card"
    case DebitCard => "Debit Card"
    case Cash => "Cash"
    case Upi => "UPI"
  }

  /** `get_available_methods`. */
  function AvailableMethods(): (r: seq<string>)
    ensures |r| == 4
    ensures forall i, j | 0 <= i < j < |r| :: r[i] != r[j]
  {
    ["Credit Card", "Debit Card", "Cash", "UPI"]
  }

  const UnsupportedPrefix := "Unsupported payment method: "

  /** `get_payment_processor`: the processor registered under the name,
      or the `ValueError` it raises for any other text. */
  function GetPaymentProcessor(paymentMethod: string): (r: Result<Processor>)
    ensures r.Success? <==> paymentMethod in AvailableMethods()
    ensures r.Success? ==> MethodName(r.value) == paymentMethod
    ensures r.Failure? ==> r.error == UnsupportedPrefix + paymentMethod
  {
    if paymentMethod == "Credit Card" then Success(CreditCard)
    else if paymentMethod == "Debit Card" then Success(DebitCard)
    else if paymentMethod == "Cash" then Success(Cash)
    else if paymentMethod == "UPI" then Success(Upi)
    else Failure(UnsupportedPrefix + paymentMethod)
  }

  /** Every listed method names exactly one processor, in the listed
      order, and looking a processor up by its name finds it. */
  lemma MethodsAndProcessorsCorrespond(p: Processor)
    ensures GetPaymentProcessor(MethodName(p)) == Success(p)
    ensures MethodName(p) in AvailableMethods()
    ensures AvailableMethods() == [MethodName(CreditCard), MethodName(DebitCard), MethodName(Cash), MethodName(Upi)]
  {
  }

  /** `process_payment`: every processor is a stub that accepts any amount. */
  function ProcessPayment(p: Processor, amount: real): (ok: bool)
    ensures ok
  {
    true
  }

  /** `get_payment_fields`: (field id, label) pairs in dictionary order. */
  function PaymentFields(p: Processor): (r: seq<(string, string)>)
    ensures |r| >= 1
    ensures forall i, j | 0 <= i < j < |r| :: r[i].0 != r[j].0
  {
    match p
    case CreditCard => CardFields
    case DebitCard => CardFields + [("bank_name", "Bank Name")]
    case Cash => [("amount_tendered", "Amount Tendered")]
    case Upi => [("upi_id", "UPI ID")]
  }

  const CardFields: seq<(string, string)> := [("card_number", "Card Number"), ("expiry_date", "MM/YY"), ("cvv", "CVV")]

  function FieldIds(fields: seq<(string, string)>): (ids: seq<string>)
    ensures |ids| == |fields| && forall i | 0 <= i < |fields| :: ids[i] == fields[i].0
  {
    seq(|fields|, i requires 0 <= i < |fields| => fields[i].0)
  }

  /** A debit card asks for what a credit card asks for and the bank's
      name; cash asks only for the amount tendered, UPI only for the id. */
  lemma FieldKeys()
    ensures FieldIds(PaymentFields(CreditCard)) == ["card_number", "expiry_date", "cvv"]
    ensures FieldIds(PaymentFields(DebitCard)) == FieldIds(PaymentFields(CreditCard)) + ["bank_name"]
    ensures FieldIds(PaymentFields(Cash)) == ["amount_tendered"]
    ensures FieldIds(PaymentFields(Upi)) == ["upi_id"]
  {
  }
}
