/** payment_service.py: the payment ledger (`_payments_db`) with its status
    rules, refunds, retries and listing, and the pure card checks. Payment
    and refund ids are parameters (generate_id is random). */
module PaymentService {
  import opened Common
  import opened Tables
  import opened Utils
  import opened Validators
  import opened Formatters
  import opened Models

  // ---------------------------------------------------------------------
  // Payment methods and the provider call

  const SupportedMethods: seq<string> := ["credit_card", "debit_card", "paypal", "bank_transfer"]

  /** validate_payment_method */
  predicate ValidatePaymentMethod(payMethod: string)
  {
    payMethod in SupportedMethods
  }

  /** The status process_payment and retry_failed_payment give a payment
      after execute_payment (retry_operation with three attempts). */
  function Executed(result: RetryResult): PaymentStatus
  {
    if result.Succeeded? then Completed else Failed
  }

  /** execute_payment: retry_operation("payment_<id>", 3), which succeeds
      on its first attempt. */
  method ExecutePayment(payment: Payment) returns (r: RetryResult)
    ensures r.Succeeded? && Executed(r) == Completed
  {
    r := RetryOperation("payment_" + payment.id, 3);
  }

  /** create_refund: a processed refund of the whole payment amount. */
  datatype Refund = Refund(id: string, paymentId: string, amount: int, reason: string, status: string)

  function CreateRefund(refundId: string, payment: Payment, reason: string): (r: Refund)
    ensures r.paymentId == payment.id && r.amount == payment.amount
    ensures r.id == refundId && r.reason == reason && r.status == "processed"
  {
    Refund(refundId, payment.id, payment.amount, reason, "processed")
  }

  // ---------------------------------------------------------------------
  // Listing

  function ForOrder(orderId: string): Payment -> bool
  {
    (p: Payment) => p.orderId == orderId
  }

  /** filter_by_order: the payments of one order, in order. */
  function FilterByOrder(payments: seq<Payment>, orderId: string): (r: seq<Payment>)
    ensures |r| <= |payments|
    ensures forall p :: p in r <==> p in payments && p.orderId == orderId
  {
    forall p ensures p in Filter(payments, ForOrder(orderId)) <==> p in payments && ForOrder(orderId)(p) {
      FilterMember(payments, ForOrder(orderId), p);
    }
    Filter(payments, ForOrder(orderId))
  }

  /** The body of list_payments: at most `limit` payments, and the size of
      the whole filtered list. */
  datatype PaymentPage = PaymentPage(payments: seq<Payment>, count: nat)

  // ---------------------------------------------------------------------
  // The ledger

  class PaymentLedger {
    /** _payments_db, in insertion order */
    var payments: Table<Payment>

    /** The table is well formed, each payment is stored under its own id,
        and no stored payment is still pending: process_payment stores a
        payment only after executing it. */
    ghost predicate Valid()
      reads this
    {
      && payments.Valid()
      && forall k :: k in payments.rows ==> payments.rows[k].id == k && payments.rows[k].status != PaymentPending
    }

    /** No stored payment has failed: since execute_payment succeeds on its
        first attempt, process_payment only ever stores completed payments. */
    ghost predicate NeverFailed()
      reads this
    {
      forall k :: k in payments.rows ==> payments.rows[k].status != Failed
    }

    constructor()
      ensures Valid() && NeverFailed() && payments == Empty()
    {
      payments := Empty();
    }

    /** get_payment_by_id */
    function GetPaymentById(paymentId: string): (r: Option<Payment>)
      reads this
      ensures r.Some? <==> paymentId in payments.rows
      ensures r.Some? ==> r.value == payments.rows[paymentId]
    {
      payments.Get(paymentId)
    }

    /** process_payment: amount, then currency, then method; an invalid one
        returns its error and stores nothing. Otherwise the payment is
        executed and stored as completed. */
    method ProcessPayment(orderId: string, amount: int, payMethod: string, currency: string, paymentId: string)
      returns (r: Response<Payment>)
      requires Valid()
      modifies this
      ensures Valid()
      ensures old(NeverFailed()) ==> NeverFailed()
      ensures !ValidateAmount(amount) ==> r == Fail("BAD_AMOUNT", "Invalid amount")
      ensures ValidateAmount(amount) && !ValidateCurrency(currency) ==> r == Fail("BAD_CURRENCY", "Invalid currency")
      ensures ValidateAmount(amount) && ValidateCurrency(currency) && !ValidatePaymentMethod(payMethod) ==>
                r == Fail("BAD_METHOD", "Unsupported payment method")
      ensures r.Ok? <==> ValidateAmount(amount) && ValidateCurrency(currency) && ValidatePaymentMethod(payMethod)
      ensures r.Error? ==> payments == old(payments)
      ensures r.Ok? ==>
                && r.data == CreatePaymentModel(paymentId, orderId, amount, payMethod).(status := Completed)
                && payments == old(payments).Put(paymentId, r.data)
    {
      if !ValidateAmount(amount) {
        return Fail("BAD_AMOUNT", "Invalid amount");
      }
      if !ValidateCurrency(currency) {
        return Fail("BAD_CURRENCY", "Invalid currency");
      }
      if !ValidatePaymentMethod(payMethod) {
        return Fail("BAD_METHOD", "Unsupported payment method");
      }
      var payment := CreatePaymentModel(paymentId, orderId, amount, payMethod);
      var result := ExecutePayment(payment);
      payment := payment.(status := Executed(result));
      payments := payments.Put(payment.id, payment);
      r := Ok(payment);
    }

    /** refund_payment: only a completed payment is refunded; it becomes
        refunded in place and the refund covers its whole amount. */
    method RefundPayment(paymentId: string, reason: string, refundId: string) returns (r: Response<Refund>)
      requires Valid()
      modifies this
      ensures Valid()
      ensures NeverFailed() == old(NeverFailed())
      ensures paymentId !in old(payments.rows) ==> r == Fail("NOT_FOUND", "Payment not found")
      ensures paymentId in old(payments.rows) && old(payments.rows)[paymentId].status != Completed ==>
                r == Fail("INVALID_STATE", "Can only refund completed payments")
      ensures r.Error? ==> payments == old(payments)
      ensures r.Ok? <==> paymentId in old(payments.rows) && old(payments.rows)[paymentId].status == Completed
      ensures r.Ok? ==>
                var p := old(payments.rows)[paymentId];
                && r.data == CreateRefund(refundId, p, reason)
                && payments == old(payments).Put(paymentId, p.(status := Refunded))
                && payments.keys == old(payments.keys)
    {
      var payment := GetPaymentById(paymentId);
      if payment.None? {
        return Fail("NOT_FOUND", "Payment not found");
      }
      if payment.value.status != Completed {
        return Fail("INVALID_STATE", "Can only refund completed payments");
      }
      var refund := CreateRefund(refundId, payment.value, reason);
      payments := payments.Put(paymentId, payment.value.(status := Refunded));
      r := Ok(refund);
    }

    /** retry_failed_payment: any payment that has not failed is refused
        and left as it is; a failed one is executed again and completes. */
    method RetryFailedPayment(paymentId: string) returns (r: Response<Payment>)
      requires Valid()
      modifies this
      ensures Valid()
      ensures paymentId !in old(payments.rows) ==> r == Fail("NOT_FOUND", "Payment not found")
      ensures paymentId in old(payments.rows) && old(payments.rows)[paymentId].status != Failed ==>
                r == Fail("INVALID_STATE", "Only failed payments can be retried")
      ensures r.Error? ==> payments == old(payments)
      ensures r.Ok? <==> paymentId in old(payments.rows) && old(payments.rows)[paymentId].status == Failed
      ensures r.Ok? ==>
                && r.data == old(payments.rows)[paymentId].(status := Completed)
                && payments == old(payments).Put(paymentId, r.data)
      ensures old(NeverFailed()) ==> r.Error? && payments == old(payments)
    {
      var payment := GetPaymentById(paymentId);
      if payment.None? {
        return Fail("NOT_FOUND", "Payment not found");
      }
      if payment.value.status != Failed {
        return Fail("INVALID_STATE", "Only failed payments can be retried");
      }
      var p := payment.value;
      var result := ExecutePayment(p);
      if result.Succeeded? {
        p := p.(status := Completed);
      }
      payments := payments.Put(paymentId, p);
      r := Ok(p);
    }

    /** The payments list_payments pages through: with a non-empty order id
        only that order's payments, otherwise all of them, in table order. */
    function Matching(orderId: Option<string>): seq<Payment>
      reads this
      requires Valid()
    {
      if orderId.Some? && orderId.value != "" then FilterByOrder(payments.Values(), orderId.value)
      else payments.Values()
    }

    /** list_payments: with a non-empty order id only that order's payments;
        the first `limit` of them and how many there are in all. */
    function ListPayments(orderId: Option<string>, limit: int): (r: PaymentPage)
      reads this
      requires Valid()
      ensures r.count == |Matching(orderId)|
      ensures |r.payments| <= r.count && r.payments == Matching(orderId)[..|r.payments|]
      ensures 0 <= limit ==> |r.payments| == if limit <= r.count then limit else r.count
      ensures limit < 0 ==> |r.payments| == if r.count + limit >= 0 then r.count + limit else 0
      ensures |r.payments| <= r.count <= |payments.keys|
      ensures forall p :: p in r.payments ==> p in payments.Values()
      ensures orderId.Some? && orderId.value != "" ==>
                r.count == |FilterByOrder(payments.Values(), orderId.value)| &&
                forall p :: p in r.payments ==> p.orderId == orderId.value
      ensures !(orderId.Some? && orderId.value != "") ==> r.count == |payments.keys|
    {
      var ps := Matching(orderId);
      PaymentPage(Take(ps, limit), |ps|)
    }
  }

  /** Every payment the ledger stores through process_payment completes, so
      a fresh ledger driven only by process_payment and refund_payment never
      holds a failed payment and retry_failed_payment always refuses. */
  method NoFailedPaymentsScenario(ledger: PaymentLedger, orderId: string, paymentId: string, refundId: string)
    returns (retried: Response<Payment>)
    requires ledger.Valid() && ledger.NeverFailed()
    modifies ledger
    ensures retried.Error?
  {
    var paid := ledger.ProcessPayment(orderId, 1000, "paypal", "usd", paymentId);
    assert ValidateCurrency("usd") by {
      assert UpperStr("usd") == "USD";
    }
    assert paid.Ok? && paid.data.status == Completed;
    var refunded := ledger.RefundPayment(paymentId, "", refundId);
    assert refunded.Ok?;
    retried := ledger.RetryFailedPayment(paymentId);
  }

  // ---------------------------------------------------------------------
  // Card checks

  /** s.replace(c, ""): s without any occurrence of c. */
  function Without(s: string, c: char): (r: string)
    ensures |r| <= |s|
  {
    if s == [] then [] else (if s[0] == c then [] else [s[0]]) + Without(s[1..], c)
  }

  /** What is left is every character of s other than c. */
  lemma {:induction false} WithoutMember(s: string, c: char)
    ensures forall x :: x in Without(s, c) <==> x in s && x != c
  {
    if s != [] {
      WithoutMember(s[1..], c);
      assert s == [s[0]] + s[1..];
    }
  }

  lemma {:induction false} WithoutAppend(a: string, b: string, c: char)
    ensures Without(a + b, c) == Without(a, c) + Without(b, c)
  {
    if a == [] {
      assert a + b == b;
    } else {
      assert (a + b)[0] == a[0];
      assert (a + b)[1..] == a[1..] + b;
      WithoutAppend(a[1..], b, c);
    }
  }

  lemma {:induction false} WithoutOnly(s: string, c: char)
    requires forall i :: 0 <= i < |s| ==> s[i] == c
    ensures Without(s, c) == []
  {
    if s != [] {
      WithoutOnly(s[1..], c);
    }
  }

  /** The digits check_card_number looks at: spaces and hyphens removed. */
  function CardDigits(number: string): string
  {
    Without(Without(number, ' '), '-')
  }

  /** check_card_number */
  predicate CheckCardNumber(number: string)
  {
    var digits := CardDigits(number);
    13 <= |digits| <= 19 && AllDigits(digits)
  }

  predicate IsCardChar(c: char)
  {
    IsDigit(c) || c == ' ' || c == '-'
  }

  lemma CardDigitsAppend(a: string, b: string)
    ensures CardDigits(a + b) == CardDigits(a) + CardDigits(b)
  {
    WithoutAppend(a, b, ' ');
    WithoutAppend(Without(a, ' '), Without(b, ' '), '-');
  }

  /** Removing separators leaves only digits exactly when the number has
      nothing but digits and separators. */
  lemma CardDigitsOnly(number: string)
    ensures (forall i :: 0 <= i < |CardDigits(number)| ==> IsDigit(CardDigits(number)[i])) <==>
            (forall i :: 0 <= i < |number| ==> IsCardChar(number[i]))
  {
    var d := CardDigits(number);
    WithoutMember(number, ' ');
    WithoutMember(Without(number, ' '), '-');
    assert forall x :: x in d <==> x in number && x != ' ' && x != '-';
    if forall i :: 0 <= i < |d| ==> IsDigit(d[i]) {
      forall i | 0 <= i < |number| ensures IsCardChar(number[i]) {
        if number[i] != ' ' && number[i] != '-' {
          assert number[i] in d;
        }
      }
    } else {
      var i :| 0 <= i < |d| && !IsDigit(d[i]);
      assert d[i] in number;
      var j :| 0 <= j < |number| && number[j] == d[i];
      assert !IsCardChar(number[j]);
    }
  }

  /** ... and what is left then is the number's digits. */
  lemma {:induction false} CardDigitsAreDigits(number: string)
    requires forall i :: 0 <= i < |number| ==> IsCardChar(number[i])
    ensures CardDigits(number) == DigitsOf(number)
  {
    if number != [] {
      var rest := number[1..];
      assert number == [number[0]] + rest;
      CardDigitsAppend([number[0]], rest);
      CardDigitsAreDigits(rest);
    }
  }

  /** check_card_number, independently: a number is accepted exactly when
      it consists of digits, spaces and hyphens only and has 13 to 19
      digits. */
  lemma CheckCardNumberMeans(number: string)
    ensures CheckCardNumber(number) <==>
              (forall i :: 0 <= i < |number| ==> IsCardChar(number[i])) && 13 <= |DigitsOf(number)| <= 19
  {
    CardDigitsOnly(number);
    if forall i :: 0 <= i < |number| ==> IsCardChar(number[i]) {
      CardDigitsAreDigits(number);
    }
  }

  lemma CardDigitsSeparator(a: string, b: string, sep: char)
    requires sep == ' ' || sep == '-'
    ensures CardDigits(a + [sep] + b) == CardDigits(a + b)
  {
    CardDigitsAppend(a + [sep], b);
    CardDigitsAppend(a, [sep]);
    CardDigitsAppend(a, b);
    assert Without([sep], ' ') == if sep == ' ' then [] else [sep];
    assert CardDigits([sep]) == [];
  }

  /** A space or hyphen anywhere in the number does not change the verdict. */
  lemma CardNumberSeparator(a: string, b: string, sep: char)
    requires sep == ' ' || sep == '-'
    ensures CheckCardNumber(a + [sep] + b) == CheckCardNumber(a + b)
  {
    CardDigitsSeparator(a, b, sep);
  }

  /** check_expiry */
  predicate CheckExpiry(expiry: string)
  {
    var parts := Split(expiry, '/');
    |parts| == 2 && AllDigits(parts[0]) && AllDigits(parts[1])
  }

  /** An accepted expiry is two digit runs around one "/". */
  lemma ExpiryShape(expiry: string)
    requires CheckExpiry(expiry)
    ensures var parts := Split(expiry, '/');
            expiry == parts[0] + "/" + parts[1] && AllDigits(parts[0]) && AllDigits(parts[1])
  {
    SplitJoin(expiry, '/');
  }

  /** Any two digit runs around one "/" are accepted. */
  lemma ExpiryAccepts(month: string, year: string)
    requires AllDigits(month) && AllDigits(year)
    ensures CheckExpiry(month + "/" + year)
  {
    assert '/' !in month && '/' !in year;
    JoinSplit([month, year], '/');
    assert JoinChar([month, year], '/') == month + "/" + year;
  }

  /** detect_card_type: only spaces are removed before the prefix test. */
  function DetectCardType(number: string): (r: string)
    ensures var d := Without(number, ' ');
            && (r == "visa" <==> |d| > 0 && d[0] == '4')
            && (r == "mastercard" <==> |d| > 0 && d[0] == '5')
            && (r == "unknown" <==> !(|d| > 0 && (d[0] == '4' || d[0] == '5')))
  {
    var digits := Without(number, ' ');
    if StartsWith(digits, "4") then "visa"
    else if StartsWith(digits, "5") then "mastercard"
    else "unknown"
  }

  /** Leading spaces do not change the card type. */
  lemma DetectIgnoresSpaces(spaces: string, number: string)
    requires forall i :: 0 <= i < |spaces| ==> spaces[i] == ' '
    ensures DetectCardType(spaces + number) == DetectCardType(number)
  {
    WithoutAppend(spaces, number, ' ');
    WithoutOnly(spaces, ' ');
  }

  datatype CardCheck = CardCheck(valid: bool, cardType: string)

  /** validate_card */
  function ValidateCard(cardNumber: string, expiry: string, cvv: string): (r: CardCheck)
    ensures r.valid ==> CheckCardNumber(cardNumber) && CheckExpiry(expiry) && (|cvv| == 3 || |cvv| == 4)
    ensures CheckCardNumber(cardNumber) && CheckExpiry(expiry) && (|cvv| == 3 || |cvv| == 4) ==> r.valid
    ensures r.cardType in {"visa", "mastercard", "unknown"}
    ensures r.cardType == DetectCardType(cardNumber)
    ensures var d := Without(cardNumber, ' ');
            && (r.cardType == "visa" <==> |d| > 0 && d[0] == '4')
            && (r.cardType == "mastercard" <==> |d| > 0 && d[0] == '5')
  {
    CardCheck(CheckCardNumber(cardNumber) && CheckExpiry(expiry) && |cvv| in {3, 4}, DetectCardType(cardNumber))
  }
}
