/** The payment page (app/payment/page.tsx): the hard-coded voucher check behind "Apply" and
    the order record written on "Confirm". */
module Payment {
  import opened Wrappers
  import opened Text
  import opened Clock
  import Checkout

  // ---------------------------------------------------------------------------------------
  // `handleApplyVoucher`
  // ---------------------------------------------------------------------------------------

  /** Local 2026-01-31T23:59:59: day 20488 counted from Sunday 1969-12-28 (1970-01-01 is
      day 4, and 2026-01-31 comes 20484 days later). */
  const VoucherExpiry: int := At(20488, 23, 59, 59)

  const CodePrefix: string := "2025-"

  /** The codes already redeemed. */
  const UsedVouchers: seq<string> := ["2025-22", "2025-50"]

  /** The flat discount a valid code gives. */
  const VoucherDiscount: real := 50.0

  datatype VoucherOutcome = Expired | BadFormat | OutOfRange | AlreadyUsed | Applied

  /** `/^2025-(\d{2,3})$/`: the prefix followed by two or three digits and nothing else. */
  predicate MatchesCodePattern(code: string) {
    (|code| == 7 || |code| == 8) && code[..5] == CodePrefix && AllDigits(code[5..])
  }

  /** The suffix a number must be written with: two digits, zero-padded, below 10, and its
      plain decimal numeral from 10 on. */
  function ExpectedSuffix(n: nat): (s: string)
    ensures AllDigits(s) && ParseDigits(s) == n
    ensures 1 <= n <= 100 ==> 2 <= |s| <= 3
  {
    DigitCountRanges(n);
    if n < 10 then
      ZeroPrefix(Decimal(n));
      "0" + Decimal(n)
    else Decimal(n)
  }

  /** Both used codes are well-formed, in range and canonically written, so only the used
      list refuses them. */
  lemma UsedVouchersCanonical()
    ensures forall u :: u in UsedVouchers ==> MatchesCodePattern(u) && 1 <= ParseDigits(u[5..]) <= 100
                                              && u[5..] == ExpectedSuffix(ParseDigits(u[5..]))
  {
    assert UsedVouchers[0][..5] == CodePrefix && UsedVouchers[0][5..] == "22";
    assert ParseDigits("22") == 22 by { assert "22"[..1] == "2"; }
    assert Decimal(22) == "22";
    assert UsedVouchers[1][..5] == CodePrefix && UsedVouchers[1][5..] == "50";
    assert ParseDigits("50") == 50 by { assert "50"[..1] == "5"; }
    assert Decimal(50) == "50";
  }

  /** The checks in the order `handleApplyVoucher` makes them, the first failure deciding:
      the expiry (before anything else), the pattern, the range 1..100 of the number, the
      canonical writing of the number, the used list. */
  function CheckVoucher(code: string, now: int): (r: VoucherOutcome)
    ensures now > VoucherExpiry ==> r == Expired
    ensures now <= VoucherExpiry && !MatchesCodePattern(code) ==> r == BadFormat
    ensures now <= VoucherExpiry && MatchesCodePattern(code) && !(1 <= ParseDigits(code[5..]) <= 100)
            ==> r == OutOfRange
    ensures now <= VoucherExpiry && MatchesCodePattern(code) && 1 <= ParseDigits(code[5..]) <= 100 &&
            code[5..] != ExpectedSuffix(ParseDigits(code[5..]))
            ==> r == BadFormat
    ensures now <= VoucherExpiry && code in UsedVouchers ==> r == AlreadyUsed
    ensures r == Applied ==> code !in UsedVouchers && MatchesCodePattern(code)
  {
    if now > VoucherExpiry then Expired
    else
      UsedVouchersCanonical();
      if !MatchesCodePattern(code) then BadFormat
      else
        var suffix := code[5..];
        var num := ParseDigits(suffix);
        if num < 1 || num > 100 then OutOfRange
        else if suffix != ExpectedSuffix(num) then BadFormat
        else if code in UsedVouchers then AlreadyUsed
        else Applied
  }

  /** An accepted code is the prefix followed by the canonical writing of its number. */
  lemma AcceptedCodeShape(code: string, now: int) returns (n: nat)
    requires CheckVoucher(code, now) == Applied
    ensures 1 <= n <= 100 && n != 22 && n != 50 && code == CodePrefix + ExpectedSuffix(n)
  {
    n := ParseDigits(code[5..]);
    assert code == CodePrefix + code[5..];
    assert code[5..] == ExpectedSuffix(n);
    assert ExpectedSuffix(22) == "22" && ExpectedSuffix(50) == "50";
    assert CodePrefix + "22" == UsedVouchers[0] && CodePrefix + "50" == UsedVouchers[1];
  }

  /** Before the expiry, the canonical writing of a number from 1 to 100 other than the used
      ones is accepted. */
  lemma CanonicalCodeAccepted(n: nat, now: int)
    requires now <= VoucherExpiry
    requires 1 <= n <= 100 && n != 22 && n != 50
    ensures CheckVoucher(CodePrefix + ExpectedSuffix(n), now) == Applied
  {
    var suffix := ExpectedSuffix(n);
    var code := CodePrefix + suffix;
    assert code[..5] == CodePrefix && code[5..] == suffix;
    assert MatchesCodePattern(code);
  }

  /** Before the expiry, a code is accepted exactly when it is "2025-" followed by the
      canonical writing of a number from 1 to 100 other than 22 and 50. */
  lemma VoucherAcceptedIff(code: string, now: int)
    requires now <= VoucherExpiry
    ensures CheckVoucher(code, now) == Applied
            <==> exists n: nat :: 1 <= n <= 100 && n != 22 && n != 50 && code == CodePrefix + ExpectedSuffix(n)
  {
    if CheckVoucher(code, now) == Applied {
      var n := AcceptedCodeShape(code, now);
    }
    if exists n: nat :: 1 <= n <= 100 && n != 22 && n != 50 && code == CodePrefix + ExpectedSuffix(n) {
      var n: nat :| 1 <= n <= 100 && n != 22 && n != 50 && code == CodePrefix + ExpectedSuffix(n);
      CanonicalCodeAccepted(n, now);
    }
  }

  /** Padded writings are refused as a bad format, short and three-digit ones accepted. */
  lemma PaddedCodesRefused(now: int)
    requires now <= VoucherExpiry
    ensures CheckVoucher("2025-005", now) == BadFormat
    ensures CheckVoucher("2025-010", now) == BadFormat
  {
    assert "2025-005"[..5] == CodePrefix && "2025-005"[5..] == "005";
    assert ParseDigits("005") == 5 by { assert "005"[..2] == "00" && "00"[..1] == "0"; }
    assert "2025-010"[..5] == CodePrefix && "2025-010"[5..] == "010";
    assert ParseDigits("010") == 10 by { assert "010"[..2] == "01" && "01"[..1] == "0"; }
    assert Decimal(10) == "10";
  }

  lemma CanonicalCodesAccepted(now: int)
    requires now <= VoucherExpiry
    ensures CheckVoucher("2025-05", now) == Applied
    ensures CheckVoucher("2025-100", now) == Applied
  {
    CanonicalCodeAccepted(5, now);
    assert "2025-05" == CodePrefix + ExpectedSuffix(5);
    CanonicalCodeAccepted(100, now);
    assert Decimal(100) == "100";
    assert "2025-100" == CodePrefix + ExpectedSuffix(100);
  }

  /** Both codes of the used list are refused as used. */
  lemma UsedCodeRefused(now: int)
    requires now <= VoucherExpiry
    ensures CheckVoucher("2025-22", now) == AlreadyUsed
    ensures CheckVoucher("2025-50", now) == AlreadyUsed
  {
    assert "2025-22"[..5] == CodePrefix && "2025-22"[5..] == "22";
    assert ParseDigits("22") == 22 by { assert "22"[..1] == "2"; }
    assert Decimal(22) == "22";
    assert "2025-50"[..5] == CodePrefix && "2025-50"[5..] == "50";
    assert ParseDigits("50") == 50 by { assert "50"[..1] == "5"; }
    assert Decimal(50) == "50";
  }

  /** Number 0 is outside 1..100, even written with three digits. */
  lemma ZeroCodeRefused(now: int)
    requires now <= VoucherExpiry
    ensures CheckVoucher("2025-000", now) == OutOfRange
  {
    assert "2025-000"[..5] == CodePrefix && "2025-000"[5..] == "000";
    assert ParseDigits("000") == 0 by { assert "000"[..2] == "00" && "00"[..1] == "0"; }
  }

  datatype MessageKind = Error | Success
  datatype VoucherMessage = VoucherMessage(kind: MessageKind, text: string)

  function MessageFor(outcome: VoucherOutcome): VoucherMessage {
    match outcome
    case Expired => VoucherMessage(Error, "This voucher has expired.")
    case BadFormat => VoucherMessage(Error, "Invalid voucher code format.")
    case OutOfRange => VoucherMessage(Error, "Invalid voucher code.")
    case AlreadyUsed => VoucherMessage(Error, "This voucher has already been used.")
    case Applied => VoucherMessage(Success, "Voucher applied! ₱50.00 off.")
  }

  /** The page's voucher state. */
  class PaymentPage {
    var voucherCode: string
    var discount: real
    var voucherMessage: Option<VoucherMessage>

    /** The discount is never anything but nothing or the flat voucher discount. */
    predicate Valid()
      reads this
    {
      discount == 0.0 || discount == VoucherDiscount
    }

    constructor ()
      ensures voucherCode == "" && discount == 0.0 && voucherMessage == None
      ensures Valid()
    {
      voucherCode := "";
      discount := 0.0;
      voucherMessage := None;
    }

    /** "Apply": the discount and message are reset first, so a refused code always leaves no
        discount; an accepted one sets exactly the flat discount. The code is not changed. */
    method ApplyVoucher(now: int)
      modifies this
      ensures voucherCode == old(voucherCode)
      ensures var outcome := CheckVoucher(voucherCode, now);
              discount == (if outcome == Applied then VoucherDiscount else 0.0)
              && voucherMessage == Some(MessageFor(outcome))
      ensures Valid()
    {
      voucherMessage := None;
      discount := 0.0;
      var outcome := CheckVoucher(voucherCode, now);
      if outcome != Applied {
        voucherMessage := Some(MessageFor(outcome));
        return;
      }
      discount := VoucherDiscount;
      voucherMessage := Some(MessageFor(Applied));
    }
  }

  // ---------------------------------------------------------------------------------------
  // `handleConfirmPayment`
  // ---------------------------------------------------------------------------------------

  /** The record inserted into `orders`: the order from the checkout, with the payment method,
      the proof link, the voucher, the discount, the final total, status "Pending" and the
      creation time. */
  datatype PaidOrder = PaidOrder(
    order: Checkout.DraftOrder, paymentMethod: string, proofUrl: string,
    voucherCode: Option<string>, discount: real, finalTotal: real, status: string, createdAt: int)

  /** GCash and bank transfers need a proof of payment. */
  predicate NeedsProof(paymentMethod: string) {
    paymentMethod == "gcash" || paymentMethod == "bank"
  }

  /** "Confirm": refused (None) when the method needs a proof and none was attached;
      otherwise the record to insert. `uploadedUrl` is the public link of the uploaded proof,
      used only when a proof was attached. */
  function ConfirmPayment(order: Checkout.DraftOrder, paymentMethod: string, hasProof: bool, uploadedUrl: string,
                          voucherCode: string, discount: real, now: int): (r: Option<PaidOrder>)
    ensures r.None? <==> NeedsProof(paymentMethod) && !hasProof
    ensures r.Some? ==>
              && r.value.order == order && r.value.paymentMethod == paymentMethod
              && r.value.finalTotal == order.total - discount && r.value.discount == discount
              && r.value.status == "Pending" && r.value.createdAt == now
              && r.value.proofUrl == (if hasProof then uploadedUrl else "")
              && (r.value.voucherCode.Some? <==> discount > 0.0)
              && (r.value.voucherCode.Some? ==> r.value.voucherCode.value == voucherCode)
  {
    if NeedsProof(paymentMethod) && !hasProof then None
    else
      Some(PaidOrder(order, paymentMethod, if hasProof then uploadedUrl else "",
                     if discount > 0.0 then Some(voucherCode) else None,
                     discount, order.total - discount, "Pending", now))
  }

  /** With the discount the page can hold, the saved total is the order total, or 50 less
      exactly when a voucher was applied, which is then recorded. */
  lemma ConfirmedTotal(order: Checkout.DraftOrder, paymentMethod: string, uploadedUrl: string,
                       code: string, discount: real, now: int)
    requires discount == 0.0 || discount == VoucherDiscount
    ensures var r := ConfirmPayment(order, paymentMethod, true, uploadedUrl, code, discount, now);
            r.Some? && (r.value.finalTotal == order.total <==> r.value.voucherCode == None)
  {
  }
}
