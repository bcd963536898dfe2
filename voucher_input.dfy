/** The voucher box of the checkout (components/VoucherInput.tsx): a code is looked up among the
    active vouchers, run through four checks of which the first failure decides, and on success
    turned into a discount capped at the cart total. */
module VoucherInput {
  import opened Wrappers
  import opened Seqs
  import opened Text

  /** A row of the `vouchers` table. `expiresAt` is the expiry instant in milliseconds (None when
      the column is empty); `maxUses` and `minSpend` are None when the column is null. */
  datatype Voucher = Voucher(
    code: string, isActive: bool, expiresAt: Option<int>, maxUses: Option<real>,
    usedCount: real, minSpend: Option<real>, kind: string, value: real)

  /** What one press of "Apply" concludes; each failure is the message the box shows. */
  datatype Verdict =
    | InvalidOrInactive
    | ExpiredOn(at: int)
    | FullyRedeemed
    | BelowMinimum(minSpend: real)
    | Accepted(discount: real)

  datatype Status = Idle | Success | Failure

  // ---------------------------------------------------------------------------------------
  // The lookup: `.eq('code', code).eq('is_active', true).single()`
  // ---------------------------------------------------------------------------------------

  predicate Matches(code: string, v: Voucher) {
    v.code == code && v.isActive
  }

  /** `.single()` yields a row only when exactly one active voucher carries the code. */
  function FindActive(rows: seq<Voucher>, code: string): (r: Option<Voucher>)
    ensures r.Some? ==> r.value in rows && r.value.code == code && r.value.isActive
    ensures r.Some? <==> |Filter(v => Matches(code, v), rows)| == 1
  {
    var found := Filter(v => Matches(code, v), rows);
    if |found| == 1 then
      assert found[0] in found;
      Some(found[0])
    else None
  }

  /** No active row with the code, or two of them, both end in "Invalid or inactive code". */
  lemma {:induction false} FindActiveNone(rows: seq<Voucher>, code: string)
    ensures (forall i :: 0 <= i < |rows| ==> !Matches(code, rows[i])) ==> FindActive(rows, code) == None
  {
    var found := Filter(v => Matches(code, v), rows);
    if forall i :: 0 <= i < |rows| ==> !Matches(code, rows[i]) {
      if found != [] {
        assert found[0] in found;
      }
    }
  }

  // ---------------------------------------------------------------------------------------
  // The four checks and the discount
  // ---------------------------------------------------------------------------------------

  /** `expires_at && new Date(expires_at) < new Date()`: only a present expiry strictly in the
      past rejects. */
  predicate IsExpired(v: Voucher, now: int) {
    v.expiresAt.Some? && v.expiresAt.value < now
  }

  /** `max_uses && used_count >= max_uses`: a missing or zero limit means unlimited. */
  predicate IsExhausted(v: Voucher) {
    Truthy(v.maxUses) && v.usedCount >= v.maxUses.value
  }

  /** `cartTotal < min_spend`, where a null minimum compares as 0. */
  predicate IsBelowMinimum(v: Voucher, cartTotal: real) {
    cartTotal < NumOr0(v.minSpend)
  }

  /** A fixed voucher takes off its value, any other kind that percentage of the cart. */
  function RawDiscount(v: Voucher, cartTotal: real): real {
    if v.kind == "fixed" then v.value else cartTotal * v.value / 100.0
  }

  /** The discount is never more than the cart total, and is the uncapped amount whenever that
      fits. */
  function CappedDiscount(v: Voucher, cartTotal: real): (d: real)
    ensures d <= cartTotal
    ensures RawDiscount(v, cartTotal) <= cartTotal ==> d == RawDiscount(v, cartTotal)
    ensures RawDiscount(v, cartTotal) > cartTotal ==> d == cartTotal
  {
    var raw := RawDiscount(v, cartTotal);
    if raw > cartTotal then cartTotal else raw
  }

  /** The checks in their fixed order; `found` is the lookup's row (None on no row or an error).
      A voucher is accepted exactly when it was found and passes all three later checks, and
      each refusal implies that every earlier check passed. */
  function Validate(found: Option<Voucher>, cartTotal: real, now: int): (r: Verdict)
    ensures found.None? ==> r == InvalidOrInactive
    ensures r.Accepted? <==> found.Some? && !IsExpired(found.value, now) && !IsExhausted(found.value)
                             && !IsBelowMinimum(found.value, cartTotal)
    ensures r.Accepted? ==> r.discount == CappedDiscount(found.value, cartTotal) && r.discount <= cartTotal
    ensures r.ExpiredOn? ==> found.Some? && IsExpired(found.value, now)
    ensures r == FullyRedeemed ==> found.Some? && !IsExpired(found.value, now) && IsExhausted(found.value)
    ensures r.BelowMinimum? ==> found.Some? && !IsExpired(found.value, now) && !IsExhausted(found.value)
                                && IsBelowMinimum(found.value, cartTotal)
  {
    match found
    case None => InvalidOrInactive
    case Some(v) =>
      if IsExpired(v, now) then ExpiredOn(v.expiresAt.value)
      else if IsExhausted(v) then FullyRedeemed
      else if IsBelowMinimum(v, cartTotal) then BelowMinimum(NumOr0(v.minSpend))
      else Accepted(CappedDiscount(v, cartTotal))
  }

  /** Without a positive usage limit a voucher is never "fully redeemed", however often used. */
  lemma UnlimitedWithoutMax(v: Voucher, cartTotal: real, now: int)
    requires v.maxUses == None || v.maxUses == Some(0.0)
    ensures Validate(Some(v), cartTotal, now) != FullyRedeemed
  {
  }

  /** A percentage of at most 100 off a non-negative cart is never capped, and lies between 0 and
      the cart total. */
  lemma PercentageWithinCart(v: Voucher, cartTotal: real)
    requires v.kind != "fixed" && 0.0 <= v.value <= 100.0 && 0.0 <= cartTotal
    ensures CappedDiscount(v, cartTotal) == cartTotal * v.value / 100.0
    ensures 0.0 <= CappedDiscount(v, cartTotal) <= cartTotal
  {
    assert cartTotal * v.value <= cartTotal * 100.0;
  }

  /** A fixed voucher takes off its value, or the whole cart when the value is larger. */
  lemma FixedDiscount(v: Voucher, cartTotal: real)
    requires v.kind == "fixed"
    ensures CappedDiscount(v, cartTotal) == if v.value > cartTotal then cartTotal else v.value
  {
  }

  // ---------------------------------------------------------------------------------------
  // The component
  // ---------------------------------------------------------------------------------------

  /** The handler's chain of checks on the row found, stopping at the first that fails, then
      the discount (a percentage of the cart or the fixed amount) capped at the cart total. */
  method CheckVoucher(found: Option<Voucher>, cartTotal: real, now: int) returns (verdict: Verdict)
    ensures verdict == Validate(found, cartTotal, now)
  {
    if found.None? {
      return InvalidOrInactive;
    }
    var voucher := found.value;
    if voucher.expiresAt.Some? && voucher.expiresAt.value < now {
      return ExpiredOn(voucher.expiresAt.value);
    }
    if Truthy(voucher.maxUses) && voucher.usedCount >= voucher.maxUses.value {
      return FullyRedeemed;
    }
    if cartTotal < NumOr0(voucher.minSpend) {
      return BelowMinimum(NumOr0(voucher.minSpend));
    }
    var discount := 0.0;
    if voucher.kind == "fixed" {
      discount := voucher.value;
    } else {
      discount := cartTotal * voucher.value / 100.0;
    }
    if discount > cartTotal {
      discount := cartTotal;
    }
    return Accepted(discount);
  }

  /** The box's state. `message` None is the empty message; `applied` records the calls made to
      the `onApply` callback, oldest first. */
  class VoucherBox {
    var code: string
    var loading: bool
    var message: Option<Verdict>
    var status: Status
    var applied: seq<(real, string)>

    constructor ()
      ensures code == "" && !loading && message == None && status == Idle && applied == []
    {
      code := "";
      loading := false;
      message := None;
      status := Idle;
      applied := [];
    }

    /** Typing in the box replaces the code with the typed text upper-cased, and changes nothing
        else. */
    method Edit(text: string)
      modifies this
      ensures code == ToUpper(text)
      ensures loading == old(loading) && message == old(message) && status == old(status)
      ensures applied == old(applied)
    {
      code := ToUpper(text);
    }

    /** "Apply". `rows` is the `vouchers` table and `lookupFailed` an error reported by the
        database; the outcome is the one `Validate` gives. An empty code does nothing; otherwise
        the callback is called once, with the capped discount and the code, exactly on success. */
    method HandleApply(rows: seq<Voucher>, lookupFailed: bool, cartTotal: real, now: int)
      modifies this
      ensures old(code) == "" ==> unchanged(this)
      ensures old(code) != "" ==>
                var verdict := Validate(if lookupFailed then None else FindActive(rows, code), cartTotal, now);
                && code == old(code) && !loading
                && message == Some(verdict)
                && status == (if verdict.Accepted? then Success else Failure)
                && applied == old(applied) + (if verdict.Accepted? then [(verdict.discount, code)] else [])
    {
      if code == "" {
        return;
      }
      loading := true;
      message := None;
      status := Idle;
      var found := if lookupFailed then None else FindActive(rows, code);
      var verdict := CheckVoucher(found, cartTotal, now);
      status := if verdict.Accepted? then Success else Failure;
      message := Some(verdict);
      if verdict.Accepted? {
        applied := applied + [(verdict.discount, code)];
      }
      loading := false;
    }
  }
}
