/** Whole-number powers and the annuity-due sum behind the SIP maturity formula. */
module Annuity {

  /** `b` raised to the whole power `n`. */
  function Pow(b: real, n: nat): real
  {
    if n == 0 then 1.0 else b * Pow(b, n - 1)
  }

  /** The annuity-due sum b^1 + b^2 + ... + b^n: what one unit paid at the start of each
      of `n` periods is worth at the end, when every period multiplies the balance by `b`. */
  function DueSum(b: real, n: nat): real
  {
    if n == 0 then 0.0 else DueSum(b, n - 1) + Pow(b, n)
  }

  /** Exponents add: b^(m+n) == b^m * b^n. */
  lemma {:induction false} PowAdd(b: real, m: nat, n: nat)
    ensures Pow(b, m + n) == Pow(b, m) * Pow(b, n)
  {
    if n > 0 {
      PowAdd(b, m, n - 1);
      assert Pow(b, m + n) == b * Pow(b, m + n - 1);
      assert Pow(b, m) * Pow(b, n) == Pow(b, m) * (b * Pow(b, n - 1));
    }
  }

  lemma {:induction false} PowAtLeastOne(b: real, n: nat)
    requires b >= 1.0
    ensures Pow(b, n) >= 1.0
  {
    if n > 0 {
      PowAtLeastOne(b, n - 1);
      assert b * Pow(b, n - 1) >= Pow(b, n - 1);
    }
  }

  /** A growth factor above one makes every positive power exceed one. */
  lemma {:induction false} PowAboveOne(b: real, n: nat)
    requires b > 1.0 && n >= 1
    ensures Pow(b, n) > 1.0
  {
    PowAtLeastOne(b, n - 1);
    assert b * Pow(b, n - 1) > Pow(b, n - 1);
  }

  /** One more period: pay one unit, then the whole balance grows by `b`. */
  lemma {:induction false} DueSumStep(b: real, n: nat)
    ensures DueSum(b, n + 1) == (DueSum(b, n) + 1.0) * b
  {
    var d, p := DueSum(b, n), Pow(b, n);
    assert DueSum(b, n + 1) == d + b * p;
    if n > 0 {
      var s := DueSum(b, n - 1);
      DueSumStep(b, n - 1);
      assert d == (s + 1.0) * b && d == s + p;
      assert d + b * p == (d + 1.0) * b by {
        assert d + b * p == (s + 1.0) * b + p * b;
        assert (s + 1.0) * b + p * b == (s + p + 1.0) * b;
      }
    } else {
      assert d == 0.0 && p == 1.0;
    }
  }

  /** The geometric-series identity: (b - 1) * (b + ... + b^n) == (b^n - 1) * b. */
  lemma {:induction false} DueSumTelescopes(b: real, n: nat)
    ensures DueSum(b, n) * (b - 1.0) == (Pow(b, n) - 1.0) * b
  {
    if n > 0 {
      var s, p := DueSum(b, n - 1), Pow(b, n - 1);
      DueSumTelescopes(b, n - 1);
      assert s * (b - 1.0) == (p - 1.0) * b;
      assert Pow(b, n) == b * p;
      calc {
        DueSum(b, n) * (b - 1.0);
        (s + b * p) * (b - 1.0);
        s * (b - 1.0) + b * p * (b - 1.0);
        (p - 1.0) * b + b * p * (b - 1.0);
        (b * p - 1.0) * b;
      }
    }
  }

  /** The closed form used for the SIP maturity, `((1 + r)^n - 1) / r * (1 + r)`, is exactly
      the annuity-due sum at growth factor `1 + r`. */
  lemma ClosedFormIsDueSum(r: real, n: nat)
    requires r != 0.0
    ensures ((Pow(1.0 + r, n) - 1.0) / r) * (1.0 + r) == DueSum(1.0 + r, n)
  {
    var b := 1.0 + r;
    DueSumTelescopes(b, n);
    var q := (Pow(b, n) - 1.0) / r;
    assert q * r == Pow(b, n) - 1.0;
    assert (q * b - DueSum(b, n)) * r == 0.0 by {
      assert DueSum(b, n) * r == (Pow(b, n) - 1.0) * b;
      assert q * b * r == (Pow(b, n) - 1.0) * b;
    }
  }

  /** With growth, the annuity-due sum exceeds the number of payments. */
  lemma {:induction false} DueSumExceedsCount(b: real, n: nat)
    requires b > 1.0 && n >= 1
    ensures DueSum(b, n) > n as real
  {
    PowAboveOne(b, n);
    if n > 1 {
      DueSumExceedsCount(b, n - 1);
    }
  }

  /** A month-by-month ledger: at the start of each month `payment` is added, and at its end
      the balance grows by `1 + rate`. Its final balance is the annuity-due sum of the payments. */
  method SimulateMonths(payment: real, rate: real, months: nat) returns (balance: real)
    ensures balance == payment * DueSum(1.0 + rate, months)
    ensures rate != 0.0 ==>
      balance == payment * (((Pow(1.0 + rate, months) - 1.0) / rate) * (1.0 + rate))
  {
    balance := 0.0;
    var month := 0;
    while month < months
      invariant month <= months
      invariant balance == payment * DueSum(1.0 + rate, month)
    {
      DueSumStep(1.0 + rate, month);
      balance := (balance + payment) * (1.0 + rate);
      month := month + 1;
    }
    if rate != 0.0 {
      ClosedFormIsDueSum(rate, months);
    }
  }
}
