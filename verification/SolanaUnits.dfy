/** Decimalization of token amounts and the exponentiation behind it (solana). */
module SolanaUnits {
  import opened Common

  function Pow(base: int, exp: nat): int {
    if exp == 0 then 1 else base * Pow(base, exp - 1)
  }

  lemma {:induction false} PowSquare(base: int, half: nat)
    ensures Pow(base * base, half) == Pow(base, 2 * half)
  {
    if half > 0 {
      PowSquare(base, half - 1);
      assert Pow(base, 2 * half) == base * (base * Pow(base, 2 * half - 2));
      assert base * (base * Pow(base, 2 * half - 2)) == (base * base) * Pow(base, 2 * half - 2);
    }
  }

  lemma {:induction false} PowWrap(base: int, exp: nat)
    ensures ToInt64(Pow(ToInt64(base), exp)) == ToInt64(Pow(base, exp))
  {
    if exp > 0 {
      var w := ToInt64(base);
      PowWrap(base, exp - 1);
      WrapMul(base, Pow(w, exp - 1));
      WrapMul(Pow(w, exp - 1), base);
      WrapMul(Pow(base, exp - 1), base);
    }
  }

  lemma WrapPowStep(result: int, base: int, exp: nat)
    requires exp > 0
    ensures ToInt64(ToInt64(result * base) * Pow(base, exp - 1)) == ToInt64(result * Pow(base, exp))
  {
    WrapMul(result * base, Pow(base, exp - 1));
    assert (result * base) * Pow(base, exp - 1) == result * (base * Pow(base, exp - 1));
  }

  lemma WrapPowSquare(result: int, base: int, half: nat)
    ensures ToInt64(result * Pow(ToInt64(base * base), half)) == ToInt64(result * Pow(base, 2 * half))
  {
    PowWrap(base * base, half);
    PowSquare(base, half);
    WrapMul(Pow(ToInt64(base * base), half), result);
    WrapMul(Pow(base, 2 * half), result);
  }

  /** The exponent after `n` shifts to the right. */
  function Shifted(exp: int, n: nat): int {
    if n == 0 then exp else Shifted(exp, n - 1) / 2
  }

  lemma {:induction false} ShiftedIs(exp: int, n: nat)
    ensures exp < 0 ==> Shifted(exp, n) < 0
    ensures 0 <= exp <= n ==> Shifted(exp, n) == 0
    ensures 0 <= exp ==> 0 <= Shifted(exp, n) && (n < exp ==> Shifted(exp, n) <= exp - n)
  {
    if n > 0 {
      ShiftedIs(exp, n - 1);
    }
  }

  /** Shifting reaches zero, where the loop of IntPow ends, exactly for the exponents that are not negative: a
      negative one shifts towards -1 forever. */
  lemma ShiftingEndsIff(exp: int)
    ensures (exists n: nat :: n > 0 && Shifted(exp, n) == 0) <==> exp >= 0
  {
    if exp >= 0 {
      ShiftedIs(exp, exp + 1);
      assert Shifted(exp, exp + 1) == 0;
    } else {
      forall n: nat
        ensures Shifted(exp, n) < 0
      {
        ShiftedIs(exp, n);
      }
    }
  }

  /** Square-and-multiply over wrapping machine integers, for the exponents on which it ends. */
  method IntPow(base0: int, exp0: int) returns (result: int)
    requires exp0 >= 0
    ensures result == ToInt64(Pow(base0, exp0))
  {
    result := 1;
    var base, exp := base0, exp0;
    while true
      invariant exp >= 0
      invariant ToInt64(result * Pow(base, exp)) == ToInt64(Pow(base0, exp0))
      invariant FitsInt64(result)
      decreases exp
    {
      ghost var result1, exp1 := result, exp;
      if exp % 2 == 1 {
        WrapPowStep(result, base, exp);
        result := ToInt64(result * base);
        exp1 := exp - 1;
      }
      assert ToInt64(result * Pow(base, exp1)) == ToInt64(Pow(base0, exp0));
      exp := exp / 2;
      assert exp1 == 2 * exp;
      if exp == 0 {
        break;
      }
      WrapPowSquare(result, base, exp);
      base := ToInt64(base * base);
    }
  }

  /** Token amount to raw contract units, in uint64 arithmetic. */
  function ToRaw(amount: nat, decimalization: nat): nat {
    ToUint64(amount * decimalization)
  }

  function FromRaw(raw: nat, decimalization: nat): nat
    requires decimalization > 0
  {
    raw / decimalization
  }

  /** Reading back what was sent is the identity exactly when the product fits in uint64. */
  lemma DecimalizationRoundTrip(amount: nat, decimalization: nat)
    requires decimalization > 0
    ensures FromRaw(ToRaw(amount, decimalization), decimalization) == amount
            <==> amount * decimalization < TWO64
  {
    var raw := ToRaw(amount, decimalization);
    var q := raw / decimalization;
    assert raw == q * decimalization + raw % decimalization;
    assert (q + 1) * decimalization == q * decimalization + decimalization;
    assert (amount + 1) * decimalization == amount * decimalization + decimalization;
    if amount * decimalization < TWO64 {
      assert raw == amount * decimalization;
      if q < amount {
        MulMonotone(q + 1, amount, decimalization);
        assert false;
      }
      if q > amount {
        MulMonotone(amount + 1, q, decimalization);
        assert false;
      }
    } else if q >= amount {
      MulMonotone(amount, q, decimalization);
    }
  }

  lemma MulMonotone(a: nat, b: nat, c: nat)
    requires a <= b
    ensures a * c <= b * c
  {
  }

  /** The contract compares and adds raw units. With the configured three decimals and for supplies whose raw
      units fit, that is the same as comparing and adding tokens, and the supply report after a mint is the
      token sum. */
  lemma RawMintIsTokenMint(supply: nat, named: nat, amount: nat)
    requires Pow(10, 3) * supply < TWO64 && Pow(10, 3) * (named + amount) < TWO64
    ensures var d := Pow(10, 3);
            && d > 0
            && (ToRaw(named, d) == ToRaw(supply, d) <==> named == supply)
            && FromRaw(ToRaw(named, d) + ToRaw(amount, d), d) == named + amount
            && ToRaw(named, d) + ToRaw(amount, d) < TWO64
  {
    assert Pow(10, 3) == 10 * Pow(10, 2) == 10 * (10 * Pow(10, 1)) == 1000;
  }
}
