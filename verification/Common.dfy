/** Values shared by every component of the transporter: identifiers, constants,
    optional and fallible results, and the Go integer conversions the code relies on. */
module Common {

  datatype Option<+T> = None | Some(value: T) {
    function GetOr(default: T): T {
      match this
      case Some(v) => v
      case None => default
    }
  }

  datatype Error =
    | BurnIdExists
    | ZeroAmount
    | NotPremined
    | AllowanceExceeded
    | UniqueViolation
    | ConstraintViolation
    | OutOfRange
    | NotExists
    | StorageFailure
    | QueueLocked
    | TooSmall
    | TooBig
    | PreminedPeriod
    | InvalidTransaction
    | NotInTransactionPool
    | NoSolanaAddress
    | AddressRefused

  datatype Result<+T> = Ok(value: T) | Err(error: Error)

  // Identifiers are opaque to the transporter: only equality on them is used.
  type BurnId = nat
  type SolanaTxId = nat
  type SolanaAddress = nat
  type UnlockHash = nat

  datatype TransportType = Airdrop | Premined | Regular

  /** A point in time or a duration, in nanoseconds. */
  type Time = int

  const MINUTE: int := 60_000_000_000
  // 2024-03-21 00:00:00 UTC.
  const EMISSION_START: int := 1_710_979_200_000_000_000

  const SPF_PER_MINUTE: nat := 60
  const TOTAL_SUPPLY: nat := 400_000_000
  const AIRDROP_MAX: nat := 15_000_000

  const TWO64: int := 0x1_0000_0000_0000_0000
  const MAX_INT64: int := 0x7FFF_FFFF_FFFF_FFFF
  const MIN_INT64: int := -0x8000_0000_0000_0000

  predicate FitsInt64(x: int) {
    MIN_INT64 <= x <= MAX_INT64
  }

  /** The int64 with the same low 64 bits as `x`. */
  function ToInt64(x: int): (r: int)
    ensures FitsInt64(r)
    ensures r == x <==> FitsInt64(x)
  {
    var low := x % TWO64;
    if low > MAX_INT64 then low - TWO64 else low
  }

  /** The uint64 with the same low 64 bits as `x`. */
  function ToUint64(x: int): (r: nat)
    ensures r < TWO64
    ensures r == x <==> 0 <= x < TWO64
  {
    x % TWO64
  }

  /** Currency.Sub: an underflow is reported and yields zero. */
  function CurrencySub(x: nat, y: nat): nat {
    if x < y then 0 else x - y
  }

  /** DivCurrencyRoundUp: the least whole number of `unit` that covers `c`. */
  function DivRoundUp(c: nat, unit: nat): (q: nat)
    requires unit > 0
    ensures (q - 1) * unit < c <= q * unit
  {
    var x := c + (unit - 1);
    assert x == (x / unit) * unit + x % unit;
    assert (x / unit - 1) * unit == (x / unit) * unit - unit;
    x / unit
  }

  predicate IsPreminedPeriod(now: Time) {
    now < EMISSION_START
  }

  lemma WrapShift(x: int, k: int)
    ensures (x + k * TWO64) % TWO64 == x % TWO64
  {
    var q, r := x / TWO64, x % TWO64;
    assert x + k * TWO64 == (q + k) * TWO64 + r;
  }

  /** Wrapping a factor before a multiplication does not change the wrapped product. */
  lemma WrapMul(a: int, b: int)
    ensures ToInt64(ToInt64(a) * b) == ToInt64(a * b)
  {
    var k := if a % TWO64 > MAX_INT64 then -(a / TWO64) - 1 else -(a / TWO64);
    assert ToInt64(a) == a + k * TWO64;
    assert ToInt64(a) * b == a * b + (k * b) * TWO64 by {
      assert (k * TWO64) * b == (k * b) * TWO64;
    }
    WrapShift(a * b, k * b);
  }
}
