/** Emission schedule: how much regular supply may exist at a given moment (spfemission). */
module Emission {
  import opened Common

  /** time.Time.Sub: the difference of two instants, saturated to an int64. */
  function TimeSub(t: Time, u: Time): (d: int)
    ensures FitsInt64(d)
  {
    if t - u > MAX_INT64 then MAX_INT64 else if t - u < MIN_INT64 then MIN_INT64 else t - u
  }

  function AllowedSupply(now: Time): (supply: nat)
    ensures supply <= TOTAL_SUPPLY
  {
    if now < EMISSION_START then 0
    else
      var minutes := TimeSub(now, EMISSION_START) / MINUTE;
      var emission := SPF_PER_MINUTE * ToUint64(minutes);
      if emission > TOTAL_SUPPLY then TOTAL_SUPPLY else emission
  }

  /** A number of minutes as a Go time.Duration, whose product wraps in int64. */
  function MinutesDuration(minutes: nat): int {
    ToInt64(MINUTE * ToInt64(minutes))
  }

  function SupplyTime(supply: nat): Option<Time> {
    if supply > TOTAL_SUPPLY then None
    else Some(EMISSION_START + MinutesDuration(DivRoundUp(supply, SPF_PER_MINUTE)))
  }

  function EmissionTime(supplyChange: nat): int {
    MinutesDuration(DivRoundUp(supplyChange, SPF_PER_MINUTE))
  }

  function TimeTillSupply(now: Time, supply: nat): Option<int> {
    if AllowedSupply(now) >= supply then Some(0)
    else
      match SupplyTime(supply)
      case None => None
      case Some(t) => Some(TimeSub(t, now))
  }

  lemma AllowedSupplyMonotone(t: Time, u: Time)
    requires t <= u
    ensures AllowedSupply(t) <= AllowedSupply(u)
  {
  }

  /** The two roundings are inverse: a supply is allowed exactly from its supply time on,
      even for clocks so late that the subtraction of instants saturates. */
  lemma EmissionInverse(supply: nat, now: Time)
    requires 0 < supply <= TOTAL_SUPPLY
    ensures SupplyTime(supply).Some?
    ensures AllowedSupply(now) >= supply <==> now >= SupplyTime(supply).value
  {
    var minutes := DivRoundUp(supply, SPF_PER_MINUTE);
    assert MinutesDuration(minutes) == MINUTE * minutes;
    if now >= EMISSION_START {
      var elapsed := TimeSub(now, EMISSION_START) / MINUTE;
      assert elapsed >= minutes <==> SPF_PER_MINUTE * elapsed >= supply;
      assert elapsed >= minutes <==> TimeSub(now, EMISSION_START) >= MINUTE * minutes;
    }
  }

  /** TimeTillSupply fails exactly above the total supply, and is zero exactly when the supply
      is already allowed. The wait suffices exactly when it is representable as a duration,
      and then no shorter wait suffices. */
  lemma LeastWait(now: Time, supply: nat)
    ensures TimeTillSupply(now, supply).None? <==> supply > TOTAL_SUPPLY
    ensures TimeTillSupply(now, supply) == Some(0) <==> AllowedSupply(now) >= supply
    ensures supply <= TOTAL_SUPPLY ==>
              var wait := TimeTillSupply(now, supply).value;
              && SupplyTime(supply).Some?
              && (AllowedSupply(now + wait) >= supply <==>
                  supply == 0 || SupplyTime(supply).value - now <= MAX_INT64)
              && forall t :: now <= t < now + wait ==> AllowedSupply(t) < supply
  {
    if 0 < supply <= TOTAL_SUPPLY {
      EmissionInverse(supply, now);
      var wait := TimeTillSupply(now, supply).value;
      EmissionInverse(supply, now + wait);
      forall t | now <= t < now + wait
        ensures AllowedSupply(t) < supply
      {
        EmissionInverse(supply, t);
      }
    }
  }

  /** EmissionTime is the whole-minute duration needed to emit the change, unless its
      product of nanoseconds leaves int64; no change up to the total supply does that. */
  lemma EmissionTimeExact(change: nat)
    ensures EmissionTime(change) == MINUTE * DivRoundUp(change, SPF_PER_MINUTE)
            <==> DivRoundUp(change, SPF_PER_MINUTE) <= MAX_INT64 / MINUTE
    ensures change <= TOTAL_SUPPLY ==>
              && EmissionTime(change) == MINUTE * DivRoundUp(change, SPF_PER_MINUTE)
              && AllowedSupply(EMISSION_START + EmissionTime(change)) >= change
              && (forall t :: t < EMISSION_START + EmissionTime(change) ==> AllowedSupply(t) < change || change == 0)
  {
    var minutes := DivRoundUp(change, SPF_PER_MINUTE);
    if minutes > MAX_INT64 / MINUTE {
      assert !FitsInt64(MINUTE * minutes);
    }
    if 0 < change <= TOTAL_SUPPLY {
      EmissionInverse(change, EMISSION_START + EmissionTime(change));
      forall t | t < EMISSION_START + EmissionTime(change)
        ensures AllowedSupply(t) < change
      {
        EmissionInverse(change, t);
      }
    }
  }

  /** The least change whose minutes leave int64 is more than twenty times the total supply; its wait
      comes out negative. */
  lemma EmissionTimeCanWrap()
    ensures var change := SPF_PER_MINUTE * (MAX_INT64 / MINUTE) + 1;
            && EmissionTime(change) < 0
            && EmissionTime(change - 1) == MINUTE * (MAX_INT64 / MINUTE)
            && change > 20 * TOTAL_SUPPLY
  {
    var minutes := MAX_INT64 / MINUTE;
    assert minutes == 153_722_867;
    assert DivRoundUp(SPF_PER_MINUTE * minutes + 1, SPF_PER_MINUTE) == minutes + 1;
    assert DivRoundUp(SPF_PER_MINUTE * minutes, SPF_PER_MINUTE) == minutes;
  }
}
