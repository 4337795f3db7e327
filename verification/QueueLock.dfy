/** The queue lock on values: when the queue is locked, what is quoted, and what a quote
    is worth later (server.go, loops.go). */
module QueueLock {
  import opened Common
  import opened Emission
  import opened Ledger
  import opened StorageSpec

  datatype QueueMode = OneByOne | ReleaseAllAtOnce

  datatype ServerSettings = ServerSettings(
    scpTxConfirmationTime: int,
    scpTxConfirmations: int,
    transportMin: nat,
    transportMax: nat,
    queueLockLimit: nat,
    queueLockGap: int,
    queueMode: QueueMode)

  /** The flag, and when this process last set it; a zero time is None. */
  datatype Lock = Lock(locked: bool, since: Option<Time>)

  // ---------- hysteresis ----------

  /** What checkQueue makes of the lock when it observes a queue size. */
  function NextLock(locked: bool, observed: int, limit: nat): bool {
    if locked && observed == 0 then false
    else if !locked && observed > limit then true
    else locked
  }

  function LockAfter(locked: bool, observed: seq<nat>, limit: nat): bool {
    if observed == [] then locked
    else NextLock(LockAfter(locked, observed[..|observed| - 1], limit), observed[|observed| - 1], limit)
  }

  /** Over a run the queue is locked exactly if some observed size exceeded the limit, or it was locked
      at the start, and the queue was never seen empty since. */
  lemma {:induction false} LockHysteresis(locked: bool, observed: seq<nat>, limit: nat)
    ensures LockAfter(locked, observed, limit)
            <==> || (exists k :: 0 <= k < |observed| && observed[k] > limit
                                 && forall j :: k < j < |observed| ==> observed[j] != 0)
                 || (locked && forall j :: 0 <= j < |observed| ==> observed[j] != 0)
  {
    if observed != [] {
      var init, last := observed[..|observed| - 1], observed[|observed| - 1];
      LockHysteresis(locked, init, limit);
      if last > limit {
        assert observed[|observed| - 1] > limit;
      } else if last != 0 {
        if exists k :: 0 <= k < |init| && init[k] > limit && forall j :: k < j < |init| ==> init[j] != 0 {
          var k :| 0 <= k < |init| && init[k] > limit && forall j :: k < j < |init| ==> init[j] != 0;
          assert observed[k] > limit && forall j :: k < j < |observed| ==> observed[j] != 0;
        }
        if exists k :: 0 <= k < |observed| && observed[k] > limit && forall j :: k < j < |observed| ==> observed[j] != 0 {
          var k :| 0 <= k < |observed| && observed[k] > limit && forall j :: k < j < |observed| ==> observed[j] != 0;
          assert init[k] > limit && forall j :: k < j < |init| ==> init[j] != 0;
        }
      }
    }
  }

  /** The size checkQueue sees: a transaction that cannot be carried out reads as an empty queue. */
  function Observed(db: Database, available: bool): nat
    requires QueueSize(db) >= 0
  {
    if available then QueueSize(db) else 0
  }

  // ---------- the grace period ----------

  /** isQueueLocked: a soft check overlooks a lock younger than the gap. */
  predicate IsLocked(s: ServerSettings, lock: Lock, hardCheck: bool, now: Time) {
    && s.queueMode.ReleaseAllAtOnce?
    && lock.locked
    && (hardCheck || lock.since.None? || TimeSub(now, lock.since.value) >= s.queueLockGap)
  }

  /** The gap is a time.Duration, and not the lowest one. */
  predicate GapFits(s: ServerSettings) {
    MIN_INT64 < s.queueLockGap <= MAX_INT64
  }

  /** The lock keeps submissions out: it is set, and this process did not set it less than the gap ago. */
  predicate LockBites(s: ServerSettings, lock: Lock, now: Time) {
    && s.queueMode.ReleaseAllAtOnce? && lock.locked
    && (lock.since.Some? ==> lock.since.value + s.queueLockGap <= now)
  }

  lemma LockIs(s: ServerSettings, lock: Lock, now: Time)
    ensures GapFits(s) ==> (IsLocked(s, lock, false, now) <==> LockBites(s, lock, now))
    ensures IsLocked(s, lock, true, now) <==> s.queueMode.ReleaseAllAtOnce? && lock.locked
  {
  }

  datatype LockEvent = LockEvent(value: bool, time: Time)

  /** setQueueLocked. */
  function SetLock(lock: Lock, e: LockEvent): Lock {
    Lock(e.value, if e.value then Some(e.time) else lock.since)
  }

  function LockAfterEvents(lock: Lock, events: seq<LockEvent>): Lock {
    if events == [] then lock
    else SetLock(LockAfterEvents(lock, events[..|events| - 1]), events[|events| - 1])
  }

  /** A lock that was off is on later only since an event in between. */
  lemma {:induction false} LockedSince(lock: Lock, events: seq<LockEvent>, t0: Time)
    requires !lock.locked && forall i :: 0 <= i < |events| ==> t0 <= events[i].time
    ensures var after := LockAfterEvents(lock, events);
            after.locked ==> after.since.Some? && t0 <= after.since.value
  {
    if events != [] {
      LockedSince(lock, events[..|events| - 1], t0);
    }
  }

  /** One run of checkQueue: the size it observes, and when. */
  datatype Check = Check(observed: int, time: Time)

  function LockChecked(lock: Lock, c: Check, limit: nat): Lock {
    var next := NextLock(lock.locked, c.observed, limit);
    if next == lock.locked then lock else SetLock(lock, LockEvent(next, c.time))
  }

  function LockRun(lock: Lock, checks: seq<Check>, limit: nat): Lock {
    if checks == [] then lock
    else LockChecked(LockRun(lock, checks[..|checks| - 1], limit), checks[|checks| - 1], limit)
  }

  /** Check `k` found the queue unlocked and above the limit, and no later check found it empty. */
  predicate LockedAt(lock: Lock, checks: seq<Check>, limit: nat, k: nat)
    requires k < |checks|
  {
    && !LockRun(lock, checks[..k], limit).locked && checks[k].observed > limit
    && forall j :: k < j < |checks| ==> checks[j].observed != 0
  }

  predicate NeverEmpty(checks: seq<Check>) {
    forall j :: 0 <= j < |checks| ==> checks[j].observed != 0
  }

  lemma {:induction false} LockedAtIs(lock: Lock, checks: seq<Check>, limit: nat, k: nat)
    requires k < |checks| && LockedAt(lock, checks, limit, k)
    ensures LockRun(lock, checks, limit) == Lock(true, Some(checks[k].time))
    decreases |checks|
  {
    var init := checks[..|checks| - 1];
    if k < |init| {
      assert init[..k] == checks[..k];
      LockedAtIs(lock, init, limit, k);
    }
  }

  lemma {:induction false} LockStays(lock: Lock, checks: seq<Check>, limit: nat)
    requires lock.locked && NeverEmpty(checks)
    ensures LockRun(lock, checks, limit) == lock
  {
    if checks != [] {
      LockStays(lock, checks[..|checks| - 1], limit);
    }
  }

  lemma {:induction false} WhenLocked(lock: Lock, checks: seq<Check>, limit: nat)
    requires LockRun(lock, checks, limit).locked
    ensures (lock.locked && NeverEmpty(checks)) || exists k :: 0 <= k < |checks| && LockedAt(lock, checks, limit, k)
  {
    if checks != [] {
      var init, last := checks[..|checks| - 1], checks[|checks| - 1];
      if !LockRun(lock, init, limit).locked {
        assert checks[..|checks| - 1] == init && LockedAt(lock, checks, limit, |checks| - 1);
      } else {
        WhenLocked(lock, init, limit);
        if !(lock.locked && NeverEmpty(init)) {
          var k :| 0 <= k < |init| && LockedAt(lock, init, limit, k);
          assert init[..k] == checks[..k] && LockedAt(lock, checks, limit, k);
        }
      }
    }
  }

  /** After any run of checkQueue a submission meets the lock exactly if some check found the queue unlocked and above the
      limit, none since found it empty, and the gap has passed since that check; or the queue was locked at the start,
      never seen empty, and this process did not lock it less than the gap ago. */
  lemma LockBitesIff(s: ServerSettings, lock: Lock, checks: seq<Check>, now: Time)
    ensures LockBites(s, LockRun(lock, checks, s.queueLockLimit), now)
            <==> && s.queueMode.ReleaseAllAtOnce?
                 && (|| (exists k :: 0 <= k < |checks| && LockedAt(lock, checks, s.queueLockLimit, k)
                                     && checks[k].time + s.queueLockGap <= now)
                     || (NeverEmpty(checks) && LockBites(s, lock, now)))
  {
    var limit, after := s.queueLockLimit, LockRun(lock, checks, s.queueLockLimit);
    forall k | 0 <= k < |checks| && LockedAt(lock, checks, limit, k)
      ensures after == Lock(true, Some(checks[k].time))
    {
      LockedAtIs(lock, checks, limit, k);
    }
    if lock.locked && NeverEmpty(checks) {
      LockStays(lock, checks, limit);
    }
    if after.locked {
      WhenLocked(lock, checks, limit);
    }
  }

  // ---------- quotes ----------

  /** The regular amount CheckAllowance quotes. */
  function RegularQuote(db: Database, storage: Settings, s: ServerSettings, lock: Lock, now: Time): int {
    var free := Min(PositivePart(storage.preliminaryQueueSizeLimit - QueueSize(db)), TOTAL_SUPPLY - QueueEndSupply(db));
    if IsPreminedPeriod(now) || IsLocked(s, lock, true, now) then QuoteWithin(s, 0)
    else QuoteWithin(s, free)
  }

  /** A quote is at most the maximum, and at least the minimum or nothing. */
  function QuoteWithin(s: ServerSettings, free: int): int {
    if free > s.transportMax then s.transportMax
    else if free < s.transportMin then 0
    else free
  }

  /** validateAmount. */
  function AmountError(s: ServerSettings, amount: nat, checkMax: bool): Option<Error> {
    if amount < s.transportMin then Some(TooSmall)
    else if checkMax && amount > s.transportMax then Some(TooBig)
    else None
  }

  lemma AmountErrorIs(s: ServerSettings, amount: nat, checkMax: bool)
    ensures AmountError(s, amount, checkMax) == Some(TooSmall) <==> amount < s.transportMin
    ensures AmountError(s, amount, checkMax) == Some(TooBig) <==> checkMax && amount > s.transportMax && amount >= s.transportMin
    ensures AmountError(s, amount, checkMax).None? <==> s.transportMin <= amount && (checkMax ==> amount <= s.transportMax)
  {
  }

  /** A burn of that amount would be taken on now: it is within the bounds, the queue and the supply have room for it,
      emission has started and the queue is not locked. */
  predicate Takes(db: Database, storage: Settings, s: ServerSettings, lock: Lock, now: Time, amount: nat) {
    && s.transportMin <= amount <= s.transportMax
    && QueueSize(db) + amount <= storage.preliminaryQueueSizeLimit && QueueEndSupply(db) + amount <= TOTAL_SUPPLY
    && EMISSION_START <= now && !(s.queueMode.ReleaseAllAtOnce? && lock.locked)
  }

  /** The quote is the greatest amount there is: of all amounts from the minimum on it covers exactly those that would be
      taken on, and it is no less than the bounds allow unless it is nothing. */
  ghost predicate GreatestQuote(db: Database, storage: Settings, s: ServerSettings, lock: Lock, now: Time, quote: int) {
    && (forall a: nat :: 0 < a && s.transportMin <= a ==> (a <= quote <==> Takes(db, storage, s, lock, now, a)))
    && (quote == 0 || quote >= Min(s.transportMin, s.transportMax))
  }

  lemma QuoteIsGreatest(db: Database, storage: Settings, s: ServerSettings, lock: Lock, now: Time)
    ensures GreatestQuote(db, storage, s, lock, now, RegularQuote(db, storage, s, lock, now))
  {
  }

  /** A quoted amount submitted in the same process before the gap elapses is refused neither for its
      amount nor for the lock nor for capacity, if the queue grew since by at most the
      difference of the two limits and the supply left still covers it. */
  lemma HonouredQuote(db0: Database, db1: Database, storage: Settings, s: ServerSettings, lock: Lock,
                      events: seq<LockEvent>, t0: Time, t1: Time, u: Unconfirmed)
    requires Inv(db0, storage.queueSizeLimit) && Inv(db1, storage.queueSizeLimit)
    requires u.kind.Regular? && 0 < u.amount && s.transportMin <= u.amount <= RegularQuote(db0, storage, s, lock, t0)
    requires t0 <= t1 < t0 + s.queueLockGap && FitsInt64(s.queueLockGap)
    requires forall i :: 0 <= i < |events| ==> t0 <= events[i].time <= t1
    requires QueueSize(db1) - QueueSize(db0) <= storage.queueSizeLimit - storage.preliminaryQueueSizeLimit
    requires u.amount <= TOTAL_SUPPLY - QueueEndSupply(db1)
    ensures AmountError(s, u.amount, true).None?
    ensures !IsLocked(s, LockAfterEvents(lock, events), false, t1)
    ensures u.amount <= Room(db1, storage, u)
    ensures !IsPreminedPeriod(t1)
  {
    if s.queueMode.ReleaseAllAtOnce? {
      LockedSince(lock, events, t0);
      SinceWithin(lock, events, t1);
    }
  }

  lemma {:induction false} SinceWithin(lock: Lock, events: seq<LockEvent>, t1: Time)
    requires !lock.locked && forall i :: 0 <= i < |events| ==> events[i].time <= t1
    ensures var after := LockAfterEvents(lock, events);
            after.locked ==> after.since.Some? && after.since.value <= t1
  {
    if events != [] {
      SinceWithin(lock, events[..|events| - 1], t1);
    }
  }

  // ---------- confirmations ----------

  /** int(curHeight - height) on unsigned heights. */
  function HeightGap(current: nat, height: nat): int {
    ToInt64(ToUint64(current - height))
  }

  /** The wrapped difference is the signed one for heights below 2^63, also when the current
      height is the lower one. */
  lemma HeightGapIsSigned(current: nat, height: nat)
    requires current <= MAX_INT64 && height <= MAX_INT64
    ensures HeightGap(current, height) == current - height
  {
  }

  // ---------- ledgers at which this shows ----------

  const Waiting := Unconfirmed(1, 10, 7, None, None, 0, Regular)
  const Small := Settings(5, 100)
  const Release := ServerSettings(0, 0, 1, 50, 5, 0, ReleaseAllAtOnce)

  lemma OneWaits()
    ensures CanAdmit(EmptyDatabase, 100, Waiting)
    ensures QueueSize(Admit(EmptyDatabase, Waiting)) == 10
    ensures QueueEndSupply(Admit(EmptyDatabase, Waiting)) == 10
  {
    assert Admit(EmptyDatabase, Waiting).unconfirmed == [] + [Waiting];
    SumAppend([], Waiting, OfKind(Regular));
  }

  /** One burn of 10 locks a queue with limit 5, and one transaction that cannot be carried out releases it. */
  lemma LockCanBeReleasedUnread()
    ensures CanAdmit(EmptyDatabase, Small.queueSizeLimit, Waiting)
    ensures var db := Admit(EmptyDatabase, Waiting);
            && QueueSize(db) == 10
            && NextLock(false, Observed(db, true), Release.queueLockLimit)
            && !NextLock(true, Observed(db, false), Release.queueLockLimit)
  {
    OneWaits();
  }

  /** The same burn takes the queue beyond a preliminary limit of 5: then nothing is quoted, although a burn
      of 50 would be admitted. */
  lemma QueueCanOutgrowQuotes()
    ensures CanAdmit(EmptyDatabase, Small.queueSizeLimit, Waiting)
    ensures var db, next := Admit(EmptyDatabase, Waiting), Waiting.(burn := 2, amount := 50);
            && QueueSize(db) > Small.preliminaryQueueSizeLimit
            && RegularQuote(db, Small, Release, Lock(false, None), EMISSION_START) == 0
            && CanAdmit(db, Small.queueSizeLimit, next)
  {
    OneWaits();
    var db := Admit(EmptyDatabase, Waiting);
    BurnsAppend([], Waiting);
    TablesOnly(EmptyDatabase, db);
  }
}
