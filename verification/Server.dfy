/** The transporter server (server.go, loops.go): the queue lock with its write-through cache,
    admission, the unconfirmed loop, recovery and minting. Parameters named after storage
    calls say whether each call can be carried out; the ScPrime and Solana sides are oracles. */
module Server {
  import opened Common
  import opened Tables
  import opened Ledger
  import opened StorageSpec
  import opened QueueLock
  import opened LoopSpec
  import opened RepeatedMint
  import opened Admission
  import opened PassEffect
  import BurnStatus
  import TransporterDb
  import Emission
  import opened ScpTransaction

  const QUEUE_LOCKED_FLAG: string := "queue_locked"

  predicate LockFlag(db: Database) {
    FlagValue(db.flags, QUEUE_LOCKED_FLAG)
  }

  /** What can be transported now, by type. */
  datatype Quotes = Quotes(airdrop: nat, premined: map<UnlockHash, nat>, regular: nat)

  class Server {
    const storage: TransporterDb.TransporterDB
    const settings: ServerSettings
    var queueLocked: Option<bool>
    var lockTime: Option<Time>

    /** The cached lock, when present, equals the stored flag. */
    ghost predicate Valid()
      reads this, storage
    {
      && storage.Valid()
      && (queueLocked.Some? ==> queueLocked.value == LockFlag(storage.db))
    }

    ghost function TheLock(): Lock
      reads this, storage
    {
      Lock(LockFlag(storage.db), lockTime)
    }

    constructor (storage: TransporterDb.TransporterDB, settings: ServerSettings)
      requires storage.Valid()
      ensures this.storage == storage && this.settings == settings
      ensures Valid() && TheLock() == Lock(LockFlag(storage.db), None)
    {
      this.storage := storage;
      this.settings := settings;
      queueLocked := None;
      lockTime := None;
    }

    // ---------- queue lock ----------

    method SetQueueLocked(val: bool, now: Time, setFlag: bool) returns (ok: bool)
      requires Valid()
      modifies this, storage
      ensures Valid() && ok == setFlag
      ensures ok ==> TheLock() == SetLock(old(TheLock()), LockEvent(val, now))
      ensures ok ==> LockFlag(storage.db) == val && lockTime == if val then Some(now) else old(lockTime)
      ensures !ok ==> TheLock() == old(TheLock()) && queueLocked == old(queueLocked)
      ensures storage.db == old(storage.db).(flags := storage.db.flags)
    {
      ok := storage.SetFlag(QUEUE_LOCKED_FLAG, val, setFlag);
      if !ok {
        return false;
      }
      queueLocked := Some(val);
      if val {
        lockTime := Some(now);
      }
      return true;
    }

    /** The flag is loaded once; later reads cost no storage call and cannot fail. */
    method GetQueueLocked(getFlag: bool) returns (r: Result<Lock>)
      requires Valid()
      modifies this
      ensures Valid() && TheLock() == old(TheLock())
      ensures r == if old(queueLocked).Some? || getFlag then Ok(TheLock()) else Err(StorageFailure)
      ensures r.Ok? ==> queueLocked.Some?
    {
      if queueLocked.Some? {
        return Ok(Lock(queueLocked.value, lockTime));
      }
      var flag := storage.GetFlag(QUEUE_LOCKED_FLAG, getFlag);
      if flag.Err? {
        return Err(flag.error);
      }
      queueLocked := Some(flag.value);
      return Ok(Lock(flag.value, lockTime));
    }

    method IsQueueLocked(hardCheck: bool, now: Time, getFlag: bool) returns (r: Result<bool>)
      requires Valid()
      modifies this
      ensures Valid() && TheLock() == old(TheLock())
      ensures r.Ok? <==> settings.queueMode.OneByOne? || old(queueLocked).Some? || getFlag
      ensures r.Ok? ==> r.value == IsLocked(settings, TheLock(), hardCheck, now)
      ensures r.Ok? && hardCheck ==> (r.value <==> settings.queueMode.ReleaseAllAtOnce? && LockFlag(storage.db))
      ensures r.Ok? && !hardCheck && GapFits(settings) ==>
                (r.value <==> && settings.queueMode.ReleaseAllAtOnce? && LockFlag(storage.db)
                              && (lockTime.Some? ==> lockTime.value + settings.queueLockGap <= now))
      ensures r.Err? ==> r.error == StorageFailure
    {
      if settings.queueMode.OneByOne? {
        return Ok(false);
      }
      var lock := GetQueueLocked(getFlag);
      if lock.Err? {
        return Err(lock.error);
      }
      var locked, since := lock.value.locked, lock.value.since;
      if since.None? || hardCheck {
        return Ok(locked);
      }
      if locked && Emission.TimeSub(now, since.value) < settings.queueLockGap {
        locked := false;
      }
      return Ok(locked);
    }

    /** The lock moves only by the rule of NextLock on the observed queue size. A size
        transaction that fails is observed as an empty queue. */
    method CheckQueue(now: Time, queueSize: bool, getFlag: bool, setFlag: bool) returns (ok: bool)
      requires Valid() && settings.queueMode.ReleaseAllAtOnce?
      modifies this, storage
      ensures Valid()
      ensures storage.db == old(storage.db).(flags := storage.db.flags)
      ensures var observed := if queueSize then QueueSize(old(storage.db)) else 0;
              LockFlag(storage.db) == if ok then NextLock(old(TheLock()).locked, observed, settings.queueLockLimit)
                                      else old(TheLock()).locked
      ensures old(LockFlag(storage.db)) && !LockFlag(storage.db) ==>
                !queueSize || (old(storage.db).Done(Regular) == |old(storage.db).queue| &&
                               forall u :: u in old(storage.db).unconfirmed ==> !u.kind.Regular?)
      ensures !old(LockFlag(storage.db)) && LockFlag(storage.db) ==>
                queueSize && QueueSize(old(storage.db)) > settings.queueLockLimit && lockTime == Some(now)
      ensures (old(queueLocked).Some? || getFlag) && setFlag ==> ok
      ensures TheLock() == if ok then LockChecked(old(TheLock()), Check(if queueSize then QueueSize(old(storage.db)) else 0, now),
                                                  settings.queueLockLimit)
                           else old(TheLock())
    {
      var size := storage.QueueSize(queueSize);
      var locked := IsQueueLocked(true, now, getFlag);
      if locked.Err? {
        return false;
      }
      if locked.value && size == 0 {
        ok := SetQueueLocked(false, now, setFlag);
        return ok;
      } else if !locked.value && size > settings.queueLockLimit {
        ok := SetQueueLocked(true, now, setFlag);
        return ok;
      }
      return true;
    }

    // ---------- quotes and admission ----------

    /** What is left of the airdrop and of each premined address, and the greatest amount the queue would take. */
    method CheckAllowance(addresses: seq<UnlockHash>, now: Time, allowances: bool,
                          getFlag: bool) returns (r: Result<Quotes>)
      requires Valid()
      modifies this
      ensures Valid() && TheLock() == old(TheLock())
      ensures r.Ok? <==> && allowances && AllDifferent(addresses) && (forall a :: a in addresses ==> Usable(storage.db, a))
                         && (settings.queueMode.OneByOne? || old(queueLocked).Some? || getFlag)
      ensures r.Ok? ==> r.value.airdrop == AIRDROP_MAX - AirdropEndSupply(storage.db)
      ensures r.Ok? ==> r.value.premined.Keys == (set a | a in addresses)
      ensures r.Ok? ==> forall a :: a in addresses ==> r.value.premined[a] == LimitRoom(storage.db.limits[a])
      ensures r.Ok? ==> r.value.regular == RegularQuote(storage.db, storage.settings, settings, TheLock(), now)
      ensures r.Ok? ==> GreatestQuote(storage.db, storage.settings, settings, TheLock(), now, r.value.regular)
    {
      QuoteIsGreatest(storage.db, storage.settings, settings, TheLock(), now);
      var allowance := storage.CheckAllowance(addresses, allowances);
      if allowance.Err? {
        return Err(allowance.error);
      }
      var queueFree := allowance.value.queue.freeCapacity;
      var locked := IsQueueLocked(true, now, getFlag);
      if locked.Err? {
        return Err(locked.error);
      }
      if IsPreminedPeriod(now) {
        queueFree := 0;
      }
      if locked.value {
        queueFree := 0;
      }
      if queueFree > settings.transportMax {
        queueFree := settings.transportMax;
      } else if queueFree < settings.transportMin {
        queueFree := 0;
      }
      return Ok(Quotes(allowance.value.airdrop, allowance.value.premined, queueFree));
    }

    method CheckUnlockHashes(hashes: seq<UnlockHash>, now: Time,
                             findPremined: bool) returns (r: Result<TransportType>)
      requires Valid()
      ensures r == if findPremined then KindOf(storage.db, hashes, now) else Err(StorageFailure)
      ensures findPremined ==> ClassifiedAs(storage.db.limits, hashes, now, r)
    {
      KindIs(storage.db, hashes, now);
      var found := storage.FindPremined(hashes, findPremined);
      if found.Err? {
        assert !findPremined;
        return Err(StorageFailure);
      }
      FoundIff(storage.db, hashes, found.value);
      var premined := |found.value| != 0;
      if premined && |hashes| != 1 {
        return Err(NotPremined);
      }
      var kind := Regular;
      if premined {
        kind := Premined;
      }
      if IsPreminedPeriod(now) && kind == Regular {
        return Err(PreminedPeriod);
      }
      return Ok(kind);
    }

    /** The checks of SubmitScpTx up to the record that is handed to storage. */
    method VetSubmission(burn: BurnId, tx: Transaction, sighting: Sighting, clock: (Time, Time, Time), findPremined: bool,
                         getFlag: bool)
      returns (r: Result<Unconfirmed>)
      requires Valid()
      modifies this
      ensures Valid() && TheLock() == old(TheLock())
      ensures var c := Beforehand(storage.db, TheLock(), sighting, clock, findPremined, old(queueLocked).Some? || getFlag);
              var early := EarlyError(settings, c, tx);
              r == if early.Some? then Err(early.value) else Ok(RecordFor(settings, c, burn, tx))
    {
      hide Inv, Burned, Unique, AddressIn, KindOf, IsLocked, AmountError, ClassifiedAs;
      if !sighting.valid {
        return Err(InvalidTransaction);
      }
      if sighting.confirmed.None? {
        return Err(StorageFailure);
      }
      if !sighting.confirmed.value && !sighting.inPool {
        return Err(NotInTransactionPool);
      }
      var amount := BurntAmount(tx.outputs, BURN_ADDRESS);
      if amount == 0 {
        return Err(ZeroAmount);
      }
      var recipient := ExtractAddress(tx.arbitraryData);
      if recipient.None? {
        return Err(NoSolanaAddress);
      }
      if !sighting.addressFits {
        return Err(AddressRefused);
      }
      var hashes := ExtractUnlockHashes(tx.inputs);
      var kind := CheckUnlockHashes(hashes, clock.0, findPremined);
      if kind.Err? {
        return Err(kind.error);
      }
      var locked := IsQueueLocked(false, clock.1, getFlag);
      if locked.Err? {
        return Err(locked.error);
      }
      if locked.value && kind.value == Regular {
        return Err(QueueLocked);
      }
      var invalid := AmountError(settings, amount, kind.value == Regular);
      if invalid.Some? {
        return Err(invalid.value);
      }
      KindIs(storage.db, hashes, clock.0);
      return Ok(Submission(burn, amount, recipient.value, kind.value, hashes, clock.2));
    }

    /** A burn is accepted exactly when its transaction is valid and known to the node, burns something and names
        a Solana address that may receive it, its type is allowed at the first reading of the clock, the queue is not
        locked against it at the second, its amount is within bounds and storage has room for it; then the ledger
        grows by its record, taken at the third reading. If the commit is not acknowledged the ledger grows
        and the caller is told that the burn exists. */
    method SubmitScpTx(burn: BurnId, tx: Transaction, sighting: Sighting, clock: (Time, Time, Time), findPremined: bool,
                       getFlag: bool, commit: Commit)
      returns (r: Result<Option<nat>>)
      requires Valid()
      modifies this, storage
      ensures Valid() && (old(PreminedInv(storage.db)) ==> PreminedInv(storage.db))
      ensures Outcome(storage.settings, settings,
                      Circumstances(old(storage.db), old(TheLock()), sighting, clock, findPremined,
                                    old(queueLocked).Some? || getFlag, commit),
                      burn, tx, r, storage.db)
      ensures GapFits(settings) ==>
                Decided(storage.settings, settings,
                        Circumstances(old(storage.db), old(TheLock()), sighting, clock, findPremined,
                                      old(queueLocked).Some? || getFlag, commit),
                        burn, tx, r, storage.db)
      ensures TheLock() == old(TheLock())
    {
      hide Inv, PreminedInv, CanAdmit, Admit, Outcome, Decided, EarlyError, RecordFor, Refusal;
      ghost var c := Circumstances(storage.db, TheLock(), sighting, clock, findPremined, queueLocked.Some? || getFlag, commit);
      CommitComesLast(settings, c, burn, tx);
      var u := VetSubmission(burn, tx, sighting, clock, findPremined, getFlag);
      if u.Err? {
        EarlyOutcome(storage.settings, settings, c, burn, tx, u.error);
        return Err(u.error);
      }
      RecordShape(settings, c, burn, tx);
      var status := storage.AddUnconfirmedScpTx(u.value, commit);
      r := if status.Err? then Err(status.error)
           else if u.value.kind != Regular then Ok(None)
           else Ok(Some(status.value.value.queueSize));
      LateOutcome(storage.settings, settings, c, burn, tx, r, storage.db);
    }

    /** TransportStatus looks the burn up twice; `later` is the storage as the second lookup finds it, after what others
        did in between. On one state of the ledger the answer is the status of the burn. */
    method TransportStatus(burn: BurnId, later: TransporterDb.TransporterDB, transportRecord: bool, unconfirmedInfo: bool)
      returns (r: Result<BurnStatus.Status>)
      requires Valid()
      ensures r.Ok? <==> transportRecord && (BurnStatus.Lookup(storage.db, burn).None? ==> unconfirmedInfo)
      ensures r == if r.Ok? then Ok(BurnStatus.TwoLookups(storage.db, later.db, burn)) else Err(StorageFailure)
      ensures r.Ok? && later.db == storage.db ==> r.value == BurnStatus.StatusOf(storage.db, burn)
    {
      var record := storage.TransportRecord(burn, transportRecord);
      BurnStatus.LookupNone(storage.db, burn);
      if record.Err? {
        if record.error == NotExists {
          BurnStatus.FindUnconfirmedIs(later.db.unconfirmed, burn);
          var info := later.UnconfirmedInfo(burn, unconfirmedInfo);
          if info.Err? && info.error != NotExists {
            return Err(info.error);
          }
          if info.Err? {
            return Ok(BurnStatus.NotFound);
          }
          return Ok(BurnStatus.Status.Unconfirmed);
        }
        return Err(record.error);
      }
      if record.value.completed {
        return Ok(BurnStatus.Completed);
      }
      if record.value.solanaTx.None? {
        return Ok(BurnStatus.InTheQueue);
      }
      return Ok(BurnStatus.SolanaTxCreated);
    }

    // ---------- unconfirmed loop ----------

    /** The list-building loop of processUnconfirmed; it stops at a burn the chain does not answer for. */
    method SortUnconfirmed(us: seq<Unconfirmed>, onChain: OnChain, height: nat)
      returns (ok: bool, setHeight: seq<BurnId>, toRemove: seq<Unconfirmed>, toConfirm: seq<Unconfirmed>)
      ensures ok <==> Answers(onChain, us)
      ensures ok ==>
                && setHeight == BurnIds(Chosen(us, RecordHeight, onChain, height, settings.scpTxConfirmations))
                && toRemove == Chosen(us, Remove, onChain, height, settings.scpTxConfirmations)
                && toConfirm == Chosen(us, Confirm, onChain, height, settings.scpTxConfirmations)
      ensures ok ==> Sorted(us, onChain, height, settings.scpTxConfirmations, setHeight, toRemove, toConfirm)
    {
      hide Sorted;
      setHeight, toRemove, toConfirm := [], [], [];
      for i := 0 to |us|
        invariant Answers(onChain, us[..i])
        invariant setHeight == BurnIds(Chosen(us[..i], RecordHeight, onChain, height, settings.scpTxConfirmations))
        invariant toRemove == Chosen(us[..i], Remove, onChain, height, settings.scpTxConfirmations)
        invariant toConfirm == Chosen(us[..i], Confirm, onChain, height, settings.scpTxConfirmations)
      {
        var utx := us[i];
        if utx.burn !in onChain {
          assert utx in us;
          return false, [], [], [];
        }
        assert us[..i + 1][..i] == us[..i] && us[..i + 1][i] == utx;
        if !onChain[utx.burn] {
          toRemove := toRemove + [utx];
        } else if utx.height.None? {
          setHeight := setHeight + [utx.burn];
        } else if HeightGap(height, utx.height.value) >= settings.scpTxConfirmations {
          toConfirm := toConfirm + [utx];
        }
      }
      assert us[..|us|] == us;
      SortedIs(us, onChain, height, settings.scpTxConfirmations);
      ok := true;
    }

    /** One pass over the burns that are old enough, which the read delivers once more for every commit of
        it that failed. Every burn meets its fate, or is left as it was where the pass stops. `heights` are the two
        readings of the current height, None where it fails. */
    method ProcessUnconfirmed(now: Time, confirmTime: Time, onChain: OnChain, heights: (Option<nat>, Option<nat>),
                              unconfirmedBefore: bool, failedCommits: nat, commits: PassCommits) returns (ok: bool)
      requires Valid()
      requires heights.1.Some? ==> heights.1.value < TWO64
      modifies storage
      ensures Valid() && TheLock() == old(TheLock())
      ensures var us := Repeat(SelectBefore(old(storage.db).unconfirmed, now - settings.scpTxConfirmationTime),
                               failedCommits + 1);
              if unconfirmedBefore && heights.0.Some? && heights.1.Some? && Answers(onChain, us) then
                (ok, storage.db) == PassOutcome(old(storage.db), us, onChain, heights.0.value, settings.scpTxConfirmations,
                                                heights.1.value, confirmTime, commits)
              else !ok && storage.db == old(storage.db)
      ensures Passed(old(storage.db),
                     Pass(now - settings.scpTxConfirmationTime, onChain, heights.0.GetOr(0), settings.scpTxConfirmations,
                          heights.1.GetOr(0), confirmTime),
                     ok, storage.db)
      ensures (&& unconfirmedBefore && heights.0.Some? && heights.1.Some? && failedCommits == 0
               && commits == PassCommits(true, Commits, Commits)
               && AllAnswered(old(storage.db), Pass(now - settings.scpTxConfirmationTime, onChain, heights.0.GetOr(0),
                                                    settings.scpTxConfirmations, heights.1.GetOr(0), confirmTime))
               && AccountsInOrder(old(storage.db))) ==>
                ok
      ensures ok && failedCommits == 0 && commits.remove.Commits? && old(PreminedInv(storage.db)) ==> PreminedInv(storage.db)
    {
      hide Inv, PreminedInv, Chosen, RemoveOutcome, ConfirmOutcome, SelectBefore, Answers, RowsOf, Passed, AllAnswered,
           PassOutcome, AccountsInOrder, Repeat, Sorted;
      ghost var p := Pass(now - settings.scpTxConfirmationTime, onChain, heights.0.GetOr(0), settings.scpTxConfirmations,
                          heights.1.GetOr(0), confirmTime);
      NothingPassed(storage.db, p);
      AnswersRead(storage.db, storage.settings.queueSizeLimit, p, failedCommits);
      if AllAnswered(storage.db, p) {
        ReadPass(storage.db, storage.settings.queueSizeLimit, p, failedCommits, commits);
      }
      if !unconfirmedBefore {
        return false;
      }
      ghost var start := storage.db;
      var us := storage.UnconfirmedBefore(now - settings.scpTxConfirmationTime, failedCommits);
      if heights.0.None? {
        return false;
      }
      var sorted, setHeight, toRemove, toConfirm := SortUnconfirmed(us, onChain, heights.0.value);
      if !sorted || heights.1.None? {
        return false;
      }
      ReadRowsOf(start, storage.settings.queueSizeLimit, now - settings.scpTxConfirmationTime, failedCommits);
      ok := CarryOut(us, onChain, heights.0.value, setHeight, toRemove, toConfirm, heights.1.value, confirmTime, commits);
    }

    /** The three storage calls of a pass. Every call is a transaction of its own, so a failure, like a crash, stops the
        pass between two of them; the ledger invariant holds at each such point. */
    method CarryOut(ghost us: seq<Unconfirmed>, ghost onChain: OnChain, ghost height: nat, setHeight: seq<BurnId>,
                    toRemove: seq<Unconfirmed>, toConfirm: seq<Unconfirmed>, newHeight: nat, now: Time, commits: PassCommits)
      returns (ok: bool)
      requires Valid() && newHeight < TWO64 && RowsOf(storage.db, us) && Answers(onChain, us)
      requires setHeight == BurnIds(Chosen(us, RecordHeight, onChain, height, settings.scpTxConfirmations))
               && toRemove == Chosen(us, Remove, onChain, height, settings.scpTxConfirmations)
               && toConfirm == Chosen(us, Confirm, onChain, height, settings.scpTxConfirmations)
      modifies storage
      ensures Valid() && TheLock() == old(TheLock())
      ensures (ok, storage.db) == PassOutcome(old(storage.db), us, onChain, height, settings.scpTxConfirmations, newHeight, now,
                                              commits)
    {
      hide Inv, PreminedInv, Chosen, RemoveOutcome, ConfirmOutcome, Answers, RowsOf;
      ListsStayInTable(storage.db, storage.settings.queueSizeLimit, us, onChain, height, settings.scpTxConfirmations, newHeight,
                       commits.remove);
      ok := storage.SetConfirmationHeight(setHeight, newHeight, commits.setHeights);
      if !ok {
        return false;
      }
      OutcomesKeepFlags(storage.db, toRemove, now, commits.remove);
      ok := storage.RemoveUnconfirmed(toRemove, commits.remove);
      if !ok {
        return false;
      }
      OutcomesKeepFlags(storage.db, toConfirm, now, commits.confirm);
      RowsWereRows(storage.db, toConfirm);
      var confirmed := storage.ConfirmUnconfirmed(toConfirm, now, commits.confirm);
      return confirmed.Ok?;
    }

    // ---------- recovery ----------

    /** One turn of the recovery loop. */
    method SettleRecord(t: TransportType, record: Row, minted: Confirmed, available: bool) returns (ok: bool)
      requires Valid() && record.solanaId.Some?
      requires (IsFront(storage.db, t, record.burn) && OnlyFlight(storage.db, t, record.solanaId.value))
               || RecoverRecord(storage.db, t, record, minted) == storage.db
      modifies storage
      ensures Valid() && TheLock() == old(TheLock()) && ok == available
      ensures storage.db == if ok then RecoverRecord(old(storage.db), t, record, minted) else old(storage.db)
    {
      hide Inv, OnlyFlight, IsFront;
      if record.solanaId.value in minted {
        ok := storage.ConfirmSolana(record.solanaId.value, minted[record.solanaId.value], available);
      } else {
        ok := storage.RemoveSolanaTransaction(record.burn, t, available);
      }
    }

    /** Every record in flight is marked confirmed if its transaction is in `minted`, and forgotten
        otherwise. Commits of the read that failed make the loop meet every record again, which changes
        nothing. Update number `failing` fails, which stops the recovery between two records. */
    method HandleUnconfirmedSolana(minted: Confirmed, records: bool, failedCommits: nat, txStatus: bool,
                                   failing: nat) returns (ok: bool)
      requires Valid() && IdsUnique(storage.db)
      modifies storage
      ensures Valid() && TheLock() == old(TheLock())
      ensures ok <==> records && (InFlight(old(storage.db)) == []
                                  || (txStatus && (failedCommits + 1) * |InFlight(old(storage.db))| <= failing))
      ensures ok ==> storage.db == RecoverRecords(old(storage.db), InFlight(old(storage.db)), minted)
      ensures ok ==> forall t: TransportType :: Settled(old(storage.db), storage.db, t, minted)
      ensures ok ==> OwnTimes(old(storage.db).solana, InFlight(old(storage.db)), minted, storage.db.solana)
      ensures RecoveredUpTo(old(storage.db), storage.db, InFlight(old(storage.db)), minted)
    {
      hide Inv, IdsUnique, InFlight, RecordsOf, Settled, RecoveredUpTo, RecoverRecords, Repeat, OwnTimes;
      ghost var start, all := storage.db, InFlight(storage.db);
      RecoveryGrounds(start, storage.settings.queueSizeLimit, minted);
      RecoveryTimes(start, all, minted);
      RecoveryBegins(start, all, failedCommits, minted);
      if !records {
        return false;
      }
      var unconfirmed := storage.RecordsWithUnconfirmedSolana(failedCommits);
      RepeatLength(all, failedCommits + 1);
      if |unconfirmed| == 0 {
        RecoveryEnds(start, all, failedCommits, minted);
        return true;
      }
      if !txStatus {
        return false;
      }
      for i := 0 to |unconfirmed|
        invariant Valid() && LockFlag(storage.db) == LockFlag(start)
        invariant i <= failing
        invariant storage.db == RecoverRecords(start, unconfirmed[..i], minted)
        invariant RecoveredUpTo(start, storage.db, all, minted)
      {
        RecoveryTurn(start, storage.settings.queueSizeLimit, all, failedCommits, minted, i);
        RecoveredStop(start, all, failedCommits, minted, i + 1);
        ok := SettleRecord(unconfirmed[i].0, unconfirmed[i].1, minted, i != failing);
        if !ok {
          return false;
        }
      }
      RecoveryEnds(start, all, failedCommits, minted);
      return true;
    }

    /** The server starts only if ledger and contract report the same supplies. */
    method CompareSupplyToSolana(contract: Result<Supply>, confirmedSupply: bool) returns (ok: bool)
      requires Valid()
      ensures ok <==> confirmedSupply && contract == Ok(Ledger.ConfirmedSupply(storage.db))
    {
      if contract.Err? {
        return false;
      }
      var ledger := storage.ConfirmedSupply(confirmedSupply);
      if ledger.Err? {
        return false;
      }
      return contract.value == ledger.value;
    }

    // ---------- minting ----------

    /** The requests of one round: premined, airdrop, then the queue up to what emission allows, each once
        more for every commit of its read that failed. With nothing in flight and no failed commit
        these are the next rows of each chain, in chain order. */
    method GatherMints(now: Time, premined: bool, airdrop: bool, queue: bool,
                       failedCommits: (nat, nat, nat)) returns (r: Result<seq<Request>>)
      requires Valid()
      ensures r.Ok? <==> premined && airdrop && queue
      ensures r.Ok? && (forall t: TransportType :: !HasFlight(storage.db, t)) ==>
                r.value == Repeat(NextRows(storage.db, Premined, None), failedCommits.0 + 1)
                           + Repeat(NextRows(storage.db, Airdrop, None), failedCommits.1 + 1)
                           + Repeat(NextRows(storage.db, Regular, Some(Emission.AllowedSupply(now))), failedCommits.2 + 1)
    {
      hide Inv, NextRows, SelectUncompleted, Below, Repeat;
      var totalReqs: seq<Request> := [];
      if !premined {
        return Err(StorageFailure);
      }
      var preminedReqs := storage.NextRequests(Premined, 0, failedCommits.0);
      totalReqs := totalReqs + preminedReqs;
      if !airdrop {
        return Err(StorageFailure);
      }
      var airdropReqs := storage.NextRequests(Airdrop, 0, failedCommits.1);
      totalReqs := totalReqs + airdropReqs;
      var allowedSupply := Emission.AllowedSupply(now);
      if !queue {
        return Err(StorageFailure);
      }
      var queueReqs := storage.NextRequests(Regular, allowedSupply, failedCommits.2);
      totalReqs := totalReqs + queueReqs;
      assert HasFlight(storage.db, Premined) || preminedReqs == Repeat(NextRows(storage.db, Premined, None), failedCommits.0 + 1);
      assert HasFlight(storage.db, Airdrop) || airdropReqs == Repeat(NextRows(storage.db, Airdrop, None), failedCommits.1 + 1);
      assert HasFlight(storage.db, Regular)
             || queueReqs == Repeat(NextRows(storage.db, Regular, Some(allowedSupply)), failedCommits.2 + 1);
      return Ok(totalReqs);
    }

    /** Once the transaction is known to have minted, marking it confirmed is retried until it works. */
    method ConfirmUntilDone(ghost t: TransportType, id: SolanaTxId, now: Time, confirmFailures: nat)
      modifies storage
      ensures TheLock() == old(TheLock())
      ensures storage.db == ConfirmSolana(old(storage.db), id, now)
      ensures forall u: TransportType :: storage.db.Table(u) == old(storage.db).Table(u)
      ensures old(Valid()) && OnlyFlight(old(storage.db), t, id) ==>
                && Valid()
                && forall u: TransportType :: storage.db.Done(u) == old(storage.db).Done(u) + (if u == t then 1 else 0)
    {
      hide Inv, OnlyFlight;
      var failures := confirmFailures;
      var confirmed := storage.ConfirmSolana(id, now, failures == 0);
      while !confirmed
        invariant !confirmed ==> storage.db == old(storage.db) && failures > 0
        invariant confirmed ==> storage.db == ConfirmSolana(old(storage.db), id, now)
        invariant confirmed ==> forall u: TransportType :: storage.db.Table(u) == old(storage.db).Table(u)
        invariant old(Valid()) && OnlyFlight(old(storage.db), t, id) ==>
                    && Valid()
                    && (confirmed ==> forall u: TransportType ::
                          storage.db.Done(u) == old(storage.db).Done(u) + (if u == t then 1 else 0))
        decreases !confirmed, failures
      {
        failures := failures - 1;
        confirmed := storage.ConfirmSolana(id, now, failures == 0);
      }
    }

    /** mint, against a script of what each attempt meets; it never gives up, so it is still at work
        when the script ends without a minted transaction. Attempt by attempt it does to the ledger what
        MintEffect says. For the row at the front of its chain it touches only that row, and completes it by the id
        recorded last. For a row that is completed already, as a list that was read twice delivers it, it
        takes the completion back, and is done only if a new transaction minted. */
    method Mint(req: Request, script: seq<Attempt>, now: Time) returns (done: bool)
      modifies storage
      ensures TheLock() == old(TheLock())
      ensures (storage.db, done) == MintEffect(old(storage.db), req, script, now)
      ensures old(Valid()) && IsFront(old(storage.db), req.kind, req.burn) ==>
                && Valid() && FrontServed(old(storage.db), req, script, now, storage.db, done)
      ensures forall i: nat :: old(Valid()) && ForCompleted(old(storage.db), req, i) ==>
                TakesBack(old(storage.db), req, i, script, storage.db, done)
    {
      hide Inv, PreminedInv, AttemptEffect, FrontServed, TakesBack, ForCompleted, IsFront;
      ghost var start := storage.db;
      MintIs(start, storage.settings.queueSizeLimit, req, script, now);
      for i := 0 to |script|
        invariant TheLock() == old(TheLock())
        invariant MintEffect(storage.db, req, script[i..], now) == MintEffect(start, req, script, now)
      {
        assert script[i..][0] == script[i] && script[i..][1..] == script[i + 1..];
        done := TryMint(req, script[i], now);
        if done {
          return true;
        }
      }
      return false;
    }

    /** One attempt. */
    method TryMint(req: Request, attempt: Attempt, now: Time) returns (done: bool)
      modifies storage
      ensures TheLock() == old(TheLock())
      ensures (storage.db, done) == AttemptEffect(old(storage.db), req, attempt, now)
    {
      if attempt.BuildFailed? {
        return false;
      }
      var commit := if attempt.SaveFailed? then (if attempt.effect then Unacknowledged else Unavailable) else Commits;
      var saved := storage.AddSolanaTransaction(req.burn, req.kind, attempt.id, now, commit);
      if saved.Err? {
        return false;
      }
      if attempt.NotMinted? {
        return false;
      }
      ConfirmUntilDone(req.kind, attempt.id, now, attempt.confirmFailures);
      return true;
    }
  }

  /** What a script for the row at the front comes to. */
  ghost predicate FrontServed(db: Database, req: Request, script: seq<Attempt>, now: Time, db': Database, done: bool) {
    && OnlyFrontChanged(db, db', req.kind)
    && (forall t: TransportType :: db'.Done(t) == db.Done(t) + (if done && t == req.kind then 1 else 0))
    && db.Done(req.kind) < |db'.Table(req.kind)|
    && (done ==> exists k :: 0 <= k < |script| && script[k].Minted?
                             && db'.Table(req.kind)[db.Done(req.kind)].solanaId == Some(script[k].id)
                             && MintedAt(db', script[k].id, now))
    && (!done ==> forall k :: 0 <= k < |script| && script[k].Minted? ==> script[k].id in db'.solana)
  }

  lemma MintIs(db: Database, queueSizeLimit: nat, req: Request, script: seq<Attempt>, now: Time)
    ensures var (db', done) := MintEffect(db, req, script, now);
            && (Inv(db, queueSizeLimit) && IsFront(db, req.kind, req.burn) ==>
                  Inv(db', queueSizeLimit) && FrontServed(db, req, script, now, db', done))
            && forall i: nat :: Inv(db, queueSizeLimit) && ForCompleted(db, req, i) ==> TakesBack(db, req, i, script, db', done)
  {
    hide Inv, PreminedInv, OnlyFrontChanged, MintEffect, TakesBack, ForCompleted;
    var (db', done) := MintEffect(db, req, script, now);
    if Inv(db, queueSizeLimit) && IsFront(db, req.kind, req.burn) {
      MintEffectIs(db, queueSizeLimit, req, script, now);
      FrontLength(db, db', req.kind);
    }
    forall i: nat | Inv(db, queueSizeLimit) && ForCompleted(db, req, i)
      ensures TakesBack(db, req, i, script, db', done)
    {
      MintAgainIs(db, queueSizeLimit, req, i, script, now);
    }
  }

  lemma FrontLength(db: Database, db': Database, t: TransportType)
    requires OnlyFrontChanged(db, db', t)
    ensures |db'.Table(t)| == |db.Table(t)|
  {
  }

  /** A read of old burns returns rows, however often. */
  lemma ReadRowsOf(db: Database, queueSizeLimit: nat, before: Time, failedCommits: nat)
    requires Inv(db, queueSizeLimit)
    ensures RowsOf(db, Repeat(SelectBefore(db.unconfirmed, before), failedCommits + 1))
  {
    SelectBeforeIs(db.unconfirmed, before);
    RepeatMembers(SelectBefore(db.unconfirmed, before), failedCommits + 1);
  }

  lemma RowsWereRows(db: Database, us: seq<Unconfirmed>)
    requires RowsOf(db, us)
    ensures WereRows(db, us)
  {
  }

  lemma FoundIff(db: Database, hashes: seq<UnlockHash>, found: map<UnlockHash, Limit>)
    requires forall a :: a in found <==> a in hashes && Spendable(db, a)
    ensures |found| != 0 <==> exists a :: a in hashes && Spendable(db, a)
  {
    if |found| != 0 {
      var a :| a in found;
      assert Spendable(db, a);
    } else {
      assert found == map[];
      forall a | a in hashes
        ensures !Spendable(db, a)
      {
        assert a !in found;
      }
    }
  }
}
