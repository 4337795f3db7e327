/** Which transport a burn becomes and what is stored of it (server.go): the rules the server applies, and what
    they come to, told by the premined limits, the clock, the lock and the transaction itself. */
module Admission {
  import opened Common
  import opened Tables
  import opened Ledger
  import opened StorageSpec
  import opened QueueLock
  import opened ScpTransaction
  import Emission

  // ---------- the type of a burn ----------

  /** checkUnlockHashes: HasAirdrop is constantly false. */
  function KindOf(db: Database, hashes: seq<UnlockHash>, now: Time): Result<TransportType> {
    var premined := exists a :: a in hashes && Spendable(db, a);
    if premined && |hashes| != 1 then Err(NotPremined)
    else if premined then Ok(Premined)
    else if IsPreminedPeriod(now) then Err(PreminedPeriod)
    else Ok(Regular)
  }

  /** An address listed as premined that is not blocked and has not reached its maximum. */
  predicate HasPremined(limits: map<UnlockHash, Limit>, a: UnlockHash) {
    a in limits && !limits[a].blocked && limits[a].transported < limits[a].allowedMax
  }

  predicate NonePremined(limits: map<UnlockHash, Limit>, hashes: seq<UnlockHash>) {
    forall a :: a in hashes ==> !HasPremined(limits, a)
  }

  /** The answer for a set of spending addresses: one address with premined coins makes a premined burn, none a regular
      one once emission has started; and nothing makes an airdrop. */
  predicate ClassifiedAs(limits: map<UnlockHash, Limit>, hashes: seq<UnlockHash>, now: Time, r: Result<TransportType>) {
    && (r == Ok(Premined) <==> |hashes| == 1 && HasPremined(limits, hashes[0]))
    && (r == Ok(Regular) <==> NonePremined(limits, hashes) && EMISSION_START <= now)
    && r != Ok(Airdrop)
    && (r == Err(NotPremined) <==> !NonePremined(limits, hashes) && |hashes| != 1)
    && (r == Err(PreminedPeriod) <==> NonePremined(limits, hashes) && now < EMISSION_START)
    && (r.Err? ==> r.error == NotPremined || r.error == PreminedPeriod)
  }

  lemma KindIs(db: Database, hashes: seq<UnlockHash>, now: Time)
    ensures ClassifiedAs(db.limits, hashes, now, KindOf(db, hashes, now))
  {
    assert forall a :: Spendable(db, a) <==> HasPremined(db.limits, a);
    if |hashes| == 1 {
      assert forall a :: a in hashes <==> a == hashes[0];
    }
  }

  // ---------- what is stored ----------

  /** The record SubmitScpTx hands to storage. */
  function Submission(burn: BurnId, amount: nat, recipient: SolanaAddress, kind: TransportType,
                      hashes: seq<UnlockHash>, now: Time): Unconfirmed
    requires kind.Premined? ==> |hashes| > 0
  {
    Unconfirmed(burn, amount, recipient, if kind.Premined? then Some(hashes[0]) else None, None, now, kind)
  }

  /** The record is that of the transaction: its id, what it sends to the burn address, and the Solana address in its
      first piece of arbitrary data that holds one. A premined burn names the one address it spends from. */
  predicate IsRecordOf(u: Unconfirmed, burn: BurnId, tx: Transaction) {
    && u.burn == burn
    && u.amount == Burned(tx.outputs, BURN_ADDRESS)
    && (exists i :: 0 <= i < |tx.arbitraryData| && HoldsFirst(tx.arbitraryData, i)
                    && u.recipient == Number(ExtractSolanaAddress(tx.arbitraryData[i]).value))
    && (if u.kind.Premined? then u.source.Some? && AllFrom(tx, u.source.value) else u.source.None?)
    && u.height.None?
  }

  /** The transaction spends from this address only. */
  predicate AllFrom(tx: Transaction, a: UnlockHash) {
    a in tx.inputs && forall b :: b in tx.inputs ==> b == a
  }

  /** Piece `i` holds a Solana address, and none before it does. */
  predicate HoldsFirst(data: seq<seq<Byte>>, i: nat)
    requires i < |data|
  {
    ExtractSolanaAddress(data[i]).Some? && forall k :: 0 <= k < i ==> ExtractSolanaAddress(data[k]).None?
  }

  lemma {:induction false} AddressIsFirst(data: seq<seq<Byte>>) returns (i: nat)
    requires AddressIn(data).Some?
    ensures i < |data| && HoldsFirst(data, i) && AddressIn(data).value == Number(ExtractSolanaAddress(data[i]).value)
    decreases |data|
  {
    if ExtractSolanaAddress(data[0]).Some? {
      i := 0;
    } else {
      var k := AddressIsFirst(data[1..]);
      i := k + 1;
      assert data[i] == data[1..][k];
      assert forall j :: 0 < j < i ==> data[j] == data[1..][j - 1];
    }
  }

  // ---------- the rules of a submission ----------

  /** What the ScPrime node and the Solana node say of a submitted transaction and its recipient; no answer on
      confirmation means that the call failed. */
  datatype Sighting = Sighting(valid: bool, confirmed: Option<bool>, inPool: bool, addressFits: bool)

  /** What a submission meets: the ledger and the lock, three readings of the clock, and whether the premined addresses and
      the lock can be looked up. */
  datatype Circumstances = Circumstances(db: Database, lock: Lock, sighting: Sighting, clock: (Time, Time, Time),
                                         findPremined: bool, getFlag: bool, commit: Commit)

  /** The commit comes last and plays no part before. */
  function Beforehand(db: Database, lock: Lock, sighting: Sighting, clock: (Time, Time, Time), findPremined: bool,
                      getFlag: bool): Circumstances {
    Circumstances(db, lock, sighting, clock, findPremined, getFlag, Commits)
  }

  /** What is wrong with the transaction itself. */
  function NodeError(c: Circumstances, tx: Transaction): Option<Error> {
    if !c.sighting.valid then Some(InvalidTransaction)
    else if c.sighting.confirmed.None? then Some(StorageFailure)
    else if !c.sighting.confirmed.value && !c.sighting.inPool then Some(NotInTransactionPool)
    else if Burned(tx.outputs, BURN_ADDRESS) == 0 then Some(ZeroAmount)
    else if AddressIn(tx.arbitraryData).None? then Some(NoSolanaAddress)
    else if !c.sighting.addressFits then Some(AddressRefused)
    else None
  }

  /** What keeps it out by type, lock or amount. */
  function RuleError(s: ServerSettings, c: Circumstances, tx: Transaction): Option<Error> {
    var kind := KindOf(c.db, Unique(tx.inputs), c.clock.0);
    if !c.findPremined then Some(StorageFailure)
    else if kind.Err? then Some(kind.error)
    else if s.queueMode.ReleaseAllAtOnce? && !c.getFlag then Some(StorageFailure)
    else if kind.value.Regular? && IsLocked(s, c.lock, false, c.clock.1) then Some(QueueLocked)
    else AmountError(s, Burned(tx.outputs, BURN_ADDRESS), kind.value.Regular?)
  }

  /** The error of the first check that fails, if one does before the burn is handed to storage. */
  function EarlyError(s: ServerSettings, c: Circumstances, tx: Transaction): Option<Error> {
    if NodeError(c, tx).Some? then NodeError(c, tx) else RuleError(s, c, tx)
  }

  /** The record, once no early check fails. */
  function RecordFor(s: ServerSettings, c: Circumstances, burn: BurnId, tx: Transaction): Unconfirmed
    requires EarlyError(s, c, tx).None?
  {
    KindIs(c.db, Unique(tx.inputs), c.clock.0);
    Submission(burn, Burned(tx.outputs, BURN_ADDRESS), AddressIn(tx.arbitraryData).value,
               KindOf(c.db, Unique(tx.inputs), c.clock.0).value, Unique(tx.inputs), c.clock.2)
  }

  /** What the server answers and the ledger it leaves. */
  predicate Outcome(storage: Settings, s: ServerSettings, c: Circumstances, burn: BurnId, tx: Transaction,
                    r: Result<Option<nat>>, db': Database) {
    var early := EarlyError(s, c, tx);
    if early.Some? then r == Err(early.value) && db' == c.db
    else
      var u := RecordFor(s, c, burn, tx);
      var admitted := !c.commit.Unavailable? && CanAdmit(c.db, storage.queueSizeLimit, u);
      && db' == (if admitted then Admit(c.db, u) else c.db)
      && r == if c.commit.Unavailable? then Err(StorageFailure)
              else if !admitted then Err(Refusal(c.db, storage, u))
              else if c.commit.Unacknowledged? then Err(BurnIdExists)
              else Ok(if u.kind.Regular? then Some(QueueSize(c.db)) else None)
  }

  lemma CommitComesLast(s: ServerSettings, c: Circumstances, burn: BurnId, tx: Transaction)
    ensures var c' := Beforehand(c.db, c.lock, c.sighting, c.clock, c.findPremined, c.getFlag);
            && EarlyError(s, c', tx) == EarlyError(s, c, tx)
            && (EarlyError(s, c, tx).None? ==> RecordFor(s, c', burn, tx) == RecordFor(s, c, burn, tx))
  {
  }

  lemma RecordShape(s: ServerSettings, c: Circumstances, burn: BurnId, tx: Transaction)
    requires EarlyError(s, c, tx).None?
    ensures var u := RecordFor(s, c, burn, tx);
            u.(height := None) == u && (u.kind.Premined? ==> u.source.Some?) && !u.kind.Airdrop?
  {
    hide NodeError, AddressIn, Unique, Burned, IsLocked, AmountError, KindOf;
    KindIs(c.db, Unique(tx.inputs), c.clock.0);
  }

  // ---------- what they come to ----------

  predicate NamesAddress(tx: Transaction) {
    exists i :: 0 <= i < |tx.arbitraryData| && ExtractSolanaAddress(tx.arbitraryData[i]).Some?
  }

  /** The node takes the transaction for valid, and it is confirmed or in the pool. */
  predicate Seen(c: Circumstances) {
    c.sighting.valid && c.sighting.confirmed.Some? && (c.sighting.confirmed.value || c.sighting.inPool)
  }

  /** The node knows the transaction, which burns something for an address that may receive it. */
  predicate WellFormed(c: Circumstances, tx: Transaction) {
    && Seen(c)
    && Burned(tx.outputs, BURN_ADDRESS) > 0 && NamesAddress(tx) && c.sighting.addressFits
  }

  /** All inputs spend from one address, which has premined coins. */
  predicate IsPremined(c: Circumstances, tx: Transaction) {
    exists a :: a in tx.inputs && HasPremined(c.db.limits, a) && AllFrom(tx, a)
  }

  /** No input spends from an address with premined coins, and emission has started. */
  predicate IsRegular(c: Circumstances, tx: Transaction) {
    NonePremined(c.db.limits, tx.inputs) && EMISSION_START <= c.clock.0
  }

  /** The lookups that the decision needs succeed. */
  predicate LookedUp(s: ServerSettings, c: Circumstances) {
    c.findPremined && (s.queueMode.ReleaseAllAtOnce? ==> c.getFlag)
  }

  /** The burn is taken on: for the queue if that is not locked against it and has room, and from a premined address if
      that has room. */
  predicate Accepted(storage: Settings, s: ServerSettings, c: Circumstances, burn: BurnId, tx: Transaction) {
    var amount := Burned(tx.outputs, BURN_ADDRESS);
    && WellFormed(c, tx) && LookedUp(s, c) && !c.commit.Unavailable?
    && !Known(c.db, burn) && s.transportMin <= amount
    && (|| (IsRegular(c, tx) && !LockBites(s, c.lock, c.clock.1) && amount <= s.transportMax
            && QueueSize(c.db) + amount <= storage.queueSizeLimit && QueueEndSupply(c.db) + amount <= TOTAL_SUPPLY)
        || (IsPremined(c, tx) && forall a :: a in tx.inputs ==>
              0 <= c.db.limits[a].transported && c.db.limits[a].transported + amount <= c.db.limits[a].allowedMax))
  }

  /** The ledger has grown by the record of the transaction, and no other row or flag has changed. A premined burn is
      charged to its address and leaves the queue alone, and a regular one joins the queue and leaves all limits alone. */
  predicate Grown(c: Circumstances, burn: BurnId, tx: Transaction, db': Database) {
    var n, amount := |c.db.unconfirmed|, Burned(tx.outputs, BURN_ADDRESS);
    && |db'.unconfirmed| == n + 1 && db'.unconfirmed[..n] == c.db.unconfirmed
    && IsRecordOf(db'.unconfirmed[n], burn, tx) && db'.unconfirmed[n].time == c.clock.2
    && (forall t: TransportType :: db'.Table(t) == c.db.Table(t))
    && db'.solana == c.db.solana && db'.flags == c.db.flags
    && (db'.unconfirmed[n].kind.Premined? <==> IsPremined(c, tx)) && !db'.unconfirmed[n].kind.Airdrop?
    && db'.limits.Keys == c.db.limits.Keys
    && (forall a :: a in c.db.limits ==>
          db'.limits[a] == c.db.limits[a].(transported := c.db.limits[a].transported
                                                          + if IsPremined(c, tx) && a in tx.inputs then amount else 0))
    && QueueSize(db') == QueueSize(c.db) + if IsPremined(c, tx) then 0 else amount
  }

  /** No check of the server refuses the burn, so that it is handed to storage. */
  predicate Passes(s: ServerSettings, c: Circumstances, tx: Transaction) {
    var amount := Burned(tx.outputs, BURN_ADDRESS);
    && WellFormed(c, tx) && LookedUp(s, c) && s.transportMin <= amount
    && (IsPremined(c, tx) || (IsRegular(c, tx) && !LockBites(s, c.lock, c.clock.1) && amount <= s.transportMax))
  }

  /** The errors, each with the case that gives it. */
  predicate Refused(storage: Settings, s: ServerSettings, c: Circumstances, burn: BurnId, tx: Transaction, error: Error) {
    var amount, told := Burned(tx.outputs, BURN_ADDRESS), WellFormed(c, tx) && c.findPremined;
    && (error == InvalidTransaction <==> !c.sighting.valid)
    && (error == NotInTransactionPool <==>
          c.sighting.valid && c.sighting.confirmed.Some? && !c.sighting.confirmed.value && !c.sighting.inPool)
    && (error == ZeroAmount <==> Seen(c) && amount == 0)
    && (error == NoSolanaAddress <==> Seen(c) && amount > 0 && !NamesAddress(tx))
    && (error == AddressRefused <==> Seen(c) && amount > 0 && NamesAddress(tx) && !c.sighting.addressFits)
    && (error == PreminedPeriod <==> told && NonePremined(c.db.limits, tx.inputs) && c.clock.0 < EMISSION_START)
    && (error == NotPremined <==> told && !NonePremined(c.db.limits, tx.inputs) && !IsPremined(c, tx))
    && (error == QueueLocked <==> told && LookedUp(s, c) && IsRegular(c, tx) && LockBites(s, c.lock, c.clock.1))
    && (error == TooSmall <==> && told && LookedUp(s, c) && amount < s.transportMin
                               && (IsPremined(c, tx) || (IsRegular(c, tx) && !LockBites(s, c.lock, c.clock.1))))
    && (error == TooBig <==> && told && LookedUp(s, c) && amount >= s.transportMin && amount > s.transportMax
                             && IsRegular(c, tx) && !LockBites(s, c.lock, c.clock.1))
    && (error == BurnIdExists <==> && Passes(s, c, tx) && !c.commit.Unavailable?
                                   && (Known(c.db, burn) || Accepted(storage, s, c, burn, tx)))
    && (error == AllowanceExceeded <==> && Passes(s, c, tx) && !c.commit.Unavailable?
                                        && !Known(c.db, burn) && !Accepted(storage, s, c, burn, tx))
  }

  predicate Decided(storage: Settings, s: ServerSettings, c: Circumstances, burn: BurnId, tx: Transaction,
                    r: Result<Option<nat>>, db': Database) {
    && (r.Ok? <==> Accepted(storage, s, c, burn, tx) && c.commit.Commits?)
    && (Accepted(storage, s, c, burn, tx) ==> Grown(c, burn, tx, db'))
    && (!Accepted(storage, s, c, burn, tx) ==> db' == c.db)
    && (r.Ok? ==> r.value == if IsPremined(c, tx) then None else Some(QueueSize(c.db)))
    && (r.Err? ==> Refused(storage, s, c, burn, tx, r.error))
  }

  // ---------- the rules mean this ----------

  lemma ClassIs(c: Circumstances, tx: Transaction)
    ensures var kind := KindOf(c.db, Unique(tx.inputs), c.clock.0);
            && (kind == Ok(Premined) <==> IsPremined(c, tx))
            && (kind == Ok(Regular) <==> IsRegular(c, tx))
            && kind != Ok(Airdrop)
            && (kind == Err(PreminedPeriod) <==> NonePremined(c.db.limits, tx.inputs) && c.clock.0 < EMISSION_START)
            && (kind == Err(NotPremined) <==> !NonePremined(c.db.limits, tx.inputs) && !IsPremined(c, tx))
            && (kind.Err? ==> kind.error == PreminedPeriod || kind.error == NotPremined)
    ensures IsPremined(c, tx) ==> !IsRegular(c, tx) && |Unique(tx.inputs)| == 1 && AllFrom(tx, Unique(tx.inputs)[0])
  {
    hide KindOf, Unique, HasPremined;
    var hashes := Unique(tx.inputs);
    KindIs(c.db, hashes, c.clock.0);
    UniqueIs(tx.inputs);
    UniqueSingle(tx.inputs);
    if |hashes| == 1 {
      assert hashes[0] in tx.inputs && AllFrom(tx, hashes[0]);
    }
    if IsPremined(c, tx) {
      var a :| a in tx.inputs && HasPremined(c.db.limits, a) && AllFrom(tx, a);
      assert forall i :: 0 <= i < |tx.inputs| ==> tx.inputs[i] in tx.inputs;
      assert a in hashes && |hashes| == 1;
    }
  }

  lemma AddressIsNamed(tx: Transaction)
    ensures AddressIn(tx.arbitraryData).Some? <==> NamesAddress(tx)
  {
    if AddressIn(tx.arbitraryData).Some? {
      var i := AddressIsFirst(tx.arbitraryData);
    } else {
      NoAddress(tx.arbitraryData);
    }
  }

  lemma {:induction false} NoAddress(data: seq<seq<Byte>>)
    requires AddressIn(data).None?
    ensures forall i :: 0 <= i < |data| ==> ExtractSolanaAddress(data[i]).None?
    decreases |data|
  {
    if data != [] {
      NoAddress(data[1..]);
      assert forall i :: 0 < i < |data| ==> data[i] == data[1..][i - 1];
    }
  }

  lemma NodeIs(c: Circumstances, tx: Transaction)
    ensures var error := NodeError(c, tx);
            && (error.None? <==> WellFormed(c, tx))
            && (error == Some(InvalidTransaction) <==> !c.sighting.valid)
            && (error == Some(NotInTransactionPool) <==>
                  c.sighting.valid && c.sighting.confirmed.Some? && !c.sighting.confirmed.value && !c.sighting.inPool)
            && (error == Some(ZeroAmount) <==> Seen(c) && Burned(tx.outputs, BURN_ADDRESS) == 0)
            && (error == Some(NoSolanaAddress) <==> Seen(c) && Burned(tx.outputs, BURN_ADDRESS) > 0 && !NamesAddress(tx))
            && (error == Some(AddressRefused) <==>
                  Seen(c) && Burned(tx.outputs, BURN_ADDRESS) > 0 && NamesAddress(tx) && !c.sighting.addressFits)
            && (error.Some? ==> error.value in {InvalidTransaction, StorageFailure, NotInTransactionPool, ZeroAmount,
                                                NoSolanaAddress, AddressRefused})
  {
    hide Burned, AddressIn, NamesAddress;
    AddressIsNamed(tx);
  }

  lemma RuleIs(s: ServerSettings, c: Circumstances, tx: Transaction)
    requires GapFits(s)
    ensures var error, amount := RuleError(s, c, tx), Burned(tx.outputs, BURN_ADDRESS);
            var open := IsRegular(c, tx) && !LockBites(s, c.lock, c.clock.1);
            && (error.None? <==> && LookedUp(s, c) && s.transportMin <= amount
                                 && (IsPremined(c, tx) || (open && amount <= s.transportMax)))
            && (error == Some(PreminedPeriod) <==>
                  c.findPremined && NonePremined(c.db.limits, tx.inputs) && c.clock.0 < EMISSION_START)
            && (error == Some(NotPremined) <==>
                  c.findPremined && !NonePremined(c.db.limits, tx.inputs) && !IsPremined(c, tx))
            && (error == Some(QueueLocked) <==> LookedUp(s, c) && IsRegular(c, tx) && LockBites(s, c.lock, c.clock.1))
            && (error == Some(TooSmall) <==> LookedUp(s, c) && amount < s.transportMin && (IsPremined(c, tx) || open))
            && (error == Some(TooBig) <==> LookedUp(s, c) && s.transportMin <= amount && s.transportMax < amount && open)
            && (error.Some? ==> error.value in {StorageFailure, PreminedPeriod, NotPremined, QueueLocked, TooSmall, TooBig})
  {
    hide KindOf, Unique, Burned, IsPremined, IsRegular, NonePremined, IsLocked, LockBites, AmountError, GapFits;
    ClassIs(c, tx);
    LockIs(s, c.lock, c.clock.1);
    var amount := Burned(tx.outputs, BURN_ADDRESS);
    AmountErrorIs(s, amount, true);
    AmountErrorIs(s, amount, false);
  }

  lemma EarlyIs(storage: Settings, s: ServerSettings, c: Circumstances, burn: BurnId, tx: Transaction)
    requires GapFits(s)
    ensures EarlyError(s, c, tx).None? <==> Passes(s, c, tx)
    ensures EarlyError(s, c, tx).Some? ==> Refused(storage, s, c, burn, tx, EarlyError(s, c, tx).value)
  {
    hide NamesAddress, NodeError, RuleError, Burned, IsPremined, IsRegular, NonePremined, LockBites, GapFits, WellFormed,
         LookedUp, Accepted;
    NodeIs(c, tx);
    RuleIs(s, c, tx);
    WellFormedIs(c, tx);
    LookedUpIs(s, c);
    NotAccepted(storage, s, c, burn, tx);
  }

  lemma WellFormedIs(c: Circumstances, tx: Transaction)
    ensures WellFormed(c, tx) ==>
              Seen(c) && Burned(tx.outputs, BURN_ADDRESS) > 0 && NamesAddress(tx) && c.sighting.addressFits
  {
  }

  lemma LookedUpIs(s: ServerSettings, c: Circumstances)
    ensures LookedUp(s, c) ==> c.findPremined
  {
  }

  lemma RecordIs(s: ServerSettings, c: Circumstances, burn: BurnId, tx: Transaction)
    requires EarlyError(s, c, tx).None?
    ensures var u := RecordFor(s, c, burn, tx);
            && IsRecordOf(u, burn, tx) && u.time == c.clock.2 && u.amount > 0
            && (if IsPremined(c, tx) then u.kind == Premined && HasPremined(c.db.limits, u.source.value)
                else u.kind == Regular && IsRegular(c, tx))
  {
    hide Unique, AddressIn, Burned, HasPremined, ExtractSolanaAddress, IsLocked, AmountError, KindOf, NonePremined;
    ClassIs(c, tx);
    var i := AddressIsFirst(tx.arbitraryData);
    if IsPremined(c, tx) {
      var a :| a in tx.inputs && HasPremined(c.db.limits, a) && AllFrom(tx, a);
      assert a == Unique(tx.inputs)[0];
    }
  }

  /** The rules of storage, for such a record. */
  lemma AdmissionIs(storage: Settings, s: ServerSettings, c: Circumstances, burn: BurnId, tx: Transaction, u: Unconfirmed)
    requires Inv(c.db, storage.queueSizeLimit) && Passes(s, c, tx) && IsRecordOf(u, burn, tx) && u.amount > 0
    requires if IsPremined(c, tx) then u.kind == Premined && HasPremined(c.db.limits, u.source.value)
             else u.kind == Regular && IsRegular(c, tx)
    ensures !c.commit.Unavailable? && CanAdmit(c.db, storage.queueSizeLimit, u) <==> Accepted(storage, s, c, burn, tx)
    ensures !CanAdmit(c.db, storage.queueSizeLimit, u) ==>
              Refusal(c.db, storage, u) == if Known(c.db, burn) then BurnIdExists else AllowanceExceeded
  {
    hide Inv, Known, QueueSize, QueueEndSupply, LockBites, WellFormed, LookedUp, Burned, HoldsFirst, ExtractSolanaAddress,
         NonePremined;
    AdmittedIff(c.db, storage, u);
    if IsPremined(c, tx) {
      var a :| a in tx.inputs && HasPremined(c.db.limits, a) && AllFrom(tx, a);
      assert a == u.source.value;
      assert !IsRegular(c, tx) by { ClassIs(c, tx); }
    }
  }

  lemma AdmittedIsGrown(s: ServerSettings, c: Circumstances, burn: BurnId, tx: Transaction, u: Unconfirmed)
    requires IsRecordOf(u, burn, tx) && u.time == c.clock.2
    requires if IsPremined(c, tx) then u.kind == Premined && HasPremined(c.db.limits, u.source.value)
             else u.kind == Regular && IsRegular(c, tx)
    ensures Grown(c, burn, tx, Admit(c.db, u))
  {
    hide Burned, HoldsFirst, ExtractSolanaAddress, NonePremined, IsPremined, IsRegular;
    TablesOnly(c.db, Admit(c.db, u));
    SumAppend(c.db.unconfirmed, u, OfKind(Regular));
  }

  /** The rules the server applies decide as told by the transaction, the limits, the clock and the lock. */
  lemma OutcomeIs(storage: Settings, s: ServerSettings, c: Circumstances, burn: BurnId, tx: Transaction,
                  r: Result<Option<nat>>, db': Database)
    requires Inv(c.db, storage.queueSizeLimit) && GapFits(s) && Outcome(storage, s, c, burn, tx, r, db')
    ensures Decided(storage, s, c, burn, tx, r, db')
  {
    hide Inv, EarlyError, RecordFor, Refused, IsRecordOf, CanAdmit, Refusal, Admit, QueueSize, Known, IsPremined, IsRegular,
         LockBites, WellFormed, LookedUp, Passes, Accepted, Grown, Burned, NonePremined, HasPremined;
    EarlyIs(storage, s, c, burn, tx);
    if EarlyError(s, c, tx).None? {
      var u := RecordFor(s, c, burn, tx);
      RecordIs(s, c, burn, tx);
      AdmissionIs(storage, s, c, burn, tx, u);
      AdmittedIsGrown(s, c, burn, tx, u);
      if r.Err? { LateErrors(storage, s, c, burn, tx, r.error); }
    } else {
      NotAccepted(storage, s, c, burn, tx);
    }
  }

  /** Past the checks of the server, the error is that of storage. */
  lemma LateErrors(storage: Settings, s: ServerSettings, c: Circumstances, burn: BurnId, tx: Transaction, error: Error)
    requires Passes(s, c, tx)
    requires error == if c.commit.Unavailable? then StorageFailure
                      else if Accepted(storage, s, c, burn, tx) || Known(c.db, burn) then BurnIdExists
                      else AllowanceExceeded
    ensures Refused(storage, s, c, burn, tx, error)
  {
    hide Burned, LockBites, NamesAddress, Known, QueueSize, QueueEndSupply, HasPremined, Accepted;
    ClassIs(c, tx);
  }

  lemma EarlyOutcome(storage: Settings, s: ServerSettings, c: Circumstances, burn: BurnId, tx: Transaction, error: Error)
    requires Inv(c.db, storage.queueSizeLimit) && EarlyError(s, c, tx) == Some(error)
    ensures Outcome(storage, s, c, burn, tx, Err(error), c.db)
    ensures GapFits(s) ==> Decided(storage, s, c, burn, tx, Err(error), c.db)
  {
    hide Inv, EarlyError, Decided;
    if GapFits(s) { OutcomeIs(storage, s, c, burn, tx, Err(error), c.db); }
  }

  lemma LateOutcome(storage: Settings, s: ServerSettings, c: Circumstances, burn: BurnId, tx: Transaction,
                    r: Result<Option<nat>>, db': Database)
    requires Inv(c.db, storage.queueSizeLimit) && EarlyError(s, c, tx).None?
    requires var u := RecordFor(s, c, burn, tx);
             var admitted := !c.commit.Unavailable? && CanAdmit(c.db, storage.queueSizeLimit, u);
             && db' == (if admitted then Admit(c.db, u) else c.db)
             && r == if c.commit.Unavailable? then Err(StorageFailure)
                     else if !admitted then Err(Refusal(c.db, storage, u))
                     else if c.commit.Unacknowledged? then Err(BurnIdExists)
                     else Ok(if u.kind.Regular? then Some(QueueSize(c.db)) else None)
    ensures Outcome(storage, s, c, burn, tx, r, db') && db'.flags == c.db.flags
    ensures GapFits(s) ==> Decided(storage, s, c, burn, tx, r, db')
  {
    hide Inv, EarlyError, RecordFor, CanAdmit, Refusal, QueueSize, Decided;
    if GapFits(s) { OutcomeIs(storage, s, c, burn, tx, r, db'); }
  }

  lemma NotAccepted(storage: Settings, s: ServerSettings, c: Circumstances, burn: BurnId, tx: Transaction)
    ensures Accepted(storage, s, c, burn, tx) ==> Passes(s, c, tx)
  {
  }

  // ---------- a lock that bites ----------

  /** Once a check found the queue unlocked and above the limit, no check since found it empty and the gap has passed, every
      burn for the queue is refused and leaves the ledger as it is. */
  lemma LockedOut(storage: Settings, s: ServerSettings, c: Circumstances, burn: BurnId, tx: Transaction,
                  r: Result<Option<nat>>, db': Database, lock: Lock, checks: seq<Check>, k: nat)
    requires Inv(c.db, storage.queueSizeLimit) && GapFits(s) && Outcome(storage, s, c, burn, tx, r, db')
    requires s.queueMode.ReleaseAllAtOnce? && c.lock == LockRun(lock, checks, s.queueLockLimit)
    requires k < |checks| && LockedAt(lock, checks, s.queueLockLimit, k)
    requires checks[k].time + s.queueLockGap <= c.clock.1
    requires NonePremined(c.db.limits, tx.inputs)
    ensures r.Err? && db' == c.db
    ensures WellFormed(c, tx) && LookedUp(s, c) && EMISSION_START <= c.clock.0 ==> r == Err(QueueLocked)
  {
    hide Inv, Outcome, WellFormed, NonePremined, Burned, Grown, LockBites;
    LockBitesIff(s, lock, checks, c.clock.1);
    OutcomeIs(storage, s, c, burn, tx, r, db');
    ClassIs(c, tx);
    if IsPremined(c, tx) {
      PreminedIsSome(c, tx);
    }
  }

  lemma PreminedIsSome(c: Circumstances, tx: Transaction)
    requires IsPremined(c, tx)
    ensures !NonePremined(c.db.limits, tx.inputs)
  {
  }
}
