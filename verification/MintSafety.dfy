/** The invariant of the mint and recovery protocol, and that every step keeps it. */
module MintSafety {
  import opened Common
  import opened Tables
  import opened Ledger
  import opened Emission
  import opened MintProtocol
  import opened MintLanes

  // ---------- invariant ----------

  ghost predicate LaneOf(s: State, t: TransportType) {
    Lane(t, s.db.Table(t), s.db.solana, s.txs, s.chain.Get(t), s.db.Done(t))
  }

  function FlightOf(s: State, t: TransportType): Option<SolanaTxId> {
    Flight(s.db.Table(t), s.db.Done(t))
  }

  /** No row of any table carries an unconfirmed Solana id. */
  predicate Grounded(s: State) {
    forall t: TransportType :: FlightOf(s, t).None?
  }

  /** At most one row over all three tables carries an unconfirmed Solana id. */
  predicate SingleFlight(s: State) {
    forall t: TransportType, t': TransportType :: FlightOf(s, t).Some? && FlightOf(s, t').Some? ==> t == t'
  }

  /** Number of requests of one type. */
  function Count(work: seq<Request>, t: TransportType): nat {
    if work == [] then 0 else (if work[0].kind == t then 1 else 0) + Count(work[1..], t)
  }

  /** Request `k` is for the row it will find at the front of its chain when its turn comes. */
  predicate WorkItem(db: Database, now: Time, work: seq<Request>, k: nat)
    requires k < |work|
  {
    var t := work[k].kind;
    var i := db.Done(t) + Count(work[..k], t);
    && i < |db.Table(t)|
    && work[k] == ToRequest(t, db.Table(t)[i])
    && (t.Regular? ==> db.Table(t)[i].supplyAfter < AllowedSupply(now))
  }

  predicate WorkOk(db: Database, now: Time, work: seq<Request>) {
    forall k :: 0 <= k < |work| ==> WorkItem(db, now, work, k)
  }

  /** Everything built for the queue stays below what emission allows by now. */
  ghost predicate EmissionInv(s: State) {
    forall id :: id in s.txs && s.txs[id].kind.Regular? ==>
      s.txs[id].supply + s.txs[id].amount < AllowedSupply(s.now)
  }

  /** The contract minted the front row of the type by a transaction that is not recorded there. */
  predicate LostAt(s: State, t: TransportType) {
    Lost(s.db.Table(t), s.txs, s.chain.Get(t), s.db.Done(t))
  }

  predicate PhaseInv(s: State, req: Request, phase: Phase) {
    var t := req.kind;
    match phase
    case Build => true
    case Save(id) => id in s.txs && s.txs[id] == TxFor(req)
    case Send(id) => FlightOf(s, t) == Some(id) && id in s.txs && s.txs[id].status.Unsent?
    case Await(id) => FlightOf(s, t) == Some(id) && id in s.txs && !s.txs[id].status.Unsent?
    case Check(id) => FlightOf(s, t) == Some(id) && id in s.txs && !s.txs[id].status.Unsent?
    case Mark(id) => FlightOf(s, t) == Some(id) && IsExecuted(s, id)
  }

  predicate VerdictOk(s: State, v: Verdict) {
    && FlightOf(s, v.kind) == Some(v.id)
    && s.db.Table(v.kind)[s.db.Done(v.kind)].burn == v.burn
    && (v.success ==> IsExecuted(s, v.id))
  }

  /** The types already read are a prefix of the reading order, and only they have requests. */
  predicate ReadOk(read: seq<TransportType>, work: seq<Request>) {
    read <= READ_ORDER && forall k :: 0 <= k < |work| ==> work[k].kind in read
  }

  predicate ProcInv(s: State) {
    match s.proc
    case Down => SingleFlight(s)
    case Recovering(todo) =>
      || (todo == [] && Grounded(s))
      || (|todo| == 1 && VerdictOk(s, todo[0]) && SingleFlight(s))
    case Comparing => Grounded(s)
    case Refused => Grounded(s)
    case Idle => Grounded(s)
    case Gathering(read, work) => Grounded(s) && WorkOk(s.db, s.now, work) && ReadOk(read, work)
    case Minting(work, phase) =>
      && work != []
      && WorkOk(s.db, s.now, work)
      && (forall t: TransportType :: t != work[0].kind ==> FlightOf(s, t).None?)
      && PhaseInv(s, work[0], phase)
  }

  ghost predicate Inv(s: State, queueSizeLimit: nat) {
    && Ledger.Inv(s.db, queueSizeLimit)
    && (forall t: TransportType :: LaneOf(s, t))
    && EmissionInv(s)
    && ProcInv(s)
  }

  lemma InitialInv(s: State, queueSizeLimit: nat)
    requires Initial(s)
    ensures Inv(s, queueSizeLimit)
  {
    FreshInv(s.db, queueSizeLimit);
  }

  lemma SingleFlightOf(s: State)
    requires ProcInv(s)
    ensures SingleFlight(s)
  {
  }

  // ---------- ledger steps ----------

  /** The chains and solana_transactions stay as they are. */
  lemma LedgerFrame(s: State, queueSizeLimit: nat, db': Database)
    requires Inv(s, queueSizeLimit) && Ledger.Inv(db', queueSizeLimit)
    requires db'.premined == s.db.premined && db'.airdrop == s.db.airdrop && db'.queue == s.db.queue
    requires db'.solana == s.db.solana
    ensures Inv(s.(db := db'), queueSizeLimit)
  {
    LedgerExtends(s, queueSizeLimit, db');
  }

  /** The chains may have grown at their ends. */
  lemma LedgerExtends(s: State, queueSizeLimit: nat, db': Database)
    requires Inv(s, queueSizeLimit) && Ledger.Inv(db', queueSizeLimit)
    requires db'.solana == s.db.solana
    requires forall t: TransportType ::
               && s.db.Table(t) <= db'.Table(t)
               && forall i :: |s.db.Table(t)| <= i < |db'.Table(t)| ==> db'.Table(t)[i].solanaId.None?
    ensures Inv(s.(db := db'), queueSizeLimit)
  {
    var s' := s.(db := db');
    forall t: TransportType
      ensures LaneOf(s', t) && FlightOf(s', t) == FlightOf(s, t) && db'.Done(t) == s.db.Done(t)
    {
      assert LaneOf(s, t);
      LaneExtend(t, s.db.Table(t), s.db.solana, s.txs, s.chain.Get(t), s.db.Done(t), db'.Table(t));
    }
    ProcExtends(s, db');
  }

  lemma ProcExtends(s: State, db': Database)
    requires ProcInv(s)
    requires forall t: TransportType ::
               && s.db.Table(t) <= db'.Table(t)
               && db'.Done(t) == s.db.Done(t)
               && FlightOf(s.(db := db'), t) == FlightOf(s, t)
    ensures ProcInv(s.(db := db'))
  {
    if s.proc.Gathering? || s.proc.Minting? {
      var work := s.proc.work;
      forall k | 0 <= k < |work|
        ensures WorkItem(db', s.now, work, k)
      {
        assert WorkItem(s.db, s.now, work, k);
        assert s.db.Table(work[k].kind) <= db'.Table(work[k].kind);
      }
    }
  }

  lemma ConfirmBurnsKeeps(s: State, queueSizeLimit: nat, us: seq<Unconfirmed>)
    requires Inv(s, queueSizeLimit) && WereRows(s.db, us)
    ensures Inv(Apply(s, ConfirmBurns(us), queueSizeLimit), queueSizeLimit)
  {
    hide Inv, Ledger.Inv, ConfirmAll, Base;
    LedgerOfState(s, queueSizeLimit);
    if ConfirmAll(s.db, us, s.now).Ok? {
      var db' := ConfirmAll(s.db, us, s.now).value;
      InvIsBase(s.db, queueSizeLimit);
      ConfirmAllNeedsFreshRows(s.db, us, s.now);
      ConfirmAllKeepsInv(s.db, queueSizeLimit, us, s.now);
      ConfirmAllExtends(s.db, us, s.now);
      LedgerExtends(s, queueSizeLimit, db');
    }
  }

  lemma LedgerOfState(s: State, queueSizeLimit: nat)
    requires Inv(s, queueSizeLimit)
    ensures Ledger.Inv(s.db, queueSizeLimit)
  {
  }

  lemma LedgerStepKeeps(s: State, queueSizeLimit: nat, step: Step)
    requires Inv(s, queueSizeLimit) && Enabled(s, step, queueSizeLimit)
    requires step.Submit? || step.SetHeights? || step.RemoveBurns? || step.ConfirmBurns?
    ensures Inv(Apply(s, step, queueSizeLimit), queueSizeLimit)
  {
    match step
    case Submit(u) =>
      AdmitKeepsInv(s.db, queueSizeLimit, u);
      LedgerFrame(s, queueSizeLimit, Admit(s.db, u));
    case SetHeights(burns, height) =>
      SetHeightsKeepsInv(s.db, queueSizeLimit, burns, height);
      LedgerFrame(s, queueSizeLimit, s.db.(unconfirmed := Ledger.SetHeights(s.db.unconfirmed, burns, height)));
    case RemoveBurns(us) =>
      RemoveAllKeepsInv(s.db, queueSizeLimit, us);
      RemoveAllTables(s.db, us);
      LedgerFrame(s, queueSizeLimit, RemoveAll(s.db, us));
    case ConfirmBurns(us) =>
      ConfirmBurnsKeeps(s, queueSizeLimit, us);
  }

  // ---------- environment steps ----------

  lemma TickKeeps(s: State, queueSizeLimit: nat, time: Time)
    requires Inv(s, queueSizeLimit) && s.now <= time
    ensures Inv(s.(now := time), queueSizeLimit)
  {
    AllowedSupplyMonotone(s.now, time);
    var s' := s.(now := time);
    assert forall t: TransportType :: LaneOf(s, t) ==> LaneOf(s', t);
    assert forall t: TransportType :: FlightOf(s', t) == FlightOf(s, t);
    if s.proc.Gathering? || s.proc.Minting? {
      forall k | 0 <= k < |s.proc.work|
        ensures WorkItem(s.db, time, s.proc.work, k)
      {
        assert WorkItem(s.db, s.now, s.proc.work, k);
      }
    }
  }

  lemma LandingLane(s: State, queueSizeLimit: nat, step: Step, t: TransportType)
    requires Enabled(s, step, queueSizeLimit) && (step.Land? || step.Reject? || step.Vanish?)
    requires LaneOf(s, t)
    ensures LaneOf(Apply(s, step, queueSizeLimit), t)
  {
    hide Lane;
    var id := step.id;
    var s' := Apply(s, step, queueSizeLimit);
    assert Of(s.txs, id, s.txs[id].kind);
    if t != s.txs[id].kind {
      LaneFrame(t, s.db.Table(t), s.db.solana, s.txs, s.chain.Get(t), s.db.Done(t),
                s.db.solana, s'.txs);
    } else if step.Land? && s.chain.Get(t) == s.txs[id].supply {
      LaneLand(t, s.db.Table(t), s.db.solana, s.txs, s.chain.Get(t), s.db.Done(t), id);
    } else {
      LaneDrop(t, s.db.Table(t), s.db.solana, s.txs, s.chain.Get(t), s.db.Done(t), id, s'.txs[id].status);
    }
  }

  lemma LandingTxs(s: State, queueSizeLimit: nat, step: Step)
    requires Enabled(s, step, queueSizeLimit) && (step.Land? || step.Reject? || step.Vanish?)
    ensures var s' := Apply(s, step, queueSizeLimit);
            && s'.db == s.db && s'.proc == s.proc && s'.now == s.now && TxsSettle(s.txs, s'.txs)
  {
  }

  /** Unsent transactions are untouched, and executed ones stay so. */
  predicate TxsSettle(txs: Txs, txs': Txs) {
    forall id :: id in txs ==>
      && id in txs'
      && (txs[id].status.Unsent? ==> txs'[id] == txs[id])
      && (!txs[id].status.Unsent? ==> !txs'[id].status.Unsent?)
      && (txs[id].status.Executed? ==> txs'[id].status.Executed?)
  }

  lemma LandingProc(s: State, s': State)
    requires ProcInv(s) && s'.db == s.db && s'.proc == s.proc && s'.now == s.now && TxsSettle(s.txs, s'.txs)
    ensures ProcInv(s')
  {
    hide WorkOk;
    assert forall t: TransportType :: FlightOf(s', t) == FlightOf(s, t);
  }

  lemma LandingKeeps(s: State, queueSizeLimit: nat, step: Step)
    requires Inv(s, queueSizeLimit) && Enabled(s, step, queueSizeLimit)
    requires step.Land? || step.Reject? || step.Vanish?
    ensures Inv(Apply(s, step, queueSizeLimit), queueSizeLimit)
  {
    hide Lane, Ledger.Inv, ProcInv;
    var s' := Apply(s, step, queueSizeLimit);
    LandingTxs(s, queueSizeLimit, step);
    LandingProc(s, s');
    forall t: TransportType
      ensures LaneOf(s', t)
    {
      LandingLane(s, queueSizeLimit, step, t);
    }
  }

  // ---------- start-up ----------

  lemma LaneBasics(s: State, t: TransportType)
    requires LaneOf(s, t)
    ensures Chain(s.db.Table(t)) && TableDistinct(s.db.Table(t))
    ensures Orderly(s.db.Table(t), s.db.solana, s.db.Done(t))
    ensures forall r :: r in s.db.Table(t) && r.solanaId.Some? ==> r.solanaId.value in s.db.solana
  {
  }

  /** The records with an unconfirmed id in one table are the one at the front, if any. */
  lemma VerdictsSound(s: State, t: TransportType, found: set<SolanaTxId>)
    requires LaneOf(s, t)
    ensures var f := FlightOf(s, t);
            VerdictsOf(s, t, found)
            == if f.Some?
               then [Verdict(t, s.db.Table(t)[s.db.Done(t)].burn, f.value, f.value in found && IsExecuted(s, f.value))]
               else []
  {
    hide Lane;
    LaneBasics(s, t);
    var rows := s.db.Table(t);
    assert rows[..|rows|] == rows;
    InFlightIsFront(rows, s.db.solana, s.db.Done(t), |rows|);
  }

  lemma StartFindsFlight(s: State, found: set<SolanaTxId>)
    requires SingleFlight(s)
    requires forall t: TransportType :: LaneOf(s, t)
    ensures Verdicts(s, found) == [] ==> Grounded(s)
    ensures Verdicts(s, found) != [] ==> |Verdicts(s, found)| == 1 && VerdictOk(s, Verdicts(s, found)[0])
  {
    hide Lane;
    hide VerdictsOf;
    VerdictsSound(s, Regular, found);
    VerdictsSound(s, Premined, found);
    VerdictsSound(s, Airdrop, found);
    if FlightOf(s, Regular).Some? {
      assert Verdicts(s, found) == VerdictsOf(s, Regular, found);
    } else if FlightOf(s, Premined).Some? {
      assert Verdicts(s, found) == VerdictsOf(s, Premined, found);
    } else if FlightOf(s, Airdrop).Some? {
      assert Verdicts(s, found) == VerdictsOf(s, Airdrop, found);
    }
  }

  /** Start finds exactly the one record that can be in flight. */
  lemma StartKeeps(s: State, queueSizeLimit: nat, found: set<SolanaTxId>)
    requires Inv(s, queueSizeLimit) && Enabled(s, Start(found), queueSizeLimit)
    ensures Inv(Apply(s, Start(found), queueSizeLimit), queueSizeLimit)
  {
    hide Lane, Ledger.Inv, Verdicts;
    var s' := Apply(s, Start(found), queueSizeLimit);
    StartFindsFlight(s, found);
    forall t: TransportType
      ensures LaneOf(s', t) && FlightOf(s', t) == FlightOf(s, t)
    {
      assert LaneOf(s, t);
    }
  }

  function Recovered(db: Database, v: Verdict, now: Time): Database {
    if v.success then ConfirmSolana(db, v.id, now) else RemoveSolana(db, v.burn, v.kind)
  }

  /** What a change of Solana bookkeeping must show of each table for the ledger invariant. */
  predicate TableAdvances(db: Database, db': Database, t: TransportType) {
    && SameButIds(db.Table(t), db'.Table(t))
    && db.Done(t) <= db'.Done(t)
    && Orderly(db'.Table(t), db'.solana, db'.Done(t))
    && (forall r :: r in db'.Table(t) && r.solanaId.Some? ==> r.solanaId.value in db'.solana)
  }

  lemma AdvancesKeepInv(db: Database, queueSizeLimit: nat, db': Database)
    requires Ledger.Inv(db, queueSizeLimit)
    requires db'.unconfirmed == db.unconfirmed && db'.limits == db.limits
    requires forall t: TransportType :: TableAdvances(db, db', t)
    ensures Ledger.Inv(db', queueSizeLimit)
  {
    forall t: TransportType
      ensures SameButIds(db.Table(t), db'.Table(t)) && Orderly(db'.Table(t), db'.solana, db'.Done(t))
      ensures forall r :: r in db'.Table(t) && r.solanaId.Some? ==> r.solanaId.value in db'.solana
      ensures db.Done(t) <= db'.Done(t)
    {
      assert TableAdvances(db, db', t);
    }
    SolanaChangeKeepsInv(db, queueSizeLimit, db');
  }

  lemma RecoveredRest(db: Database, v: Verdict, now: Time)
    ensures var db' := Recovered(db, v, now); db'.unconfirmed == db.unconfirmed && db'.limits == db.limits
  {
  }

  lemma RecoverConfirmed(s: State, t: TransportType, v: Verdict)
    requires VerdictOk(s, v) && LaneOf(s, t) && LaneOf(s, v.kind) && v.success
    ensures var s' := s.(db := Recovered(s.db, v, s.now));
            LaneOf(s', t) && (t == v.kind ==> FlightOf(s', t).None?)
            && s'.db.Done(t) == s.db.Done(t) + (if t == v.kind then 1 else 0)
  {
    hide Lane;
    FlightNames(v.kind, s.db.Table(v.kind), s.db.solana, s.txs, s.chain.Get(v.kind),
                s.db.Done(v.kind));
    var db' := Recovered(s.db, v, s.now);
    assert db'.Table(t) == s.db.Table(t);
    if t == v.kind {
      LaneMark(t, s.db.Table(t), s.db.solana, s.txs, s.chain.Get(t), s.db.Done(t), v.id, db'.solana);
    } else {
      LaneFrame(t, s.db.Table(t), s.db.solana, s.txs, s.chain.Get(t), s.db.Done(t), db'.solana, s.txs);
    }
  }

  lemma RecoverStale(s: State, t: TransportType, v: Verdict)
    requires VerdictOk(s, v) && LaneOf(s, t) && LaneOf(s, v.kind) && !v.success
    ensures var s' := s.(db := Recovered(s.db, v, s.now));
            LaneOf(s', t) && (t == v.kind ==> FlightOf(s', t).None?) && s'.db.Done(t) == s.db.Done(t)
  {
    hide Lane;
    FlightNames(v.kind, s.db.Table(v.kind), s.db.solana, s.txs, s.chain.Get(v.kind),
                s.db.Done(v.kind));
    if t == v.kind {
      LaneForget(t, s.db.Table(t), s.db.solana, s.txs, s.chain.Get(t), s.db.Done(t));
    }
  }

  lemma RecoverLane(s: State, t: TransportType, v: Verdict)
    requires VerdictOk(s, v) && SingleFlight(s) && LaneOf(s, t) && LaneOf(s, v.kind)
    ensures var s' := s.(db := Recovered(s.db, v, s.now));
            && LaneOf(s', t) && FlightOf(s', t).None? && TableAdvances(s.db, s'.db, t)
            && s'.db.Done(t) == s.db.Done(t) + (if t == v.kind && v.success then 1 else 0)
  {
    hide Lane;
    var s' := s.(db := Recovered(s.db, v, s.now));
    if v.success {
      RecoverConfirmed(s, t, v);
    } else {
      RecoverStale(s, t, v);
    }
    LaneBasics(s', t);
    if t != v.kind {
      LaneBasics(s, t);
      assert FlightOf(s, t).None?;
      assert s'.db.Table(t) == s.db.Table(t);
      SettledFlight(s.db.Table(t), s.db.solana, s.db.Done(t), s'.db.solana, s'.db.Done(t));
    }
  }

  /** A chain without a flight still has none after other ids changed. */
  lemma SettledFlight(rows: seq<Row>, sol: SolanaTable, n: nat, sol': SolanaTable, n': nat)
    requires Orderly(rows, sol, n) && Flight(rows, n).None? && Orderly(rows, sol', n') && n <= n'
    ensures Flight(rows, n').None?
  {
  }

  lemma RecoverNextKeeps(s: State, queueSizeLimit: nat)
    requires Inv(s, queueSizeLimit) && Enabled(s, RecoverNext, queueSizeLimit)
    ensures Inv(Apply(s, RecoverNext, queueSizeLimit), queueSizeLimit)
  {
    hide Lane, Recovered, TableAdvances;
    var v := s.proc.todo[0];
    var s' := s.(db := Recovered(s.db, v, s.now));
    assert SingleFlight(s) && VerdictOk(s, v);
    forall t: TransportType
      ensures LaneOf(s', t) && FlightOf(s', t).None? && TableAdvances(s.db, s'.db, t)
    {
      assert LaneOf(s, t) && LaneOf(s, v.kind);
      RecoverLane(s, t, v);
    }
    assert s'.db.unconfirmed == s.db.unconfirmed && s'.db.limits == s.db.limits by {
      RecoveredRest(s.db, v, s.now);
    }
    AdvancesKeepInv(s.db, queueSizeLimit, s'.db);
    RecoveredState(s, queueSizeLimit, s'.db);
    RecoveredApply(s, queueSizeLimit);
  }

  lemma RecoveredApply(s: State, queueSizeLimit: nat)
    requires s.proc.Recovering? && |s.proc.todo| == 1
    ensures Apply(s, RecoverNext, queueSizeLimit)
            == s.(db := Recovered(s.db, s.proc.todo[0], s.now), proc := Recovering([]))
  {
    assert s.proc.todo[1..] == [];
  }

  lemma RecoveredState(s: State, queueSizeLimit: nat, db': Database)
    requires Inv(s, queueSizeLimit) && Ledger.Inv(db', queueSizeLimit)
    requires forall t: TransportType :: LaneOf(s.(db := db'), t) && FlightOf(s.(db := db'), t).None?
    ensures Inv(s.(db := db', proc := Recovering([])), queueSizeLimit)
  {
    hide Lane, Ledger.Inv;
    var s', s'' := s.(db := db'), s.(db := db', proc := Recovering([]));
    forall t: TransportType
      ensures LaneOf(s'', t) && FlightOf(s'', t).None?
    {
      assert LaneOf(s', t) && FlightOf(s', t).None?;
    }
  }

  /** With nothing in flight, the ledger's confirmed supply is the end of the completed rows, and it agrees with
      the contract's exactly if no mint is lost to the ledger. */
  lemma GroundedSupply(s: State)
    requires Grounded(s) && forall t: TransportType :: LaneOf(s, t)
    ensures forall t: TransportType :: ConfirmedSupply(s.db).Get(t) == EndAt(s.db.Table(t), s.db.Done(t))
    ensures s.chain == ConfirmedSupply(s.db) <==> forall t: TransportType :: !LostAt(s, t)
  {
    forall t: TransportType
      ensures ConfirmedSupply(s.db).Get(t) == EndAt(s.db.Table(t), s.db.Done(t))
      ensures s.chain.Get(t) == ConfirmedSupply(s.db).Get(t) <==> !LostAt(s, t)
    {
      var rows, n := s.db.Table(t), s.db.Done(t);
      assert LaneOf(s, t);
      assert FlightOf(s, t).None?;
      MaxRecordedIsEnd(rows, s.db.solana, n);
      MaxCompletedIsEnd(rows, s.db.solana, n);
      if n < |rows| {
        assert Link(rows, n);
      }
    }
    assert s.chain == ConfirmedSupply(s.db) <==>
             forall t: TransportType :: s.chain.Get(t) == ConfirmedSupply(s.db).Get(t) by {
      if forall t: TransportType :: s.chain.Get(t) == ConfirmedSupply(s.db).Get(t) {
        assert s.chain.Get(Airdrop) == ConfirmedSupply(s.db).Get(Airdrop);
        assert s.chain.Get(Premined) == ConfirmedSupply(s.db).Get(Premined);
        assert s.chain.Get(Regular) == ConfirmedSupply(s.db).Get(Regular);
      }
    }
  }

  /** The comparison lets the server start exactly when no mint is lost to the ledger. */
  lemma CompareKeeps(s: State, queueSizeLimit: nat)
    requires Inv(s, queueSizeLimit) && Enabled(s, Compare, queueSizeLimit)
    ensures Inv(Apply(s, Compare, queueSizeLimit), queueSizeLimit)
    ensures Apply(s, Compare, queueSizeLimit).proc.Idle? <==> forall t: TransportType :: !LostAt(s, t)
  {
    hide Lane, Ledger.Inv;
    var s' := Apply(s, Compare, queueSizeLimit);
    GroundedSupply(s);
    forall t: TransportType
      ensures LaneOf(s', t) && FlightOf(s', t) == FlightOf(s, t)
    {
      assert LaneOf(s, t);
    }
  }

  /** Steps that touch neither the ledger nor the contract. */
  lemma ProcStepKeeps(s: State, queueSizeLimit: nat, proc: Proc)
    requires Inv(s, queueSizeLimit)
    requires ProcInv(s.(proc := proc))
    ensures Inv(s.(proc := proc), queueSizeLimit)
  {
    hide Lane, Ledger.Inv, ProcInv;
    var s' := s.(proc := proc);
    assert forall t: TransportType :: LaneOf(s, t) ==> LaneOf(s', t);
  }

  lemma SameFlights(s: State, proc: Proc)
    ensures var s' := s.(proc := proc);
            && (forall t: TransportType :: FlightOf(s', t) == FlightOf(s, t))
            && (Grounded(s) ==> Grounded(s'))
            && (SingleFlight(s) ==> SingleFlight(s'))
  {
    var s' := s.(proc := proc);
    assert forall t: TransportType :: FlightOf(s', t) == FlightOf(s, t);
  }

  /** Crash, end of recovery, and the reads around processMints. */
  lemma PlainStepKeeps(s: State, queueSizeLimit: nat, step: Step)
    requires Inv(s, queueSizeLimit) && Enabled(s, step, queueSizeLimit)
    requires step.Crash? || step.RecoveryDone? || step.BeginMints? || step.AbortMints? || step.RunMints?
    ensures Inv(Apply(s, step, queueSizeLimit), queueSizeLimit)
  {
    hide Lane, Ledger.Inv, WorkOk;
    var s' := Apply(s, step, queueSizeLimit);
    PlainProc(s, queueSizeLimit, step);
    ProcStepKeeps(s, queueSizeLimit, s'.proc);
  }

  lemma PlainProc(s: State, queueSizeLimit: nat, step: Step)
    requires ProcInv(s) && Enabled(s, step, queueSizeLimit)
    requires step.Crash? || step.RecoveryDone? || step.BeginMints? || step.AbortMints? || step.RunMints?
    ensures ProcInv(s.(proc := Apply(s, step, queueSizeLimit).proc))
  {
    hide FlightOf, WorkOk;
    var s' := Apply(s, step, queueSizeLimit);
    SingleFlightOf(s);
    SameFlights(s, s'.proc);
    EmptyWork(s.db, s.now);
  }

  lemma EmptyWork(db: Database, now: Time)
    ensures WorkOk(db, now, [])
  {
  }

  // ---------- processMints ----------

  lemma {:induction false} CountConcat(a: seq<Request>, b: seq<Request>, t: TransportType)
    ensures Count(a + b, t) == Count(a, t) + Count(b, t)
  {
    if a == [] {
      assert a + b == b;
    } else {
      assert (a + b)[1..] == a[1..] + b;
      CountConcat(a[1..], b, t);
    }
  }

  lemma {:induction false} CountUniform(work: seq<Request>, t: TransportType, t': TransportType)
    requires forall k :: 0 <= k < |work| ==> work[k].kind == t
    ensures Count(work, t') == if t' == t then |work| else 0
  {
    if work != [] {
      CountUniform(work[1..], t, t');
    }
  }

  lemma {:induction false} CountAbsent(work: seq<Request>, t: TransportType)
    requires forall k :: 0 <= k < |work| ==> work[k].kind != t
    ensures Count(work, t) == 0
  {
    if work != [] {
      CountAbsent(work[1..], t);
    }
  }

  /** One read of processMints returns the next rows of a chain, in chain order. */
  lemma ReadIsSegment(s: State, t: TransportType)
    requires LaneOf(s, t) && FlightOf(s, t).None?
    ensures var rows, n, reqs := s.db.Table(t), s.db.Done(t), Uncompleted(s, t);
            && n + |reqs| <= |rows|
            && (forall k :: 0 <= k < |reqs| ==> reqs[k] == ToRequest(t, rows[n + k]))
            && (t.Regular? ==> forall i :: n <= i < n + |reqs| ==> rows[i].supplyAfter < AllowedSupply(s.now))
  {
    LaneBasics(s, t);
    UncompletedIsSegment(s.db.Table(t), s.db.solana, s.db.Done(t),
                         if t.Regular? then Some(AllowedSupply(s.now)) else None);
  }

  lemma WorkAppends(s: State, work: seq<Request>, t: TransportType)
    requires LaneOf(s, t) && FlightOf(s, t).None?
    requires WorkOk(s.db, s.now, work)
    requires forall k :: 0 <= k < |work| ==> work[k].kind != t
    ensures WorkOk(s.db, s.now, work + Uncompleted(s, t))
  {
    hide Lane, Uncompleted;
    var reqs := Uncompleted(s, t);
    var all := work + reqs;
    ReadIsSegment(s, t);
    forall k | 0 <= k < |all|
      ensures WorkItem(s.db, s.now, all, k)
    {
      if k < |work| {
        assert all[..k] == work[..k] && all[k] == work[k];
        assert WorkItem(s.db, s.now, work, k);
      } else {
        var j := k - |work|;
        assert all[..k] == work + reqs[..j] && all[k] == reqs[j];
        CountConcat(work, reqs[..j], t);
        CountAbsent(work, t);
        CountUniform(reqs[..j], t, t);
      }
    }
  }

  lemma ReadsInOrder(read: seq<TransportType>, work: seq<Request>, t: TransportType, reqs: seq<Request>)
    requires ReadOk(read, work) && |read| < 3 && t == READ_ORDER[|read|]
    requires forall k :: 0 <= k < |reqs| ==> reqs[k].kind == t
    ensures ReadOk(read + [t], work + reqs)
    ensures forall k :: 0 <= k < |work| ==> work[k].kind != t
  {
    assert t in read + [t];
    assert forall u :: u in read ==> u in read + [t];
    assert forall i :: 0 <= i < |read| ==> read[i] == READ_ORDER[i];
  }

  lemma ReadKeeps(s: State, queueSizeLimit: nat, t: TransportType)
    requires Inv(s, queueSizeLimit) && Enabled(s, ReadUncompleted(t), queueSizeLimit)
    ensures Inv(Apply(s, ReadUncompleted(t), queueSizeLimit), queueSizeLimit)
  {
    hide Lane, Ledger.Inv, WorkOk, Uncompleted, ReadOk;
    var s' := Apply(s, ReadUncompleted(t), queueSizeLimit);
    assert LaneOf(s, t) && FlightOf(s, t).None?;
    var read, work, reqs := s.proc.read, s.proc.work, Uncompleted(s, t);
    assert forall k :: 0 <= k < |reqs| ==> reqs[k].kind == t by {
      ReadIsSegment(s, t);
    }
    ReadsInOrder(read, work, t, reqs);
    WorkAppends(s, work, t);
    SameFlights(s, s'.proc);
    ProcStepKeeps(s, queueSizeLimit, s'.proc);
  }

  // ---------- mint ----------

  /** The request being worked on is for the row at the front of its chain, at the supply
      reached by the completed rows, and emission already allows it. */
  lemma RequestIsFront(s: State)
    requires InPhase(s) && WorkOk(s.db, s.now, s.proc.work)
    requires LaneOf(s, s.proc.work[0].kind)
    ensures var req := s.proc.work[0];
            var rows, n := s.db.Table(req.kind), s.db.Done(req.kind);
            && n < |rows|
            && BuiltFor(rows, n, TxFor(req))
            && (req.kind.Regular? ==> req.totalSupply + req.amount < AllowedSupply(s.now))
  {
    hide Lane;
    var req := s.proc.work[0];
    assert WorkItem(s.db, s.now, s.proc.work, 0);
    LaneBasics(s, req.kind);
    ChainBefore(s.db.Table(req.kind), s.db.Done(req.kind));
    EndGrows(s.db.Table(req.kind), 0, s.db.Done(req.kind));
  }

  lemma BuildLane(s: State, id: SolanaTxId, tx: MintTx, i: nat, t: TransportType)
    requires LaneOf(s, t) && id !in s.txs && tx.status.Unsent?
    requires tx.kind == t ==> i <= s.db.Done(t) && i < |s.db.Table(t)| && BuiltFor(s.db.Table(t), i, tx)
    ensures LaneOf(s.(txs := s.txs[id := tx]), t)
  {
    hide Lane;
    if tx.kind == t {
      LaneBuild(t, s.db.Table(t), s.db.solana, s.txs, s.chain.Get(t), s.db.Done(t), id, tx, i);
    } else {
      LaneFrame(t, s.db.Table(t), s.db.solana, s.txs, s.chain.Get(t), s.db.Done(t), s.db.solana,
                s.txs[id := tx]);
    }
  }

  /** The transactions changed only at `id`, outside any flight or by leaving its landing open. */
  lemma BuildKeeps(s: State, queueSizeLimit: nat, id: SolanaTxId)
    requires Inv(s, queueSizeLimit) && Enabled(s, BuildTx(id), queueSizeLimit)
    ensures Inv(Apply(s, BuildTx(id), queueSizeLimit), queueSizeLimit)
  {
    hide Lane, Ledger.Inv, WorkOk;
    var s' := Apply(s, BuildTx(id), queueSizeLimit);
    var req := s.proc.work[0];
    var t := req.kind;
    assert LaneOf(s, t);
    RequestIsFront(s);
    BuildProc(s, id);
    if id in s.txs {
      assert s'.txs == s.txs;
      ProcStepKeeps(s, queueSizeLimit, s'.proc);
    } else {
      forall u: TransportType
        ensures LaneOf(s', u)
      {
        assert LaneOf(s, u);
        BuildLane(s, id, TxFor(req), s.db.Done(t), u);
      }
    }
  }

  lemma FlightBuilt(s: State, t: TransportType)
    requires LaneOf(s, t)
    ensures FlightOf(s, t).Some? ==> Of(s.txs, FlightOf(s, t).value, t) && FlightOf(s, t).value in s.db.solana
  {
    hide Lane;
    if FlightOf(s, t).Some? {
      FlightNames(t, s.db.Table(t), s.db.solana, s.txs, s.chain.Get(t), s.db.Done(t));
    }
  }

  lemma BuildProc(s: State, id: SolanaTxId)
    requires ProcInv(s) && InPhase(s) && s.proc.phase.Build?
    requires LaneOf(s, s.proc.work[0].kind)
    requires id in s.txs ==> s.txs[id] == TxFor(s.proc.work[0])
    ensures ProcInv(s.(txs := s.txs[id := TxFor(s.proc.work[0])], proc := Minting(s.proc.work, Save(id))))
  {
    hide Lane, WorkOk;
    var s' := s.(txs := s.txs[id := TxFor(s.proc.work[0])], proc := Minting(s.proc.work, Save(id)));
    FlightBuilt(s, s.proc.work[0].kind);
    assert forall u: TransportType :: FlightOf(s', u) == FlightOf(s, u);
  }

  // ---------- AddSolanaTransaction ----------

  /** Only Solana ids and the solana_transactions rows changed; requests do not see them. */
  lemma WorkIgnoresIds(db: Database, now: Time, work: seq<Request>, db': Database)
    requires WorkOk(db, now, work)
    requires forall t: TransportType :: SameButIds(db.Table(t), db'.Table(t)) && db'.Done(t) == db.Done(t)
    ensures WorkOk(db', now, work)
  {
    forall k | 0 <= k < |work|
      ensures WorkItem(db', now, work, k)
    {
      assert WorkItem(db, now, work, k);
      assert SameButIds(db.Table(work[k].kind), db'.Table(work[k].kind));
    }
  }

  /** What recording the id does, seen from one type. */
  predicate RecordedAt(s: State, s': State, t: TransportType, id: SolanaTxId, u: TransportType) {
    && FlightOf(s', u) == (if u == t then Some(id) else FlightOf(s, u))
    && s'.db.Done(u) == s.db.Done(u)
    && TableAdvances(s.db, s'.db, u)
  }

  lemma RecordFront(s: State)
    requires InPhase(s) && s.proc.phase.Save? && s.proc.phase.id !in s.db.solana
    requires ProcInv(s) && LaneOf(s, s.proc.work[0].kind)
    ensures var t := s.proc.work[0].kind;
            && LaneOf(Recorded(s), t)
            && FlightOf(Recorded(s), t) == Some(s.proc.phase.id)
            && Recorded(s).db.Done(t) == s.db.Done(t)
  {
    hide Lane, WorkOk;
    var id, t := s.proc.phase.id, s.proc.work[0].kind;
    var rows, n := s.db.Table(t), s.db.Done(t);
    RequestIsFront(s);
    LaneSave(t, rows, s.db.solana, s.txs, s.chain.Get(t), n, id,
             Recorded(s).db.Table(t), Recorded(s).db.solana);
  }

  lemma RecordOther(s: State, u: TransportType)
    requires InPhase(s) && s.proc.phase.Save? && s.proc.phase.id !in s.db.solana
    requires u != s.proc.work[0].kind && LaneOf(s, u)
    ensures LaneOf(Recorded(s), u)
    ensures Recorded(s).db.Table(u) == s.db.Table(u) && Recorded(s).db.Done(u) == s.db.Done(u)
  {
    hide Lane;
    assert Recorded(s).db.Table(u) == s.db.Table(u);
    LaneFrame(u, s.db.Table(u), s.db.solana, s.txs, s.chain.Get(u), s.db.Done(u), Recorded(s).db.solana,
              s.txs);
  }

  lemma RecordSame(s: State, u: TransportType)
    requires InPhase(s) && s.proc.phase.Save?
    ensures SameButIds(s.db.Table(u), Recorded(s).db.Table(u))
  {
  }

  lemma RecordLane(s: State, u: TransportType)
    requires InPhase(s) && s.proc.phase.Save? && s.proc.phase.id !in s.db.solana
    requires ProcInv(s) && LaneOf(s, s.proc.work[0].kind) && LaneOf(s, u)
    ensures LaneOf(Recorded(s), u) && RecordedAt(s, Recorded(s), s.proc.work[0].kind, s.proc.phase.id, u)
    ensures SameButIds(s.db.Table(u), Recorded(s).db.Table(u))
  {
    hide Lane, Recorded, SameButIds, ProcInv, Orderly;
    RecordSame(s, u);
    if u == s.proc.work[0].kind {
      RecordFront(s);
    } else {
      RecordOther(s, u);
    }
    LaneBasics(Recorded(s), u);
  }

  lemma RecordKeeps(s: State, queueSizeLimit: nat, phase: Phase)
    requires Inv(s, queueSizeLimit) && InPhase(s) && s.proc.phase.Save? && s.proc.phase.id !in s.db.solana
    requires phase == Send(s.proc.phase.id) || phase == Build
    ensures Inv(Recorded(s).(proc := Minting(s.proc.work, phase)), queueSizeLimit)
  {
    hide Lane, Ledger.Inv, WorkOk, TableAdvances, SameButIds, Recorded;
    var id, req := s.proc.phase.id, s.proc.work[0];
    var s' := Recorded(s);
    RecordedRest(s);
    forall u: TransportType
      ensures LaneOf(s', u) && RecordedAt(s, s', req.kind, id, u) && SameButIds(s.db.Table(u), s'.db.Table(u))
    {
      assert LaneOf(s, u) && LaneOf(s, req.kind);
      RecordLane(s, u);
    }
    assert forall u: TransportType :: RecordedAt(s, s', req.kind, id, u) ==> TableAdvances(s.db, s'.db, u);
    AdvancesKeepInv(s.db, queueSizeLimit, s'.db);
    WorkIgnoresIds(s.db, s.now, s.proc.work, s'.db);
    RecordedState(s, queueSizeLimit, s', phase);
  }

  lemma RecordedRest(s: State)
    requires InPhase(s) && s.proc.phase.Save? && s.proc.phase.id !in s.db.solana
    ensures var s' := Recorded(s);
            && s'.db.unconfirmed == s.db.unconfirmed && s'.db.limits == s.db.limits
            && s'.chain == s.chain && s'.txs == s.txs && s'.proc == s.proc && s'.now == s.now
  {
  }

  lemma RecordedState(s: State, queueSizeLimit: nat, s': State, phase: Phase)
    requires Inv(s, queueSizeLimit) && InPhase(s) && s.proc.phase.Save?
    requires phase == Send(s.proc.phase.id) || phase == Build
    requires Ledger.Inv(s'.db, queueSizeLimit) && WorkOk(s'.db, s.now, s.proc.work)
    requires forall u: TransportType ::
               LaneOf(s', u) && RecordedAt(s, s', s.proc.work[0].kind, s.proc.phase.id, u)
    requires s'.chain == s.chain && s'.txs == s.txs && s'.now == s.now
    ensures Inv(s'.(proc := Minting(s.proc.work, phase)), queueSizeLimit)
  {
    hide Lane, Ledger.Inv, WorkOk, TableAdvances;
    var s'' := s'.(proc := Minting(s.proc.work, phase));
    assert forall u: TransportType :: LaneOf(s', u) ==> LaneOf(s'', u);
    assert forall u: TransportType :: FlightOf(s'', u) == FlightOf(s', u);
    var id, t := s.proc.phase.id, s.proc.work[0].kind;
    forall u: TransportType
      ensures u != t ==> FlightOf(s'', u).None?
      ensures u == t ==> FlightOf(s'', u) == Some(id)
    {
      assert RecordedAt(s, s', t, id, u);
    }
    assert ProcInv(s'');
  }

  // ---------- sending ----------

  lemma SendLane(s: State, id: SolanaTxId, t: TransportType)
    requires LaneOf(s, t) && id in s.txs && s.txs[id].status.Unsent?
    requires FlightOf(s, s.txs[id].kind) == Some(id)
    ensures LaneOf(s.(txs := WithStatus(s.txs, id, Pending)), t)
  {
    hide Lane;
    if t == s.txs[id].kind {
      LaneRestatus(t, s.db.Table(t), s.db.solana, s.txs, s.chain.Get(t), s.db.Done(t), id, Pending);
    } else {
      LaneFrame(t, s.db.Table(t), s.db.solana, s.txs, s.chain.Get(t), s.db.Done(t),
                s.db.solana, WithStatus(s.txs, id, Pending));
    }
  }

  lemma SendKeeps(s: State, queueSizeLimit: nat)
    requires Inv(s, queueSizeLimit) && Enabled(s, SendTx, queueSizeLimit)
    ensures Inv(Apply(s, SendTx, queueSizeLimit), queueSizeLimit)
  {
    hide Lane, Ledger.Inv, WorkOk;
    var s' := Apply(s, SendTx, queueSizeLimit);
    var id, t := s.proc.phase.id, s.proc.work[0].kind;
    assert LaneOf(s, t);
    FlightBuilt(s, t);
    forall u: TransportType
      ensures LaneOf(s', u) && FlightOf(s', u) == FlightOf(s, u)
    {
      assert LaneOf(s, u);
      SendLane(s, id, u);
    }
  }

  /** The outcomes of sending, and failures to save: only the phase changes. */
  lemma OutcomeKeeps(s: State, queueSizeLimit: nat, step: Step)
    requires Inv(s, queueSizeLimit) && Enabled(s, step, queueSizeLimit)
    requires step.SendConfirmed? || step.SendFails? || step.StatusKnown? || step.StatusFails? || step == SaveFails(false)
    ensures Inv(Apply(s, step, queueSizeLimit), queueSizeLimit)
  {
    hide Lane, Ledger.Inv, WorkOk;
    var s' := Apply(s, step, queueSizeLimit);
    OutcomeProc(s, queueSizeLimit, step);
    ProcStepKeeps(s, queueSizeLimit, s'.proc);
  }

  lemma OutcomeProc(s: State, queueSizeLimit: nat, step: Step)
    requires ProcInv(s) && Enabled(s, step, queueSizeLimit)
    requires step.SendConfirmed? || step.SendFails? || step.StatusKnown? || step.StatusFails? || step == SaveFails(false)
    ensures ProcInv(Apply(s, step, queueSizeLimit))
  {
    hide FlightOf, WorkOk;
    var s' := Apply(s, step, queueSizeLimit);
    SameFlights(s, s'.proc);
  }

  // ---------- ConfirmSolana ----------

  lemma MarkLane(s: State, t: TransportType)
    requires ProcInv(s) && InPhase(s) && s.proc.phase.Mark?
    requires LaneOf(s, t) && LaneOf(s, s.proc.work[0].kind)
    ensures var s' := s.(db := ConfirmSolana(s.db, s.proc.phase.id, s.now));
            && LaneOf(s', t) && FlightOf(s', t).None? && TableAdvances(s.db, s'.db, t)
            && s'.db.Table(t) == s.db.Table(t)
            && s'.db.Done(t) == s.db.Done(t) + (if t == s.proc.work[0].kind then 1 else 0)
  {
    hide Lane, WorkOk;
    var id, u := s.proc.phase.id, s.proc.work[0].kind;
    var s' := s.(db := ConfirmSolana(s.db, id, s.now));
    FlightBuilt(s, u);
    LaneBasics(s, t);
    assert s'.db.Table(t) == s.db.Table(t);
    assert t != u ==> FlightOf(s, t).None?;
    if t == u {
      LaneMark(t, s.db.Table(t), s.db.solana, s.txs, s.chain.Get(t), s.db.Done(t), id, s'.db.solana);
    } else {
      LaneFrame(t, s.db.Table(t), s.db.solana, s.txs, s.chain.Get(t), s.db.Done(t), s'.db.solana, s.txs);
    }
    LaneBasics(s', t);
  }

  /** Finishing the first request leaves the others at the front of their chains in turn. */
  lemma WorkPops(db: Database, now: Time, work: seq<Request>, db': Database)
    requires work != [] && WorkOk(db, now, work)
    requires forall t: TransportType ::
               && db'.Table(t) == db.Table(t)
               && db'.Done(t) == db.Done(t) + (if t == work[0].kind then 1 else 0)
    ensures WorkOk(db', now, work[1..])
  {
    forall k | 0 <= k < |work| - 1
      ensures WorkItem(db', now, work[1..], k)
    {
      assert WorkItem(db, now, work, k + 1);
      assert work[..k + 1][1..] == work[1..][..k];
    }
  }

  lemma MarkKeeps(s: State, queueSizeLimit: nat)
    requires Inv(s, queueSizeLimit) && Enabled(s, MarkConfirmed, queueSizeLimit)
    ensures Inv(Apply(s, MarkConfirmed, queueSizeLimit), queueSizeLimit)
  {
    hide Lane, Ledger.Inv, WorkOk, TableAdvances;
    var s' := s.(db := ConfirmSolana(s.db, s.proc.phase.id, s.now));
    var s'' := Apply(s, MarkConfirmed, queueSizeLimit);
    forall t: TransportType
      ensures LaneOf(s', t) && FlightOf(s', t).None? && TableAdvances(s.db, s'.db, t)
      ensures s'.db.Table(t) == s.db.Table(t)
      ensures s'.db.Done(t) == s.db.Done(t) + (if t == s.proc.work[0].kind then 1 else 0)
    {
      assert LaneOf(s, t) && LaneOf(s, s.proc.work[0].kind);
      MarkLane(s, t);
    }
    AdvancesKeepInv(s.db, queueSizeLimit, s'.db);
    WorkPops(s.db, s.now, s.proc.work, s'.db);
    MarkedState(s, queueSizeLimit, s'.db);
  }

  lemma MarkedState(s: State, queueSizeLimit: nat, db': Database)
    requires Inv(s, queueSizeLimit) && Ledger.Inv(db', queueSizeLimit)
    requires forall t: TransportType ::
               LaneOf(s.(db := db'), t) && FlightOf(s.(db := db'), t).None?
    requires InPhase(s) && WorkOk(db', s.now, s.proc.work[1..])
    ensures var rest := s.proc.work[1..];
            Inv(s.(db := db', proc := if rest == [] then Idle else Minting(rest, Build)), queueSizeLimit)
  {
    hide Lane, Ledger.Inv, WorkOk;
    var rest := s.proc.work[1..];
    var s' := s.(db := db');
    var s'' := s.(db := db', proc := if rest == [] then Idle else Minting(rest, Build));
    assert forall t: TransportType :: LaneOf(s', t) ==> LaneOf(s'', t);
    assert forall t: TransportType :: FlightOf(s'', t) == FlightOf(s', t);
  }

  // ---------- what most steps leave alone ----------

  /** Minting and recovery change nothing but Solana bookkeeping. */
  lemma OtherStepsLeaveRequests(s: State, queueSizeLimit: nat, step: Step)
    requires Enabled(s, step, queueSizeLimit)
    requires !step.Submit? && !step.SetHeights? && !step.RemoveBurns? && !step.ConfirmBurns?
    ensures OnlySolanaChanged(s.db, Apply(s, step, queueSizeLimit).db)
  {
    hide OnlySolanaChanged, AddSolana, RemoveSolana, ConfirmSolana, Verdicts, Uncompleted, ConfirmedSupply;
    match step
    case RecoverNext =>
      var v := s.proc.todo[0];
      SolanaWritesOnlyIds(s.db, v.burn, v.kind, v.id, s.now);
    case SaveTx => SavedOnlyIds(s);
    case SaveFails(effect) =>
      if effect { SavedOnlyIds(s); } else { UnchangedOnlyIds(s.db); }
    case MarkConfirmed =>
      SolanaWritesOnlyIds(s.db, s.proc.work[0].burn, s.proc.work[0].kind, s.proc.phase.id, s.now);
    case _ => UnchangedOnlyIds(s.db);
  }

  lemma SavedOnlyIds(s: State)
    requires InPhase(s) && s.proc.phase.Save? && s.proc.phase.id !in s.db.solana
    ensures OnlySolanaChanged(s.db, Recorded(s).db)
  {
    hide OnlySolanaChanged;
    SolanaWritesOnlyIds(s.db, s.proc.work[0].burn, s.proc.work[0].kind, s.proc.phase.id, s.now);
  }

  lemma UnchangedOnlyIds(db: Database)
    ensures OnlySolanaChanged(db, db)
  {
  }

  // ---------- every step, every run ----------

  lemma StepKeepsInv(s: State, queueSizeLimit: nat, step: Step)
    requires Inv(s, queueSizeLimit) && Enabled(s, step, queueSizeLimit)
    ensures Inv(Apply(s, step, queueSizeLimit), queueSizeLimit)
  {
    hide Inv, Enabled, Apply;
    match step
    case Submit(_) => LedgerStepKeeps(s, queueSizeLimit, step);
    case SetHeights(_, _) => LedgerStepKeeps(s, queueSizeLimit, step);
    case RemoveBurns(_) => LedgerStepKeeps(s, queueSizeLimit, step);
    case ConfirmBurns(_) => LedgerStepKeeps(s, queueSizeLimit, step);
    case Tick(time) => TickStep(s, queueSizeLimit, time);
    case Land(_) => LandingKeeps(s, queueSizeLimit, step);
    case Reject(_) => LandingKeeps(s, queueSizeLimit, step);
    case Vanish(_) => LandingKeeps(s, queueSizeLimit, step);
    case Start(found) => StartKeeps(s, queueSizeLimit, found);
    case RecoverNext => RecoverNextKeeps(s, queueSizeLimit);
    case Compare => CompareKeeps(s, queueSizeLimit);
    case ReadUncompleted(t) => ReadKeeps(s, queueSizeLimit, t);
    case BuildTx(id) => BuildKeeps(s, queueSizeLimit, id);
    case SaveTx => SaveKeeps(s, queueSizeLimit, step);
    case SaveFails(effect) => if effect { SaveKeeps(s, queueSizeLimit, step); } else { OutcomeKeeps(s, queueSizeLimit, step); }
    case SendTx => SendKeeps(s, queueSizeLimit);
    case MarkConfirmed => MarkKeeps(s, queueSizeLimit);
    case SendConfirmed => OutcomeKeeps(s, queueSizeLimit, step);
    case SendFails => OutcomeKeeps(s, queueSizeLimit, step);
    case StatusKnown(_) => OutcomeKeeps(s, queueSizeLimit, step);
    case StatusFails => OutcomeKeeps(s, queueSizeLimit, step);
    case _ => PlainStepKeeps(s, queueSizeLimit, step);
  }

  lemma TickStep(s: State, queueSizeLimit: nat, time: Time)
    requires Inv(s, queueSizeLimit) && Enabled(s, Tick(time), queueSizeLimit)
    ensures Inv(Apply(s, Tick(time), queueSizeLimit), queueSizeLimit)
  {
    hide Inv;
    TickKeeps(s, queueSizeLimit, time);
  }

  lemma SaveKeeps(s: State, queueSizeLimit: nat, step: Step)
    requires Inv(s, queueSizeLimit) && Enabled(s, step, queueSizeLimit)
    requires step.SaveTx? || step == SaveFails(true)
    ensures Inv(Apply(s, step, queueSizeLimit), queueSizeLimit)
  {
    hide Inv, Recorded;
    RecordKeeps(s, queueSizeLimit, if step.SaveTx? then Send(s.proc.phase.id) else Build);
  }
}
