/** Runs in which commits of reads fail, besides all that the protocol may meet: late landings, status answers that
    miss a transaction, crashes. What the contract guards by its supply survives them: no burn is minted
    twice, and minting stays within the chains, the emission and the caps. */
module RetriedRuns {
  import opened Common
  import opened Tables
  import opened Ledger
  import opened Emission
  import opened StorageSpec
  import opened MintProtocol
  import opened MintLanes
  import opened RetriedReads
  import MintSafety
  import MintTheorems
  import WitnessRuns
  import opened ServerRefinement

  /** A step of the protocol, or an attempt of a read whose commit fails and whose list stays. */
  datatype Event = Plain(step: Step) | CommitFails(t: TransportType)

  /** After `n` attempts of a read whose commit failed. */
  function Retried(s: State, t: TransportType, n: nat): State
    requires s.proc.Gathering?
  {
    s.(proc := Gathering(s.proc.read, s.proc.work + Repeat(Uncompleted(s, t), n)))
  }

  lemma NothingRetried(s: State, t: TransportType, n: nat)
    requires s.proc.Gathering? && Uncompleted(s, t) == []
    ensures Retried(s, t, n) == s
  {
    RepeatLength(Uncompleted(s, t), n);
    assert Repeat(Uncompleted(s, t), n) == [];
    assert s.proc.work + [] == s.proc.work;
  }

  /** The queue size as the storage computes it; it is the queue size only while completion is in order. */
  function FastQueueSize(db: Database): int {
    SelectMax(db.queue, AnyRow, db.solana) - SelectMax(db.queue, IsCompleted, db.solana) + Sum(db.unconfirmed, OfKind(Regular))
  }

  predicate Admits(db: Database, queueSizeLimit: nat, u: Unconfirmed) {
    FitsSupply(db, u) && (u.kind.Regular? ==> FastQueueSize(db) + u.amount <= queueSizeLimit)
  }

  predicate Possible(s: State, e: Event, queueSizeLimit: nat) {
    match e
    case CommitFails(t) => Reading(s, t)
    case Plain(step) =>
      if step.Submit? then Admits(s.db, queueSizeLimit, step.u) && step.u.height.None?
      else Enabled(s, step, queueSizeLimit)
  }

  function Next(s: State, e: Event, queueSizeLimit: nat): State
    requires Possible(s, e, queueSizeLimit)
  {
    match e
    case CommitFails(t) => Retried(s, t, 1)
    case Plain(step) =>
      if step.Submit? then s.(db := Admit(s.db, step.u)) else Apply(s, step, queueSizeLimit)
  }

  predicate EventRun(states: seq<State>, events: seq<Event>, queueSizeLimit: nat) {
    && |states| == |events| + 1
    && Initial(states[0])
    && forall i :: 0 <= i < |events| ==>
         Possible(states[i], events[i], queueSizeLimit) && states[i + 1] == Next(states[i], events[i], queueSizeLimit)
  }

  // ---------- runs in which nothing is read twice ----------

  /** While completion is in order the storage admits by the rule of the ledger. */
  lemma AdmitsIff(db: Database, queueSizeLimit: nat, u: Unconfirmed)
    requires ChainInv(db) && SolanaInv(db)
    ensures Admits(db, queueSizeLimit, u) <==> CanAdmit(db, queueSizeLimit, u)
  {
    QueueSizeIsDifferenceOfMaxima(db);
  }

  /** Every attempt whose commit failed had found nothing to read. */
  predicate EmptyRetries(states: seq<State>, events: seq<Event>, i: nat)
    requires i <= |events| < |states|
  {
    forall k :: 0 <= k < i && events[k].CommitFails? ==> Uncompleted(states[k], events[k].t) == []
  }

  /** Such runs keep the invariant of the protocol, and so all that follows from it. */
  lemma {:induction false} EmptyRetriesAreHarmless(states: seq<State>, events: seq<Event>, queueSizeLimit: nat, i: nat)
    requires EventRun(states, events, queueSizeLimit) && i < |states| && EmptyRetries(states, events, i)
    ensures MintSafety.Inv(states[i], queueSizeLimit)
  {
    hide MintSafety.Inv, Enabled, Apply, Uncompleted, Repeat;
    if i == 0 {
      MintSafety.InitialInv(states[0], queueSizeLimit);
    } else {
      var s, e := states[i - 1], events[i - 1];
      EmptyRetriesAreHarmless(states, events, queueSizeLimit, i - 1);
      match e
      case CommitFails(t) => NothingRetried(s, t, 1);
      case Plain(step) =>
        if step.Submit? {
          LedgerOrders(s, queueSizeLimit);
          AdmitsIff(s.db, queueSizeLimit, step.u);
          SubmitIs(s, queueSizeLimit, step.u);
        }
        MintSafety.StepKeepsInv(s, queueSizeLimit, step);
    }
  }

  lemma LedgerOrders(s: State, queueSizeLimit: nat)
    requires MintSafety.Inv(s, queueSizeLimit)
    ensures ChainInv(s.db) && SolanaInv(s.db)
  {
  }

  lemma SubmitIs(s: State, queueSizeLimit: nat, u: Unconfirmed)
    requires CanAdmit(s.db, queueSizeLimit, u) && u.height.None?
    ensures Enabled(s, Submit(u), queueSizeLimit) && Apply(s, Submit(u), queueSizeLimit) == s.(db := Admit(s.db, u))
  {
  }

  // ---------- what every run keeps ----------

  predicate HasRow(db: Database, tx: MintTx) {
    exists i :: 0 <= i < |db.Table(tx.kind)| && BuiltFor(db.Table(tx.kind), i, tx)
  }

  predicate Emitted(kind: TransportType, supply: int, now: Time) {
    kind.Regular? ==> supply < AllowedSupply(now)
  }

  ghost predicate Built(s: State) {
    forall id :: id in s.txs ==>
      HasRow(s.db, s.txs[id]) && Emitted(s.txs[id].kind, s.txs[id].supply + s.txs[id].amount, s.now)
  }

  /** The request was read from a row that emission allowed. */
  predicate Asked(db: Database, now: Time, req: Request) {
    exists i :: 0 <= i < |db.Table(req.kind)|
                && req == ToRequest(req.kind, db.Table(req.kind)[i])
                && Emitted(req.kind, db.Table(req.kind)[i].supplyAfter, now)
  }

  predicate AllAsked(s: State) {
    s.proc.Gathering? || s.proc.Minting? ==> forall req :: req in s.proc.work ==> Asked(s.db, s.now, req)
  }

  /** The transaction of the phase is built for the request, and unsent until it is sent. */
  predicate PhaseTx(s: State, id: SolanaTxId, unsent: bool)
    requires InPhase(s)
  {
    id in s.txs && s.txs[id].burn == s.proc.work[0].burn && (s.txs[id].status.Unsent? <==> unsent)
  }

  predicate PhaseOk(s: State) {
    s.proc.Minting? ==>
      && InPhase(s)
      && match s.proc.phase
         case Build => true
         case Save(id) => PhaseTx(s, id, true)
         case Send(id) => PhaseTx(s, id, true)
         case Await(id) => PhaseTx(s, id, false)
         case Check(id) => PhaseTx(s, id, false)
         case Mark(id) => PhaseTx(s, id, false)
  }

  /** The contract is at a position of the chain, and the burns up to it are minted. */
  ghost predicate Holds(s: State, t: TransportType) {
    exists m: nat :: m <= |s.db.Table(t)| && HoldsUpTo(s, t, m)
  }

  ghost predicate HoldsUpTo(s: State, t: TransportType, m: nat)
    requires m <= |s.db.Table(t)|
  {
    && s.chain.Get(t) == EndAt(s.db.Table(t), m)
    && forall i :: 0 <= i < m ==> MintTheorems.Minted(s, s.db.Table(t)[i].burn)
  }

  ghost predicate Safe(s: State) {
    && Base(s.db)
    && Built(s)
    && AllAsked(s)
    && PhaseOk(s)
    && (forall t: TransportType :: ExecutedInv(t, s.txs, s.chain.Get(t)))
    && (forall t: TransportType :: Holds(s, t))
  }

  lemma InitialSafe(s: State)
    requires Initial(s)
    ensures Safe(s)
  {
    FreshInv(s.db, 0);
    forall t: TransportType
      ensures Holds(s, t)
    {
      assert HoldsUpTo(s, t, 0);
    }
  }

  // ---------- the ledger's part of an event ----------

  /** Rows stay but for their ids, and the table grows at its end. */
  predicate RowsKept(db: Database, db': Database) {
    forall t: TransportType ::
      && |db.Table(t)| <= |db'.Table(t)|
      && forall i :: 0 <= i < |db.Table(t)| ==> db'.Table(t)[i] == db.Table(t)[i].(solanaId := db'.Table(t)[i].solanaId)
  }

  lemma SameRowsKept(db: Database, db': Database)
    requires db'.premined == db.premined && db'.airdrop == db.airdrop && db'.queue == db.queue
    ensures RowsKept(db, db')
  {
    TablesOnly(db, db');
  }

  lemma ExtendedRowsKept(db: Database, db': Database)
    requires Extends(db, db')
    ensures RowsKept(db, db')
  {
    forall t: TransportType
      ensures db.Table(t) <= db'.Table(t)
    {
    }
  }

  lemma EventKeepsLedger(s: State, e: Event, queueSizeLimit: nat)
    requires Base(s.db) && Possible(s, e, queueSizeLimit)
    ensures Base(Next(s, e, queueSizeLimit).db) && RowsKept(s.db, Next(s, e, queueSizeLimit).db)
  {
    hide Base, RowsKept, Enabled, Apply;
    match e
    case CommitFails(_) => SameRowsKept(s.db, s.db);
    case Plain(step) =>
      if step.Submit? {
        AdmitKeepsBase(s.db, step.u);
        SameRowsKept(s.db, Admit(s.db, step.u));
      } else {
        StepKeepsLedger(s, step, queueSizeLimit);
      }
  }

  lemma StepKeepsLedger(s: State, step: Step, queueSizeLimit: nat)
    requires Base(s.db) && Enabled(s, step, queueSizeLimit)
    ensures Base(Apply(s, step, queueSizeLimit).db) && RowsKept(s.db, Apply(s, step, queueSizeLimit).db)
  {
    hide Base, RowsKept, Enabled, Apply;
    if step.Submit? {
      SubmittedIs(s, step.u, queueSizeLimit);
      AdmitKeepsBase(s.db, step.u);
      SameRowsKept(s.db, Admit(s.db, step.u));
    } else if step.SetHeights? || step.RemoveBurns? || step.ConfirmBurns? {
      PassKeepsLedger(s, step, queueSizeLimit);
    } else {
      MintSafety.OtherStepsLeaveRequests(s, queueSizeLimit, step);
      SolanaRowsKept(s.db, Apply(s, step, queueSizeLimit).db);
      SolanaChangeKeepsBase(s.db, Apply(s, step, queueSizeLimit).db);
    }
  }

  lemma SubmittedIs(s: State, u: Unconfirmed, queueSizeLimit: nat)
    requires Enabled(s, Submit(u), queueSizeLimit)
    ensures FitsSupply(s.db, u) && Apply(s, Submit(u), queueSizeLimit).db == Admit(s.db, u)
  {
  }

  lemma SolanaRowsKept(db: Database, db': Database)
    requires OnlySolanaChanged(db, db')
    ensures RowsKept(db, db')
  {
  }

  lemma PassKeepsLedger(s: State, step: Step, queueSizeLimit: nat)
    requires Base(s.db) && Enabled(s, step, queueSizeLimit)
    requires step.SetHeights? || step.RemoveBurns? || step.ConfirmBurns?
    ensures Base(Apply(s, step, queueSizeLimit).db) && RowsKept(s.db, Apply(s, step, queueSizeLimit).db)
  {
    hide Base, RowsKept, InBigint;
    match step
    case SetHeights(burns, height) =>
      SetHeightsEffect(s.db.unconfirmed, burns, height);
      HeightsKeepBase(s.db, Ledger.SetHeights(s.db.unconfirmed, burns, height));
      SameRowsKept(s.db, Apply(s, step, queueSizeLimit).db);
    case RemoveBurns(us) =>
      RemoveAllKeepsBase(s.db, us);
      RemoveAllTables(s.db, us);
      SameRowsKept(s.db, RemoveAll(s.db, us));
    case ConfirmBurns(us) =>
      if ConfirmAll(s.db, us, s.now).Ok? {
        ConfirmAllNeedsFreshRows(s.db, us, s.now);
        ConfirmAllKeepsBase(s.db, us, s.now);
        ConfirmAllExtends(s.db, us, s.now);
        ExtendedRowsKept(s.db, ConfirmAll(s.db, us, s.now).value);
      } else {
        SameRowsKept(s.db, s.db);
      }
  }

  lemma RowMoves(db: Database, db': Database, t: TransportType, i: nat)
    requires RowsKept(db, db') && i < |db.Table(t)|
    ensures |db.Table(t)| <= |db'.Table(t)|
    ensures db'.Table(t)[i] == db.Table(t)[i].(solanaId := db'.Table(t)[i].solanaId)
    ensures EndAt(db'.Table(t), i) == EndAt(db.Table(t), i) && EndAt(db'.Table(t), i + 1) == EndAt(db.Table(t), i + 1)
  {
    assert |db.Table(t)| <= |db'.Table(t)|;
    assert i > 0 ==> db'.Table(t)[i - 1] == db.Table(t)[i - 1].(solanaId := db'.Table(t)[i - 1].solanaId);
  }

  lemma LedgerMoves(s: State, db': Database)
    requires Safe(s) && Base(db') && RowsKept(s.db, db')
    ensures Safe(s.(db := db'))
  {
    hide Base, RowsKept;
    var s' := s.(db := db');
    forall id | id in s.txs
      ensures HasRow(db', s.txs[id])
    {
      var t := s.txs[id].kind;
      var i :| 0 <= i < |s.db.Table(t)| && BuiltFor(s.db.Table(t), i, s.txs[id]);
      RowMoves(s.db, db', t, i);
      assert BuiltFor(db'.Table(t), i, s.txs[id]);
    }
    AskedMoves(s, db');
    forall t: TransportType
      ensures Holds(s', t)
    {
      HoldsMoves(s, db', t);
    }
  }

  lemma AskedMoves(s: State, db': Database)
    requires AllAsked(s) && RowsKept(s.db, db')
    ensures AllAsked(s.(db := db'))
  {
    hide RowsKept;
    if s.proc.Gathering? || s.proc.Minting? {
      forall req | req in s.proc.work
        ensures Asked(db', s.now, req)
      {
        var i :| 0 <= i < |s.db.Table(req.kind)|
                 && req == ToRequest(req.kind, s.db.Table(req.kind)[i])
                 && Emitted(req.kind, s.db.Table(req.kind)[i].supplyAfter, s.now);
        RowMoves(s.db, db', req.kind, i);
        assert req == ToRequest(req.kind, db'.Table(req.kind)[i]);
      }
    }
  }

  lemma HoldsMoves(s: State, db': Database, t: TransportType)
    requires Holds(s, t) && RowsKept(s.db, db')
    ensures Holds(s.(db := db'), t)
  {
    hide RowsKept;
    var s' := s.(db := db');
    var m: nat :| m <= |s.db.Table(t)| && HoldsUpTo(s, t, m);
    assert |s.db.Table(t)| <= |db'.Table(t)| && EndAt(db'.Table(t), m) == EndAt(s.db.Table(t), m) by {
      if m > 0 { RowMoves(s.db, db', t, m - 1); } else { TableGrows(s.db, db', t); }
    }
    forall i | 0 <= i < m
      ensures MintTheorems.Minted(s', db'.Table(t)[i].burn)
    {
      RowMoves(s.db, db', t, i);
      MintedStays(s, s', s.db.Table(t)[i].burn);
    }
    assert HoldsUpTo(s', t, m);
  }

  lemma TableGrows(db: Database, db': Database, t: TransportType)
    requires RowsKept(db, db')
    ensures |db.Table(t)| <= |db'.Table(t)|
  {
  }

  lemma MintedStays(s: State, s': State, burn: BurnId)
    requires MintTheorems.Minted(s, burn) && MintTheorems.TxsPersist(s, s')
    ensures MintTheorems.Minted(s', burn)
  {
    var id :| IsExecuted(s, id) && s.txs[id].burn == burn;
    assert IsExecuted(s', id) && s'.txs[id].burn == burn;
  }

  // ---------- the rest of an event ----------

  /** Transactions change, are built or change status, without any executing. */
  lemma TxsMove(s: State, s': State)
    requires Safe(s) && s'.db == s.db && s'.chain == s.chain && s.now <= s'.now
    requires MintTheorems.TxsPersist(s, s')
    requires forall id :: id in s'.txs && s'.txs[id].status.Executed? ==> IsExecuted(s, id)
    requires forall id :: id in s'.txs && id !in s.txs ==>
               HasRow(s.db, s'.txs[id]) && Emitted(s'.txs[id].kind, s'.txs[id].supply + s'.txs[id].amount, s.now)
    requires AllAsked(s') && PhaseOk(s')
    ensures Safe(s')
  {
    hide Base, HasRow, ExecutedInv, Holds, AllAsked, PhaseOk, Emitted;
    forall id | id in s'.txs
      ensures HasRow(s.db, s'.txs[id]) && Emitted(s'.txs[id].kind, s'.txs[id].supply + s'.txs[id].amount, s'.now)
    {
      EmittedLater(s'.txs[id].kind, s'.txs[id].supply + s'.txs[id].amount, s.now, s'.now);
      if id in s.txs {
        assert s'.txs[id].(status := Unsent) == s.txs[id].(status := Unsent);
        SameRow(s.db, s.txs[id], s'.txs[id]);
      }
    }
    forall t: TransportType
      ensures ExecutedInv(t, s'.txs, s'.chain.Get(t)) && Holds(s', t)
    {
      SameExecutions(s, s', t);
      HoldsStill(s, s', t);
    }
  }

  lemma EmittedLater(kind: TransportType, supply: int, now: Time, now': Time)
    requires now <= now'
    ensures Emitted(kind, supply, now) ==> Emitted(kind, supply, now')
  {
    AllowedSupplyMonotone(now, now');
  }

  lemma HoldsStill(s: State, s': State, t: TransportType)
    requires Holds(s, t) && s'.db == s.db && s'.chain.Get(t) == s.chain.Get(t) && MintTheorems.TxsPersist(s, s')
    ensures Holds(s', t)
  {
    hide MintTheorems.TxsPersist, MintTheorems.Minted;
    var m: nat :| m <= |s.db.Table(t)| && HoldsUpTo(s, t, m);
    forall i | 0 <= i < m
      ensures MintTheorems.Minted(s', s.db.Table(t)[i].burn)
    {
      MintedStays(s, s', s.db.Table(t)[i].burn);
    }
    assert HoldsUpTo(s', t, m);
  }

  lemma SameRow(db: Database, tx: MintTx, tx': MintTx)
    requires HasRow(db, tx) && tx'.(status := Unsent) == tx.(status := Unsent)
    ensures HasRow(db, tx')
  {
    var i :| 0 <= i < |db.Table(tx.kind)| && BuiltFor(db.Table(tx.kind), i, tx);
    assert BuiltFor(db.Table(tx.kind), i, tx');
  }

  lemma SameExecutions(s: State, s': State, t: TransportType)
    requires ExecutedInv(t, s.txs, s.chain.Get(t)) && MintTheorems.TxsPersist(s, s')
    requires forall id :: id in s'.txs && s'.txs[id].status.Executed? ==> IsExecuted(s, id)
    ensures ExecutedInv(t, s'.txs, s.chain.Get(t))
  {
    forall id
      ensures ExecutedOf(s'.txs, id, t) <==> ExecutedOf(s.txs, id, t)
      ensures ExecutedOf(s.txs, id, t) ==> id in s'.txs && s'.txs[id] == s.txs[id]
    {
      if id in s.txs && s.txs[id].status.Executed? {
        assert s'.txs[id].(status := Unsent) == s.txs[id].(status := Unsent);
        assert s'.txs[id] == s'.txs[id].(status := Unsent).(status := Executed);
      }
      if id in s'.txs && s'.txs[id].status.Executed? {
        assert s'.txs[id].(status := Unsent) == s.txs[id].(status := Unsent);
      }
    }
    SameExecuted(t, s.txs, s.chain.Get(t), s'.txs);
  }

  /** The contract executes only at the supply the transaction names, which is then the first mint of its burn. */
  lemma LandKeeps(s: State, id: SolanaTxId)
    requires Safe(s) && IsPending(s, id) && s.chain.Get(s.txs[id].kind) == s.txs[id].supply
    ensures var tx := s.txs[id];
            var s' := s.(txs := WithStatus(s.txs, id, Executed), chain := s.chain.With(tx.kind, tx.supply + tx.amount));
            (AllAsked(s') && PhaseOk(s') ==> Safe(s')) && MintTheorems.TxsPersist(s, s')
  {
    hide Base, AllAsked, PhaseOk, HasRow, ExecutedInv, Holds, HoldsUpTo, Emitted;
    var tx := s.txs[id];
    var s' := s.(txs := WithStatus(s.txs, id, Executed), chain := s.chain.With(tx.kind, tx.supply + tx.amount));
    forall x | x in s'.txs
      ensures HasRow(s.db, s'.txs[x]) && Emitted(s'.txs[x].kind, s'.txs[x].supply + s'.txs[x].amount, s.now)
    {
      SameRow(s.db, s.txs[x], s'.txs[x]);
    }
    FirstMint(s, id);
    forall t: TransportType
      ensures ExecutedInv(t, s'.txs, s'.chain.Get(t)) && Holds(s', t)
    {
      if t == tx.kind {
        LandExecutes(s, id, s');
        LandHolds(s, id, s');
      } else {
        OtherExecutions(s, id, s', t);
      }
    }
  }

  lemma OtherExecutions(s: State, id: SolanaTxId, s': State, t: TransportType)
    requires ExecutedInv(t, s.txs, s.chain.Get(t)) && Holds(s, t) && IsPending(s, id) && s.txs[id].kind != t
    requires s'.txs == WithStatus(s.txs, id, Executed) && s'.db == s.db && s'.chain.Get(t) == s.chain.Get(t)
    ensures ExecutedInv(t, s'.txs, s'.chain.Get(t)) && Holds(s', t)
  {
    assert forall x :: ExecutedOf(s'.txs, x, t) <==> ExecutedOf(s.txs, x, t);
    SameExecuted(t, s.txs, s.chain.Get(t), s'.txs);
    HoldsStill(s, s', t);
  }

  /** A transaction that names the contract's supply is built for the row the contract comes to next, and nothing
      executed for its burn. */
  lemma FirstMint(s: State, id: SolanaTxId)
    requires Safe(s) && id in s.txs && s.chain.Get(s.txs[id].kind) == s.txs[id].supply
    ensures var tx := s.txs[id];
            exists m :: 0 <= m < |s.db.Table(tx.kind)| && HoldsUpTo(s, tx.kind, m) && BuiltFor(s.db.Table(tx.kind), m, tx)
    ensures s.txs[id].amount > 0
    ensures forall x :: ExecutedOf(s.txs, x, s.txs[id].kind) ==> s.txs[x].burn != s.txs[id].burn
  {
    hide Base, AllAsked, PhaseOk, ExecutedInv, HoldsUpTo;
    var tx := s.txs[id];
    var rows := s.db.Table(tx.kind);
    var i :| 0 <= i < |rows| && BuiltFor(rows, i, tx);
    assert Holds(s, tx.kind);
    var m: nat :| m <= |rows| && HoldsUpTo(s, tx.kind, m);
    RowsAreChain(s.db, tx.kind);
    SamePosition(s, tx.kind, m, i);
    EndGrows(rows, i, i + 1);
    forall x | ExecutedOf(s.txs, x, tx.kind)
      ensures s.txs[x].burn != tx.burn
    {
      var j :| 0 <= j < |rows| && BuiltFor(rows, j, s.txs[x]);
      NotYet(s, tx.kind, x, j, i);
    }
  }

  lemma RowsAreChain(db: Database, t: TransportType)
    requires Base(db)
    ensures Chain(db.Table(t)) && TableDistinct(db.Table(t))
  {
  }

  lemma SamePosition(s: State, t: TransportType, m: nat, i: nat)
    requires Chain(s.db.Table(t)) && m <= |s.db.Table(t)| && HoldsUpTo(s, t, m)
    requires i <= |s.db.Table(t)| && s.chain.Get(t) == EndAt(s.db.Table(t), i)
    ensures i == m
  {
    if i < m { EndGrows(s.db.Table(t), i, m); } else { EndGrows(s.db.Table(t), m, i); }
  }

  /** What executed is built for rows before the contract's position. */
  lemma NotYet(s: State, t: TransportType, x: SolanaTxId, j: nat, i: nat)
    requires Chain(s.db.Table(t)) && TableDistinct(s.db.Table(t)) && ExecutedInv(t, s.txs, s.chain.Get(t))
    requires i < |s.db.Table(t)| && s.chain.Get(t) == EndAt(s.db.Table(t), i)
    requires ExecutedOf(s.txs, x, t) && j < |s.db.Table(t)| && BuiltFor(s.db.Table(t), j, s.txs[x])
    ensures s.txs[x].burn != s.db.Table(t)[i].burn
  {
    EndGrows(s.db.Table(t), i, i + 1);
  }

  lemma LandExecutes(s: State, id: SolanaTxId, s': State)
    requires IsPending(s, id) && s'.txs == WithStatus(s.txs, id, Executed)
    requires var tx := s.txs[id];
             && ExecutedInv(tx.kind, s.txs, s.chain.Get(tx.kind)) && s.chain.Get(tx.kind) == tx.supply && tx.amount > 0
             && s'.chain.Get(tx.kind) == tx.supply + tx.amount
    requires forall x :: ExecutedOf(s.txs, x, s.txs[id].kind) ==> s.txs[x].burn != s.txs[id].burn
    ensures ExecutedInv(s.txs[id].kind, s'.txs, s'.chain.Get(s.txs[id].kind))
  {
    var t := s.txs[id].kind;
    assert forall x :: ExecutedOf(s'.txs, x, t) <==> x == id || ExecutedOf(s.txs, x, t);
    assert ExecutedOf(s'.txs, id, t);
  }

  lemma LandHolds(s: State, id: SolanaTxId, s': State)
    requires IsPending(s, id) && s'.txs == WithStatus(s.txs, id, Executed) && s'.db == s.db
    requires var tx := s.txs[id];
             && (exists m :: 0 <= m < |s.db.Table(tx.kind)| && HoldsUpTo(s, tx.kind, m) && BuiltFor(s.db.Table(tx.kind), m, tx))
             && s'.chain.Get(tx.kind) == tx.supply + tx.amount
    ensures Holds(s', s.txs[id].kind)
  {
    var tx := s.txs[id];
    var rows := s.db.Table(tx.kind);
    var m :| 0 <= m < |rows| && HoldsUpTo(s, tx.kind, m) && BuiltFor(rows, m, tx);
    assert IsExecuted(s', id) && s'.txs[id].burn == rows[m].burn;
    forall i | 0 <= i < m + 1
      ensures MintTheorems.Minted(s', rows[i].burn)
    {
      if i < m { MintedStays(s, s', rows[i].burn); }
    }
    assert HoldsUpTo(s', tx.kind, m + 1);
  }

  // ---------- reads and requests ----------

  lemma {:induction false} UnrecordedAreRows(rows: seq<Row>, bound: Option<int>)
    ensures forall r :: r in Unrecorded(rows, bound) ==> r in rows && Wanted(r, bound)
  {
    if rows != [] {
      UnrecordedAreRows(rows[..|rows| - 1], bound);
    }
  }

  lemma SelectedAreRows(rows: seq<Row>, bound: Option<int>)
    ensures forall r :: r in SelectUncompleted(rows, bound) ==> r in rows && Wanted(r, bound)
  {
    hide Wanted, Ascending;
    UnrecordedAreRows(rows, bound);
    OrderByAfterSorts(Unrecorded(rows, bound));
    forall r | r in SelectUncompleted(rows, bound)
      ensures r in rows && Wanted(r, bound)
    {
      assert r in multiset(SelectUncompleted(rows, bound));
    }
  }

  lemma ReadsAreAsked(s: State, t: TransportType)
    ensures forall req :: req in Uncompleted(s, t) ==> Asked(s.db, s.now, req)
  {
    hide SelectUncompleted;
    var rows, bound := s.db.Table(t), if t.Regular? then Some(AllowedSupply(s.now)) else None;
    var found := SelectUncompleted(rows, bound);
    SelectedAreRows(rows, bound);
    forall req | req in Uncompleted(s, t)
      ensures Asked(s.db, s.now, req)
    {
      var k :| 0 <= k < |found| && req == ToRequest(t, found[k]);
      assert found[k] in found;
      var i :| 0 <= i < |rows| && rows[i] == found[k];
    }
  }

  /** A transaction for a request that was read has its row. */
  lemma AskedHasRow(s: State, req: Request)
    requires Base(s.db) && Asked(s.db, s.now, req)
    ensures HasRow(s.db, TxFor(req)) && Emitted(req.kind, req.totalSupply + req.amount, s.now)
  {
    var rows := s.db.Table(req.kind);
    var i :| 0 <= i < |rows| && req == ToRequest(req.kind, rows[i]) && Emitted(req.kind, rows[i].supplyAfter, s.now);
    assert ChainInv(s.db);
    ChainBefore(rows, i);
    EndGrows(rows, 0, i);
    assert BuiltFor(rows, i, TxFor(req));
  }

  // ---------- every event ----------

  predicate Lands(s: State, step: Step) {
    step.Land? && IsPending(s, step.id) && s.chain.Get(s.txs[step.id].kind) == s.txs[step.id].supply
  }

  lemma PhasesMove(s: State, step: Step, queueSizeLimit: nat)
    requires PhaseOk(s) && Enabled(s, step, queueSizeLimit)
    ensures PhaseOk(Apply(s, step, queueSizeLimit))
    ensures MintTheorems.TxsPersist(s, Apply(s, step, queueSizeLimit))
    ensures var s' := Apply(s, step, queueSizeLimit); forall id :: id in s'.txs && id !in s.txs ==>
              InPhase(s) && s'.txs[id] == TxFor(s.proc.work[0])
    ensures var s' := Apply(s, step, queueSizeLimit);
            !Lands(s, step) ==>
              s'.chain == s.chain && forall id :: id in s'.txs && s'.txs[id].status.Executed? ==> IsExecuted(s, id)
    ensures s.now <= Apply(s, step, queueSizeLimit).now
  {
    hide Enabled, Apply, PhaseOk;
    if step.BuildTx? || step.SendTx? {
      TxStep(s, step, queueSizeLimit);
    } else if step.Land? || step.Reject? || step.Vanish? {
      StatusStep(s, step, queueSizeLimit);
    } else {
      MintTheorems.OtherStepTxs(s, queueSizeLimit, step);
      OtherStep(s, step, queueSizeLimit);
    }
  }

  lemma TxStep(s: State, step: Step, queueSizeLimit: nat)
    requires PhaseOk(s) && Enabled(s, step, queueSizeLimit) && (step.BuildTx? || step.SendTx?)
    ensures var s' := Apply(s, step, queueSizeLimit);
            && PhaseOk(s') && MintTheorems.TxsPersist(s, s') && s'.chain == s.chain && s'.now == s.now
            && (forall id :: id in s'.txs && id !in s.txs ==> InPhase(s) && s'.txs[id] == TxFor(s.proc.work[0]))
            && (forall id :: id in s'.txs && s'.txs[id].status.Executed? ==> IsExecuted(s, id))
  {
  }

  lemma StatusStep(s: State, step: Step, queueSizeLimit: nat)
    requires PhaseOk(s) && Enabled(s, step, queueSizeLimit) && (step.Land? || step.Reject? || step.Vanish?)
    ensures var s' := Apply(s, step, queueSizeLimit);
            && PhaseOk(s') && MintTheorems.TxsPersist(s, s') && s'.now == s.now && s'.txs.Keys == s.txs.Keys
            && (!Lands(s, step) ==>
                  s'.chain == s.chain && forall id :: id in s'.txs && s'.txs[id].status.Executed? ==> IsExecuted(s, id))
  {
  }

  lemma OtherStep(s: State, step: Step, queueSizeLimit: nat)
    requires PhaseOk(s) && Enabled(s, step, queueSizeLimit)
    requires !step.BuildTx? && !step.SendTx? && !step.Land? && !step.Reject? && !step.Vanish?
    ensures var s' := Apply(s, step, queueSizeLimit);
            PhaseOk(s') && s'.chain == s.chain && s.now <= s'.now
  {
    hide Verdicts, ConfirmAll, ConfirmedSupply, Uncompleted, CanAdmit, Ledger.SetHeights, RemoveAll, AddSolana, ConfirmSolana,
         RemoveSolana, InBigint, WereRows, Readable, Admit;
  }

  /** The work list only shrinks, but for what is read. */
  lemma WorkMoves(s: State, step: Step, queueSizeLimit: nat)
    requires Enabled(s, step, queueSizeLimit) && !step.ReadUncompleted?
    ensures var s' := Apply(s, step, queueSizeLimit);
            s'.proc.Gathering? || s'.proc.Minting? ==>
              || s'.proc.work == []
              || ((s.proc.Gathering? || s.proc.Minting?) && forall req :: req in s'.proc.work ==> req in s.proc.work)
  {
    hide Verdicts, ConfirmAll, ConfirmedSupply, CanAdmit, Ledger.SetHeights, RemoveAll, AddSolana, ConfirmSolana,
         RemoveSolana, InBigint, WereRows, Readable, Admit;
  }

  lemma AskedLater(db: Database, now: Time, now': Time, req: Request)
    requires Asked(db, now, req) && now <= now'
    ensures Asked(db, now', req)
  {
    AllowedSupplyMonotone(now, now');
  }

  lemma StepAsks(s: State, step: Step, queueSizeLimit: nat)
    requires AllAsked(s) && Enabled(s, step, queueSizeLimit)
    requires RowsKept(s.db, Apply(s, step, queueSizeLimit).db) && s.now <= Apply(s, step, queueSizeLimit).now
    ensures AllAsked(Apply(s, step, queueSizeLimit))
  {
    hide Enabled, Apply, Asked, RowsKept, Uncompleted;
    var s' := Apply(s, step, queueSizeLimit);
    if step.ReadUncompleted? {
      ReadIs(s, step.t, queueSizeLimit);
      ReadsAreAsked(s, step.t);
    } else {
      WorkMoves(s, step, queueSizeLimit);
      AskedMoves(s, s'.db);
      if s'.proc.Gathering? || s'.proc.Minting? {
        forall req | req in s'.proc.work
          ensures Asked(s'.db, s'.now, req)
        {
          AskedLater(s'.db, s.now, s'.now, req);
        }
      }
    }
  }

  lemma ReadIs(s: State, t: TransportType, queueSizeLimit: nat)
    requires Enabled(s, ReadUncompleted(t), queueSizeLimit)
    ensures s.proc.Gathering?
    ensures Apply(s, ReadUncompleted(t), queueSizeLimit)
            == s.(proc := Gathering(s.proc.read + [t], s.proc.work + Uncompleted(s, t)))
  {
  }

  lemma StepKeepsSafe(s: State, step: Step, queueSizeLimit: nat)
    requires Safe(s) && Enabled(s, step, queueSizeLimit)
    requires var db' := Apply(s, step, queueSizeLimit).db; Base(db') && RowsKept(s.db, db')
    ensures Safe(Apply(s, step, queueSizeLimit))
  {
    hide Base, RowsKept, Enabled, Apply, HasRow, Asked, AllAsked, PhaseOk, Holds, ExecutedInv;
    var s' := Apply(s, step, queueSizeLimit);
    PhasesMove(s, step, queueSizeLimit);
    StepAsks(s, step, queueSizeLimit);
    if Lands(s, step) {
      LandIs(s, step.id, queueSizeLimit);
      LandKeeps(s, step.id);
    } else {
      var s1 := s.(db := s'.db);
      LedgerMoves(s, s'.db);
      forall id | id in s'.txs && id !in s.txs
        ensures HasRow(s1.db, s'.txs[id]) && Emitted(s'.txs[id].kind, s'.txs[id].supply + s'.txs[id].amount, s.now)
      {
        FirstAsked(s1);
        AskedHasRow(s1, s.proc.work[0]);
      }
      TxsMove(s1, s');
    }
  }

  lemma FirstAsked(s: State)
    requires AllAsked(s) && InPhase(s)
    ensures Asked(s.db, s.now, s.proc.work[0])
  {
  }

  lemma LandIs(s: State, id: SolanaTxId, queueSizeLimit: nat)
    requires Lands(s, Land(id)) && Enabled(s, Land(id), queueSizeLimit)
    ensures var tx := s.txs[id];
            Apply(s, Land(id), queueSizeLimit)
            == s.(txs := WithStatus(s.txs, id, Executed), chain := s.chain.With(tx.kind, tx.supply + tx.amount))
  {
  }

  lemma EventKeepsSafe(s: State, e: Event, queueSizeLimit: nat)
    requires Safe(s) && Possible(s, e, queueSizeLimit)
    ensures Safe(Next(s, e, queueSizeLimit)) && MintTheorems.TxsPersist(s, Next(s, e, queueSizeLimit))
  {
    hide Base, RowsKept, Enabled, Apply, Asked, Uncompleted, Holds, ExecutedInv, HasRow;
    EventKeepsLedger(s, e, queueSizeLimit);
    match e
    case CommitFails(t) =>
      ReadsAreAsked(s, t);
      assert Repeat(Uncompleted(s, t), 1) == [] + Uncompleted(s, t);
      TxsMove(s, Retried(s, t, 1));
    case Plain(step) =>
      if step.Submit? {
        LedgerMoves(s, Admit(s.db, step.u));
      } else {
        PhasesMove(s, step, queueSizeLimit);
        StepKeepsSafe(s, step, queueSizeLimit);
      }
  }

  // ---------- every run ----------

  lemma {:induction false} EventRunSafe(states: seq<State>, events: seq<Event>, queueSizeLimit: nat, i: nat)
    requires EventRun(states, events, queueSizeLimit) && i < |states|
    ensures Safe(states[i])
  {
    hide Safe, Possible, Next;
    if i == 0 {
      InitialSafe(states[0]);
    } else {
      EventRunSafe(states, events, queueSizeLimit, i - 1);
      EventKeepsSafe(states[i - 1], events[i - 1], queueSizeLimit);
    }
  }

  lemma {:induction false} EventRunPersists(states: seq<State>, events: seq<Event>, queueSizeLimit: nat, i: nat, j: nat)
    requires EventRun(states, events, queueSizeLimit) && i <= j < |states|
    ensures MintTheorems.TxsPersist(states[i], states[j])
    decreases j - i
  {
    hide Safe, Possible, Next;
    if i < j {
      EventRunSafe(states, events, queueSizeLimit, j - 1);
      EventKeepsSafe(states[j - 1], events[j - 1], queueSizeLimit);
      EventRunPersists(states, events, queueSizeLimit, i, j - 1);
    }
  }

  lemma ExecutedRow(s: State, id: SolanaTxId) returns (i: nat)
    requires Safe(s) && IsExecuted(s, id)
    ensures var tx := s.txs[id];
            && i < |s.db.Table(tx.kind)| && BuiltFor(s.db.Table(tx.kind), i, tx)
            && tx.supply + tx.amount <= s.chain.Get(tx.kind)
            && tx.burn in RowBurns(s.db.Table(tx.kind))
  {
    hide Base, AllAsked, PhaseOk, Holds;
    var tx := s.txs[id];
    var k :| 0 <= k < |s.db.Table(tx.kind)| && BuiltFor(s.db.Table(tx.kind), k, tx);
    i := k;
    assert s.db.Table(tx.kind)[k] in s.db.Table(tx.kind);
    assert ExecutedInv(tx.kind, s.txs, s.chain.Get(tx.kind)) && ExecutedOf(s.txs, id, tx.kind);
  }

  lemma OneTable(db: Database, burn: BurnId, t: TransportType, u: TransportType)
    requires Base(db) && burn in RowBurns(db.Table(t)) && burn in RowBurns(db.Table(u))
    ensures t == u
  {
  }

  /** Of all transactions built for one burn at most one executed, whatever was read how often. */
  lemma StillExecutedOnce(s: State, id: SolanaTxId, id': SolanaTxId)
    requires Safe(s) && IsExecuted(s, id) && IsExecuted(s, id') && s.txs[id].burn == s.txs[id'].burn
    ensures id == id'
  {
    var t := s.txs[id].kind;
    var _ := ExecutedRow(s, id);
    var _ := ExecutedRow(s, id');
    OneTable(s.db, s.txs[id].burn, t, s.txs[id'].kind);
    hide Base, AllAsked, PhaseOk, Holds, Built;
    assert ExecutedInv(t, s.txs, s.chain.Get(t)) && ExecutedOf(s.txs, id, t) && ExecutedOf(s.txs, id', t);
  }

  /** Event `i` of the run mints tokens for the burn. */
  predicate MintsAt(states: seq<State>, events: seq<Event>, i: nat, burn: BurnId)
    requires i < |states| && i < |events|
  {
    && events[i].Plain? && Lands(states[i], events[i].step)
    && states[i].txs[events[i].step.id].burn == burn
  }

  /** No burn is minted twice, however often its request was read, however late a transaction for it lands, and whatever
      the status answers were. */
  lemma StillMintedAtMostOnce(states: seq<State>, events: seq<Event>, queueSizeLimit: nat, i: nat, j: nat, burn: BurnId)
    requires EventRun(states, events, queueSizeLimit) && i < j < |events|
    requires MintsAt(states, events, i, burn)
    ensures !MintsAt(states, events, j, burn)
  {
    hide Safe, Base;
    if MintsAt(states, events, j, burn) {
      var id, id' := events[i].step.id, events[j].step.id;
      LandIs(states[i], id, queueSizeLimit);
      LandIs(states[j], id', queueSizeLimit);
      EventRunPersists(states, events, queueSizeLimit, i + 1, j);
      EventRunSafe(states, events, queueSizeLimit, j + 1);
      assert IsExecuted(states[j], id);
      EventRunPersists(states, events, queueSizeLimit, j, j + 1);
      StillExecutedOnce(states[j + 1], id, id');
      assert false;
    }
  }

  /** The contract holds the first `m` rows of the chain and nothing else of it. */
  ghost predicate HoldsExactly(s: State, t: TransportType, m: nat)
    requires m <= |s.db.Table(t)|
  {
    && s.chain.Get(t) == EndAt(s.db.Table(t), m)
    && forall i :: 0 <= i < |s.db.Table(t)| ==> (MintTheorems.Minted(s, s.db.Table(t)[i].burn) <==> i < m)
  }

  ghost predicate HoldsPrefix(s: State, t: TransportType) {
    exists m: nat :: m <= |s.db.Table(t)| && HoldsExactly(s, t, m)
  }

  /** The contract still holds exactly a prefix of each chain. */
  lemma StillHoldsPrefix(s: State, t: TransportType) returns (m: nat)
    requires Safe(s)
    ensures m <= |s.db.Table(t)| && HoldsExactly(s, t, m)
    ensures HoldsPrefix(s, t)
  {
    hide Base, AllAsked, PhaseOk, Built, ExecutedInv;
    assert Holds(s, t);
    var rows := s.db.Table(t);
    m :| m <= |rows| && HoldsUpTo(s, t, m);
    RowsAreChain(s.db, t);
    forall i | 0 <= i < |rows| && MintTheorems.Minted(s, rows[i].burn)
      ensures i < m
    {
      var id :| IsExecuted(s, id) && s.txs[id].burn == rows[i].burn;
      var j := ExecutedRow(s, id);
      assert rows[i] in rows;
      OneTable(s.db, rows[i].burn, t, s.txs[id].kind);
      assert i == j;
      if i >= m { EndGrows(rows, m, i + 1); }
    }
  }

  /** Minting still stays within the emission of the moment and the caps. */
  lemma StillWithinCaps(s: State)
    requires Safe(s)
    ensures 0 <= s.chain.Get(Regular) <= AllowedSupply(s.now) <= TOTAL_SUPPLY
    ensures 0 <= s.chain.Get(Airdrop) <= AIRDROP_MAX
    ensures QueueEndSupply(s.db) <= TOTAL_SUPPLY && AirdropEndSupply(s.db) <= AIRDROP_MAX
  {
    hide Base, Holds, ExecutedInv, AllAsked, PhaseOk, Built;
    ChainWithin(s, Regular);
    ChainWithin(s, Airdrop);
    CapsOf(s.db);
    EmittedSoFar(s);
  }

  lemma ChainWithin(s: State, t: TransportType)
    requires Safe(s)
    ensures 0 <= s.chain.Get(t) <= End(s.db.Table(t))
  {
    hide Base, Holds, ExecutedInv, AllAsked, PhaseOk, Built;
    var m := StillHoldsPrefix(s, t);
    RowsAreChain(s.db, t);
    EndGrows(s.db.Table(t), 0, m);
    EndGrows(s.db.Table(t), m, |s.db.Table(t)|);
  }

  lemma EmittedSoFar(s: State)
    requires Safe(s) && s.chain.Get(Regular) >= 0
    ensures s.chain.Get(Regular) <= AllowedSupply(s.now)
  {
    hide Base, Holds, AllAsked, PhaseOk, HasRow;
    assert ExecutedInv(Regular, s.txs, s.chain.Get(Regular));
    if s.chain.Get(Regular) != 0 {
      var id :| ExecutedOf(s.txs, id, Regular) && s.txs[id].supply + s.txs[id].amount == s.chain.Get(Regular);
    }
  }

  lemma CapsOf(db: Database)
    requires Base(db)
    ensures QueueEndSupply(db) <= TOTAL_SUPPLY && AirdropEndSupply(db) <= AIRDROP_MAX
    ensures End(db.Table(Airdrop)) <= AIRDROP_MAX
  {
  }

  /** Every state of every run, with reads repeated at will. */
  lemma EveryEventState(states: seq<State>, events: seq<Event>, queueSizeLimit: nat, i: nat)
    requires EventRun(states, events, queueSizeLimit) && i < |states|
    ensures var s := states[i];
            && (forall id, id' :: IsExecuted(s, id) && IsExecuted(s, id') && s.txs[id].burn == s.txs[id'].burn ==> id == id')
            && (forall t: TransportType :: HoldsPrefix(s, t))
            && s.chain.Get(Regular) <= AllowedSupply(s.now)
            && QueueEndSupply(s.db) <= TOTAL_SUPPLY && AirdropEndSupply(s.db) <= AIRDROP_MAX
  {
    hide Safe, EventRun, MintTheorems.Minted;
    var s := states[i];
    EventRunSafe(states, events, queueSizeLimit, i);
    forall id, id' | IsExecuted(s, id) && IsExecuted(s, id') && s.txs[id].burn == s.txs[id'].burn
      ensures id == id'
    {
      StillExecutedOnce(s, id, id');
    }
    forall t: TransportType
      ensures HoldsPrefix(s, t)
    {
      var _ := StillHoldsPrefix(s, t);
    }
    StillWithinCaps(s);
  }

  // ---------- a request that comes again ----------

  /** The request is for a burn that is minted, and no transaction of its own executed. */
  ghost predicate Stuck(s: State) {
    && InPhase(s) && MintTheorems.Minted(s, s.proc.work[0].burn)
    && match s.proc.phase
       case Build => true
       case Save(id) => !IsExecuted(s, id)
       case Send(id) => !IsExecuted(s, id)
       case Await(id) => !IsExecuted(s, id)
       case Check(id) => !IsExecuted(s, id)
       case Mark(_) => false
  }

  /** The contract refuses every transaction for a burn that is minted. */
  lemma MintedIsRefused(s: State, id: SolanaTxId)
    requires Safe(s) && id in s.txs && MintTheorems.Minted(s, s.txs[id].burn)
    ensures s.chain.Get(s.txs[id].kind) != s.txs[id].supply
  {
    hide Base, AllAsked, PhaseOk, Built, ExecutedInv, Holds;
    if s.chain.Get(s.txs[id].kind) == s.txs[id].supply {
      var x :| IsExecuted(s, x) && s.txs[x].burn == s.txs[id].burn;
      var _ := ExecutedRow(s, x);
      BuiltRow(s, id);
      OneTable(s.db, s.txs[id].burn, s.txs[id].kind, s.txs[x].kind);
      assert ExecutedOf(s.txs, x, s.txs[id].kind);
      FirstMint(s, id);
      assert false;
    }
  }

  lemma BuiltRow(s: State, id: SolanaTxId)
    requires Built(s) && id in s.txs
    ensures s.txs[id].burn in RowBurns(s.db.Table(s.txs[id].kind))
  {
    var rows := s.db.Table(s.txs[id].kind);
    var i :| 0 <= i < |rows| && BuiltFor(rows, i, s.txs[id]);
    assert rows[i] in rows;
  }

  lemma StuckStays(s: State, step: Step, queueSizeLimit: nat)
    requires Safe(s) && Stuck(s) && Enabled(s, step, queueSizeLimit) && !step.Crash?
    ensures var s' := Apply(s, step, queueSizeLimit); Stuck(s') && s'.proc.work == s.proc.work
  {
    hide Base, AllAsked, Built, ExecutedInv, Holds;
    hide MintTheorems.Minted;
    var s' := Apply(s, step, queueSizeLimit);
    PhasesMove(s, step, queueSizeLimit);
    MintedStays(s, s', s.proc.work[0].burn);
    if step.Land? && s.txs[step.id].burn == s.proc.work[0].burn {
      MintedIsRefused(s, step.id);
    }
    StuckPhase(s, step, queueSizeLimit);
  }

  lemma StuckPhase(s: State, step: Step, queueSizeLimit: nat)
    requires PhaseOk(s) && Stuck(s) && Enabled(s, step, queueSizeLimit) && !step.Crash?
    requires Lands(s, step) ==> s.txs[step.id].burn != s.proc.work[0].burn
    requires MintTheorems.Minted(Apply(s, step, queueSizeLimit), s.proc.work[0].burn)
    ensures var s' := Apply(s, step, queueSizeLimit); Stuck(s') && s'.proc.work == s.proc.work
  {
    hide Verdicts, ConfirmAll, ConfirmedSupply, Uncompleted, CanAdmit, Ledger.SetHeights, RemoveAll, AddSolana, ConfirmSolana,
         RemoveSolana, InBigint, WereRows, Readable, Admit, MintTheorems.Minted;
  }

  lemma EventStaysStuck(s: State, e: Event, queueSizeLimit: nat)
    requires Safe(s) && Stuck(s) && Possible(s, e, queueSizeLimit) && e != Plain(Crash)
    ensures var s' := Next(s, e, queueSizeLimit); Stuck(s') && s'.proc.work == s.proc.work
  {
    hide Safe, Enabled, Apply;
    match e
    case CommitFails(_) =>
    case Plain(step) =>
      if step.Submit? {
        MintedStays(s, Next(s, e, queueSizeLimit), s.proc.work[0].burn);
      } else {
        StuckStays(s, step, queueSizeLimit);
      }
  }

  /** A request that comes again for a burn that is minted is never got past: mint retries it, at a supply the
      contract has left behind, until the server crashes. */
  lemma {:induction false} StuckUntilCrash(states: seq<State>, events: seq<Event>, queueSizeLimit: nat, i: nat, j: nat)
    requires EventRun(states, events, queueSizeLimit) && i <= j < |states|
    requires InPhase(states[i]) && states[i].proc.phase.Build?
             && MintTheorems.Minted(states[i], states[i].proc.work[0].burn)
    requires forall k :: i <= k < j ==> events[k] != Plain(Crash)
    ensures states[j].proc.Minting? && states[j].proc.work == states[i].proc.work
    ensures Stuck(states[j])
    decreases j
  {
    hide Possible, Next, Stuck;
    EventRunSafe(states, events, queueSizeLimit, j);
    if i < j {
      StuckUntilCrash(states, events, queueSizeLimit, i, j - 1);
      EventRunSafe(states, events, queueSizeLimit, j - 1);
      EventStaysStuck(states[j - 1], events[j - 1], queueSizeLimit);
    }
    StuckIs(states[j]);
  }

  lemma StuckIs(s: State)
    ensures Stuck(s) ==> s.proc.Minting?
    ensures InPhase(s) && s.proc.phase.Build? && MintTheorems.Minted(s, s.proc.work[0].burn) ==> Stuck(s)
  {
  }

  // ---------- a run in which completion is taken back ----------

  /** The attempts of a read as events: `n` whose commits fail, and the one that goes through. */
  lemma {:induction false} RetriedIsEvents(s: State, t: TransportType, n: nat, queueSizeLimit: nat)
    requires Reading(s, t)
    ensures Retried(s, t, 0) == s
    ensures Possible(Retried(s, t, n), CommitFails(t), queueSizeLimit)
    ensures Next(Retried(s, t, n), CommitFails(t), queueSizeLimit) == Retried(s, t, n + 1)
    ensures Possible(Retried(s, t, n), Plain(ReadUncompleted(t)), queueSizeLimit)
    ensures Next(Retried(s, t, n), Plain(ReadUncompleted(t)), queueSizeLimit) == Reread(s, t, n)
  {
    hide Uncompleted;
    var reqs := Uncompleted(s, t);
    assert s.proc.work + [] == s.proc.work;
    assert Repeat(reqs, 1) == [] + reqs == reqs;
    assert Uncompleted(Retried(s, t, n), t) == reqs by {
      ServerReads(s, Retried(s, t, n).proc, t);
    }
    assert s.proc.work + Repeat(reqs, n) + reqs == s.proc.work + (Repeat(reqs, n) + reqs);
  }

  lemma ServerReads(s: State, proc: Proc, t: TransportType)
    ensures Uncompleted(s.(proc := proc), t) == Uncompleted(s, t)
  {
  }

  function Gathers(s: State, read: seq<TransportType>, work: seq<Request>): State {
    s.(proc := Gathering(read, work))
  }

  lemma GatherStep(s: State, read: seq<TransportType>, work: seq<Request>, t: TransportType, n: nat)
    ensures Reread(Gathers(s, read, work), t, n) == Gathers(s, read + [t], work + Repeat(Uncompleted(s, t), n + 1))
  {
    ServerReads(s, Gathering(read, work), t);
  }

  /** The list the server gathers over reads with failed commits is the one these events leave. */
  lemma GatheredWithRetries(s: State, n: (nat, nat, nat), queueSizeLimit: nat)
    requires MintSafety.Inv(s, queueSizeLimit) && s.proc.Idle?
    ensures var premined := Repeat(NextRows(s.db, Premined, None), n.0 + 1);
            var airdrop := Repeat(NextRows(s.db, Airdrop, None), n.1 + 1);
            var queue := Repeat(NextRows(s.db, Regular, Some(AllowedSupply(s.now))), n.2 + 1);
            && Reread(Gathers(s, [], []), Premined, n.0) == Gathers(s, [Premined], premined)
            && Reread(Gathers(s, [Premined], premined), Airdrop, n.1)
               == Gathers(s, [Premined, Airdrop], premined + airdrop)
            && Reread(Gathers(s, [Premined, Airdrop], premined + airdrop), Regular, n.2)
               == Gathers(s, READ_ORDER, premined + airdrop + queue)
  {
    hide MintSafety.Inv, Uncompleted, NextRows, Repeat, Gathers, Reread;
    forall t: TransportType
      ensures Uncompleted(s, t) == NextRows(s.db, t, if t.Regular? then Some(AllowedSupply(s.now)) else None)
    {
      IdleFacts(s, queueSizeLimit, t);
      ReadIsNextRows(s, t);
    }
    var p, a := Repeat(Uncompleted(s, Premined), n.0 + 1), Repeat(Uncompleted(s, Airdrop), n.1 + 1);
    GatherStep(s, [], [], Premined, n.0);
    assert [] + p == p && [] + [Premined] == [Premined];
    GatherStep(s, [Premined], p, Airdrop, n.1);
    assert [Premined] + [Airdrop] == [Premined, Airdrop];
    GatherStep(s, [Premined, Airdrop], p + a, Regular, n.2);
    assert [Premined, Airdrop] + [Regular] == READ_ORDER;
  }

  /** A reachable state with one request to read: if the commit of that read fails once and the next goes
      through, completion can be taken back afterwards. */
  lemma CompletionCanBeTakenBack()
    ensures Run(WitnessRuns.STATES[..10], WitnessRuns.STEPS[..9], WitnessRuns.LIMIT)
    ensures var s, limit := WitnessRuns.STATES[9], WitnessRuns.LIMIT;
            && Possible(s, CommitFails(Regular), limit)
            && var s' := Next(s, CommitFails(Regular), limit);
            && Possible(s', Plain(ReadUncompleted(Regular)), limit)
            && !CompletedIsKept(Next(s', Plain(ReadUncompleted(Regular)), limit), limit)
  {
    hide MintSafety.Inv, Enabled, Apply, CompletedIsKept, Uncompleted, PrefixIsKept, OrderIsKept, Possible, Next, Reread, Retried;
    WitnessRuns.StatesRun();
    assert Run(WitnessRuns.STATES[..10], WitnessRuns.STEPS[..9], WitnessRuns.LIMIT);
    MintTheorems.RunInvariant(WitnessRuns.STATES, WitnessRuns.STEPS, WitnessRuns.LIMIT, 9);
    WitnessRuns.Reads();
    var s := WitnessRuns.S9;
    assert WitnessRuns.STATES[9] == s && Reading(s, Regular) && !Blocks(s, Regular);
    RetriedIsEvents(s, Regular, 0, WitnessRuns.LIMIT);
    RetriedIsEvents(s, Regular, 1, WitnessRuns.LIMIT);
    RetriedReadUndoes(s, Regular, 1, WitnessRuns.LIMIT);
  }
}
