/** When ledger and contract agree. A mint is lost to the ledger exactly if an id that was overwritten or forgotten
    belongs to a transaction that executes, before or after; that takes a negative status answer about a
    transaction that had executed or could still land. */
module Agreement {
  import opened Common
  import opened Tables
  import opened Ledger
  import opened MintProtocol
  import opened MintLanes
  import opened MintSafety
  import opened MintTheorems

  // ---------- one state: lost mints are executed transactions without a record ----------

  predicate IsRecorded(db: Database, id: SolanaTxId) {
    exists t: TransportType, k :: 0 <= k < |db.Table(t)| && db.Table(t)[k].solanaId == Some(id)
  }

  /** The transaction minted, and no row carries its id. */
  predicate Orphan(s: State, id: SolanaTxId) {
    IsExecuted(s, id) && !IsRecorded(s.db, id)
  }

  /** The contract is at the end of the completed rows, or at that of the row whose transaction is in flight. */
  predicate NothingLost(s: State) {
    forall t: TransportType :: !LostAt(s, t)
  }

  lemma LaneHolds(s: State, queueSizeLimit: nat, t: TransportType)
    requires MintSafety.Inv(s, queueSizeLimit)
    ensures LaneOf(s, t)
  {
  }

  /** Another transaction recorded for the burn of an orphan did not mint. */
  lemma OtherRecord(s: State, queueSizeLimit: nat, id: SolanaTxId, t: TransportType, i: nat)
    requires MintSafety.Inv(s, queueSizeLimit) && Orphan(s, id)
    requires i < |s.db.Table(t)| && s.db.Table(t)[i].burn == s.txs[id].burn && s.db.Table(t)[i].solanaId.Some?
    ensures !IsExecuted(s, s.db.Table(t)[i].solanaId.value)
  {
    hide MintSafety.Inv;
    LaneHolds(s, queueSizeLimit, t);
    if IsExecuted(s, s.db.Table(t)[i].solanaId.value) {
      ExecutedOnce(s, queueSizeLimit, s.db.Table(t)[i].solanaId.value, id);
    }
  }

  lemma OrphanIsLost(s: State, queueSizeLimit: nat, id: SolanaTxId)
    requires MintSafety.Inv(s, queueSizeLimit) && Orphan(s, id)
    ensures LostAt(s, s.txs[id].kind)
  {
    hide MintSafety.Inv, IsRecorded;
    var t := s.txs[id].kind;
    var rows, n := s.db.Table(t), s.db.Done(t);
    LaneHolds(s, queueSizeLimit, t);
    var i := TxHasRow(s, queueSizeLimit, id);
    assert ExecutedOf(s.txs, id, t);
    if rows[i].solanaId.Some? {
      OtherRecord(s, queueSizeLimit, id, t, i);
    }
    assert i == n;
    EndGrows(rows, n, n + 1);
  }

  lemma LostHasOrphan(s: State, queueSizeLimit: nat, t: TransportType) returns (id: SolanaTxId)
    requires MintSafety.Inv(s, queueSizeLimit) && LostAt(s, t)
    ensures Orphan(s, id) && s.txs[id].kind == t
  {
    hide MintSafety.Inv;
    LaneHolds(s, queueSizeLimit, t);
    var rows, n := s.db.Table(t), s.db.Done(t);
    EndGrows(rows, 0, n + 1);
    id :| ExecutedOf(s.txs, id, t) && s.txs[id].supply + s.txs[id].amount == s.chain.Get(t);
    var i := TxHasRow(s, queueSizeLimit, id);
    EndGrows(rows, i + 1, n + 1);
    forall u: TransportType, k | 0 <= k < |s.db.Table(u)|
      ensures s.db.Table(u)[k].solanaId != Some(id)
    {
      LaneHolds(s, queueSizeLimit, u);
    }
  }

  lemma LostIffOrphan(s: State, queueSizeLimit: nat)
    requires MintSafety.Inv(s, queueSizeLimit)
    ensures NothingLost(s) <==> forall id :: !Orphan(s, id)
  {
    hide MintSafety.Inv, LostAt, IsRecorded;
    forall id | Orphan(s, id)
      ensures !NothingLost(s)
    {
      OrphanIsLost(s, queueSizeLimit, id);
    }
    if t: TransportType :| LostAt(s, t) {
      var id := LostHasOrphan(s, queueSizeLimit, t);
    }
  }

  // ---------- what becomes of a recorded id ----------

  /** Ids in the rows come from the rows before, but for the one that is being saved, which is new. */
  predicate IdsFrom(s: State, db': Database) {
    && s.db.solana.Keys <= db'.solana.Keys
    && forall t: TransportType, k :: 0 <= k < |db'.Table(t)| && db'.Table(t)[k].solanaId.Some? ==>
         || (k < |s.db.Table(t)| && s.db.Table(t)[k].solanaId == db'.Table(t)[k].solanaId)
         || (InPhase(s) && s.proc.phase.Save? && db'.Table(t)[k].solanaId == Some(s.proc.phase.id)
             && s.proc.phase.id !in s.db.solana)
  }

  lemma SameTablesIds(s: State, db': Database)
    requires db'.premined == s.db.premined && db'.airdrop == s.db.airdrop && db'.queue == s.db.queue
    requires s.db.solana.Keys <= db'.solana.Keys
    ensures IdsFrom(s, db')
  {
    TablesOnly(s.db, db');
  }

  lemma ExtendedIds(s: State, db': Database)
    requires Extends(s.db, db')
    ensures IdsFrom(s, db')
  {
    forall t: TransportType, k | 0 <= k < |db'.Table(t)| && db'.Table(t)[k].solanaId.Some?
      ensures k < |s.db.Table(t)| && s.db.Table(t)[k].solanaId == db'.Table(t)[k].solanaId
    {
      assert s.db.Table(t) <= db'.Table(t);
    }
  }

  lemma StepIds(s: State, queueSizeLimit: nat, step: Step)
    requires MintSafety.Inv(s, queueSizeLimit) && Enabled(s, step, queueSizeLimit)
    ensures IdsFrom(s, Apply(s, step, queueSizeLimit).db)
  {
    hide MintSafety.Inv, IdsFrom, Verdicts, ConfirmAll, RemoveAll, Ledger.SetHeights, Uncompleted, ConfirmedSupply, CanAdmit,
         InBigint, Readable, WereRows;
    match step
    case RemoveBurns(us) =>
      RemoveAllTables(s.db, us);
      SameTablesIds(s, RemoveAll(s.db, us));
    case ConfirmBurns(us) => ConfirmedIds(s, queueSizeLimit, us);
    case RecoverNext => RecoveredIds(s);
    case SaveTx => SavedIds(s);
    case SaveFails(effect) =>
      if effect { SavedIds(s); } else { SameTablesIds(s, s.db); }
    case _ => SameTablesIds(s, Apply(s, step, queueSizeLimit).db);
  }

  lemma ConfirmedIds(s: State, queueSizeLimit: nat, us: seq<Unconfirmed>)
    requires MintSafety.Inv(s, queueSizeLimit) && WereRows(s.db, us)
    ensures IdsFrom(s, Apply(s, ConfirmBurns(us), queueSizeLimit).db)
  {
    hide MintSafety.Inv, IdsFrom, ConfirmAll, Base, WereRows;
    LedgerOfState(s, queueSizeLimit);
    InvIsBase(s.db, queueSizeLimit);
    if ConfirmAll(s.db, us, s.now).Ok? {
      ConfirmAllNeedsFreshRows(s.db, us, s.now);
      ConfirmAllExtends(s.db, us, s.now);
      ExtendedIds(s, ConfirmAll(s.db, us, s.now).value);
    } else {
      SameTablesIds(s, s.db);
    }
  }

  lemma RecoveredIds(s: State)
    requires s.proc.Recovering? && s.proc.todo != []
    ensures IdsFrom(s, Recovered(s.db, s.proc.todo[0], s.now))
  {
  }

  lemma SavedIds(s: State)
    requires InPhase(s) && s.proc.phase.Save? && s.proc.phase.id !in s.db.solana
    ensures IdsFrom(s, MintProtocol.Recorded(s).db)
  {
  }

  /** An id that solana_transactions holds and no row carries is never recorded again. */
  lemma NeverAgain(s: State, queueSizeLimit: nat, step: Step, id: SolanaTxId)
    requires MintSafety.Inv(s, queueSizeLimit) && Enabled(s, step, queueSizeLimit)
    requires id in s.db.solana && !IsRecorded(s.db, id)
    ensures var db' := Apply(s, step, queueSizeLimit).db; id in db'.solana && !IsRecorded(db', id)
  {
    hide MintSafety.Inv, Enabled, Apply;
    StepIds(s, queueSizeLimit, step);
  }

  /** An executed transaction without a record never gets one: what is saved was not sent before. */
  lemma OrphanStays(s: State, queueSizeLimit: nat, step: Step, id: SolanaTxId)
    requires MintSafety.Inv(s, queueSizeLimit) && Enabled(s, step, queueSizeLimit) && Orphan(s, id)
    ensures Orphan(Apply(s, step, queueSizeLimit), id)
    ensures Apply(s, step, queueSizeLimit).txs[id].kind == s.txs[id].kind
  {
    hide MintSafety.Inv, Enabled, Apply;
    StepTxsPersist(s, queueSizeLimit, step);
    StepIds(s, queueSizeLimit, step);
    SavingIsUnsent(s, queueSizeLimit);
    var s' := Apply(s, step, queueSizeLimit);
    assert s'.txs[id].(status := Unsent) == s.txs[id].(status := Unsent);
  }

  lemma SavingIsUnsent(s: State, queueSizeLimit: nat)
    requires MintSafety.Inv(s, queueSizeLimit)
    ensures InPhase(s) && s.proc.phase.Save? ==> !IsExecuted(s, s.proc.phase.id)
  {
    hide Lane, Ledger.Inv, WorkOk;
  }

  /** A mint that is lost stays lost, whatever step follows. */
  lemma LossStays(s: State, queueSizeLimit: nat, step: Step, t: TransportType)
    requires MintSafety.Inv(s, queueSizeLimit) && Enabled(s, step, queueSizeLimit) && LostAt(s, t)
    ensures LostAt(Apply(s, step, queueSizeLimit), t)
  {
    hide MintSafety.Inv, Enabled, Apply, LostAt, Orphan;
    var id := LostHasOrphan(s, queueSizeLimit, t);
    OrphanStays(s, queueSizeLimit, step, id);
    StepKeepsInv(s, queueSizeLimit, step);
    OrphanIsLost(Apply(s, step, queueSizeLimit), queueSizeLimit, id);
  }

  lemma RecordedIsKnown(s: State, queueSizeLimit: nat, id: SolanaTxId)
    requires MintSafety.Inv(s, queueSizeLimit) && IsRecorded(s.db, id)
    ensures id in s.db.solana && id in s.txs
  {
    hide MintSafety.Inv;
    var t: TransportType, k :| 0 <= k < |s.db.Table(t)| && s.db.Table(t)[k].solanaId == Some(id);
    LaneHolds(s, queueSizeLimit, t);
  }

  // ---------- runs ----------

  /** Some step before state `i` overwrote or forgot the id. */
  ghost predicate Dropped(states: seq<State>, i: nat, id: SolanaTxId)
    requires i < |states|
  {
    exists j :: 0 <= j < i && IsRecorded(states[j].db, id) && !IsRecorded(states[j + 1].db, id)
  }

  lemma {:induction false} DroppedStays(states: seq<State>, steps: seq<Step>, queueSizeLimit: nat, i: nat, id: SolanaTxId)
    requires Run(states, steps, queueSizeLimit) && i < |states| && Dropped(states, i, id)
    ensures id in states[i].db.solana && !IsRecorded(states[i].db, id)
  {
    hide MintSafety.Inv, Enabled, Apply, IsRecorded;
    var j :| 0 <= j < i && IsRecorded(states[j].db, id) && !IsRecorded(states[j + 1].db, id);
    var s, step := states[i - 1], steps[i - 1];
    RunInvariant(states, steps, queueSizeLimit, i - 1);
    if j == i - 1 {
      RecordedIsKnown(s, queueSizeLimit, id);
      StepIds(s, queueSizeLimit, step);
    } else {
      assert Dropped(states, i - 1, id);
      DroppedStays(states, steps, queueSizeLimit, i - 1, id);
      NeverAgain(s, queueSizeLimit, step, id);
    }
  }

  lemma SentIsRecorded(s: State, queueSizeLimit: nat, step: Step, id: SolanaTxId)
    requires MintSafety.Inv(s, queueSizeLimit) && Enabled(s, step, queueSizeLimit)
    requires var txs' := Apply(s, step, queueSizeLimit).txs;
             id in txs' && !txs'[id].status.Unsent? && !(id in s.txs && !s.txs[id].status.Unsent?)
    ensures IsRecorded(Apply(s, step, queueSizeLimit).db, id)
  {
    hide Lane, Ledger.Inv, WorkOk;
    if step.SendTx? {
      var t := s.proc.work[0].kind;
      assert s.db.Table(t)[s.db.Done(t)].solanaId == Some(id);
    } else if step.BuildTx? {
    } else if step.Land? || step.Reject? || step.Vanish? {
    } else {
      OtherStepTxs(s, queueSizeLimit, step);
    }
  }

  /** What was sent is recorded still, or was dropped. */
  lemma {:induction false} SentWhere(states: seq<State>, steps: seq<Step>, queueSizeLimit: nat, i: nat, id: SolanaTxId)
    requires Run(states, steps, queueSizeLimit) && i < |states|
    requires id in states[i].txs && !states[i].txs[id].status.Unsent?
    ensures IsRecorded(states[i].db, id) || Dropped(states, i, id)
  {
    hide MintSafety.Inv, Enabled, Apply, IsRecorded;
    if i > 0 {
      var s, step := states[i - 1], steps[i - 1];
      RunInvariant(states, steps, queueSizeLimit, i - 1);
      if id in s.txs && !s.txs[id].status.Unsent? {
        SentWhere(states, steps, queueSizeLimit, i - 1, id);
      } else {
        SentIsRecorded(s, queueSizeLimit, step, id);
      }
    }
  }

  /** In every state of every run, no mint is lost to the ledger exactly if no transaction whose id was overwritten or
      forgotten so far executed, be it before that or since. */
  lemma NothingLostIff(states: seq<State>, steps: seq<Step>, queueSizeLimit: nat, i: nat)
    requires Run(states, steps, queueSizeLimit) && i < |states|
    ensures NothingLost(states[i]) <==> forall id :: Dropped(states, i, id) ==> !IsExecuted(states[i], id)
  {
    hide MintSafety.Inv, Run, NothingLost, Dropped, IsRecorded;
    var s := states[i];
    RunInvariant(states, steps, queueSizeLimit, i);
    LostIffOrphan(s, queueSizeLimit);
    forall id
      ensures Orphan(s, id) <==> Dropped(states, i, id) && IsExecuted(s, id)
    {
      if Orphan(s, id) {
        SentWhere(states, steps, queueSizeLimit, i, id);
      }
      if Dropped(states, i, id) {
        DroppedStays(states, steps, queueSizeLimit, i, id);
      }
    }
  }

  /** A loss is never repaired. */
  lemma {:induction false} LossIsForever(states: seq<State>, steps: seq<Step>, queueSizeLimit: nat, i: nat, j: nat,
                                         t: TransportType)
    requires Run(states, steps, queueSizeLimit) && i <= j < |states| && LostAt(states[i], t)
    ensures LostAt(states[j], t)
    decreases j
  {
    hide MintSafety.Inv, Enabled, Apply, LostAt;
    if i < j {
      LossIsForever(states, steps, queueSizeLimit, i, j - 1, t);
      RunInvariant(states, steps, queueSizeLimit, j - 1);
      LossStays(states[j - 1], queueSizeLimit, steps[j - 1], t);
    }
  }

  // ---------- recovery ----------

  /** After recovery no record has an unconfirmed id, the two notions of confirmed supply coincide for every type, and the
      ledger agrees with the contract exactly if no mint is lost to it. */
  lemma RecoveredLedger(s: State, queueSizeLimit: nat)
    requires MintSafety.Inv(s, queueSizeLimit) && s.proc.Comparing?
    ensures forall t: TransportType, r :: r in s.db.Table(t) && r.solanaId.Some? ==> Completed(r, s.db.solana)
    ensures forall t: TransportType ::
              SelectMax(s.db.Table(t), HasSolanaId, s.db.solana) == SelectMax(s.db.Table(t), IsCompleted, s.db.solana)
    ensures s.chain == ConfirmedSupply(s.db) <==> NothingLost(s)
  {
    forall t: TransportType
      ensures forall r :: r in s.db.Table(t) && r.solanaId.Some? ==> Completed(r, s.db.solana)
      ensures SelectMax(s.db.Table(t), HasSolanaId, s.db.solana) == SelectMax(s.db.Table(t), IsCompleted, s.db.solana)
    {
      assert LaneOf(s, t) && FlightOf(s, t).None?;
      MaxRecordedIsEnd(s.db.Table(t), s.db.solana, s.db.Done(t));
      forall r | r in s.db.Table(t) && r.solanaId.Some?
        ensures Completed(r, s.db.solana)
      {
        var i :| 0 <= i < |s.db.Table(t)| && s.db.Table(t)[i] == r;
      }
    }
    GroundedSupply(s);
  }

  /** Over a run, the start-up comparison passes exactly when no transaction whose id was overwritten or forgotten has
      executed by then. Once refused, the server is refused at every later start. */
  lemma ComparisonPassesIff(states: seq<State>, steps: seq<Step>, queueSizeLimit: nat, i: nat)
    requires Run(states, steps, queueSizeLimit) && i < |steps| && steps[i].Compare?
    ensures var agree := forall id :: Dropped(states, i, id) ==> !IsExecuted(states[i], id);
            && (states[i].chain == ConfirmedSupply(states[i].db) <==> agree)
            && states[i + 1].proc == if agree then Idle else Refused
    ensures !NothingLost(states[i]) ==>
              forall j :: i <= j < |steps| && steps[j].Compare? ==> states[j + 1].proc == Refused
  {
    hide MintSafety.Inv, Dropped, LostAt, Enabled, Apply;
    CompareOutcome(states, steps, queueSizeLimit, i);
    NothingLostIff(states, steps, queueSizeLimit, i);
    if t: TransportType :| LostAt(states[i], t) {
      forall j | i <= j < |steps| && steps[j].Compare?
        ensures states[j + 1].proc == Refused
      {
        LossIsForever(states, steps, queueSizeLimit, i, j, t);
        CompareOutcome(states, steps, queueSizeLimit, j);
      }
    }
  }

  lemma CompareOutcome(states: seq<State>, steps: seq<Step>, queueSizeLimit: nat, i: nat)
    requires Run(states, steps, queueSizeLimit) && i < |steps| && steps[i].Compare?
    ensures states[i].chain == ConfirmedSupply(states[i].db) <==> NothingLost(states[i])
    ensures states[i + 1].proc == if NothingLost(states[i]) then Idle else Refused
  {
    hide MintSafety.Inv, NothingLost;
    RunInvariant(states, steps, queueSizeLimit, i);
    assert Enabled(states[i], steps[i], queueSizeLimit);
    RecoveredLedger(states[i], queueSizeLimit);
  }

  /** The loop of handleUnconfirmedSolana, run to its end. */
  function Recover(s: State, queueSizeLimit: nat): State
    requires s.proc.Recovering?
    decreases |s.proc.todo|
  {
    if s.proc.todo == [] then Apply(s, RecoveryDone, queueSizeLimit)
    else Recover(Apply(s, RecoverNext, queueSizeLimit), queueSizeLimit)
  }

  lemma {:induction false} RecoverReaches(s: State, queueSizeLimit: nat)
    requires MintSafety.Inv(s, queueSizeLimit) && s.proc.Recovering?
    ensures var r := Recover(s, queueSizeLimit);
            MintSafety.Inv(r, queueSizeLimit) && r.proc == Comparing && r.chain == s.chain && r.txs == s.txs
    decreases |s.proc.todo|
  {
    hide MintSafety.Inv;
    if s.proc.todo == [] {
      StepKeepsInv(s, queueSizeLimit, RecoveryDone);
    } else {
      StepKeepsInv(s, queueSizeLimit, RecoverNext);
      RecoverReaches(Apply(s, RecoverNext, queueSizeLimit), queueSizeLimit);
    }
  }

  /** From any stopped state reached by any interleaving, and whatever TxStatus answers, recovery runs to its end without
      touching the contract, and the server starts exactly if no mint is then lost to the ledger. */
  lemma RecoveryCompletes(s: State, queueSizeLimit: nat, found: set<SolanaTxId>)
    requires MintSafety.Inv(s, queueSizeLimit) && s.proc.Down?
    ensures var r := Recover(Apply(s, Start(found), queueSizeLimit), queueSizeLimit);
            && r.chain == s.chain && r.txs == s.txs
            && (forall t: TransportType, row :: row in r.db.Table(t) && row.solanaId.Some? ==> Completed(row, r.db.solana))
            && (r.chain == ConfirmedSupply(r.db) <==> NothingLost(r))
            && Enabled(r, Compare, queueSizeLimit)
            && Apply(r, Compare, queueSizeLimit).proc == if NothingLost(r) then Idle else Refused
  {
    hide MintSafety.Inv, Verdicts, NothingLost;
    var s' := Apply(s, Start(found), queueSizeLimit);
    StepKeepsInv(s, queueSizeLimit, Start(found));
    RecoverReaches(s', queueSizeLimit);
    RecoveredLedger(Recover(s', queueSizeLimit), queueSizeLimit);
  }

  lemma {:induction false} RecoverKeeps(s: State, queueSizeLimit: nat, id: SolanaTxId)
    requires MintSafety.Inv(s, queueSizeLimit) && s.proc.Recovering?
    requires forall v :: v in s.proc.todo && !v.success ==> v.id != id
    ensures IsRecorded(Recover(s, queueSizeLimit).db, id) <==> IsRecorded(s.db, id)
    decreases |s.proc.todo|
  {
    hide MintSafety.Inv, IsRecorded, IdsFrom;
    if s.proc.todo != [] {
      var s' := Apply(s, RecoverNext, queueSizeLimit);
      StepKeepsInv(s, queueSizeLimit, RecoverNext);
      if IsRecorded(s.db, id) && !IsRecorded(s'.db, id) {
        DropsFlight(s, queueSizeLimit, RecoverNext, id);
      }
      if !IsRecorded(s.db, id) {
        StepIds(s, queueSizeLimit, RecoverNext);
        NotRecordedStays(s, s'.db, id);
      }
      RecoverKeeps(s', queueSizeLimit, id);
    }
  }

  lemma NotRecordedStays(s: State, db': Database, id: SolanaTxId)
    requires IdsFrom(s, db') && !InPhase(s) && !IsRecorded(s.db, id)
    ensures !IsRecorded(db', id)
  {
  }

  /** Recovery in which TxStatus recognises what minted loses no mint, so that the server starts exactly if none was lost
      before it stopped. */
  lemma RecoveryLosesNothing(s: State, queueSizeLimit: nat, found: set<SolanaTxId>)
    requires MintSafety.Inv(s, queueSizeLimit) && s.proc.Down?
    requires forall v :: v in Verdicts(s, found) && IsExecuted(s, v.id) ==> v.success
    ensures NothingLost(Recover(Apply(s, Start(found), queueSizeLimit), queueSizeLimit)) <==> NothingLost(s)
  {
    hide MintSafety.Inv, Verdicts, NothingLost, IsRecorded;
    var s' := Apply(s, Start(found), queueSizeLimit);
    StepKeepsInv(s, queueSizeLimit, Start(found));
    RecoverReaches(s', queueSizeLimit);
    var r := Recover(s', queueSizeLimit);
    LostIffOrphan(s, queueSizeLimit);
    LostIffOrphan(r, queueSizeLimit);
    forall id
      ensures Orphan(r, id) <==> Orphan(s, id)
    {
      if IsExecuted(s, id) {
        RecoverKeeps(s', queueSizeLimit, id);
      }
    }
  }

  // ---------- when nothing is dropped that may mint ----------

  /** The transaction neither minted nor can still land. */
  predicate Dead(s: State, id: SolanaTxId) {
    !IsPending(s, id) && !IsExecuted(s, id)
  }

  /** A status answer writes off a transaction that executed or can still land. */
  predicate Slips(s: State, step: Step) {
    || ((step.StatusFails? || step == StatusKnown(false)) && InPhase(s) && s.proc.phase.Check? && !Dead(s, s.proc.phase.id))
    || (step.Start? && exists v :: v in Verdicts(s, step.found) && !v.success && !Dead(s, v.id))
  }

  ghost predicate HasSlipped(states: seq<State>, steps: seq<Step>, i: nat)
    requires i <= |steps| < |states|
  {
    exists j :: 0 <= j < i && Slips(states[j], steps[j])
  }

  /** Everything that may still mint or did is recorded, and what is about to be dropped is dead. */
  ghost predicate NoneWrittenOff(s: State) {
    && (forall id :: id in s.txs && !IsRecorded(s.db, id) ==> Dead(s, id))
    && FlightDead(s) && VerdictsDead(s)
  }

  lemma SettledLosesNothing(s: State, queueSizeLimit: nat)
    requires MintSafety.Inv(s, queueSizeLimit) && NoneWrittenOff(s)
    ensures NothingLost(s)
  {
    hide MintSafety.Inv, NothingLost, IsRecorded;
    LostIffOrphan(s, queueSizeLimit);
    assert forall id :: Orphan(s, id) ==> id in s.txs;
  }

  /** Until its transaction is sent, the request then names the contract's supply. */
  lemma SettledNamesSupply(s: State, queueSizeLimit: nat)
    requires MintSafety.Inv(s, queueSizeLimit) && NoneWrittenOff(s) && InPhase(s)
    requires s.proc.phase.Build? || s.proc.phase.Save? || s.proc.phase.Send?
    ensures s.proc.work[0].totalSupply == s.chain.Get(s.proc.work[0].kind)
    ensures !Minted(s, s.proc.work[0].burn)
  {
    hide Ledger.Inv, Lane, IsRecorded;
    var t := s.proc.work[0].kind;
    SettledLosesNothing(s, queueSizeLimit);
    RequestNamesCurrentSupply(s, queueSizeLimit);
    FrontUnminted(s, queueSizeLimit);
  }

  lemma FrontUnminted(s: State, queueSizeLimit: nat)
    requires MintSafety.Inv(s, queueSizeLimit) && InPhase(s) && !LostAt(s, s.proc.work[0].kind)
    requires var f := FlightOf(s, s.proc.work[0].kind); f.Some? ==> !IsExecuted(s, f.value)
    ensures s.chain.Get(s.proc.work[0].kind) == s.proc.work[0].totalSupply
  {
    hide Ledger.Inv;
    assert LaneOf(s, s.proc.work[0].kind);
    RequestIsFront(s);
  }

  lemma DeadStays(s: State, queueSizeLimit: nat, step: Step, id: SolanaTxId)
    requires MintSafety.Inv(s, queueSizeLimit) && Enabled(s, step, queueSizeLimit) && Dead(s, id) && id in s.txs
    ensures var s' := Apply(s, step, queueSizeLimit);
            Dead(s', id) || (step.SendTx? && id == s.proc.phase.id && IsRecorded(s'.db, id))
  {
    hide Lane, Ledger.Inv, WorkOk;
    if step.SendTx? {
      var t := s.proc.work[0].kind;
      assert s.db.Table(t)[s.db.Done(t)].solanaId == Some(s.proc.phase.id);
    } else if !step.BuildTx? && !step.Land? && !step.Reject? && !step.Vanish? {
      OtherStepTxs(s, queueSizeLimit, step);
    }
  }

  /** What a step may drop. */
  lemma DropsFlight(s: State, queueSizeLimit: nat, step: Step, id: SolanaTxId)
    requires MintSafety.Inv(s, queueSizeLimit) && Enabled(s, step, queueSizeLimit)
    requires IsRecorded(s.db, id) && !IsRecorded(Apply(s, step, queueSizeLimit).db, id)
    ensures || ((step.SaveTx? || step == SaveFails(true)) && FlightOf(s, s.proc.work[0].kind) == Some(id))
            || (step.RecoverNext? && id == s.proc.todo[0].id && !s.proc.todo[0].success)
  {
    hide MintSafety.Inv, Enabled, Apply, FlightOf, MintProtocol.Recorded, Recovered;
    var t: TransportType, k :| 0 <= k < |s.db.Table(t)| && s.db.Table(t)[k].solanaId == Some(id);
    var db' := Apply(s, step, queueSizeLimit).db;
    assert k < |db'.Table(t)| && db'.Table(t)[k].solanaId == Some(id) ==> IsRecorded(db', id);
    WritesIs(s, queueSizeLimit, step);
    if step.ConfirmBurns? {
      ConfirmedKeepIds(s, queueSizeLimit, step.us, t);
    } else if step.RecoverNext? {
      ForgottenFlight(s, queueSizeLimit, t, k);
    } else if step.SaveTx? || step == SaveFails(true) {
      OverwrittenFlight(s, queueSizeLimit, t, k);
    } else {
      SameTables(s, queueSizeLimit, step);
    }
  }

  lemma WritesIs(s: State, queueSizeLimit: nat, step: Step)
    requires Enabled(s, step, queueSizeLimit)
    ensures step.ConfirmBurns? ==> WereRows(s.db, step.us)
    ensures step.RecoverNext? ==>
              && s.proc.Recovering? && s.proc.todo != []
              && Apply(s, step, queueSizeLimit).db == Recovered(s.db, s.proc.todo[0], s.now)
    ensures step.SaveTx? || step == SaveFails(true) ==>
              && InPhase(s) && s.proc.phase.Save? && s.proc.phase.id !in s.db.solana
              && Apply(s, step, queueSizeLimit).db == MintProtocol.Recorded(s).db
  {
    hide MintProtocol.Recorded;
  }

  /** Most steps leave the tables alone. */
  lemma SameTables(s: State, queueSizeLimit: nat, step: Step)
    requires Enabled(s, step, queueSizeLimit)
    requires !step.ConfirmBurns? && !step.RecoverNext? && !step.SaveTx? && step != SaveFails(true)
    ensures forall t: TransportType :: Apply(s, step, queueSizeLimit).db.Table(t) == s.db.Table(t)
  {
    hide Verdicts, ConfirmAll, RemoveAll, Ledger.SetHeights, Uncompleted, ConfirmedSupply, CanAdmit, InBigint, Readable,
         WereRows;
    if step.RemoveBurns? { RemoveAllTables(s.db, step.us); }
    TablesOnly(s.db, Apply(s, step, queueSizeLimit).db);
  }

  lemma ConfirmedKeepIds(s: State, queueSizeLimit: nat, us: seq<Unconfirmed>, t: TransportType)
    requires MintSafety.Inv(s, queueSizeLimit) && WereRows(s.db, us)
    ensures s.db.Table(t) <= Apply(s, ConfirmBurns(us), queueSizeLimit).db.Table(t)
  {
    hide MintSafety.Inv, ConfirmAll, Base, WereRows;
    LedgerOfState(s, queueSizeLimit);
    InvIsBase(s.db, queueSizeLimit);
    if ConfirmAll(s.db, us, s.now).Ok? {
      ConfirmAllNeedsFreshRows(s.db, us, s.now);
      ConfirmAllExtends(s.db, us, s.now);
    }
  }

  lemma ForgottenFlight(s: State, queueSizeLimit: nat, t: TransportType, k: nat)
    requires MintSafety.Inv(s, queueSizeLimit) && s.proc.Recovering? && s.proc.todo != []
    requires k < |s.db.Table(t)| && s.db.Table(t)[k].solanaId.Some?
    ensures var v, db' := s.proc.todo[0], Recovered(s.db, s.proc.todo[0], s.now);
            k < |db'.Table(t)|
            && (|| db'.Table(t)[k].solanaId == s.db.Table(t)[k].solanaId
                || (!v.success && s.db.Table(t)[k].solanaId == Some(v.id)))
  {
    hide Ledger.Inv;
    var v := s.proc.todo[0];
    assert LaneOf(s, v.kind) && VerdictOk(s, v);
  }

  lemma OverwrittenFlight(s: State, queueSizeLimit: nat, t: TransportType, k: nat)
    requires MintSafety.Inv(s, queueSizeLimit) && InPhase(s) && s.proc.phase.Save? && s.proc.phase.id !in s.db.solana
    requires k < |s.db.Table(t)| && s.db.Table(t)[k].solanaId.Some?
    ensures var db' := MintProtocol.Recorded(s).db;
            k < |db'.Table(t)|
            && (|| db'.Table(t)[k].solanaId == s.db.Table(t)[k].solanaId
                || FlightOf(s, s.proc.work[0].kind) == s.db.Table(t)[k].solanaId)
  {
    hide Ledger.Inv;
    var u := s.proc.work[0].kind;
    assert LaneOf(s, u);
    RequestIsFront(s);
  }

  lemma FlightsKept(s: State, queueSizeLimit: nat, step: Step)
    requires MintSafety.Inv(s, queueSizeLimit) && Enabled(s, step, queueSizeLimit)
    requires !step.RecoverNext? && !step.SaveTx? && step != SaveFails(true) && !step.MarkConfirmed?
    ensures forall t: TransportType :: FlightOf(Apply(s, step, queueSizeLimit), t) == FlightOf(s, t)
  {
    hide MintSafety.Inv, Verdicts, ConfirmAll, RemoveAll, Ledger.SetHeights, Uncompleted, ConfirmedSupply, CanAdmit,
         InBigint, Readable, WereRows;
    var s' := Apply(s, step, queueSizeLimit);
    if step.ConfirmBurns? {
      ConfirmedFlights(s, queueSizeLimit, step.us);
    } else {
      if step.RemoveBurns? { RemoveAllTables(s.db, step.us); }
      TablesOnly(s.db, s'.db);
    }
  }

  lemma ConfirmedFlights(s: State, queueSizeLimit: nat, us: seq<Unconfirmed>)
    requires MintSafety.Inv(s, queueSizeLimit) && WereRows(s.db, us)
    ensures forall t: TransportType :: FlightOf(Apply(s, ConfirmBurns(us), queueSizeLimit), t) == FlightOf(s, t)
  {
    hide MintSafety.Inv, ConfirmAll, Base, WereRows, Lane;
    LedgerOfState(s, queueSizeLimit);
    InvIsBase(s.db, queueSizeLimit);
    var s' := Apply(s, ConfirmBurns(us), queueSizeLimit);
    if ConfirmAll(s.db, us, s.now).Ok? {
      ConfirmAllNeedsFreshRows(s.db, us, s.now);
      ConfirmAllExtends(s.db, us, s.now);
      StepKeepsInv(s, queueSizeLimit, ConfirmBurns(us));
      forall t: TransportType
        ensures FlightOf(s', t) == FlightOf(s, t)
      {
        LaneHolds(s, queueSizeLimit, t);
        LaneHolds(s', queueSizeLimit, t);
        LaneBasics(s', t);
        LaneExtend(t, s.db.Table(t), s.db.solana, s.txs, s.chain.Get(t), s.db.Done(t), s'.db.Table(t));
      }
    }
  }

  lemma RecordsSettle(s: State, queueSizeLimit: nat, step: Step)
    requires MintSafety.Inv(s, queueSizeLimit) && NoneWrittenOff(s) && Enabled(s, step, queueSizeLimit)
    ensures var s' := Apply(s, step, queueSizeLimit); forall id :: id in s'.txs && !IsRecorded(s'.db, id) ==> Dead(s', id)
  {
    hide MintSafety.Inv, Apply, IsRecorded, Dead;
    var s' := Apply(s, step, queueSizeLimit);
    forall id | id in s'.txs && !IsRecorded(s'.db, id)
      ensures Dead(s', id)
    {
      if id !in s.txs {
        NewIsDead(s, queueSizeLimit, step, id);
      } else {
        if IsRecorded(s.db, id) {
          DropsFlight(s, queueSizeLimit, step, id);
        }
        DeadStays(s, queueSizeLimit, step, id);
      }
    }
  }

  lemma NewIsDead(s: State, queueSizeLimit: nat, step: Step, id: SolanaTxId)
    requires Enabled(s, step, queueSizeLimit) && id !in s.txs && id in Apply(s, step, queueSizeLimit).txs
    ensures Dead(Apply(s, step, queueSizeLimit), id)
  {
    if !step.BuildTx? && !step.SendTx? && !step.Land? && !step.Reject? && !step.Vanish? {
      OtherStepTxs(s, queueSizeLimit, step);
    }
  }

  predicate FlightDead(s: State) {
    InPhase(s) && (s.proc.phase.Build? || s.proc.phase.Save?) ==>
      var f := FlightOf(s, s.proc.work[0].kind); f.Some? ==> Dead(s, f.value)
  }

  lemma FlightSettles(s: State, queueSizeLimit: nat, step: Step)
    requires MintSafety.Inv(s, queueSizeLimit) && FlightDead(s) && Enabled(s, step, queueSizeLimit) && !Slips(s, step)
    ensures FlightDead(Apply(s, step, queueSizeLimit))
  {
    hide MintSafety.Inv, Lane;
    var s' := Apply(s, step, queueSizeLimit);
    if step.MarkConfirmed? {
      MarkedFlights(s, queueSizeLimit);
    } else if step.SaveTx? || step.RecoverNext? {
    } else if step == SaveFails(true) {
      SavedFlight(s, queueSizeLimit);
    } else {
      FlightsKept(s, queueSizeLimit, step);
      PhaseSettles(s, queueSizeLimit, step);
    }
  }

  lemma MarkedFlights(s: State, queueSizeLimit: nat)
    requires MintSafety.Inv(s, queueSizeLimit) && Enabled(s, MarkConfirmed, queueSizeLimit)
    ensures forall t: TransportType :: FlightOf(Apply(s, MarkConfirmed, queueSizeLimit), t).None?
  {
    hide Lane, Ledger.Inv, WorkOk, TableAdvances;
    forall t: TransportType
      ensures FlightOf(Apply(s, MarkConfirmed, queueSizeLimit), t).None?
    {
      assert LaneOf(s, t) && LaneOf(s, s.proc.work[0].kind);
      MarkLane(s, t);
    }
  }

  lemma SavedFlight(s: State, queueSizeLimit: nat)
    requires MintSafety.Inv(s, queueSizeLimit) && Enabled(s, SaveFails(true), queueSizeLimit)
    ensures FlightDead(Apply(s, SaveFails(true), queueSizeLimit))
  {
    hide Lane, Ledger.Inv, WorkOk, MintProtocol.Recorded;
    assert LaneOf(s, s.proc.work[0].kind);
    RecordFront(s);
    RecordedRest(s);
  }

  /** The flight stays: the phase comes to Build or Save from there, or over a status answer, or with nothing in flight. */
  lemma PhaseSettles(s: State, queueSizeLimit: nat, step: Step)
    requires MintSafety.Inv(s, queueSizeLimit) && FlightDead(s) && Enabled(s, step, queueSizeLimit) && !Slips(s, step)
    requires !step.RecoverNext? && !step.SaveTx? && step != SaveFails(true) && !step.MarkConfirmed?
    requires forall t: TransportType :: FlightOf(Apply(s, step, queueSizeLimit), t) == FlightOf(s, t)
    ensures FlightDead(Apply(s, step, queueSizeLimit))
  {
    hide Lane, Ledger.Inv, WorkOk, FlightOf, Verdicts, ConfirmAll, RemoveAll, Ledger.SetHeights, Uncompleted, ConfirmedSupply,
         CanAdmit, InBigint, Readable, WereRows;
    var s' := Apply(s, step, queueSizeLimit);
    if InPhase(s') && (s'.proc.phase.Build? || s'.proc.phase.Save?) && FlightOf(s', s'.proc.work[0].kind).Some? {
      FlightKnown(s, queueSizeLimit, s'.proc.work[0].kind);
      DeadStays(s, queueSizeLimit, step, FlightOf(s, s'.proc.work[0].kind).value);
    }
  }

  lemma FlightKnown(s: State, queueSizeLimit: nat, t: TransportType)
    requires MintSafety.Inv(s, queueSizeLimit)
    ensures FlightOf(s, t).Some? ==> FlightOf(s, t).value in s.txs
  {
    hide Lane, Ledger.Inv;
    assert LaneOf(s, t);
    FlightBuilt(s, t);
  }

  predicate VerdictsDead(s: State) {
    s.proc.Recovering? ==> forall v :: v in s.proc.todo && !v.success ==> Dead(s, v.id)
  }

  lemma VerdictsSettle(s: State, queueSizeLimit: nat, step: Step)
    requires MintSafety.Inv(s, queueSizeLimit) && VerdictsDead(s) && Enabled(s, step, queueSizeLimit) && !Slips(s, step)
    ensures VerdictsDead(Apply(s, step, queueSizeLimit))
  {
    hide Lane, Ledger.Inv, WorkOk, Verdicts, ConfirmAll, RemoveAll, Ledger.SetHeights, Uncompleted, ConfirmedSupply,
         CanAdmit, InBigint, Readable, WereRows, ConfirmSolana, RemoveSolana;
    var s' := Apply(s, step, queueSizeLimit);
    if s'.proc.Recovering? {
      forall v | v in s'.proc.todo && !v.success
        ensures Dead(s', v.id)
      {
        if !step.Start? {
          FlightKnown(s, queueSizeLimit, v.kind);
          DeadStays(s, queueSizeLimit, step, v.id);
        }
      }
    }
  }

  lemma StepSettles(s: State, queueSizeLimit: nat, step: Step)
    requires MintSafety.Inv(s, queueSizeLimit) && NoneWrittenOff(s) && Enabled(s, step, queueSizeLimit) && !Slips(s, step)
    ensures NoneWrittenOff(Apply(s, step, queueSizeLimit))
  {
    hide MintSafety.Inv, Enabled, Apply, Slips, IsRecorded;
    RecordsSettle(s, queueSizeLimit, step);
    FlightSettles(s, queueSizeLimit, step);
    VerdictsSettle(s, queueSizeLimit, step);
  }

  /** As long as no status answer writes off a transaction that executed or can still land, ledger and contract agree. */
  lemma {:induction false} NoSlipNoLoss(states: seq<State>, steps: seq<Step>, queueSizeLimit: nat, i: nat)
    requires Run(states, steps, queueSizeLimit) && i < |states| && !HasSlipped(states, steps, i)
    ensures NoneWrittenOff(states[i]) && NothingLost(states[i])
  {
    hide MintSafety.Inv, Enabled, Apply, Slips, NothingLost;
    RunInvariant(states, steps, queueSizeLimit, i);
    if i > 0 {
      NoSlipNoLoss(states, steps, queueSizeLimit, i - 1);
      RunInvariant(states, steps, queueSizeLimit, i - 1);
      StepSettles(states[i - 1], queueSizeLimit, steps[i - 1]);
    }
    SettledLosesNothing(states[i], queueSizeLimit);
  }

  lemma SlipIs(s: State, queueSizeLimit: nat, slip: Step)
    requires Enabled(s, slip, queueSizeLimit) && (slip.StatusFails? || slip == StatusKnown(false))
    ensures Apply(s, slip, queueSizeLimit) == s.(proc := Minting(s.proc.work, Build))
  {
  }

  lemma BuildingIs(s: State, queueSizeLimit: nat, id: SolanaTxId)
    requires InPhase(s) && s.proc.phase.Build? && id !in s.txs
    ensures Enabled(s, BuildTx(id), queueSizeLimit)
    ensures Apply(s, BuildTx(id), queueSizeLimit)
            == s.(txs := s.txs[id := TxFor(s.proc.work[0])], proc := Minting(s.proc.work, Save(id)))
  {
  }

  lemma SavingIs(s: State, queueSizeLimit: nat)
    requires InPhase(s) && s.proc.phase.Save? && s.proc.phase.id !in s.db.solana
    ensures Enabled(s, SaveTx, queueSizeLimit)
    ensures Apply(s, SaveTx, queueSizeLimit)
            == MintProtocol.Recorded(s).(proc := Minting(s.proc.work, Send(s.proc.phase.id)))
  {
    hide MintProtocol.Recorded;
  }

  /** When a status answer writes off a transaction that executed, be it an error or not, the next two steps of
      mint lose that mint. */
  lemma SlipLosesMint(s: State, queueSizeLimit: nat, slip: Step, id: SolanaTxId)
    requires MintSafety.Inv(s, queueSizeLimit) && Enabled(s, slip, queueSizeLimit)
    requires (slip.StatusFails? || slip == StatusKnown(false)) && IsExecuted(s, s.proc.phase.id)
    requires id !in s.txs && id !in s.db.solana
    ensures var steps, t := [slip, BuildTx(id), SaveTx], s.proc.work[0].kind;
            && !LostAt(s, t) && CanRun(s, steps, queueSizeLimit) && LostAt(After(s, steps, queueSizeLimit), t)
  {
    hide MintSafety.Inv, Enabled, Apply, MintProtocol.Recorded, LostAt, Lane;
    var t := AheadBefore(s, queueSizeLimit, slip);
    SlipIs(s, queueSizeLimit, slip);
    var s1 := Apply(s, slip, queueSizeLimit);
    BuildingIs(s1, queueSizeLimit, id);
    var s2 := Apply(s1, BuildTx(id), queueSizeLimit);
    SavingIs(s2, queueSizeLimit);
    StepKeepsInv(s, queueSizeLimit, slip);
    StepKeepsInv(s1, queueSizeLimit, BuildTx(id));
    AheadIsLost(s2, queueSizeLimit);
    LostIgnoresProc(MintProtocol.Recorded(s2), Minting(s.proc.work, Send(id)), t);
    ThreeRun(s, queueSizeLimit, slip, BuildTx(id), SaveTx);
  }

  lemma LostIgnoresProc(s: State, proc: Proc, t: TransportType)
    ensures LostAt(s.(proc := proc), t) <==> LostAt(s, t)
  {
  }

  lemma AheadBefore(s: State, queueSizeLimit: nat, slip: Step) returns (t: TransportType)
    requires MintSafety.Inv(s, queueSizeLimit) && Enabled(s, slip, queueSizeLimit)
    requires (slip.StatusFails? || slip == StatusKnown(false)) && IsExecuted(s, s.proc.phase.id)
    ensures InPhase(s) && t == s.proc.work[0].kind && s.proc.phase.Check?
    ensures Ahead(s.db.Table(t), s.chain.Get(t), s.db.Done(t)) && !LostAt(s, t)
  {
    hide Ledger.Inv, WorkOk, Lane;
    t := s.proc.work[0].kind;
    assert LaneOf(s, t);
    FlightExecutedIsAhead(t, s.db.Table(t), s.db.solana, s.txs, s.chain.Get(t), s.db.Done(t));
  }

  lemma AheadIsLost(s: State, queueSizeLimit: nat)
    requires MintSafety.Inv(s, queueSizeLimit) && InPhase(s) && s.proc.phase.Save? && s.proc.phase.id !in s.db.solana
    requires var t := s.proc.work[0].kind; Ahead(s.db.Table(t), s.chain.Get(t), s.db.Done(t))
    ensures LostAt(MintProtocol.Recorded(s), s.proc.work[0].kind)
  {
    hide Ledger.Inv, WorkOk, Lane;
    var t := s.proc.work[0].kind;
    assert LaneOf(s, t);
    RequestIsFront(s);
    LaneSave(t, s.db.Table(t), s.db.solana, s.txs, s.chain.Get(t), s.db.Done(t), s.proc.phase.id,
             MintProtocol.Recorded(s).db.Table(t), MintProtocol.Recorded(s).db.solana);
  }
}
