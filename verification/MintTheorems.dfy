/** What the mint and recovery protocol guarantees over every run: any interleaving of requests, confirmations,
    mint steps, failures and crashes, with transactions that land however late and status answers that
    miss them. */
module MintTheorems {
  import opened Common
  import opened Tables
  import opened Ledger
  import opened Emission
  import opened MintProtocol
  import opened MintLanes
  import opened MintSafety

  lemma {:induction false} RunInvariant(states: seq<State>, steps: seq<Step>, queueSizeLimit: nat, i: nat)
    requires Run(states, steps, queueSizeLimit) && i < |states|
    ensures MintSafety.Inv(states[i], queueSizeLimit)
  {
    hide MintSafety.Inv, Enabled, Apply;
    if i == 0 {
      InitialInv(states[0], queueSizeLimit);
    } else {
      RunInvariant(states, steps, queueSizeLimit, i - 1);
      StepKeepsInv(states[i - 1], queueSizeLimit, steps[i - 1]);
    }
  }

  /** Whatever steps follow a state with the invariant, it holds after them. */
  lemma {:induction false} PathInvariant(s: State, steps: seq<Step>, queueSizeLimit: nat)
    requires MintSafety.Inv(s, queueSizeLimit) && CanRun(s, steps, queueSizeLimit)
    ensures MintSafety.Inv(After(s, steps, queueSizeLimit), queueSizeLimit)
    decreases |steps|
  {
    hide MintSafety.Inv, Enabled, Apply;
    if steps != [] {
      StepKeepsInv(s, queueSizeLimit, steps[0]);
      PathInvariant(Apply(s, steps[0], queueSizeLimit), steps[1..], queueSizeLimit);
    }
  }

  /** The states that the steps lead through. */
  function StatesOn(s: State, steps: seq<Step>, queueSizeLimit: nat): seq<State>
    requires CanRun(s, steps, queueSizeLimit)
    decreases |steps|
  {
    if steps == [] then []
    else [Apply(s, steps[0], queueSizeLimit)] + StatesOn(Apply(s, steps[0], queueSizeLimit), steps[1..], queueSizeLimit)
  }

  /** A run goes on by any steps that its last state can take, so that what is said of runs holds of these too. */
  lemma {:induction false} RunGoesOn(states: seq<State>, steps: seq<Step>, more: seq<Step>, queueSizeLimit: nat)
    requires Run(states, steps, queueSizeLimit) && CanRun(states[|steps|], more, queueSizeLimit)
    ensures var all := states + StatesOn(states[|steps|], more, queueSizeLimit);
            && Run(all, steps + more, queueSizeLimit)
            && all[|steps + more|] == After(states[|steps|], more, queueSizeLimit)
    decreases |more|
  {
    hide Enabled, Apply, Initial;
    var s := states[|steps|];
    if more == [] {
      assert states + [] == states && steps + [] == steps;
    } else {
      var s' := Apply(s, more[0], queueSizeLimit);
      RunGoesOn(states + [s'], steps + [more[0]], more[1..], queueSizeLimit);
      assert states + [s'] + StatesOn(s', more[1..], queueSizeLimit) == states + StatesOn(s, more, queueSizeLimit);
      assert steps + [more[0]] + more[1..] == steps + more;
    }
  }

  // ---------- at most once ----------

  /** Transactions are never forgotten or altered, and an executed one stays executed. */
  predicate TxsPersist(s: State, s': State) {
    forall id :: id in s.txs ==>
      && id in s'.txs
      && s'.txs[id].(status := Unsent) == s.txs[id].(status := Unsent)
      && (s.txs[id].status.Executed? ==> s'.txs[id].status.Executed?)
  }

  lemma StepTxsPersist(s: State, queueSizeLimit: nat, step: Step)
    requires MintSafety.Inv(s, queueSizeLimit) && Enabled(s, step, queueSizeLimit)
    ensures TxsPersist(s, Apply(s, step, queueSizeLimit))
  {
    hide Lane, Ledger.Inv, WorkOk, Verdicts;
    var s' := Apply(s, step, queueSizeLimit);
    if step.SendTx? || step.BuildTx? {
      assert step.SendTx? ==> s.txs[s.proc.phase.id].status.Unsent?;
    } else if step.Land? || step.Reject? || step.Vanish? {
      assert s.txs[step.id].status.Pending?;
    } else {
      OtherStepTxs(s, queueSizeLimit, step);
    }
  }

  lemma OtherStepTxs(s: State, queueSizeLimit: nat, step: Step)
    requires Enabled(s, step, queueSizeLimit)
    requires !step.SendTx? && !step.BuildTx? && !step.Land? && !step.Reject? && !step.Vanish?
    ensures Apply(s, step, queueSizeLimit).txs == s.txs
  {
  }

  lemma {:induction false} RunTxsPersist(states: seq<State>, steps: seq<Step>, queueSizeLimit: nat, i: nat, j: nat)
    requires Run(states, steps, queueSizeLimit) && i <= j < |states|
    ensures TxsPersist(states[i], states[j])
    decreases j - i
  {
    hide Enabled, Apply, MintSafety.Inv;
    if i < j {
      RunInvariant(states, steps, queueSizeLimit, j - 1);
      StepTxsPersist(states[j - 1], queueSizeLimit, steps[j - 1]);
      RunTxsPersist(states, steps, queueSizeLimit, i, j - 1);
    }
  }

  lemma TxHasRow(s: State, queueSizeLimit: nat, id: SolanaTxId) returns (i: nat)
    requires MintSafety.Inv(s, queueSizeLimit) && id in s.txs
    ensures var rows := s.db.Table(s.txs[id].kind);
            i <= s.db.Done(s.txs[id].kind) && i < |rows| && BuiltFor(rows, i, s.txs[id])
  {
    var t := s.txs[id].kind;
    assert LaneOf(s, t);
    assert Of(s.txs, id, t);
    i :| 0 <= i <= s.db.Done(t) && i < |s.db.Table(t)| && BuiltFor(s.db.Table(t), i, s.txs[id]);
  }

  /** Of all the transactions built for one burn, on whatever chain, at most one executed. */
  lemma ExecutedOnce(s: State, queueSizeLimit: nat, id: SolanaTxId, id': SolanaTxId)
    requires MintSafety.Inv(s, queueSizeLimit)
    requires IsExecuted(s, id) && IsExecuted(s, id') && s.txs[id].burn == s.txs[id'].burn
    ensures id == id'
  {
    var t, t' := s.txs[id].kind, s.txs[id'].kind;
    var i := TxHasRow(s, queueSizeLimit, id);
    var i' := TxHasRow(s, queueSizeLimit, id');
    assert s.db.Table(t)[i] in s.db.Table(t) && s.db.Table(t')[i'] in s.db.Table(t');
    assert s.txs[id].burn in RowBurns(s.db.Table(t)) && s.txs[id].burn in RowBurns(s.db.Table(t'));
    assert LocationInv(s.db);
    assert t == t';
    assert LaneOf(s, t);
    assert ExecutedOf(s.txs, id, t) && ExecutedOf(s.txs, id', t);
  }

  /** Step `i` of the run mints tokens for the burn. */
  predicate Mints(states: seq<State>, steps: seq<Step>, i: nat, burn: BurnId)
    requires i < |states| && i < |steps|
  {
    && steps[i].Land?
    && steps[i].id in states[i].txs
    && var tx := states[i].txs[steps[i].id];
    && tx.burn == burn
    && tx.supply == states[i].chain.Get(tx.kind)
  }

  /** No burn is minted twice, over all retries, restarts and late landings of a run. */
  lemma BurnMintedAtMostOnce(states: seq<State>, steps: seq<Step>, queueSizeLimit: nat, i: nat, j: nat, burn: BurnId)
    requires Run(states, steps, queueSizeLimit) && i < |steps| && j < |steps|
    requires Mints(states, steps, i, burn) && Mints(states, steps, j, burn)
    ensures i == j
  {
    hide MintSafety.Inv;
    if i != j {
      var a, b := if i < j then i else j, if i < j then j else i;
      var id, id' := steps[a].id, steps[b].id;
      assert Enabled(states[a], steps[a], queueSizeLimit) && Enabled(states[b], steps[b], queueSizeLimit);
      assert IsExecuted(states[a + 1], id) && IsExecuted(states[b + 1], id');
      RunTxsPersist(states, steps, queueSizeLimit, a, a + 1);
      RunTxsPersist(states, steps, queueSizeLimit, a + 1, b);
      RunTxsPersist(states, steps, queueSizeLimit, b, b + 1);
      RunInvariant(states, steps, queueSizeLimit, b + 1);
      ExecutedOnce(states[b + 1], queueSizeLimit, id, id');
      assert false;
    }
  }

  // ---------- what the contract holds ----------

  ghost predicate Minted(s: State, burn: BurnId) {
    exists id :: IsExecuted(s, id) && s.txs[id].burn == burn
  }

  /** Number of leading rows of a chain that the contract holds. */
  function MintedRows(s: State, t: TransportType): nat {
    var rows, n := s.db.Table(t), s.db.Done(t);
    if n < |rows| && s.chain.Get(t) == rows[n].supplyAfter then n + 1 else n
  }

  lemma RecordedExecuted(s: State, t: TransportType, i: nat)
    requires LaneOf(s, t) && i < s.db.Done(t)
    ensures Minted(s, s.db.Table(t)[i].burn)
  {
    var rows := s.db.Table(t);
    assert Completed(rows[i], s.db.solana);
    assert IsExecuted(s, rows[i].solanaId.value);
  }

  lemma FrontExecuted(s: State, t: TransportType)
    requires LaneOf(s, t) && Ahead(s.db.Table(t), s.chain.Get(t), s.db.Done(t))
    ensures Minted(s, s.db.Table(t)[s.db.Done(t)].burn)
  {
    var rows, n := s.db.Table(t), s.db.Done(t);
    EndGrows(rows, 0, n + 1);
    var id :| ExecutedOf(s.txs, id, t) && s.txs[id].supply + s.txs[id].amount == s.chain.Get(t);
    assert Of(s.txs, id, t);
    var i :| 0 <= i <= n && i < |rows| && BuiltFor(rows, i, s.txs[id]);
    EndGrows(rows, i + 1, n + 1);
    assert IsExecuted(s, id);
  }

  /** The contract holds exactly a prefix of each chain: its supply is 0 or the supply after
      some row, the burns up to that row are minted, and no burn beyond it is. */
  lemma ContractHoldsPrefix(s: State, queueSizeLimit: nat, t: TransportType)
    requires MintSafety.Inv(s, queueSizeLimit)
    ensures var rows, m := s.db.Table(t), MintedRows(s, t);
            && s.db.Done(t) <= m <= s.db.Done(t) + 1 && m <= |rows|
            && s.chain.Get(t) == EndAt(rows, m)
            && forall i :: 0 <= i < |rows| ==> (Minted(s, rows[i].burn) <==> i < m)
  {
    var rows, n, m := s.db.Table(t), s.db.Done(t), MintedRows(s, t);
    assert LaneOf(s, t);
    forall i | 0 <= i < |rows|
      ensures Minted(s, rows[i].burn) <==> i < m
    {
      if i < n {
        RecordedExecuted(s, t, i);
      } else if i < m {
        FrontExecuted(s, t);
      }
      if Minted(s, rows[i].burn) {
        var id :| IsExecuted(s, id) && s.txs[id].burn == rows[i].burn;
        MintedWithin(s, queueSizeLimit, id, t, i);
        if i >= m {
          EndGrows(rows, m, i + 1);
        }
      }
    }
  }

  lemma MintedWithin(s: State, queueSizeLimit: nat, id: SolanaTxId, t: TransportType, i: nat)
    requires MintSafety.Inv(s, queueSizeLimit) && IsExecuted(s, id)
    requires i < |s.db.Table(t)| && s.db.Table(t)[i].burn == s.txs[id].burn
    ensures EndAt(s.db.Table(t), i + 1) <= s.chain.Get(t)
    ensures s.txs[id].kind == t && s.txs[id].recipient == s.db.Table(t)[i].recipient
    ensures s.txs[id].amount == s.db.Table(t)[i].Amount()
  {
    var u := s.txs[id].kind;
    var j := TxHasRow(s, queueSizeLimit, id);
    assert s.db.Table(u)[j] in s.db.Table(u) && s.db.Table(t)[i] in s.db.Table(t);
    assert s.txs[id].burn in RowBurns(s.db.Table(u)) && s.txs[id].burn in RowBurns(s.db.Table(t));
    assert LocationInv(s.db);
    assert LaneOf(s, t);
    assert i == j;
    assert ExecutedOf(s.txs, id, t);
    ChainBefore(s.db.Table(t), i);
  }

  // ---------- order of completion ----------

  /** In every reachable state completion is a prefix of each chain, and at most one record
      over all three tables carries an unconfirmed Solana id. */
  lemma PrefixAndSingleFlight(s: State, queueSizeLimit: nat)
    requires MintSafety.Inv(s, queueSizeLimit)
    ensures forall t: TransportType, i, j :: 0 <= i < j < |s.db.Table(t)| && s.db.Table(t)[j].solanaId.Some? ==>
              Completed(s.db.Table(t)[i], s.db.solana)
    ensures forall found :: |Verdicts(s, found)| <= 1
  {
    forall t: TransportType, i, j | 0 <= i < j < |s.db.Table(t)| && s.db.Table(t)[j].solanaId.Some?
      ensures Completed(s.db.Table(t)[i], s.db.solana)
    {
      assert LaneOf(s, t);
      OrderlyMeaning(s.db.Table(t), s.db.solana);
    }
    forall found
      ensures |Verdicts(s, found)| <= 1
    {
      hide Lane, VerdictsOf;
      SingleFlightOf(s);
      forall t: TransportType
        ensures |VerdictsOf(s, t, found)| == if FlightOf(s, t).Some? then 1 else 0
      {
        assert LaneOf(s, t);
        VerdictsSound(s, t, found);
      }
    }
  }

  /** The request being minted names the contract's current supply of its type exactly while its burn is not
      minted. */
  lemma RequestNamesCurrentSupply(s: State, queueSizeLimit: nat)
    requires MintSafety.Inv(s, queueSizeLimit) && InPhase(s)
    ensures var req := s.proc.work[0];
            && (req.totalSupply == s.chain.Get(req.kind) <==> !Minted(s, req.burn))
            && (Minted(s, req.burn) <==> s.chain.Get(req.kind) == req.totalSupply + req.amount)
  {
    var req := s.proc.work[0];
    var t := req.kind;
    assert LaneOf(s, t);
    RequestIsFront(s);
    var rows, n := s.db.Table(t), s.db.Done(t);
    ContractHoldsPrefix(s, queueSizeLimit, t);
    EndGrows(rows, n, n + 1);
  }

  // ---------- caps on the contract ----------

  /** Minting never outruns emission, although the allowance is read once for a list of mints. */
  lemma EmissionSafety(s: State, queueSizeLimit: nat)
    requires MintSafety.Inv(s, queueSizeLimit)
    ensures s.chain.Get(Regular) == 0 || s.chain.Get(Regular) < AllowedSupply(s.now)
    ensures 0 <= s.chain.Get(Regular) <= AllowedSupply(s.now) <= TOTAL_SUPPLY
  {
    assert LaneOf(s, Regular);
    EndGrows(s.db.Table(Regular), 0, MintedRows(s, Regular));
    ContractHoldsPrefix(s, queueSizeLimit, Regular);
    if s.chain.Get(Regular) != 0 {
      var id :| ExecutedOf(s.txs, id, Regular) && s.txs[id].supply + s.txs[id].amount == s.chain.Get(Regular);
    }
  }

  lemma {:induction false} SumFromPrefix(rows: seq<Row>, source: UnlockHash, m: nat, k: nat)
    requires Chain(rows) && m <= k <= |rows|
    ensures SumFrom(rows[..m], source) <= SumFrom(rows[..k], source)
    decreases k
  {
    if m < k {
      assert rows[..k][..k - 1] == rows[..k - 1];
      SumFromPrefix(rows, source, m, k - 1);
      ChainBefore(rows, k - 1);
    }
  }

  /** What is minted stays within the airdrop cap, and within a premined address's maximum while the
      premined accounts are in order, which PreminedRuns says when they are. */
  lemma MintedWithinLimits(s: State, queueSizeLimit: nat, source: UnlockHash)
    requires MintSafety.Inv(s, queueSizeLimit) && source in s.db.limits
    ensures 0 <= s.chain.Get(Airdrop) <= AIRDROP_MAX
    ensures MintedRows(s, Premined) <= |s.db.premined|
    ensures PreminedInv(s.db) ==>
              SumFrom(s.db.premined[..MintedRows(s, Premined)], source) <= s.db.limits[source].allowedMax
  {
    assert s.db.airdrop == s.db.Table(Airdrop) && s.db.premined == s.db.Table(Premined);
    assert ChainInv(s.db);
    ContractHoldsPrefix(s, queueSizeLimit, Airdrop);
    EndGrows(s.db.airdrop, 0, MintedRows(s, Airdrop));
    EndGrows(s.db.airdrop, MintedRows(s, Airdrop), |s.db.airdrop|);
    ContractHoldsPrefix(s, queueSizeLimit, Premined);
    SumFromPrefix(s.db.premined, source, MintedRows(s, Premined), |s.db.premined|);
    assert s.db.premined[..|s.db.premined|] == s.db.premined;
  }

  // ---------- in short ----------

  /** Every state of every run, whatever the interleaving. */
  lemma EveryReachableState(states: seq<State>, steps: seq<Step>, queueSizeLimit: nat, i: nat)
    requires Run(states, steps, queueSizeLimit) && i < |states|
    ensures var s := states[i];
            && (forall found :: |Verdicts(s, found)| <= 1)
            && (forall t: TransportType ::
                  MintedRows(s, t) <= |s.db.Table(t)| && s.chain.Get(t) == EndAt(s.db.Table(t), MintedRows(s, t)))
            && s.chain.Get(Regular) <= AllowedSupply(s.now)
            && QueueEndSupply(s.db) <= TOTAL_SUPPLY
            && QueueSize(s.db) <= queueSizeLimit
            && AirdropEndSupply(s.db) <= AIRDROP_MAX
            && SelectMax(s.db.queue, AnyRow, s.db.solana) - SelectMax(s.db.queue, IsCompleted, s.db.solana)
               + Sum(s.db.unconfirmed, OfKind(Regular)) == QueueSize(s.db)
  {
    hide MintSafety.Inv, Run;
    var s := states[i];
    RunInvariant(states, steps, queueSizeLimit, i);
    PrefixAndSingleFlight(s, queueSizeLimit);
    EmissionSafety(s, queueSizeLimit);
    LedgerOf(s, queueSizeLimit);
    QueueSizeIsDifferenceOfMaxima(s.db);
    forall t: TransportType
      ensures MintedRows(s, t) <= |s.db.Table(t)| && s.chain.Get(t) == EndAt(s.db.Table(t), MintedRows(s, t))
    {
      ContractHoldsPrefix(s, queueSizeLimit, t);
    }
  }

  lemma LedgerOf(s: State, queueSizeLimit: nat)
    requires MintSafety.Inv(s, queueSizeLimit)
    ensures ChainInv(s.db) && SolanaInv(s.db) && SupplyCaps(s.db) && QueueSize(s.db) <= queueSizeLimit
  {
  }
}
