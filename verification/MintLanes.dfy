/** One supply chain against the contract: the invariant tying the rows of one transport type,
    the transactions built for them and the contract supply of that type, and how each
    protocol step keeps it. */
module MintLanes {
  import opened Common
  import opened Tables
  import opened MintProtocol

  type Txs = map<SolanaTxId, MintTx>

  /** The transaction was built for row `i`. */
  predicate BuiltFor(rows: seq<Row>, i: nat, tx: MintTx)
    requires i < |rows|
  {
    && rows[i].burn == tx.burn
    && rows[i].recipient == tx.recipient
    && tx.supply == EndAt(rows, i)
    && tx.supply + tx.amount == rows[i].supplyAfter
  }

  predicate Of(txs: Txs, id: SolanaTxId, t: TransportType) {
    id in txs && txs[id].kind == t
  }

  predicate ExecutedOf(txs: Txs, id: SolanaTxId, t: TransportType) {
    id in txs && txs[id].kind == t && txs[id].status.Executed?
  }

  /** Rows and ids: recorded ids belong to their rows, and those of completed rows executed. */
  ghost predicate RecordedInv(t: TransportType, rows: seq<Row>, sol: SolanaTable, txs: Txs, n: nat) {
    forall i :: 0 <= i < |rows| && rows[i].solanaId.Some? ==>
      var id := rows[i].solanaId.value;
      id in sol && id in txs && txs[id].kind == t && txs[id].burn == rows[i].burn && (i < n ==> txs[id].status.Executed?)
  }

  /** Transactions are only ever built for rows up to the front. */
  ghost predicate BuiltInv(t: TransportType, rows: seq<Row>, txs: Txs, n: nat) {
    forall id {:trigger Of(txs, id, t)} :: Of(txs, id, t) ==>
      exists i :: 0 <= i <= n && i < |rows| && BuiltFor(rows, i, txs[id])
  }

  /** What executed is within the contract supply, and no burn was minted twice. */
  ghost predicate ExecutedInv(t: TransportType, txs: Txs, supply: int) {
    && (forall id {:trigger ExecutedOf(txs, id, t)} :: ExecutedOf(txs, id, t) ==> txs[id].supply + txs[id].amount <= supply)
    && (forall id, id' {:trigger ExecutedOf(txs, id, t), ExecutedOf(txs, id', t)} ::
          ExecutedOf(txs, id, t) && ExecutedOf(txs, id', t) && txs[id].burn == txs[id'].burn ==> id == id')
    && (supply == 0 || exists id :: ExecutedOf(txs, id, t) && txs[id].supply + txs[id].amount == supply)
  }

  /** The contract already holds the supply of the front row. */
  predicate Ahead(rows: seq<Row>, supply: int, n: nat) {
    n < |rows| && supply == rows[n].supplyAfter
  }

  predicate FlightExecuted(rows: seq<Row>, txs: Txs, n: nat) {
    var f := Flight(rows, n);
    f.Some? && f.value in txs && txs[f.value].status.Executed?
  }

  /** The contract minted the front row by a transaction that is not recorded there. */
  predicate Lost(rows: seq<Row>, txs: Txs, supply: int, n: nat) {
    Ahead(rows, supply, n) && !FlightExecuted(rows, txs, n)
  }

  /** The contract is at the end of the completed rows, or one row ahead of them. */
  predicate SupplyInv(rows: seq<Row>, supply: int, n: nat) {
    n <= |rows| && (supply == EndAt(rows, n) || Ahead(rows, supply, n))
  }

  ghost predicate Lane(t: TransportType, rows: seq<Row>, sol: SolanaTable, txs: Txs, supply: int, n: nat) {
    && Chain(rows)
    && TableDistinct(rows)
    && Orderly(rows, sol, n)
    && RecordedInv(t, rows, sol, txs, n)
    && BuiltInv(t, rows, txs, n)
    && ExecutedInv(t, txs, supply)
    && SupplyInv(rows, supply, n)
  }

  // ---------- facts ----------

  lemma BuiltForBurn(t: TransportType, rows: seq<Row>, txs: Txs, n: nat, id: SolanaTxId, i: nat)
    requires TableDistinct(rows) && BuiltInv(t, rows, txs, n) && Of(txs, id, t)
    requires i < |rows| && rows[i].burn == txs[id].burn
    ensures BuiltFor(rows, i, txs[id]) && i <= n
  {
    var j :| 0 <= j <= n && j < |rows| && BuiltFor(rows, j, txs[id]);
    assert i == j;
  }

  /** The recorded front transaction, once executed, put the contract one row ahead. */
  lemma FlightExecutedIsAhead(t: TransportType, rows: seq<Row>, sol: SolanaTable, txs: Txs, supply: int, n: nat)
    requires Lane(t, rows, sol, txs, supply, n)
    requires FlightExecuted(rows, txs, n)
    ensures Ahead(rows, supply, n)
  {
    var id := rows[n].solanaId.value;
    BuiltForBurn(t, rows, txs, n, id, n);
    assert ExecutedOf(txs, id, t);
    assert Link(rows, n);
  }

  lemma FlightNames(t: TransportType, rows: seq<Row>, sol: SolanaTable, txs: Txs, supply: int, n: nat)
    requires Lane(t, rows, sol, txs, supply, n)
    requires Flight(rows, n).Some?
    ensures var id := Flight(rows, n).value;
            id in sol && !sol[id].confirmed && Of(txs, id, t) && BuiltFor(rows, n, txs[id])
  {
    BuiltForBurn(t, rows, txs, n, rows[n].solanaId.value, n);
  }

  // ---------- steps elsewhere ----------

  /** The lane does not see changes to transactions of other types. */
  lemma LaneFrame(t: TransportType, rows: seq<Row>, sol: SolanaTable, txs: Txs, supply: int, n: nat,
                  sol': SolanaTable, txs': Txs)
    requires Lane(t, rows, sol, txs, supply, n)
    requires forall id :: Of(txs, id, t) ==> id in txs' && txs'[id] == txs[id]
    requires forall id :: Of(txs', id, t) ==> Of(txs, id, t)
    requires forall id :: Of(txs, id, t) ==> (id in sol ==> id in sol' && sol'[id] == sol[id])
    ensures Lane(t, rows, sol', txs', supply, n)
    ensures DoneCount(rows, sol') == n
  {
    assert forall i :: 0 <= i < |rows| && rows[i].solanaId.Some? ==> Of(txs, rows[i].solanaId.value, t);
    assert forall i :: 0 <= i < |rows| ==> Completed(rows[i], sol') == Completed(rows[i], sol);
    DoneCountIs(rows, sol', n);
    assert RecordedInv(t, rows, sol', txs', n);
    SameTxs(t, rows, txs, supply, n, txs');
  }

  /** Transactions of the type are the same, or only changed outside what the lane says of them. */
  lemma SameTxs(t: TransportType, rows: seq<Row>, txs: Txs, supply: int, n: nat, txs': Txs)
    requires BuiltInv(t, rows, txs, n) && ExecutedInv(t, txs, supply)
    requires forall id :: Of(txs, id, t) ==> id in txs' && txs'[id] == txs[id]
    requires forall id :: Of(txs', id, t) ==> Of(txs, id, t)
    ensures BuiltInv(t, rows, txs', n) && ExecutedInv(t, txs', supply)
  {
    forall id | ExecutedOf(txs, id, t) || ExecutedOf(txs', id, t)
      ensures Of(txs, id, t) && id in txs' && txs'[id] == txs[id]
    {
      assert Of(txs, id, t) || Of(txs', id, t);
    }
    SameExecuted(t, txs, supply, txs');
  }

  lemma SameExecuted(t: TransportType, txs: Txs, supply: int, txs': Txs)
    requires ExecutedInv(t, txs, supply)
    requires forall id :: ExecutedOf(txs', id, t) <==> ExecutedOf(txs, id, t)
    requires forall id :: ExecutedOf(txs, id, t) ==> id in txs' && txs'[id] == txs[id]
    ensures ExecutedInv(t, txs', supply)
  {
    if supply != 0 {
      var id :| ExecutedOf(txs, id, t) && txs[id].supply + txs[id].amount == supply;
      assert ExecutedOf(txs', id, t);
    }
  }

  // ---------- ledger steps ----------

  /** New rows at the end of the chain, without Solana ids. */
  lemma LaneExtend(t: TransportType, rows: seq<Row>, sol: SolanaTable, txs: Txs, supply: int, n: nat,
                   rows': seq<Row>)
    requires Lane(t, rows, sol, txs, supply, n)
    requires rows <= rows' && Chain(rows') && TableDistinct(rows')
    requires forall i :: |rows| <= i < |rows'| ==> rows'[i].solanaId.None?
    ensures Lane(t, rows', sol, txs, supply, n)
    ensures Flight(rows', n) == Flight(rows, n)
    ensures DoneCount(rows', sol) == n
  {
    assert forall i :: 0 <= i <= |rows| ==> EndAt(rows', i) == EndAt(rows, i);
    assert Orderly(rows', sol, n);
    DoneCountIs(rows', sol, n);
    assert BuiltInv(t, rows', txs, n) by {
      forall id | Of(txs, id, t)
        ensures exists i :: 0 <= i <= n && i < |rows'| && BuiltFor(rows', i, txs[id])
      {
        var i :| 0 <= i <= n && i < |rows| && BuiltFor(rows, i, txs[id]);
        assert BuiltFor(rows', i, txs[id]);
      }
    }
    if n == |rows| && n < |rows'| {
      assert Link(rows', n);
      LaneSupplyEnd(t, rows, sol, txs, supply, n);
    }
  }

  lemma LaneSupplyEnd(t: TransportType, rows: seq<Row>, sol: SolanaTable, txs: Txs, supply: int, n: nat)
    requires Lane(t, rows, sol, txs, supply, n)
    ensures n == |rows| ==> supply == EndAt(rows, n)
  {
  }

  // ---------- environment steps ----------

  /** A pending transaction stops being pending without executing. */
  lemma LaneDrop(t: TransportType, rows: seq<Row>, sol: SolanaTable, txs: Txs, supply: int, n: nat,
                 id: SolanaTxId, status: TxStatus)
    requires Lane(t, rows, sol, txs, supply, n)
    requires Of(txs, id, t) && txs[id].status.Pending? && (status.Failed? || status.Gone?)
    ensures Lane(t, rows, sol, txs[id := txs[id].(status := status)], supply, n)
  {
    LaneRestatus(t, rows, sol, txs, supply, n, id, status);
  }

  /** A transaction changes status, staying outside the executed ones. */
  lemma LaneRestatus(t: TransportType, rows: seq<Row>, sol: SolanaTable, txs: Txs, supply: int, n: nat,
                     id: SolanaTxId, status: TxStatus)
    requires Lane(t, rows, sol, txs, supply, n)
    requires Of(txs, id, t) && !txs[id].status.Executed? && !status.Executed?
    ensures Lane(t, rows, sol, txs[id := txs[id].(status := status)], supply, n)
  {
    var txs' := txs[id := txs[id].(status := status)];
    assert forall x :: Of(txs', x, t) <==> Of(txs, x, t);
    assert forall x :: ExecutedOf(txs', x, t) <==> ExecutedOf(txs, x, t);
    assert RecordedInv(t, rows, sol, txs', n);
    RestatusKeepsBuilt(t, rows, txs, n, id, status);
    SameExecuted(t, txs, supply, txs');
  }

  lemma RestatusKeepsBuilt(t: TransportType, rows: seq<Row>, txs: Txs, n: nat, id: SolanaTxId, status: TxStatus)
    requires BuiltInv(t, rows, txs, n) && id in txs
    ensures BuiltInv(t, rows, txs[id := txs[id].(status := status)], n)
  {
    var txs' := txs[id := txs[id].(status := status)];
    forall x | Of(txs', x, t)
      ensures exists i :: 0 <= i <= n && i < |rows| && BuiltFor(rows, i, txs'[x])
    {
      assert Of(txs, x, t);
      var i :| 0 <= i <= n && i < |rows| && BuiltFor(rows, i, txs[x]);
      assert BuiltFor(rows, i, txs'[x]);
    }
  }

  /** A landing executes, however late, only when the contract is at the supply the transaction names; then it mints
      the front row, for the first time, and the mint is lost to the ledger exactly if another id is recorded
      there or none. */
  lemma LaneLand(t: TransportType, rows: seq<Row>, sol: SolanaTable, txs: Txs, supply: int, n: nat,
                 id: SolanaTxId)
    requires Lane(t, rows, sol, txs, supply, n)
    requires Of(txs, id, t) && txs[id].status.Pending? && supply == txs[id].supply
    ensures var txs' := txs[id := txs[id].(status := Executed)];
            && Lane(t, rows, sol, txs', supply + txs[id].amount, n)
            && (Lost(rows, txs', supply + txs[id].amount, n) <==> Flight(rows, n) != Some(id))
  {
    var txs' := txs[id := txs[id].(status := Executed)];
    var supply' := supply + txs[id].amount;
    LandsAtFront(t, rows, sol, txs, supply, n, id);
    RestatusKeepsBuilt(t, rows, txs, n, id, Executed);
    assert RecordedInv(t, rows, sol, txs', n);
    LandKeepsExecuted(t, rows, txs, supply, n, id);
    assert SupplyInv(rows, supply', n);
    FlightDiffers(t, rows, txs, supply, n, id);
  }

  /** A transaction that names the contract's supply is for the front row. */
  lemma LandsAtFront(t: TransportType, rows: seq<Row>, sol: SolanaTable, txs: Txs, supply: int, n: nat, id: SolanaTxId)
    requires Lane(t, rows, sol, txs, supply, n) && Of(txs, id, t) && supply == txs[id].supply
    ensures n < |rows| && BuiltFor(rows, n, txs[id]) && supply == EndAt(rows, n) < supply + txs[id].amount
  {
    var i :| 0 <= i <= n && i < |rows| && BuiltFor(rows, i, txs[id]);
    EndGrows(rows, i, n);
    EndGrows(rows, i, i + 1);
    if n < |rows| { EndGrows(rows, i, n + 1); }
  }

  lemma LandKeepsExecuted(t: TransportType, rows: seq<Row>, txs: Txs, supply: int, n: nat, id: SolanaTxId)
    requires TableDistinct(rows) && BuiltInv(t, rows, txs, n) && ExecutedInv(t, txs, supply)
    requires Of(txs, id, t) && supply == txs[id].supply && txs[id].amount > 0
    requires n < |rows| && BuiltFor(rows, n, txs[id])
    ensures ExecutedInv(t, txs[id := txs[id].(status := Executed)], supply + txs[id].amount)
  {
    var txs' := txs[id := txs[id].(status := Executed)];
    forall x | ExecutedOf(txs', x, t)
      ensures txs'[x].supply + txs'[x].amount <= supply + txs[id].amount
      ensures x != id ==> txs'[x].burn != txs[id].burn
    {
      if x != id {
        assert ExecutedOf(txs, x, t);
        if txs[x].burn == txs[id].burn {
          BuiltForBurn(t, rows, txs, n, x, n);
        }
      }
    }
    forall x, y | ExecutedOf(txs', x, t) && ExecutedOf(txs', y, t) && txs'[x].burn == txs'[y].burn
      ensures x == y
    {
      assert x != id ==> ExecutedOf(txs, x, t);
      assert y != id ==> ExecutedOf(txs, y, t);
    }
    assert ExecutedOf(txs', id, t);
  }

  lemma FlightDiffers(t: TransportType, rows: seq<Row>, txs: Txs, supply: int, n: nat, id: SolanaTxId)
    requires ExecutedInv(t, txs, supply) && BuiltInv(t, rows, txs, n) && TableDistinct(rows)
    requires Of(txs, id, t) && supply == txs[id].supply && txs[id].amount > 0 && n < |rows| && BuiltFor(rows, n, txs[id])
    requires Flight(rows, n).Some? ==> Of(txs, Flight(rows, n).value, t) && txs[Flight(rows, n).value].burn == rows[n].burn
    ensures FlightExecuted(rows, txs[id := txs[id].(status := Executed)], n) <==> Flight(rows, n) == Some(id)
  {
    if Flight(rows, n).Some? && Flight(rows, n).value != id {
      var f := Flight(rows, n).value;
      BuiltForBurn(t, rows, txs, n, f, n);
      assert !ExecutedOf(txs, f, t);
    }
  }

  // ---------- mint steps ----------

  lemma LaneBuild(t: TransportType, rows: seq<Row>, sol: SolanaTable, txs: Txs, supply: int, n: nat,
                  id: SolanaTxId, tx: MintTx, i: nat)
    requires Lane(t, rows, sol, txs, supply, n)
    requires id !in txs && tx.kind == t && tx.status.Unsent?
    requires i <= n && i < |rows| && BuiltFor(rows, i, tx)
    ensures Lane(t, rows, sol, txs[id := tx], supply, n)
  {
    var txs' := txs[id := tx];
    BuildKeepsBuilt(t, rows, txs, n, id, tx, i);
    assert forall x :: Of(txs, x, t) ==> Of(txs', x, t) && txs'[x] == txs[x];
    assert forall x :: ExecutedOf(txs', x, t) <==> ExecutedOf(txs, x, t);
    assert RecordedInv(t, rows, sol, txs', n);
    SameExecuted(t, txs, supply, txs');
  }

  lemma BuildKeepsBuilt(t: TransportType, rows: seq<Row>, txs: Txs, n: nat, id: SolanaTxId, tx: MintTx, i: nat)
    requires BuiltInv(t, rows, txs, n)
    requires i <= n && i < |rows| && BuiltFor(rows, i, tx)
    ensures BuiltInv(t, rows, txs[id := tx], n)
  {
    var txs' := txs[id := tx];
    forall x | Of(txs', x, t)
      ensures exists j :: 0 <= j <= n && j < |rows| && BuiltFor(rows, j, txs'[x])
    {
      if x == id {
        assert BuiltFor(rows, i, txs'[x]);
      } else {
        assert Of(txs, x, t);
        var j :| 0 <= j <= n && j < |rows| && BuiltFor(rows, j, txs[x]);
        assert BuiltFor(rows, j, txs'[x]);
      }
    }
  }

  /** Recording a new id at the front, whatever became of the old one: the mint is lost to the ledger exactly if the
      contract had minted the row already. */
  lemma LaneSave(t: TransportType, rows: seq<Row>, sol: SolanaTable, txs: Txs, supply: int, n: nat,
                 id: SolanaTxId, rows': seq<Row>, sol': SolanaTable)
    requires Lane(t, rows, sol, txs, supply, n)
    requires n < |rows| && Of(txs, id, t) && txs[id].status.Unsent? && txs[id].burn == rows[n].burn
    requires id !in sol && id in sol' && !sol'[id].confirmed && sol' == sol[id := sol'[id]]
    requires rows' == SetSolanaId(rows, rows[n].burn, Some(id))
    ensures Lane(t, rows', sol', txs, supply, n)
    ensures DoneCount(rows', sol') == n && Flight(rows', n) == Some(id)
    ensures Lost(rows', txs, supply, n) <==> Ahead(rows, supply, n)
  {
    SetSolanaIdKeepsChain(rows, rows[n].burn, Some(id));
    FrontChanges(t, rows, rows', n, txs);
    assert forall i :: 0 <= i < |rows| && i != n ==> rows'[i] == rows[i];
    assert Orderly(rows', sol', n);
    DoneCountIs(rows', sol', n);
    assert RecordedInv(t, rows', sol', txs, n);
  }

  /** Changing only the id of the front row keeps what does not speak of that id. */
  lemma FrontChanges(t: TransportType, rows: seq<Row>, rows': seq<Row>, n: nat, txs: Txs)
    requires |rows'| == |rows| && n < |rows|
    requires TableDistinct(rows) && BuiltInv(t, rows, txs, n)
    requires forall i :: 0 <= i < |rows| ==> rows'[i] == rows[i].(solanaId := rows'[i].solanaId)
    ensures TableDistinct(rows') && BuiltInv(t, rows', txs, n)
    ensures forall i :: 0 <= i <= |rows| ==> EndAt(rows', i) == EndAt(rows, i)
  {
    forall id | Of(txs, id, t)
      ensures exists i :: 0 <= i <= n && i < |rows'| && BuiltFor(rows', i, txs[id])
    {
      var i :| 0 <= i <= n && i < |rows| && BuiltFor(rows, i, txs[id]);
      assert BuiltFor(rows', i, txs[id]);
    }
  }

  /** Confirming the recorded front transaction moves the front by one row. */
  lemma LaneMark(t: TransportType, rows: seq<Row>, sol: SolanaTable, txs: Txs, supply: int, n: nat,
                 id: SolanaTxId, sol': SolanaTable)
    requires Lane(t, rows, sol, txs, supply, n)
    requires FlightExecuted(rows, txs, n) && Flight(rows, n) == Some(id)
    requires id in sol' && sol'[id].confirmed && sol' == sol[id := sol'[id]]
    ensures Lane(t, rows, sol', txs, supply, n + 1)
    ensures DoneCount(rows, sol') == n + 1
    ensures supply == EndAt(rows, n + 1) && Flight(rows, n + 1).None?
  {
    FlightExecutedIsAhead(t, rows, sol, txs, supply, n);
    assert forall i :: 0 <= i < |rows| && i != n && rows[i].solanaId == Some(id) ==> rows[i].burn == rows[n].burn;
    assert forall i :: 0 <= i < |rows| && i != n ==> rows[i].solanaId != Some(id);
    assert Orderly(rows, sol', n + 1);
    DoneCountIs(rows, sol', n + 1);
    assert RecordedInv(t, rows, sol', txs, n + 1);
    assert BuiltInv(t, rows, txs, n + 1);
    if n + 1 < |rows| {
      assert Link(rows, n + 1);
    }
  }

  /** Recovery forgets the recorded front transaction: the mint is lost exactly if the contract minted the row. */
  lemma LaneForget(t: TransportType, rows: seq<Row>, sol: SolanaTable, txs: Txs, supply: int, n: nat)
    requires Lane(t, rows, sol, txs, supply, n)
    requires Flight(rows, n).Some?
    ensures var rows' := SetSolanaId(rows, rows[n].burn, None);
            && Lane(t, rows', sol, txs, supply, n)
            && DoneCount(rows', sol) == n
            && Flight(rows', n).None?
            && (Lost(rows', txs, supply, n) <==> Ahead(rows, supply, n))
  {
    var rows' := SetSolanaId(rows, rows[n].burn, None);
    SetSolanaIdKeepsChain(rows, rows[n].burn, None);
    FrontChanges(t, rows, rows', n, txs);
    assert forall i :: 0 <= i < |rows| && i != n ==> rows'[i] == rows[i];
    assert Orderly(rows', sol, n);
    DoneCountIs(rows', sol, n);
    assert RecordedInv(t, rows', sol, txs, n);
  }

  /** Recording a new id over that of the last completed row takes the completion back, and leaves the
      contract one row ahead. */
  lemma LaneRewind(t: TransportType, rows: seq<Row>, sol: SolanaTable, txs: Txs, supply: int, n: nat, id: SolanaTxId,
                   rows': seq<Row>, sol': SolanaTable)
    requires Lane(t, rows, sol, txs, supply, n) && n > 0 && Flight(rows, n).None? && supply == EndAt(rows, n)
    requires BuiltInv(t, rows, txs, n - 1)
    requires Of(txs, id, t) && txs[id].status.Unsent? && txs[id].burn == rows[n - 1].burn
    requires id !in sol && id in sol' && !sol'[id].confirmed && sol' == sol[id := sol'[id]]
    requires rows' == SetSolanaId(rows, rows[n - 1].burn, Some(id))
    ensures Lane(t, rows', sol', txs, supply, n - 1)
    ensures DoneCount(rows', sol') == n - 1 && Flight(rows', n - 1) == Some(id)
  {
    hide BuiltInv, ExecutedInv, Orderly;
    SetSolanaIdKeepsChain(rows, rows[n - 1].burn, Some(id));
    FrontChanges(t, rows, rows', n - 1, txs);
    RewindOrder(rows, sol, n, id, rows', sol');
    RewindRecords(t, rows, sol, txs, n, id, rows', sol');
  }

  lemma RewindOrder(rows: seq<Row>, sol: SolanaTable, n: nat, id: SolanaTxId, rows': seq<Row>, sol': SolanaTable)
    requires TableDistinct(rows) && Orderly(rows, sol, n) && 0 < n && Flight(rows, n).None?
    requires id !in sol && id in sol' && !sol'[id].confirmed && sol' == sol[id := sol'[id]]
    requires rows' == SetSolanaId(rows, rows[n - 1].burn, Some(id))
    ensures Orderly(rows', sol', n - 1) && DoneCount(rows', sol') == n - 1 && Flight(rows', n - 1) == Some(id)
    ensures forall i :: 0 <= i < |rows| && i != n - 1 ==> rows'[i] == rows[i]
  {
    assert forall i :: 0 <= i < |rows| && i != n - 1 ==> rows'[i] == rows[i];
    DoneCountIs(rows', sol', n - 1);
  }

  lemma RewindRecords(t: TransportType, rows: seq<Row>, sol: SolanaTable, txs: Txs, n: nat, id: SolanaTxId,
                      rows': seq<Row>, sol': SolanaTable)
    requires RecordedInv(t, rows, sol, txs, n) && 0 < n <= |rows| && |rows'| == |rows|
    requires Of(txs, id, t) && txs[id].burn == rows[n - 1].burn
    requires id !in sol && id in sol' && sol' == sol[id := sol'[id]]
    requires rows'[n - 1] == rows[n - 1].(solanaId := Some(id))
    requires forall i :: 0 <= i < |rows| && i != n - 1 ==> rows'[i] == rows[i]
    ensures RecordedInv(t, rows', sol', txs, n - 1)
  {
  }
}
