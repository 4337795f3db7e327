/** The three transport tables and the queries over them (transporterdb/schema.sql and
    transporterdb/query.sql). A table is the sequence of its rows in insertion order; the
    queries do not depend on that order. */
module Tables {
  import opened Common

  datatype Row = Row(
    burn: BurnId,
    recipient: SolanaAddress,
    source: Option<UnlockHash>,     // only in premined_transports
    supplyAfter: int,
    supplyBefore: Option<int>,      // NULL at the root of the chain
    burnTime: Time,
    queueUp: Option<Time>,          // only in queue_transports
    solanaId: Option<SolanaTxId>)
  {
    /** supply_before as the driver reads it: NULL is 0. */
    function Before(): int {
      supplyBefore.GetOr(0)
    }

    function Amount(): int {
      supplyAfter - Before()
    }
  }

  datatype SolanaRow = SolanaRow(broadcastTime: Time, confirmationTime: Option<Time>, confirmed: bool)

  type SolanaTable = map<SolanaTxId, SolanaRow>

  /** The row joins a confirmed row of solana_transactions. */
  predicate Completed(r: Row, sol: SolanaTable) {
    r.solanaId.Some? && r.solanaId.value in sol && sol[r.solanaId.value].confirmed
  }

  // ---------- SELECT COALESCE(MAX(supply_after), 0) ----------

  /** The WHERE clauses under which the code takes a maximum. */
  datatype Filter = AnyRow | HasSolanaId | IsCompleted

  predicate Keeps(f: Filter, r: Row, sol: SolanaTable) {
    match f
    case AnyRow => true
    case HasSolanaId => r.solanaId.Some?
    case IsCompleted => Completed(r, sol)
  }

  function MaxAfter(rows: seq<Row>, f: Filter, sol: SolanaTable): Option<int> {
    if rows == [] then None
    else
      var last := rows[|rows| - 1];
      var rest := MaxAfter(rows[..|rows| - 1], f, sol);
      if Keeps(f, last, sol) && (rest.None? || last.supplyAfter > rest.value) then Some(last.supplyAfter)
      else rest
  }

  function SelectMax(rows: seq<Row>, f: Filter, sol: SolanaTable): int {
    MaxAfter(rows, f, sol).GetOr(0)
  }

  // ---------- the supply chain ----------

  /** Supply reached by the first `i` rows. */
  function EndAt(rows: seq<Row>, i: nat): int
    requires i <= |rows|
  {
    if i == 0 then 0 else rows[i - 1].supplyAfter
  }

  function End(rows: seq<Row>): int {
    EndAt(rows, |rows|)
  }

  predicate Link(rows: seq<Row>, i: nat)
    requires i < |rows|
  {
    && rows[i].supplyBefore == (if i == 0 then None else Some(rows[i - 1].supplyAfter))
    && EndAt(rows, i) < rows[i].supplyAfter <= MAX_INT64
  }

  /** Sorted by supply_after, the table starts at 0 and links without gaps. */
  predicate Chain(rows: seq<Row>) {
    forall i :: 0 <= i < |rows| ==> Link(rows, i)
  }

  lemma {:induction false} EndGrows(rows: seq<Row>, i: nat, j: nat)
    requires Chain(rows) && i <= j <= |rows|
    ensures 0 <= EndAt(rows, i) <= EndAt(rows, j) <= MAX_INT64
    ensures i < j ==> EndAt(rows, i) < EndAt(rows, j)
    decreases j
  {
    if j > 0 {
      assert Link(rows, j - 1);
      EndGrows(rows, if i < j then i else j - 1, j - 1);
    }
  }

  lemma ChainBefore(rows: seq<Row>, i: nat)
    requires Chain(rows) && i < |rows|
    ensures rows[i].Before() == EndAt(rows, i)
    ensures rows[i].supplyAfter == EndAt(rows, i + 1)
    ensures 0 < rows[i].Amount() <= MAX_INT64
  {
    assert Link(rows, i);
    EndGrows(rows, 0, i);
  }

  lemma ChainExtend(rows: seq<Row>, r: Row)
    requires Chain(rows)
    requires r.supplyBefore == (if rows == [] then None else Some(End(rows)))
    requires End(rows) < r.supplyAfter <= MAX_INT64
    ensures Chain(rows + [r])
    ensures End(rows + [r]) == r.supplyAfter
    ensures forall i :: 0 <= i <= |rows| ==> EndAt(rows + [r], i) == EndAt(rows, i)
  {
    var rows' := rows + [r];
    forall i | 0 <= i < |rows'|
      ensures Link(rows', i)
    {
      if i < |rows| {
        assert Link(rows, i);
      }
    }
  }

  // ---------- order of completion ----------

  /** Number of leading completed rows. */
  function DoneCount(rows: seq<Row>, sol: SolanaTable): (n: nat)
    ensures n <= |rows|
  {
    if rows == [] || !Completed(rows[0], sol) then 0 else 1 + DoneCount(rows[1..], sol)
  }

  /** The first `n` rows are completed, row `n` is not, and later rows have no Solana id. */
  predicate Orderly(rows: seq<Row>, sol: SolanaTable, n: nat) {
    && n <= |rows|
    && (forall i :: 0 <= i < n ==> Completed(rows[i], sol))
    && (n < |rows| ==> !Completed(rows[n], sol))
    && (forall i :: n < i < |rows| ==> rows[i].solanaId.None?)
  }

  lemma {:induction false} DoneCountIs(rows: seq<Row>, sol: SolanaTable, n: nat)
    requires n <= |rows|
    requires forall i :: 0 <= i < n ==> Completed(rows[i], sol)
    requires n < |rows| ==> !Completed(rows[n], sol)
    ensures DoneCount(rows, sol) == n
  {
    if n > 0 {
      assert forall i :: 0 <= i < n - 1 ==> rows[1..][i] == rows[i + 1];
      DoneCountIs(rows[1..], sol, n - 1);
    }
  }

  /** Orderly says exactly that every row with a Solana id has only completed rows before it:
      the completed rows are a prefix, and at most one row carries an unconfirmed id. */
  lemma OrderlyMeaning(rows: seq<Row>, sol: SolanaTable)
    ensures Orderly(rows, sol, DoneCount(rows, sol))
            <==> forall i, j :: 0 <= i < j < |rows| && rows[j].solanaId.Some? ==> Completed(rows[i], sol)
  {
    var n := DoneCount(rows, sol);
    DoneCountBounds(rows, sol);
    if forall i, j :: 0 <= i < j < |rows| && rows[j].solanaId.Some? ==> Completed(rows[i], sol) {
      forall j | n < j < |rows|
        ensures rows[j].solanaId.None?
      {
        assert !Completed(rows[n], sol);
      }
    }
  }

  lemma {:induction false} DoneCountBounds(rows: seq<Row>, sol: SolanaTable)
    ensures var n := DoneCount(rows, sol);
            && (forall i :: 0 <= i < n ==> Completed(rows[i], sol))
            && (n < |rows| ==> !Completed(rows[n], sol))
  {
    if rows != [] && Completed(rows[0], sol) {
      var rest := rows[1..];
      DoneCountBounds(rest, sol);
      var n := DoneCount(rows, sol);
      forall i | 0 <= i < n
        ensures Completed(rows[i], sol)
      {
        assert i > 0 ==> rows[i] == rest[i - 1];
      }
      assert n < |rows| ==> rows[n] == rest[n - 1];
    }
  }

  // ---------- maxima are chain positions ----------

  lemma {:induction false} MaxOfPrefix(rows: seq<Row>, f: Filter, sol: SolanaTable, n: nat, k: nat)
    requires Chain(rows) && n <= |rows| && k <= |rows|
    requires forall i :: 0 <= i < |rows| ==> (Keeps(f, rows[i], sol) <==> i < n)
    ensures MaxAfter(rows[..k], f, sol)
            == if n == 0 || k == 0 then None else Some(EndAt(rows, if k <= n then k else n))
  {
    if k > 0 {
      assert rows[..k][..k - 1] == rows[..k - 1];
      MaxOfPrefix(rows, f, sol, n, k - 1);
      if 1 < k <= n {
        EndGrows(rows, k - 1, k);
      }
    }
  }

  lemma MaxIsEnd(rows: seq<Row>, sol: SolanaTable)
    requires Chain(rows)
    ensures SelectMax(rows, AnyRow, sol) == End(rows)
  {
    MaxOfPrefix(rows, AnyRow, sol, |rows|, |rows|);
    assert rows[..|rows|] == rows;
  }

  lemma MaxCompletedIsEnd(rows: seq<Row>, sol: SolanaTable, n: nat)
    requires Chain(rows) && Orderly(rows, sol, n)
    ensures SelectMax(rows, IsCompleted, sol) == EndAt(rows, n)
  {
    MaxOfPrefix(rows, IsCompleted, sol, n, |rows|);
    assert rows[..|rows|] == rows;
  }

  /** The maximum over rows with a Solana id stops at the row in flight, if there is one;
      so it agrees with the maximum over completed rows exactly when nothing is in flight. */
  lemma MaxRecordedIsEnd(rows: seq<Row>, sol: SolanaTable, n: nat)
    requires Chain(rows) && Orderly(rows, sol, n)
    ensures var inFlight := n < |rows| && rows[n].solanaId.Some?;
            && SelectMax(rows, HasSolanaId, sol) == EndAt(rows, if inFlight then n + 1 else n)
            && (SelectMax(rows, HasSolanaId, sol) == SelectMax(rows, IsCompleted, sol) <==> !inFlight)
  {
    var m := if n < |rows| && rows[n].solanaId.Some? then n + 1 else n;
    MaxOfPrefix(rows, HasSolanaId, sol, m, |rows|);
    assert rows[..|rows|] == rows;
    MaxCompletedIsEnd(rows, sol, n);
    EndGrows(rows, n, m);
  }

  // ---------- rows in flight ----------

  /** The Solana id at the front of the chain, where the first uncompleted row is. */
  function Flight(rows: seq<Row>, n: nat): Option<SolanaTxId> {
    if n < |rows| then rows[n].solanaId else None
  }

  /** SELECT ... INNER JOIN solana_transactions ... WHERE confirmed = FALSE. */
  function SelectInFlight(rows: seq<Row>, sol: SolanaTable): seq<Row> {
    if rows == [] then []
    else
      var last := rows[|rows| - 1];
      SelectInFlight(rows[..|rows| - 1], sol) +
      (if last.solanaId.Some? && last.solanaId.value in sol && !sol[last.solanaId.value].confirmed then [last] else [])
  }

  lemma {:induction false} InFlightIsFront(rows: seq<Row>, sol: SolanaTable, n: nat, k: nat)
    requires Orderly(rows, sol, n) && k <= |rows|
    requires forall r :: r in rows && r.solanaId.Some? ==> r.solanaId.value in sol
    ensures SelectInFlight(rows[..k], sol) == if n < k && Flight(rows, n).Some? then [rows[n]] else []
  {
    if k > 0 {
      assert rows[..k][..k - 1] == rows[..k - 1];
      InFlightIsFront(rows, sol, n, k - 1);
      assert rows[k - 1] in rows;
    }
  }

  // ---------- sums over rows ----------

  /** Amounts of the rows that are not completed yet, added one by one. */
  function Outstanding(rows: seq<Row>, sol: SolanaTable): int {
    if rows == [] then 0
    else
      var last := rows[|rows| - 1];
      Outstanding(rows[..|rows| - 1], sol) + (if Completed(last, sol) then 0 else last.Amount())
  }

  lemma {:induction false} OutstandingTelescopes(rows: seq<Row>, sol: SolanaTable, n: nat, k: nat)
    requires Chain(rows) && Orderly(rows, sol, n) && k <= |rows|
    ensures Outstanding(rows[..k], sol) == EndAt(rows, k) - EndAt(rows, if k <= n then k else n)
  {
    if k > 0 {
      assert rows[..k][..k - 1] == rows[..k - 1];
      OutstandingTelescopes(rows, sol, n, k - 1);
      ChainBefore(rows, k - 1);
    }
  }

  lemma OutstandingIs(rows: seq<Row>, sol: SolanaTable, n: nat)
    requires Chain(rows) && Orderly(rows, sol, n)
    ensures Outstanding(rows, sol) == End(rows) - EndAt(rows, n)
  {
    OutstandingTelescopes(rows, sol, n, |rows|);
    assert rows[..|rows|] == rows;
  }

  /** Amounts transported from one premined address. */
  function SumFrom(rows: seq<Row>, source: UnlockHash): int {
    if rows == [] then 0
    else
      var last := rows[|rows| - 1];
      SumFrom(rows[..|rows| - 1], source) + (if last.source == Some(source) then last.Amount() else 0)
  }

  lemma SumFromAppend(rows: seq<Row>, r: Row, source: UnlockHash)
    ensures SumFrom(rows + [r], source) == SumFrom(rows, source) + (if r.source == Some(source) then r.Amount() else 0)
  {
    assert (rows + [r])[..|rows|] == rows;
  }

  // ---------- burn ids of a table ----------

  function RowBurns(rows: seq<Row>): set<BurnId> {
    set r | r in rows :: r.burn
  }

  predicate TableDistinct(rows: seq<Row>) {
    forall i, j :: 0 <= i < j < |rows| ==> rows[i].burn != rows[j].burn
  }

  lemma RowBurnsAppend(rows: seq<Row>, r: Row)
    ensures RowBurns(rows + [r]) == RowBurns(rows) + {r.burn}
  {
    forall b | b in RowBurns(rows) + {r.burn}
      ensures b in RowBurns(rows + [r])
    {
      if b == r.burn {
        assert r in rows + [r];
      } else {
        var q :| q in rows && q.burn == b;
        assert q in rows + [r];
      }
    }
  }

  // ---------- INSERT and UPDATE ----------

  /** PRIMARY KEY, UNIQUE, REFERENCES and CHECK constraints of a transport table. */
  predicate InsertAllowed(rows: seq<Row>, r: Row) {
    && r.burn !in RowBurns(rows)
    && (forall q :: q in rows ==> q.supplyAfter != r.supplyAfter)
    && (r.supplyBefore.Some? ==>
          && (forall q :: q in rows ==> q.supplyBefore != r.supplyBefore)
          && (exists q :: q in rows && Some(q.supplyAfter) == r.supplyBefore)
          && r.supplyBefore.value < r.supplyAfter)
  }

  /** After the end of a chain, the constraints reduce to the CHECK that supply grows. */
  lemma InsertAtEnd(rows: seq<Row>, r: Row)
    requires Chain(rows)
    requires r.burn !in RowBurns(rows)
    requires r.supplyBefore == (if rows == [] then None else Some(End(rows)))
    ensures InsertAllowed(rows, r) <==> rows == [] || End(rows) < r.supplyAfter
  {
    if rows != [] {
      assert rows[|rows| - 1] in rows;
      forall q | q in rows
        ensures q.supplyAfter <= End(rows) && q.supplyBefore != r.supplyBefore
      {
        var i :| 0 <= i < |rows| && rows[i] == q;
        assert Link(rows, i);
        EndGrows(rows, i + 1, |rows|);
      }
    }
  }

  /** UPDATE ... SET solana_id = sid WHERE burn_id = burn. */
  function SetSolanaId(rows: seq<Row>, burn: BurnId, sid: Option<SolanaTxId>): (rows': seq<Row>)
    ensures |rows'| == |rows|
    ensures forall i :: 0 <= i < |rows| ==>
              rows'[i] == if rows[i].burn == burn then rows[i].(solanaId := sid) else rows[i]
  {
    seq(|rows|, i requires 0 <= i < |rows| => if rows[i].burn == burn then rows[i].(solanaId := sid) else rows[i])
  }

  lemma SetSolanaIdKeepsChain(rows: seq<Row>, burn: BurnId, sid: Option<SolanaTxId>)
    requires Chain(rows)
    ensures var rows' := SetSolanaId(rows, burn, sid);
            && Chain(rows')
            && (forall i :: 0 <= i <= |rows| ==> EndAt(rows', i) == EndAt(rows, i))
  {
    var rows' := SetSolanaId(rows, burn, sid);
    forall i | 0 <= i < |rows'|
      ensures Link(rows', i)
    {
      assert Link(rows, i);
    }
  }

  // ---------- SELECT ... WHERE solana_id IS NULL ORDER BY supply_after ----------

  predicate Wanted(r: Row, bound: Option<int>) {
    r.solanaId.None? && (bound.Some? ==> r.supplyAfter < bound.value)
  }

  function Unrecorded(rows: seq<Row>, bound: Option<int>): seq<Row> {
    if rows == [] then []
    else Unrecorded(rows[..|rows| - 1], bound) + (if Wanted(rows[|rows| - 1], bound) then [rows[|rows| - 1]] else [])
  }

  function InsertSorted(rows: seq<Row>, r: Row): seq<Row> {
    if rows == [] || rows[|rows| - 1].supplyAfter <= r.supplyAfter then rows + [r]
    else InsertSorted(rows[..|rows| - 1], r) + [rows[|rows| - 1]]
  }

  function OrderByAfter(rows: seq<Row>): seq<Row> {
    if rows == [] then [] else InsertSorted(OrderByAfter(rows[..|rows| - 1]), rows[|rows| - 1])
  }

  function SelectUncompleted(rows: seq<Row>, bound: Option<int>): seq<Row> {
    OrderByAfter(Unrecorded(rows, bound))
  }

  predicate Ascending(rows: seq<Row>) {
    forall i, j :: 0 <= i < j < |rows| ==> rows[i].supplyAfter <= rows[j].supplyAfter
  }

  lemma {:induction false} InsertSortedPermutes(rows: seq<Row>, r: Row)
    ensures multiset(InsertSorted(rows, r)) == multiset(rows) + multiset{r}
  {
    if rows != [] && rows[|rows| - 1].supplyAfter > r.supplyAfter {
      var init := rows[..|rows| - 1];
      InsertSortedPermutes(init, r);
      assert rows == init + [rows[|rows| - 1]];
    }
  }

  lemma {:induction false} InsertSortedSorts(rows: seq<Row>, r: Row)
    requires Ascending(rows)
    ensures Ascending(InsertSorted(rows, r))
    ensures forall q :: q in InsertSorted(rows, r) ==> q == r || q in rows
  {
    if rows != [] && rows[|rows| - 1].supplyAfter > r.supplyAfter {
      InsertSortedSorts(rows[..|rows| - 1], r);
      var out := InsertSorted(rows[..|rows| - 1], r);
      var last := rows[|rows| - 1];
      forall i | 0 <= i < |out|
        ensures out[i].supplyAfter <= last.supplyAfter
      {
        assert out[i] in out;
      }
    }
  }

  lemma {:induction false} OrderByAfterPermutes(rows: seq<Row>)
    ensures multiset(OrderByAfter(rows)) == multiset(rows)
  {
    if rows != [] {
      var init, last := rows[..|rows| - 1], rows[|rows| - 1];
      OrderByAfterPermutes(init);
      InsertSortedPermutes(OrderByAfter(init), last);
      assert rows == init + [last];
    }
  }

  lemma {:induction false} OrderByAfterAscends(rows: seq<Row>)
    ensures Ascending(OrderByAfter(rows))
  {
    hide Ascending, InsertSorted;
    if rows != [] {
      var init, last := rows[..|rows| - 1], rows[|rows| - 1];
      OrderByAfterAscends(init);
      InsertSortedSorts(OrderByAfter(init), last);
    } else {
      NoneAscend();
    }
  }

  lemma NoneAscend()
    ensures Ascending([])
  {
  }

  /** ORDER BY permutes the rows into ascending supply_after. */
  lemma OrderByAfterSorts(rows: seq<Row>)
    ensures multiset(OrderByAfter(rows)) == multiset(rows)
    ensures Ascending(OrderByAfter(rows))
  {
    OrderByAfterPermutes(rows);
    OrderByAfterAscends(rows);
  }

  lemma InsertAtTail(init: seq<Row>, last: Row)
    requires Ascending(init + [last])
    ensures InsertSorted(init, last) == init + [last]
  {
    var rows := init + [last];
    assert init != [] ==> rows[|init| - 1].supplyAfter <= rows[|init|].supplyAfter;
  }

  lemma {:induction false} OrderByAfterSorted(rows: seq<Row>)
    requires Ascending(rows)
    ensures OrderByAfter(rows) == rows
  {
    if rows != [] {
      var init, last := rows[..|rows| - 1], rows[|rows| - 1];
      assert Ascending(init);
      OrderByAfterSorted(init);
      assert rows == init + [last];
      InsertAtTail(init, last);
    }
  }

  /** Number of leading rows below the bound. */
  function Below(rows: seq<Row>, n: nat, bound: Option<int>): (m: nat)
    requires n <= |rows|
    ensures n <= m <= |rows|
    ensures forall i :: n <= i < m ==> bound.Some? ==> rows[i].supplyAfter < bound.value
    ensures m < |rows| ==> bound.Some? && rows[m].supplyAfter >= bound.value
    decreases |rows| - n
  {
    if n < |rows| && (bound.Some? ==> rows[n].supplyAfter < bound.value) then Below(rows, n + 1, bound) else n
  }

  lemma {:induction false} UnrecordedIsSegment(rows: seq<Row>, bound: Option<int>, n: nat, m: nat)
    requires n <= m <= |rows|
    requires forall i :: 0 <= i < |rows| ==> (Wanted(rows[i], bound) <==> n <= i < m)
    ensures Unrecorded(rows, bound) == rows[n..m]
  {
    if rows != [] {
      var k := |rows| - 1;
      var init := rows[..k];
      assert Wanted(rows[k], bound) <==> m == |rows| && n < m;
      if m == |rows| && n < m {
        UnrecordedIsSegment(init, bound, n, k);
        assert init[n..k] == rows[n..k];
        assert rows[n..m] == rows[n..k] + [rows[k]];
      } else if m <= k {
        UnrecordedIsSegment(init, bound, n, m);
        assert init[n..m] == rows[n..m];
      } else {
        UnrecordedIsSegment(init, bound, k, k);
      }
    }
  }

  lemma SegmentAscends(rows: seq<Row>, n: nat, m: nat)
    requires Chain(rows) && n <= m <= |rows|
    ensures Ascending(rows[n..m])
  {
    forall i, j | 0 <= i < j < m - n
      ensures rows[n..m][i].supplyAfter <= rows[n..m][j].supplyAfter
    {
      EndGrows(rows, n + i + 1, n + j + 1);
    }
  }

  /** With nothing in flight, the uncompleted rows below the bound are exactly the next rows
      of the chain, in chain order, up to the first row at or above the bound. */
  lemma UncompletedIsSegment(rows: seq<Row>, sol: SolanaTable, n: nat, bound: Option<int>)
    requires Chain(rows) && Orderly(rows, sol, n)
    requires n < |rows| ==> rows[n].solanaId.None?
    ensures SelectUncompleted(rows, bound) == rows[n..Below(rows, n, bound)]
  {
    var m := Below(rows, n, bound);
    forall i | 0 <= i < |rows|
      ensures Wanted(rows[i], bound) <==> n <= i < m
    {
      if m <= i {
        EndGrows(rows, m + 1, i + 1);
      }
    }
    UnrecordedIsSegment(rows, bound, n, m);
    SegmentAscends(rows, n, m);
    OrderByAfterSorted(rows[n..m]);
  }
}
