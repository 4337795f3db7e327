/** The size of the queue when reads were repeated: the storage computes it from two maxima, which is right exactly
    while completed rows come first, and a completion that is taken back may leave the queue above its limit. */
module RetriedQueue {
  import opened Common
  import opened Tables
  import opened Ledger
  import opened StorageSpec
  import opened LoopSpec
  import opened MintProtocol
  import opened MintSafety
  import opened RetriedReads
  import opened RetriedOrder
  import opened RetriedRuns
  import opened ServerRefinement
  import WitnessRuns
  import MintTheorems

  // ---------- the difference of two maxima ----------

  /** Number of rows up to the last completed one. */
  function Reached(rows: seq<Row>, sol: SolanaTable): (m: nat)
    ensures m <= |rows|
  {
    if rows == [] then 0
    else if Tables.Completed(rows[|rows| - 1], sol) then |rows|
    else Reached(rows[..|rows| - 1], sol)
  }

  lemma {:induction false} MaxIsReached(rows: seq<Row>, sol: SolanaTable, k: nat)
    requires Chain(rows) && k <= |rows|
    ensures var m := Reached(rows[..k], sol);
            MaxAfter(rows[..k], IsCompleted, sol) == if m == 0 then None else Some(EndAt(rows, m))
  {
    if k > 0 {
      assert rows[..k][..k - 1] == rows[..k - 1];
      MaxIsReached(rows, sol, k - 1);
      EndGrows(rows, Reached(rows[..k - 1], sol), k);
    }
  }

  lemma {:induction false} OutstandingPositive(rows: seq<Row>, sol: SolanaTable, k: nat)
    requires Chain(rows) && k <= |rows|
    ensures Outstanding(rows[..k], sol) >= 0
    ensures Outstanding(rows[..k], sol) == 0 <==> forall i :: 0 <= i < k ==> Tables.Completed(rows[i], sol)
  {
    if k > 0 {
      assert rows[..k][..k - 1] == rows[..k - 1];
      OutstandingPositive(rows, sol, k - 1);
      assert Link(rows, k - 1);
    }
  }

  /** What is outstanding is at least what lies behind the last completed row, and no more exactly if completed
      rows come first. */
  lemma {:induction false} OutstandingReached(rows: seq<Row>, sol: SolanaTable, k: nat)
    requires Chain(rows) && k <= |rows|
    ensures var beyond := EndAt(rows, k) - EndAt(rows, Reached(rows[..k], sol));
            && Outstanding(rows[..k], sol) >= beyond
            && (Outstanding(rows[..k], sol) == beyond <==> DoneFirst(rows[..k], sol))
  {
    if k > 0 {
      assert rows[..k][..k - 1] == rows[..k - 1];
      OutstandingReached(rows, sol, k - 1);
      assert Link(rows, k - 1);
      DoneFirstShorter(rows, sol, k);
      if Tables.Completed(rows[k - 1], sol) {
        OutstandingPositive(rows, sol, k - 1);
      }
    }
  }

  lemma DoneFirstShorter(rows: seq<Row>, sol: SolanaTable, k: nat)
    requires 0 < k <= |rows|
    ensures !Tables.Completed(rows[k - 1], sol) ==> (DoneFirst(rows[..k], sol) <==> DoneFirst(rows[..k - 1], sol))
    ensures Tables.Completed(rows[k - 1], sol) ==>
              (DoneFirst(rows[..k], sol) <==> forall i :: 0 <= i < k - 1 ==> Tables.Completed(rows[i], sol))
  {
    assert forall i :: 0 <= i < k - 1 ==> rows[..k - 1][i] == rows[..k][i] == rows[i];
    assert rows[..k][k - 1] == rows[k - 1];
  }

  /** The storage never takes the queue for larger than it is, and has its size exactly if completed rows come first. */
  lemma FastQueueSizeIff(db: Database)
    requires Chain(db.queue)
    ensures FastQueueSize(db) <= QueueSize(db)
    ensures FastQueueSize(db) == QueueSize(db) <==> DoneFirst(db.queue, db.solana)
  {
    var rows := db.queue;
    MaxIsEnd(rows, db.solana);
    MaxIsReached(rows, db.solana, |rows|);
    OutstandingReached(rows, db.solana, |rows|);
    assert rows[..|rows|] == rows;
  }

  /** In every state of every run, with reads repeated at will. */
  lemma EveryQueueSize(states: seq<State>, events: seq<Event>, queueSizeLimit: nat, i: nat)
    requires EventRun(states, events, queueSizeLimit) && i < |states|
    ensures var db := states[i].db;
            && FastQueueSize(db) <= QueueSize(db)
            && (FastQueueSize(db) == QueueSize(db) <==> DoneFirst(db.queue, db.solana))
  {
    hide Base;
    EventRunSafe(states, events, queueSizeLimit, i);
    RowsAreChain(states[i].db, Regular);
    FastQueueSizeIff(states[i].db);
  }

  // ---------- a completion that is taken back ----------

  lemma {:induction false} OutstandingReopened(rows: seq<Row>, sol: SolanaTable, rows': seq<Row>, sol': SolanaTable, i: nat,
                                               k: nat)
    requires i < |rows| == |rows'| && k <= |rows|
    requires Tables.Completed(rows[i], sol) && !Tables.Completed(rows'[i], sol') && rows'[i].Amount() == rows[i].Amount()
    requires forall j :: 0 <= j < |rows| && j != i ==>
               rows'[j] == rows[j] && (Tables.Completed(rows'[j], sol') <==> Tables.Completed(rows[j], sol))
    ensures Outstanding(rows'[..k], sol') == Outstanding(rows[..k], sol) + (if i < k then rows[i].Amount() else 0)
  {
    if k > 0 {
      assert rows[..k][..k - 1] == rows[..k - 1] && rows'[..k][..k - 1] == rows'[..k - 1];
      OutstandingReopened(rows, sol, rows', sol', i, k - 1);
    }
  }

  /** A new id over a completed row of the queue makes the queue larger by its amount. */
  lemma OverwritingGrows(db: Database, queueSizeLimit: nat, t: TransportType, i: nat, id: SolanaTxId, time: Time)
    requires Ledger.Inv(db, queueSizeLimit) && i < db.Done(t) && id !in db.solana
    ensures var row := db.Table(t)[i];
            QueueSize(WithRecorded(db, row.burn, t, id, time)) == QueueSize(db) + if t.Regular? then row.Amount() else 0
  {
    hide Ledger.Inv, Orderly, TableDistinct, WithRecorded;
    OthersStay(db, queueSizeLimit, t, db.Table(t)[i].burn, id, time);
    if t.Regular? {
      QueueGrows(db, queueSizeLimit, i, id, time);
    }
  }

  lemma QueueGrows(db: Database, queueSizeLimit: nat, i: nat, id: SolanaTxId, time: Time)
    requires Ledger.Inv(db, queueSizeLimit) && i < db.Done(Regular) && id !in db.solana
    ensures var row, db' := db.queue[i], WithRecorded(db, db.queue[i].burn, Regular, id, time);
            Outstanding(db'.queue, db'.solana) == Outstanding(db.queue, db.solana) + row.Amount()
  {
    hide Ledger.Inv, Orderly, TableDistinct;
    var rows, burn := db.queue, db.queue[i].burn;
    var db' := WithRecorded(db, burn, Regular, id, time);
    assert db.Table(Regular) == rows && db'.queue == SetSolanaId(rows, burn, Some(id));
    SolanaTableIs(db, queueSizeLimit, Regular);
    RecordedOver(rows, db.solana, db.Done(Regular), i, id, time);
    DoneCountBounds(rows, db.solana);
    OutstandingReopened(rows, db.solana, db'.queue, db'.solana, i, |rows|);
    assert rows[..|rows|] == rows && db'.queue[..|rows|] == db'.queue;
  }

  /** Another table's rows are as outstanding as before. */
  lemma OthersStay(db: Database, queueSizeLimit: nat, t: TransportType, burn: BurnId, id: SolanaTxId, time: Time)
    requires Ledger.Inv(db, queueSizeLimit) && id !in db.solana
    ensures var db' := WithRecorded(db, burn, t, id, time);
            && db'.unconfirmed == db.unconfirmed
            && (!t.Regular? ==> db'.queue == db.queue && Outstanding(db'.queue, db'.solana) == Outstanding(db.queue, db.solana))
  {
    hide Ledger.Inv, Orderly, TableDistinct;
    SolanaTableIs(db, queueSizeLimit, Regular);
    assert db.queue == db.Table(Regular);
    var db' := WithRecorded(db, burn, t, id, time);
    if !t.Regular? {
      SameOutstanding(db.queue, db.solana, db'.solana);
    }
  }

  lemma {:induction false} SameOutstanding(rows: seq<Row>, sol: SolanaTable, sol': SolanaTable)
    requires forall r :: r in rows && r.solanaId.Some? ==>
               r.solanaId.value in sol && r.solanaId.value in sol' && sol'[r.solanaId.value] == sol[r.solanaId.value]
    ensures Outstanding(rows, sol') == Outstanding(rows, sol)
  {
    if rows != [] {
      assert rows[|rows| - 1] in rows;
      SameOutstanding(rows[..|rows| - 1], sol, sol');
    }
  }

  // ---------- after a read with failed commits ----------

  /** Whatever steps follow, the storage computes the size of the queue. */
  ghost predicate SizesAgree(s: State, queueSizeLimit: nat) {
    forall steps :: CanRun(s, steps, queueSizeLimit) ==>
      var db := After(s, steps, queueSizeLimit).db; FastQueueSize(db) == QueueSize(db)
  }

  /** Whatever steps follow, the queue stays within its limit. */
  ghost predicate LimitIsKept(s: State, queueSizeLimit: nat) {
    forall steps :: CanRun(s, steps, queueSizeLimit) ==> QueueSize(After(s, steps, queueSizeLimit).db) <= queueSizeLimit
  }

  lemma {:induction false} PathKeepsLedger(s: State, steps: seq<Step>, queueSizeLimit: nat)
    requires Base(s.db) && CanRun(s, steps, queueSizeLimit)
    ensures Base(After(s, steps, queueSizeLimit).db)
    decreases |steps|
  {
    hide Base, Enabled, Apply, RowsKept;
    if steps != [] {
      StepKeepsLedger(s, steps[0], queueSizeLimit);
      PathKeepsLedger(Apply(s, steps[0], queueSizeLimit), steps[1..], queueSizeLimit);
    }
  }

  lemma InOrderDoneFirst(db: Database)
    requires InOrder(db)
    ensures DoneFirst(db.queue, db.solana)
  {
    assert db.queue == db.Table(Regular);
    assert Orderly(db.Table(Regular), db.solana, db.Done(Regular));
  }

  lemma StateLedger(s: State, queueSizeLimit: nat)
    requires MintSafety.Inv(s, queueSizeLimit)
    ensures Ledger.Inv(s.db, queueSizeLimit) && Base(s.db)
  {
  }

  /** After a read with `n` failed commits the storage keeps computing the size of the queue if no commit failed, or there
      was at most one request to read, or the second copy is never reached; for the read of the queue, only then. */
  lemma SizesAgreeIff(s: State, t: TransportType, n: nat, queueSizeLimit: nat)
    requires MintSafety.Inv(s, queueSizeLimit) && Reading(s, t)
    ensures n == 0 || |Uncompleted(s, t)| <= 1 || Blocks(s, t) ==> SizesAgree(Reread(s, t, n), queueSizeLimit)
    ensures t.Regular? ==>
              (SizesAgree(Reread(s, t, n), queueSizeLimit) <==> n == 0 || |Uncompleted(s, t)| <= 1 || Blocks(s, t))
  {
    hide MintSafety.Inv, Ledger.Inv, Base, Uncompleted, Blocks, InOrder, CanRun, After, Repeat, FastQueueSize, QueueSize;
    var s' := Reread(s, t, n);
    StateLedger(s, queueSizeLimit);
    OrderIsKeptIff(s, t, n, queueSizeLimit);
    if n == 0 || |Uncompleted(s, t)| <= 1 || Blocks(s, t) {
      forall steps | CanRun(s', steps, queueSizeLimit)
        ensures var db := After(s', steps, queueSizeLimit).db; FastQueueSize(db) == QueueSize(db)
      {
        var db := After(s', steps, queueSizeLimit).db;
        PathKeepsLedger(s', steps, queueSizeLimit);
        InOrderDoneFirst(db);
        RowsAreChain(db, Regular);
        FastQueueSizeIff(db);
      }
    } else if t.Regular? {
      var steps := Disorders(s, n, queueSizeLimit);
      PathKeepsLedger(s', steps, queueSizeLimit);
      RowsAreChain(After(s', steps, queueSizeLimit).db, Regular);
      FastQueueSizeIff(After(s', steps, queueSizeLimit).db);
    }
  }

  /** Of two requests that come again, the first one leaves a completed row behind an uncompleted one. */
  lemma Disorders(s: State, n: nat, queueSizeLimit: nat) returns (steps: seq<Step>)
    requires MintSafety.Inv(s, queueSizeLimit) && Reading(s, Regular) && !Blocks(s, Regular)
    requires n > 0 && |Uncompleted(s, Regular)| > 1
    ensures var s' := Reread(s, Regular, n);
            && CanRun(s', steps, queueSizeLimit)
            && var db := After(s', steps, queueSizeLimit).db; !DoneFirst(db.queue, db.solana)
  {
    hide MintSafety.Inv, Uncompleted, Repeat, CanRun, After, InOrder, CleanUpTo, Blocks, DoneFirst, LaneOf;
    var s', reqs, i := Reread(s, Regular, n), Uncompleted(s, Regular), s.db.Done(Regular);
    var first := SecondCopy(s, Regular, n, queueSizeLimit);
    var s1 := After(s', first, queueSizeLimit);
    FirstRequest(s, Regular, queueSizeLimit);
    CleanWork(s1, queueSizeLimit);
    var id := FreshId(s1);
    CompletionUndone(s1, Regular, i, id, queueSizeLimit);
    var rest := [BuildTx(id), SaveTx];
    RunsConcat(s', first, rest, queueSizeLimit);
    steps := first + rest;
    assert After(s1, rest, queueSizeLimit).db.queue == After(s1, rest, queueSizeLimit).db.Table(Regular);
  }

  lemma CleanWork(s: State, queueSizeLimit: nat)
    requires CleanUpTo(s, 0, queueSizeLimit)
    ensures InPhase(s)
  {
  }

  /** The first request of a read is for the first row that is not completed. */
  lemma FirstRequest(s: State, t: TransportType, queueSizeLimit: nat)
    requires MintSafety.Inv(s, queueSizeLimit) && Reading(s, t) && Uncompleted(s, t) != []
    ensures var i := s.db.Done(t); i < |s.db.Table(t)| && Uncompleted(s, t)[0] == ToRequest(t, s.db.Table(t)[i])
  {
    hide MintSafety.Inv, Uncompleted, LaneOf;
    ReadsSoFar(s, queueSizeLimit, t);
    ReadIsSegment(s, t);
  }

  // ---------- the limit of the queue ----------

  /** All that can be burned for the queue from the row of the request on fits the limit. */
  predicate Harmless(req: Request, queueSizeLimit: nat) {
    req.kind.Regular? ==> TOTAL_SUPPLY - req.totalSupply <= queueSizeLimit
  }

  lemma RewoundFits(s: State, v: View, queueSizeLimit: nat)
    requires Repeats(s, v, queueSizeLimit) && s.proc.phase.Save? && s.proc.phase.id !in s.db.solana
    requires v.limit == queueSizeLimit && Harmless(s.proc.work[0], queueSizeLimit)
    ensures QueueSize(Over(s)) <= queueSizeLimit
  {
    hide Ledger.Inv, MintLanes.BuiltInv, LaneOf, Orderly, WithRecorded, QueueSize;
    var req, n := s.proc.work[0], s.db.Done(s.proc.work[0].kind);
    RestFacts(s, v, queueSizeLimit);
    AgainBuiltFor(s, v, queueSizeLimit);
    OverwritingGrows(s.db, v.limit, req.kind, n - 1, s.proc.phase.id, s.now);
    SizeOfQueue(s.db, v.limit);
    if req.kind.Regular? {
      EndIs(s.db, n - 1, v.limit);
    }
  }

  lemma SizeOfQueue(db: Database, queueSizeLimit: nat)
    requires Ledger.Inv(db, queueSizeLimit)
    ensures QueueSize(db) == QueueEndSupply(db) - EndAt(db.queue, db.Done(Regular)) <= queueSizeLimit
    ensures QueueEndSupply(db) <= TOTAL_SUPPLY
  {
    assert db.queue == db.Table(Regular);
    OutstandingIs(db.queue, db.solana, db.Done(Regular));
  }

  lemma EndIs(db: Database, i: nat, queueSizeLimit: nat)
    requires Ledger.Inv(db, queueSizeLimit) && i < |db.queue|
    ensures db.queue[i].Amount() == EndAt(db.queue, i + 1) - EndAt(db.queue, i) > 0
  {
    assert db.queue == db.Table(Regular);
    assert Link(db.queue, i);
  }

  lemma FollowedFits(s: State, v: View, queueSizeLimit: nat)
    requires Follows(s, v, queueSizeLimit) || Repeats(s, v, queueSizeLimit)
    ensures QueueSize(s.db) <= v.limit
  {
    hide Ledger.Base;
  }

  /** A single request that comes again leaves the queue within its limit if it is harmless. */
  lemma {:induction false} LimitStays(s: State, v: View, steps: seq<Step>, queueSizeLimit: nat)
    requires v.limit == queueSizeLimit && CanRun(s, steps, queueSizeLimit)
    requires || (Follows(s, v, queueSizeLimit) && (Steady(s, v.k) || Harmless(s.proc.work[v.k - 1], queueSizeLimit)))
             || (Repeats(s, v, queueSizeLimit) && Harmless(s.proc.work[0], queueSizeLimit))
    ensures QueueSize(After(s, steps, queueSizeLimit).db) <= queueSizeLimit
    decreases |steps|
  {
    hide MintSafety.Inv, Enabled, Apply, Again, LostAt, QueueSize, Harmless, Over;
    if steps == [] {
      FollowedFits(s, v, queueSizeLimit);
    } else {
      var s', v' := Apply(s, steps[0], queueSizeLimit), v;
      if Follows(s, v, queueSizeLimit) && (Steady(s, v.k) || Harmless(s.proc.work[v.k - 1], queueSizeLimit)) {
        v' := FollowsNext(s, v, steps[0], queueSizeLimit);
      } else {
        v' := RepeatsNext(s, v, steps[0], queueSizeLimit);
        var _ := WorkKind(s);
        if s.proc.phase.Save? && s.proc.phase.id !in s.db.solana {
          RewoundFits(s, v, queueSizeLimit);
        }
      }
      LimitStays(s', v', steps[1..], queueSizeLimit);
    }
  }

  // ---------- when the limit is exceeded ----------

  lemma NewBurn(db: Database) returns (burn: BurnId)
    ensures !Known(db, burn)
  {
    var used := Burns(db.unconfirmed) + RowBurns(db.premined) + RowBurns(db.airdrop) + RowBurns(db.queue);
    burn := Bounded(used);
    assert burn !in used;
    TablesOnly(db, db);
  }

  /** A burn for the queue of that amount. */
  function Burned(burn: BurnId, amount: nat): Unconfirmed {
    Unconfirmed(burn, amount, 0, None, None, 0, Regular)
  }

  lemma SubmitsMore(s: State, amount: nat, queueSizeLimit: nat) returns (u: Unconfirmed)
    requires CleanUpTo(s, 0, queueSizeLimit) && amount > 0
    requires QueueSize(s.db) + amount <= queueSizeLimit && QueueEndSupply(s.db) + amount <= TOTAL_SUPPLY
    ensures Enabled(s, Submit(u), queueSizeLimit)
    ensures var s' := Apply(s, Submit(u), queueSizeLimit);
            && CleanUpTo(s', 0, queueSizeLimit) && QueueSize(s'.db) == QueueSize(s.db) + amount && s'.proc == s.proc
            && s'.db.queue == s.db.queue && s'.db.solana == s.db.solana
  {
    hide MintSafety.Inv, Known, QueueSize, QueueEndSupply, Admit, LostAt;
    var burn := NewBurn(s.db);
    u := Burned(burn, amount);
    Admitted(s.db, u, queueSizeLimit);
    var s0, s' := s.(proc := Idle), Apply(s, Submit(u), queueSizeLimit);
    StepKeepsInv(s0, queueSizeLimit, Submit(u));
    assert Apply(s0, Submit(u), queueSizeLimit) == s'.(proc := Idle);
    AdmittedTables(s.db, u);
    SameTablesGround(s, s');
  }

  lemma SameTablesGround(s: State, s': State)
    requires Grounded(s) && forall t: TransportType :: s'.db.Table(t) == s.db.Table(t)
    requires s'.db.solana == s.db.solana
    ensures Grounded(s')
  {
    forall t: TransportType
      ensures FlightOf(s', t).None?
    {
      assert FlightOf(s, t).None?;
    }
  }

  lemma Admitted(db: Database, u: Unconfirmed, queueSizeLimit: nat)
    requires !Known(db, u.burn) && u == Burned(u.burn, u.amount) && u.amount > 0
    requires QueueSize(db) + u.amount <= queueSizeLimit && QueueEndSupply(db) + u.amount <= TOTAL_SUPPLY
    ensures CanAdmit(db, queueSizeLimit, u) && QueueSize(Admit(db, u)) == QueueSize(db) + u.amount
  {
    SumAppend(db.unconfirmed, u, OfKind(Regular));
  }

  lemma AdmittedTables(db: Database, u: Unconfirmed)
    ensures var db' := Admit(db, u);
            db'.queue == db.queue && db'.solana == db.solana && forall t: TransportType :: db'.Table(t) == db.Table(t)
  {
    TablesOnly(db, Admit(db, u));
  }

  /** After the first copy is minted there is room for new burns; the first request that comes again then takes up the room
      of its row a second time. */
  lemma Exceeds(s: State, n: nat, queueSizeLimit: nat) returns (steps: seq<Step>)
    requires MintSafety.Inv(s, queueSizeLimit) && Reading(s, Regular) && !Blocks(s, Regular)
    requires n > 0 && |Uncompleted(s, Regular)| == 1 && !Harmless(Uncompleted(s, Regular)[0], queueSizeLimit)
    ensures var s' := Reread(s, Regular, n);
            && CanRun(s', steps, queueSizeLimit)
            && QueueSize(After(s', steps, queueSizeLimit).db) > queueSizeLimit
  {
    hide MintSafety.Inv, Ledger.Inv, Uncompleted, Repeat, CanRun, After, InOrder, CleanUpTo, Blocks, DoneFirst, LaneOf, QueueSize,
         QueueEndSupply, Enabled, Apply, SameButIds, WithRecorded, Orderly;
    var s', i := Reread(s, Regular, n), s.db.Done(Regular);
    var first := SecondCopy(s, Regular, n, queueSizeLimit);
    var s1 := After(s', first, queueSizeLimit);
    FirstRequest(s, Regular, queueSizeLimit);
    StateLedger(s, queueSizeLimit);
    CleanLedger(s1, queueSizeLimit);
    CleanWork(s1, queueSizeLimit);
    var room := RoomAfter(s, s1, queueSizeLimit);
    var u := SubmitsMore(s1, room, queueSizeLimit);
    var s2 := Apply(s1, Submit(u), queueSizeLimit);
    var id := FreshId(s2);
    SameRowsRead(s, s1, s2);
    CompletionUndone(s2, Regular, i, id, queueSizeLimit);
    CleanLedger(s2, queueSizeLimit);
    OverwritingGrows(s2.db, queueSizeLimit, Regular, i, id, s2.now);
    var rest := [BuildTx(id), SaveTx];
    RunsOne(s1, Submit(u), queueSizeLimit);
    RunsConcat(s1, [Submit(u)], rest, queueSizeLimit);
    RunsConcat(s', first, [Submit(u)] + rest, queueSizeLimit);
    steps := first + ([Submit(u)] + rest);
  }

  /** What can be burned after the mint: as much as the queue and the supply leave room for. */
  lemma RoomAfter(s: State, s1: State, queueSizeLimit: nat) returns (room: nat)
    requires Ledger.Inv(s.db, queueSizeLimit) && Ledger.Inv(s1.db, queueSizeLimit)
    requires SameButIds(s.db.Table(Regular), s1.db.Table(Regular)) && s1.db.unconfirmed == s.db.unconfirmed
    requires var i := s.db.Done(Regular);
             && s1.db.Done(Regular) == i + 1 && i < |s.db.Table(Regular)|
             && !Harmless(ToRequest(Regular, s.db.Table(Regular)[i]), queueSizeLimit)
    ensures room > 0 && QueueSize(s1.db) + room <= queueSizeLimit && QueueEndSupply(s1.db) + room <= TOTAL_SUPPLY
    ensures QueueSize(s1.db) + room + s.db.Table(Regular)[s.db.Done(Regular)].Amount() > queueSizeLimit
  {
    hide Ledger.Inv, Orderly, QueueSize;
    var i := s.db.Done(Regular);
    assert s.db.Table(Regular) == s.db.queue && s1.db.Table(Regular) == s1.db.queue;
    SizeOfQueue(s.db, queueSizeLimit);
    SizeOfQueue(s1.db, queueSizeLimit);
    EndIs(s.db, i, queueSizeLimit);
    RequestSupply(s.db, i, queueSizeLimit);
    var byQueue, bySupply := queueSizeLimit - QueueSize(s1.db), TOTAL_SUPPLY - QueueEndSupply(s1.db);
    room := if byQueue <= bySupply then byQueue else bySupply;
  }

  lemma RequestSupply(db: Database, i: nat, queueSizeLimit: nat)
    requires Ledger.Inv(db, queueSizeLimit) && i < |db.queue|
    ensures ToRequest(Regular, db.queue[i]).totalSupply == EndAt(db.queue, i)
  {
    assert db.queue == db.Table(Regular);
    ChainBefore(db.queue, i);
    EndGrows(db.queue, 0, i);
  }

  lemma SameRowsRead(s: State, s1: State, s2: State)
    requires SameButIds(s.db.Table(Regular), s1.db.Table(Regular)) && s2.db.queue == s1.db.queue
    requires s2.db.solana == s1.db.solana
    ensures s2.db.Table(Regular) == s1.db.Table(Regular) && s2.db.Done(Regular) == s1.db.Done(Regular)
    ensures forall k :: 0 <= k < |s.db.Table(Regular)| ==>
              && s2.db.Table(Regular)[k].burn == s.db.Table(Regular)[k].burn
              && s2.db.Table(Regular)[k].Amount() == s.db.Table(Regular)[k].Amount()
  {
  }

  /** After a read with `n` failed commits of at most one request, the queue stays within its limit whatever follows exactly
      if no commit failed, or there was nothing to read, or the second copy is never reached, or all that can
      be burned from the row on fits the limit. */
  lemma LimitIsKeptIff(s: State, t: TransportType, n: nat, queueSizeLimit: nat)
    requires MintSafety.Inv(s, queueSizeLimit) && Reading(s, t) && |Uncompleted(s, t)| <= 1
    ensures LimitIsKept(Reread(s, t, n), queueSizeLimit)
            <==> n == 0 || Uncompleted(s, t) == [] || Blocks(s, t) || Harmless(Uncompleted(s, t)[0], queueSizeLimit)
  {
    hide MintSafety.Inv, Uncompleted, Blocks, Repeat, Follows, LostAt, CanRun, After, QueueSize, Harmless;
    var s', reqs := Reread(s, t, n), Uncompleted(s, t);
    if n == 0 || reqs == [] {
      PlainReadKeepsLimit(s, t, n, queueSizeLimit);
    } else if Blocks(s, t) || Harmless(reqs[0], queueSizeLimit) {
      var v := FirstCopyFollows(s, t, n, queueSizeLimit);
      forall steps | CanRun(s', steps, queueSizeLimit)
        ensures QueueSize(After(s', steps, queueSizeLimit).db) <= queueSizeLimit
      {
        LimitStays(s', v, steps, queueSizeLimit);
      }
    } else {
      FirstRequest(s, t, queueSizeLimit);
      OnlyQueueHarms(reqs[0], queueSizeLimit);
      var steps := Exceeds(s, n, queueSizeLimit);
    }
  }

  lemma OnlyQueueHarms(req: Request, queueSizeLimit: nat)
    ensures !Harmless(req, queueSizeLimit) ==> req.kind.Regular?
  {
  }

  lemma PlainReadKeepsLimit(s: State, t: TransportType, n: nat, queueSizeLimit: nat)
    requires MintSafety.Inv(s, queueSizeLimit) && Reading(s, t) && (n == 0 || Uncompleted(s, t) == [])
    ensures LimitIsKept(Reread(s, t, n), queueSizeLimit)
  {
    hide MintSafety.Inv, Uncompleted, Repeat, Enabled, Apply;
    var s' := Reread(s, t, n);
    NothingRepeated(Uncompleted(s, t), n);
    RereadOnce(s, t, queueSizeLimit);
    StepKeepsInv(s, queueSizeLimit, ReadUncompleted(t));
    forall steps | CanRun(s', steps, queueSizeLimit)
      ensures QueueSize(After(s', steps, queueSizeLimit).db) <= queueSizeLimit
    {
      MintTheorems.PathInvariant(s', steps, queueSizeLimit);
      SizeWithin(After(s', steps, queueSizeLimit), queueSizeLimit);
    }
  }

  lemma SizeWithin(s: State, queueSizeLimit: nat)
    requires MintSafety.Inv(s, queueSizeLimit)
    ensures QueueSize(s.db) <= queueSizeLimit
  {
  }

  /** A reachable state with a full queue of one burn: after one failed commit of its read the queue can come to exceed
      its limit. */
  lemma LimitCanBeExceeded()
    ensures Run(WitnessRuns.STATES[..10], WitnessRuns.STEPS[..9], WitnessRuns.LIMIT)
    ensures var s, limit := WitnessRuns.STATES[9], WitnessRuns.LIMIT;
            Reading(s, Regular) && !LimitIsKept(Reread(s, Regular, 1), limit)
  {
    hide MintSafety.Inv, Enabled, Apply, Uncompleted, LimitIsKept, Reread;
    WitnessRuns.StatesRun();
    assert Run(WitnessRuns.STATES[..10], WitnessRuns.STEPS[..9], WitnessRuns.LIMIT);
    MintTheorems.RunInvariant(WitnessRuns.STATES, WitnessRuns.STEPS, WitnessRuns.LIMIT, 9);
    WitnessRuns.Reads();
    var s := WitnessRuns.S9;
    assert WitnessRuns.STATES[9] == s && Reading(s, Regular) && !Blocks(s, Regular);
    LimitIsKeptIff(s, Regular, 1, WitnessRuns.LIMIT);
  }
}
