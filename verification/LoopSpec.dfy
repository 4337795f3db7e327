/** What the server's loops are proved against: the decision taken for each unconfirmed burn,
    and the records met by recovery and minting (loops.go, server.go). */
module LoopSpec {
  import opened Common
  import opened Tables
  import opened Ledger
  import opened StorageSpec
  import opened QueueLock

  // ---------- processUnconfirmed ----------

  datatype Decision = Remove | RecordHeight | Confirm | Wait

  /** The three-way branch of processUnconfirmed. */
  function Decide(u: Unconfirmed, onChain: bool, height: nat, confirmations: int): Decision {
    if !onChain then Remove
    else if u.height.None? then RecordHeight
    else if HeightGap(height, u.height.value) >= confirmations then Confirm
    else Wait
  }

  /** What IsTxConfirmed answers; a burn it does not answer for is an error. */
  type OnChain = map<BurnId, bool>

  predicate Answers(onChain: OnChain, us: seq<Unconfirmed>) {
    forall u :: u in us ==> u.burn in onChain
  }

  function Chosen(us: seq<Unconfirmed>, d: Decision, onChain: OnChain, height: nat,
                  confirmations: int): seq<Unconfirmed>
    requires Answers(onChain, us)
  {
    if us == [] then []
    else
      assert us[|us| - 1] in us;
      Chosen(us[..|us| - 1], d, onChain, height, confirmations)
      + (if Decide(us[|us| - 1], onChain[us[|us| - 1].burn], height, confirmations) == d then [us[|us| - 1]] else [])
  }

  lemma {:induction false} ChosenMembers(us: seq<Unconfirmed>, d: Decision, onChain: OnChain, height: nat,
                                         confirmations: int)
    requires Answers(onChain, us)
    ensures forall u :: u in Chosen(us, d, onChain, height, confirmations)
                        <==> u in us && Decide(u, onChain[u.burn], height, confirmations) == d
  {
    if us != [] {
      assert us == us[..|us| - 1] + [us[|us| - 1]];
      ChosenMembers(us[..|us| - 1], d, onChain, height, confirmations);
    }
  }

  lemma DistinctLast(us: seq<Unconfirmed>)
    requires Distinct(us) && us != []
    ensures Distinct(us[..|us| - 1])
    ensures forall u :: u in us[..|us| - 1] ==> u.burn != us[|us| - 1].burn
  {
    forall u | u in us[..|us| - 1]
      ensures u.burn != us[|us| - 1].burn
    {
      var i :| 0 <= i < |us| - 1 && us[i] == u;
    }
  }

  lemma {:induction false} ChosenDistinct(us: seq<Unconfirmed>, d: Decision, onChain: OnChain, height: nat,
                                          confirmations: int)
    requires Answers(onChain, us) && Distinct(us)
    ensures Distinct(Chosen(us, d, onChain, height, confirmations))
  {
    hide Distinct, Decide;
    if us != [] {
      var init, last := us[..|us| - 1], us[|us| - 1];
      assert us == init + [last];
      DistinctLast(us);
      ChosenDistinct(init, d, onChain, height, confirmations);
      ChosenMembers(init, d, onChain, height, confirmations);
      var rest := Chosen(init, d, onChain, height, confirmations);
      DistinctWith(rest, last);
      assert rest + [] == rest;
    } else {
      NoneDistinct();
    }
  }

  lemma NoneDistinct()
    ensures Distinct([])
  {
  }

  /** No two burns of the list have the same id, however often each is listed. */
  predicate OnePerBurn(us: seq<Unconfirmed>) {
    forall u, v :: u in us && v in us && u.burn == v.burn ==> u == v
  }

  /** The three lists of a pass are disjoint, and a burn is confirmed only if it is on chain, an earlier pass
      recorded its height, and the chain advanced far enough since. */
  lemma PassLists(us: seq<Unconfirmed>, onChain: OnChain, height: nat, confirmations: int)
    requires Answers(onChain, us) && OnePerBurn(us)
    ensures var removed, recorded, confirmed := Chosen(us, Remove, onChain, height, confirmations),
                                                Chosen(us, RecordHeight, onChain, height, confirmations),
                                                Chosen(us, Confirm, onChain, height, confirmations);
            && Burns(removed) !! Burns(recorded)
            && Burns(removed) !! Burns(confirmed)
            && Burns(recorded) !! Burns(confirmed)
            && forall u :: u in confirmed ==>
                 && u.burn in onChain && onChain[u.burn]
                 && u.height.Some?
                 && (height <= MAX_INT64 && u.height.value <= MAX_INT64 ==> height - u.height.value >= confirmations)
  {
    var removed, recorded, confirmed := Chosen(us, Remove, onChain, height, confirmations),
                                        Chosen(us, RecordHeight, onChain, height, confirmations),
                                        Chosen(us, Confirm, onChain, height, confirmations);
    ChosenMembers(us, Remove, onChain, height, confirmations);
    ChosenMembers(us, RecordHeight, onChain, height, confirmations);
    ChosenMembers(us, Confirm, onChain, height, confirmations);
    forall u | u in confirmed && height <= MAX_INT64 && u.height.value <= MAX_INT64
      ensures height - u.height.value >= confirmations
    {
      HeightGapIsSigned(height, u.height.value);
    }
  }

  /** The ledger after recording heights. */
  function AfterHeights(db: Database, us: seq<Unconfirmed>, onChain: OnChain, height: nat, confirmations: int,
                        newHeight: nat): Database
    requires Answers(onChain, us)
  {
    db.(unconfirmed := SetHeights(db.unconfirmed, BurnIds(Chosen(us, RecordHeight, onChain, height, confirmations)),
                                  newHeight))
  }

  /** What becomes of the three storage calls of a pass. */
  datatype PassCommits = PassCommits(setHeights: bool, remove: Commit, confirm: Commit)

  /** Whether a pass over the list reports success, and the ledger it leaves. */
  function PassOutcome(db: Database, us: seq<Unconfirmed>, onChain: OnChain, height: nat, confirmations: int,
                       newHeight: nat, now: Time, commits: PassCommits): (bool, Database)
    requires Answers(onChain, us)
  {
    if !commits.setHeights then (false, db)
    else
      var (ok, removed) := RemoveOutcome(AfterHeights(db, us, onChain, height, confirmations, newHeight),
                                         Chosen(us, Remove, onChain, height, confirmations), commits.remove);
      if !ok then (false, removed)
      else ConfirmOutcome(removed, Chosen(us, Confirm, onChain, height, confirmations), now, commits.confirm)
  }

  lemma {:induction false} ConfirmationKeepsFlags(db: Database, us: seq<Unconfirmed>, now: Time)
    requires ConfirmAll(db, us, now).Ok?
    ensures ConfirmAll(db, us, now).value.flags == db.flags
  {
    if us != [] {
      ConfirmationKeepsFlags(db, us[..|us| - 1], now);
    }
  }

  lemma OutcomesKeepFlags(db: Database, us: seq<Unconfirmed>, now: Time, commit: Commit)
    ensures RemoveOutcome(db, us, commit).1.flags == db.flags
    ensures ConfirmOutcome(db, us, now, commit).1.flags == db.flags
  {
    RemoveAllTables(db, us);
    RemoveAllTables(RemoveAll(db, us), us);
    if ConfirmAll(db, us, now).Ok? {
      ConfirmationKeepsFlags(db, us, now);
    }
  }

  lemma IdsAreBurns(us: seq<Unconfirmed>, burn: BurnId)
    ensures burn in BurnIds(us) <==> burn in Burns(us)
  {
    if burn in BurnIds(us) {
      var k :| 0 <= k < |us| && BurnIds(us)[k] == burn;
      assert us[k] in us;
    }
    if burn in Burns(us) {
      var u :| u in us && u.burn == burn;
      var k :| 0 <= k < |us| && us[k] == u;
      assert BurnIds(us)[k] == burn;
    }
  }

  /** The burns decided on at the start of the pass are still there as they were read when their turn
      comes: recording heights and removing burns does not touch the others. */
  lemma ListsStayInTable(db: Database, queueSizeLimit: nat, us: seq<Unconfirmed>, onChain: OnChain, height: nat,
                         confirmations: int, newHeight: nat, commit: Commit)
    requires Inv(db, queueSizeLimit) && RowsOf(db, us) && Answers(onChain, us)
    ensures var removed, confirmed := Chosen(us, Remove, onChain, height, confirmations),
                                      Chosen(us, Confirm, onChain, height, confirmations);
            var db1 := AfterHeights(db, us, onChain, height, confirmations, newHeight);
            && Inv(db1, queueSizeLimit) && RowsOf(db1, removed) && RowsOf(db1, confirmed) && Readable(removed)
            && (PreminedInv(db) ==> PreminedInv(db1))
            && var db2 := RemoveOutcome(db1, removed, commit).1;
            Inv(db2, queueSizeLimit) && RowsOf(db2, confirmed)
  {
    hide Inv, PreminedInv;
    var recorded := Chosen(us, RecordHeight, onChain, height, confirmations);
    SetHeightsKeepsInv(db, queueSizeLimit, BurnIds(recorded), newHeight);
    UntouchedLists(db, queueSizeLimit, us, onChain, height, confirmations, newHeight);
    RemovalLeaves(AfterHeights(db, us, onChain, height, confirmations, newHeight), queueSizeLimit,
                  Chosen(us, Remove, onChain, height, confirmations),
                  Chosen(us, Confirm, onChain, height, confirmations), commit);
  }

  lemma UntouchedLists(db: Database, queueSizeLimit: nat, us: seq<Unconfirmed>, onChain: OnChain, height: nat,
                       confirmations: int, newHeight: nat)
    requires Inv(db, queueSizeLimit) && RowsOf(db, us) && Answers(onChain, us)
    ensures var removed, confirmed := Chosen(us, Remove, onChain, height, confirmations),
                                      Chosen(us, Confirm, onChain, height, confirmations);
            var db1 := AfterHeights(db, us, onChain, height, confirmations, newHeight);
            RowsOf(db1, removed) && RowsOf(db1, confirmed) && Burns(removed) !! Burns(confirmed)
  {
    var removed, recorded, confirmed := Chosen(us, Remove, onChain, height, confirmations),
                                        Chosen(us, RecordHeight, onChain, height, confirmations),
                                        Chosen(us, Confirm, onChain, height, confirmations);
    OneRowPerBurn(db.unconfirmed);
    PassLists(us, onChain, height, confirmations);
    ChosenMembers(us, Remove, onChain, height, confirmations);
    ChosenMembers(us, Confirm, onChain, height, confirmations);
    forall u | u in us && u.burn !in Burns(recorded)
      ensures u in SetHeights(db.unconfirmed, BurnIds(recorded), newHeight)
    {
      UntouchedByHeights(db.unconfirmed, recorded, newHeight, u);
    }
    assert forall u :: u in removed ==> u.burn in Burns(removed);
    assert forall u :: u in confirmed ==> u.burn in Burns(confirmed);
  }

  lemma RemovalLeaves(db: Database, queueSizeLimit: nat, removed: seq<Unconfirmed>, kept: seq<Unconfirmed>, commit: Commit)
    requires Inv(db, queueSizeLimit) && RowsOf(db, removed) && RowsOf(db, kept) && Burns(removed) !! Burns(kept)
    ensures Readable(removed)
    ensures var db' := RemoveOutcome(db, removed, commit).1; Inv(db', queueSizeLimit) && RowsOf(db', kept)
  {
    hide Inv, Base, InBigint;
    InvIsBase(db, queueSizeLimit);
    RowsAreReadable(db, removed);
    assert forall u :: u in removed ==> u.burn in Burns(removed);
    assert forall u :: u in kept ==> u.burn in Burns(kept);
    var once := RemoveAll(db, removed);
    if InBigint(once.limits) {
      RemoveAllKeepsInv(db, queueSizeLimit, removed);
      if InBigint(RemoveAll(once, removed).limits) {
        RemoveAllKeepsInv(once, queueSizeLimit, removed);
      }
    }
  }

  lemma UntouchedByHeights(us: seq<Unconfirmed>, recorded: seq<Unconfirmed>, newHeight: nat, u: Unconfirmed)
    requires u in us && u.burn !in Burns(recorded)
    ensures u in SetHeights(us, BurnIds(recorded), newHeight)
  {
    SetHeightsEffect(us, BurnIds(recorded), newHeight);
    IdsAreBurns(recorded, u.burn);
    var i :| 0 <= i < |us| && us[i] == u;
    assert SetHeights(us, BurnIds(recorded), newHeight)[i] == u;
  }

  // ---------- passes over a list delivered more than once ----------

  lemma {:induction false} ChosenConcat(us: seq<Unconfirmed>, vs: seq<Unconfirmed>, d: Decision, onChain: OnChain, height: nat,
                                        confirmations: int)
    requires Answers(onChain, us) && Answers(onChain, vs)
    ensures Answers(onChain, us + vs)
    ensures Chosen(us + vs, d, onChain, height, confirmations)
            == Chosen(us, d, onChain, height, confirmations) + Chosen(vs, d, onChain, height, confirmations)
  {
    if vs == [] {
      assert us + vs == us;
    } else {
      assert (us + vs)[..|us + vs| - 1] == us + vs[..|vs| - 1];
      assert vs[|vs| - 1] in vs;
      ChosenConcat(us, vs[..|vs| - 1], d, onChain, height, confirmations);
    }
  }

  lemma {:induction false} ChosenRepeat(us: seq<Unconfirmed>, n: nat, d: Decision, onChain: OnChain, height: nat,
                                        confirmations: int)
    requires Answers(onChain, us)
    ensures Answers(onChain, Repeat(us, n))
    ensures Chosen(Repeat(us, n), d, onChain, height, confirmations) == Repeat(Chosen(us, d, onChain, height, confirmations), n)
  {
    if n > 0 {
      ChosenRepeat(us, n - 1, d, onChain, height, confirmations);
      ChosenConcat(Repeat(us, n - 1), us, d, onChain, height, confirmations);
    }
  }

  /** A pass over a list that failed commits delivered n + 1 times. If its removal goes through, the premined
      accounts stay in order exactly if the list came once and the removal ran once, or no premined
      burn was removed. If it came more than once, nothing is confirmed that pass. */
  lemma RepeatedPassIff(db: Database, queueSizeLimit: nat, us: seq<Unconfirmed>, n: nat, onChain: OnChain, height: nat,
                        confirmations: int, newHeight: nat, now: Time, commits: PassCommits)
    requires Inv(db, queueSizeLimit) && PreminedInv(db) && FromTable(db, us) && Answers(onChain, us)
    ensures Answers(onChain, Repeat(us, n + 1))
    ensures var removed, confirmed := Chosen(us, Remove, onChain, height, confirmations),
                                      Chosen(us, Confirm, onChain, height, confirmations);
            var db1 := AfterHeights(db, Repeat(us, n + 1), onChain, height, confirmations, newHeight);
            var removal := RemoveOutcome(db1, Repeat(removed, n + 1), commits.remove);
            && (removal.0 ==>
                  (PreminedInv(removal.1)
                   <==> (n == 0 && commits.remove.Commits?) || forall u :: u in removed ==> !u.kind.Premined?))
            && (n > 0 && confirmed != [] ==>
                  !PassOutcome(db, Repeat(us, n + 1), onChain, height, confirmations, newHeight, now, commits).0)
            && (n > 0 && confirmed != [] ==>
                  ConfirmOutcome(removal.1, Repeat(confirmed, n + 1), now, commits.confirm) == (false, removal.1))
  {
    hide Inv, PreminedInv, Chosen, RemoveAll, ConfirmAll;
    var all := Repeat(us, n + 1);
    var removed := Chosen(us, Remove, onChain, height, confirmations);
    var confirmed := Chosen(us, Confirm, onChain, height, confirmations);
    ChosenRepeat(us, n + 1, Remove, onChain, height, confirmations);
    ChosenRepeat(us, n + 1, Confirm, onChain, height, confirmations);
    RepeatMembers(us, n + 1);
    ListsStayInTable(db, queueSizeLimit, all, onChain, height, confirmations, newHeight, commits.remove);
    ChosenDistinct(us, Remove, onChain, height, confirmations);
    ChosenDistinct(us, Confirm, onChain, height, confirmations);
    var db1 := AfterHeights(db, all, onChain, height, confirmations, newHeight);
    RepeatMembers(removed, n + 1);
    RepeatMembers(confirmed, n + 1);
    InvIsBase(db1, queueSizeLimit);
    RemovalOutcomeIff(db1, removed, n, commits.remove);
    if n > 0 && confirmed != [] {
      var db2 := RemoveOutcome(db1, Repeat(removed, n + 1), commits.remove).1;
      InvIsBase(db2, queueSizeLimit);
      RepeatedConfirmationIsRefused(db2, confirmed, n, now);
    }
  }

  lemma RemovalOutcomeIff(db: Database, us: seq<Unconfirmed>, n: nat, commit: Commit)
    requires Base(db) && PreminedInv(db) && FromTable(db, us)
    ensures var removal := RemoveOutcome(db, Repeat(us, n + 1), commit);
            removal.0 ==> (PreminedInv(removal.1)
                           <==> (n == 0 && commit.Commits?) || forall u :: u in us ==> !u.kind.Premined?)
  {
    hide PreminedInv, Base, InBigint, Repeat, RemoveAll, FromTable;
    var all, premined := Repeat(us, n + 1), exists u :: u in us && u.kind.Premined?;
    assert PreminedInv(RemoveAll(db, all)) <==> n == 0 || !premined by {
      RepeatedRemovalIff(db, us, n);
    }
    assert PreminedInv(RemoveAll(RemoveAll(db, all), all)) <==> !premined by {
      RepeatTwice(us, n + 1);
      assert all + all == Repeat(us, (2 * n + 1) + 1);
      RepeatedRemovalIff(db, us, 2 * n + 1);
      RemoveAllAppend(db, all, all);
    }
  }

  lemma {:induction false} RepeatSum<T>(xs: seq<T>, m: nat, n: nat)
    ensures Repeat(xs, m) + Repeat(xs, n) == Repeat(xs, m + n)
  {
    if n > 0 {
      RepeatSum(xs, m, n - 1);
      assert Repeat(xs, m) + Repeat(xs, n) == (Repeat(xs, m) + Repeat(xs, n - 1)) + xs;
    } else {
      assert Repeat(xs, m) + [] == Repeat(xs, m);
    }
  }

  lemma RepeatTwice<T>(xs: seq<T>, n: nat)
    ensures Repeat(xs, n) + Repeat(xs, n) == Repeat(xs, 2 * n)
  {
    RepeatSum(xs, n, n);
  }

  // ---------- recovery ----------

  /** No two rows of the ledger share a Solana id. */
  predicate IdsUnique(db: Database) {
    forall t: TransportType, u: TransportType, i, j | 0 <= i < |db.Table(t)| && 0 <= j < |db.Table(u)| ::
      db.Table(t)[i].solanaId.Some? && db.Table(u)[j].solanaId == db.Table(t)[i].solanaId ==> t == u && i == j
  }

  predicate HasFlight(db: Database, t: TransportType) {
    Flight(db.Table(t), db.Done(t)).Some?
  }

  lemma UniqueFlightIsOnly(db: Database, t: TransportType)
    requires IdsUnique(db) && HasFlight(db, t)
    ensures OnlyFlight(db, t, Flight(db.Table(t), db.Done(t)).value)
  {
  }

  type Records = seq<(TransportType, Row)>

  /** The transactions that minted, with their confirmation times. */
  type Confirmed = map<SolanaTxId, Time>

  /** One turn of the loop of handleUnconfirmedSolana. */
  function RecoverRecord(db: Database, t: TransportType, r: Row, minted: Confirmed): Database {
    if r.solanaId.Some? && r.solanaId.value in minted then ConfirmSolana(db, r.solanaId.value, minted[r.solanaId.value])
    else RemoveSolana(db, r.burn, t)
  }

  function RecoverRecords(db: Database, records: Records, minted: Confirmed): Database {
    if records == [] then db
    else
      var (t, r) := records[|records| - 1];
      RecoverRecord(RecoverRecords(db, records[..|records| - 1], minted), t, r, minted)
  }

  /** The loop met a record of the transaction. */
  predicate Meets(records: Records, id: SolanaTxId) {
    exists k :: 0 <= k < |records| && records[k].1.solanaId == Some(id)
  }

  /** Each transaction that minted and was met carries its own time of confirmation, and all others are as they were. */
  ghost predicate OwnTimes(sol: SolanaTable, records: Records, minted: Confirmed, sol': SolanaTable) {
    && sol'.Keys == sol.Keys
    && forall id :: id in sol ==>
         if id in minted && Meets(records, id) then
           && sol'[id].broadcastTime == sol[id].broadcastTime
           && sol'[id].confirmationTime == Some(minted[id]) && sol'[id].confirmed
         else sol'[id] == sol[id]
  }

  lemma {:induction false} RecoveryTimes(db: Database, records: Records, minted: Confirmed)
    ensures OwnTimes(db.solana, records, minted, RecoverRecords(db, records, minted).solana)
  {
    if records != [] {
      var init := records[..|records| - 1];
      var (t, r) := records[|records| - 1];
      RecoveryTimes(db, init, minted);
      var mid := RecoverRecords(db, init, minted);
      RecordTime(mid, t, r, minted);
      forall id: SolanaTxId
        ensures Meets(records, id) <==> Meets(init, id) || r.solanaId == Some(id)
      {
        if Meets(init, id) {
          var k :| 0 <= k < |init| && init[k].1.solanaId == Some(id);
          assert records[k] == init[k];
        }
      }
    }
  }

  lemma RecordTime(db: Database, t: TransportType, r: Row, minted: Confirmed)
    ensures var sol' := RecoverRecord(db, t, r, minted).solana;
            if r.solanaId.Some? && r.solanaId.value in minted
            then Confirms(db.solana, r.solanaId.value, minted[r.solanaId.value], sol')
            else sol' == db.solana
  {
  }

  /** The records are the rows in flight, at most one per type. */
  predicate RecordsOf(db: Database, records: Records) {
    && (forall k :: 0 <= k < |records| ==>
          var (t, r) := records[k]; HasFlight(db, t) && r == db.Table(t)[db.Done(t)])
    && (forall j, k :: 0 <= j < k < |records| ==> records[j].0 != records[k].0)
  }

  predicate Handled(records: Records, t: TransportType) {
    exists k :: 0 <= k < |records| && records[k].0 == t
  }

  /** What recovery makes of the chain of one type. */
  predicate Settled(start: Database, db: Database, t: TransportType, minted: Confirmed) {
    && SameButIds(start.Table(t), db.Table(t))
    && !HasFlight(db, t)
    && db.Done(t) == start.Done(t)
                     + (if HasFlight(start, t) && Flight(start.Table(t), start.Done(t)).value in minted then 1 else 0)
  }

  predicate Untouched(start: Database, db: Database, t: TransportType) {
    db.Table(t) == start.Table(t) && db.Done(t) == start.Done(t)
  }

  /** After each turn the records handled so far are settled and the others untouched. */
  lemma {:induction false} RecoverRecordsSettles(start: Database, queueSizeLimit: nat, records: Records,
                                                 minted: Confirmed)
    requires Inv(start, queueSizeLimit) && IdsUnique(start) && RecordsOf(start, records)
    ensures var db := RecoverRecords(start, records, minted);
            && Inv(db, queueSizeLimit) && IdsUnique(db)
            && forall t: TransportType ::
                 if Handled(records, t) then Settled(start, db, t, minted) else Untouched(start, db, t)
  {
    hide Inv, IdsUnique, RecoverRecord, Settled, Untouched;
    if records == [] {
      assert forall t: TransportType :: Untouched(start, start, t) by {
        NothingTouched(start);
      }
    } else {
      var init, last := records[..|records| - 1], records[|records| - 1];
      RecoverRecordsSettles(start, queueSizeLimit, init, minted);
      assert !Handled(init, last.0);
      forall t: TransportType
        ensures Handled(records, t) <==> Handled(init, t) || t == last.0
      {
        if Handled(init, t) {
          var k :| 0 <= k < |init| && init[k].0 == t;
          assert records[k].0 == t;
        }
        assert records[|records| - 1].0 == last.0;
      }
      RecoverRecordSettles(start, queueSizeLimit, RecoverRecords(start, init, minted), last.0, last.1, minted);
    }
  }

  lemma NothingTouched(start: Database)
    ensures forall t: TransportType :: Untouched(start, start, t)
  {
  }

  lemma RecoverRecordSettles(start: Database, queueSizeLimit: nat, db: Database, t: TransportType, r: Row,
                             minted: Confirmed)
    requires Inv(db, queueSizeLimit) && IdsUnique(db) && Untouched(start, db, t)
    requires HasFlight(start, t) && r == start.Table(t)[start.Done(t)]
    ensures var db' := RecoverRecord(db, t, r, minted);
            && Inv(db', queueSizeLimit) && IdsUnique(db') && Settled(start, db', t, minted)
            && forall u: TransportType :: u != t ==>
                 && (Settled(start, db, u, minted) ==> Settled(start, db', u, minted))
                 && (Untouched(start, db, u) ==> Untouched(start, db', u))
  {
    hide Inv, IdsUnique, Settled;
    if r.solanaId.value in minted {
      ConfirmSettles(start, queueSizeLimit, db, t, r, minted);
    } else {
      ForgetSettles(start, queueSizeLimit, db, t, r, minted);
    }
    forall u: TransportType | u != t
      ensures Settled(start, db, u, minted) ==> Settled(start, RecoverRecord(db, t, r, minted), u, minted)
    {
      OtherSettled(start, db, RecoverRecord(db, t, r, minted), u, minted);
    }
  }

  lemma OtherSettled(start: Database, db: Database, db': Database, u: TransportType, minted: Confirmed)
    requires db'.Table(u) == db.Table(u) && db'.Done(u) == db.Done(u)
    ensures Settled(start, db, u, minted) ==> Settled(start, db', u, minted)
  {
  }

  lemma ConfirmSettles(start: Database, queueSizeLimit: nat, db: Database, t: TransportType, r: Row,
                       minted: Confirmed)
    requires Inv(db, queueSizeLimit) && IdsUnique(db) && Untouched(start, db, t)
    requires HasFlight(start, t) && r == start.Table(t)[start.Done(t)] && r.solanaId.value in minted
    ensures var db' := ConfirmSolana(db, r.solanaId.value, minted[r.solanaId.value]);
            && Inv(db', queueSizeLimit) && IdsUnique(db') && Settled(start, db', t, minted)
            && forall u: TransportType :: u != t ==> db'.Table(u) == db.Table(u) && db'.Done(u) == db.Done(u)
  {
    hide Inv, IdsUnique, Orderly;
    var id := r.solanaId.value;
    var db' := ConfirmSolana(db, id, minted[id]);
    assert forall u: TransportType :: db'.Table(u) == db.Table(u);
    assert OnlyFlight(db, t, id) by {
      UniqueFlightIsOnly(db, t);
    }
    FlightConfirmed(db, queueSizeLimit, t, id, minted[id]);
    NoFlightAfter(db, queueSizeLimit, t);
    SameTablesUnique(db, db');
    SameButIdsSelf(db.Table(t));
  }

  lemma NoFlightAfter(db: Database, queueSizeLimit: nat, t: TransportType)
    requires Inv(db, queueSizeLimit)
    ensures Flight(db.Table(t), db.Done(t) + 1).None?
  {
    SolanaTableIs(db, queueSizeLimit, t);
  }

  lemma SameTablesUnique(db: Database, db': Database)
    requires IdsUnique(db) && forall u: TransportType :: db'.Table(u) == db.Table(u)
    ensures IdsUnique(db')
  {
  }

  lemma ForgetSettles(start: Database, queueSizeLimit: nat, db: Database, t: TransportType, r: Row,
                      minted: Confirmed)
    requires Inv(db, queueSizeLimit) && IdsUnique(db) && Untouched(start, db, t)
    requires HasFlight(start, t) && r == start.Table(t)[start.Done(t)] && r.solanaId.value !in minted
    ensures var db' := RemoveSolana(db, r.burn, t);
            && Inv(db', queueSizeLimit) && IdsUnique(db') && Settled(start, db', t, minted)
            && forall u: TransportType :: u != t ==> db'.Table(u) == db.Table(u) && db'.Done(u) == db.Done(u)
  {
    hide Inv, IdsUnique;
    FrontForgotten(db, queueSizeLimit, r.burn, t);
    ForgettingKeepsUnique(db, t, r.burn);
  }

  lemma ForgettingKeepsUnique(db: Database, t: TransportType, burn: BurnId)
    requires IdsUnique(db)
    ensures IdsUnique(RemoveSolana(db, burn, t))
  {
    var db' := RemoveSolana(db, burn, t);
    forall u: TransportType, i | 0 <= i < |db'.Table(u)|
      ensures |db'.Table(u)| == |db.Table(u)|
      ensures db'.Table(u)[i].solanaId.Some? ==> db'.Table(u)[i].solanaId == db.Table(u)[i].solanaId
    {
    }
  }

  /** Run to its end, recovery leaves no row with an unconfirmed id: the row in flight of each
      chain is completed if its transaction minted and waits again otherwise. */
  lemma RecoveryGrounds(start: Database, queueSizeLimit: nat, minted: Confirmed)
    requires Inv(start, queueSizeLimit) && IdsUnique(start)
    ensures RecordsOf(start, InFlight(start))
    ensures var db := RecoverRecords(start, InFlight(start), minted);
            Inv(db, queueSizeLimit) && forall t: TransportType :: Settled(start, db, t, minted)
  {
    hide Inv, IdsUnique, InFlight;
    InFlightRecords(start, queueSizeLimit);
    RecoverRecordsSettles(start, queueSizeLimit, InFlight(start), minted);
    forall t: TransportType
      ensures Settled(start, RecoverRecords(start, InFlight(start), minted), t, minted)
    {
      if !Handled(InFlight(start), t) {
        assert !HasFlight(start, t);
        SameButIdsSelf(start.Table(t));
      }
    }
  }

  lemma SameButIdsSelf(rows: seq<Row>)
    ensures SameButIds(rows, rows)
  {
  }

  lemma InFlightRecords(db: Database, queueSizeLimit: nat)
    requires Inv(db, queueSizeLimit)
    ensures RecordsOf(db, InFlight(db))
    ensures forall t: TransportType :: Handled(InFlight(db), t) <==> HasFlight(db, t)
  {
    hide Inv, Orderly, InFlight;
    InFlightIs(db, queueSizeLimit);
    var records := InFlight(db);
    forall k | 0 <= k < |records|
      ensures var (t, r) := records[k]; HasFlight(db, t) && r == db.Table(t)[db.Done(t)]
    {
      assert (records[k].0, records[k].1) in records;
    }
    forall t: TransportType
      ensures Handled(records, t) <==> HasFlight(db, t)
    {
      if HasFlight(db, t) {
        assert (t, db.Table(t)[db.Done(t)]) in records;
      }
    }
    InFlightKindsDiffer(db, queueSizeLimit);
  }

  lemma InFlightKindsDiffer(db: Database, queueSizeLimit: nat)
    requires Inv(db, queueSizeLimit)
    ensures forall j, k :: 0 <= j < k < |InFlight(db)| ==> InFlight(db)[j].0 != InFlight(db)[k].0
  {
    hide Inv, Orderly;
    forall t: TransportType
      ensures |SelectInFlight(db.Table(t), db.solana)| <= 1
    {
      SolanaTableIs(db, queueSizeLimit, t);
      InFlightIsFront(db.Table(t), db.solana, db.Done(t), |db.Table(t)|);
      assert db.Table(t)[..|db.Table(t)|] == db.Table(t);
    }
    assert db.premined == db.Table(Premined) && db.airdrop == db.Table(Airdrop) && db.queue == db.Table(Regular);
  }

  // ---------- recovery over a list delivered more than once ----------

  /** Handling the record again changes nothing. */
  predicate Stable(db: Database, t: TransportType, r: Row, minted: Confirmed) {
    RecoverRecord(db, t, r, minted) == db
  }

  lemma StableAfter(db: Database, t: TransportType, r: Row, minted: Confirmed)
    ensures Stable(RecoverRecord(db, t, r, minted), t, r, minted)
  {
    if !(r.solanaId.Some? && r.solanaId.value in minted) {
      RerunIsHarmless(db, [], 0, r.burn, t, 0, 0);
    }
  }

  lemma StableStays(db: Database, t: TransportType, r: Row, u: TransportType, q: Row, minted: Confirmed)
    requires Stable(db, t, r, minted)
    ensures Stable(RecoverRecord(db, u, q, minted), t, r, minted)
  {
    if r.solanaId.Some? && r.solanaId.value in minted {
      ConfirmationStays(db, r.solanaId.value, u, q, minted);
    } else {
      ForgettingStays(db, t, r.burn, u, q, minted);
    }
  }

  lemma ConfirmationStays(db: Database, id: SolanaTxId, u: TransportType, q: Row, minted: Confirmed)
    requires id in minted && ConfirmSolana(db, id, minted[id]) == db
    ensures var db' := RecoverRecord(db, u, q, minted); ConfirmSolana(db', id, minted[id]) == db'
  {
    var db' := RecoverRecord(db, u, q, minted);
    if id in db.solana {
      assert ConfirmSolana(db, id, minted[id]).solana[id] == db.solana[id];
      assert db'.solana[id := db'.solana[id]] == db'.solana;
    }
  }

  lemma ForgettingStays(db: Database, t: TransportType, burn: BurnId, u: TransportType, q: Row, minted: Confirmed)
    requires RemoveSolana(db, burn, t) == db
    ensures var db' := RecoverRecord(db, u, q, minted); RemoveSolana(db', burn, t) == db'
  {
    var db' := RecoverRecord(db, u, q, minted);
    assert SetSolanaId(db.Table(t), burn, None) == db.Table(t);
    assert SetSolanaId(db'.Table(t), burn, None) == db'.Table(t) by {
      forall i | 0 <= i < |db'.Table(t)| && db'.Table(t)[i].burn == burn
        ensures db'.Table(t)[i].solanaId.None?
      {
        assert |db'.Table(t)| == |db.Table(t)|;
        assert db.Table(t)[i] == SetSolanaId(db.Table(t), burn, None)[i];
      }
    }
    assert db'.WithTable(t, db'.Table(t)) == db';
  }

  lemma {:induction false} HandledAreStable(db: Database, records: Records, minted: Confirmed)
    ensures forall k :: 0 <= k < |records| ==>
              Stable(RecoverRecords(db, records, minted), records[k].0, records[k].1, minted)
  {
    hide Stable, RecoverRecord;
    if records != [] {
      var init, last := records[..|records| - 1], records[|records| - 1];
      HandledAreStable(db, init, minted);
      var mid := RecoverRecords(db, init, minted);
      StableAfter(mid, last.0, last.1, minted);
      forall k | 0 <= k < |records|
        ensures Stable(RecoverRecord(mid, last.0, last.1, minted), records[k].0, records[k].1, minted)
      {
        if k < |init| {
          assert init[k] == records[k];
          StableStays(mid, records[k].0, records[k].1, last.0, last.1, minted);
        }
      }
    }
  }

  /** The loop may meet every record several times; from the second time on nothing changes. */
  lemma {:induction false} RepeatedRecovery(db: Database, records: Records, n: nat, minted: Confirmed, i: nat)
    requires |records| <= i <= |Repeat(records, n + 1)|
    ensures RecoverRecords(db, Repeat(records, n + 1)[..i], minted) == RecoverRecords(db, records, minted)
    decreases i
  {
    hide RecoverRecord, Stable, Repeat;
    var all := Repeat(records, n + 1);
    RepeatHead(records, n);
    if i > |records| {
      RepeatedRecovery(db, records, n, minted, i - 1);
      assert all[..i][..i - 1] == all[..i - 1] && all[..i][i - 1] == all[i - 1];
      RepeatMembers(records, n + 1);
      assert all[i - 1] in all;
      var k :| 0 <= k < |records| && records[k] == all[i - 1];
      HandledAreStable(db, records, minted);
      StableMeans(RecoverRecords(db, records, minted), records[k].0, records[k].1, minted);
    }
  }

  lemma StableMeans(db: Database, t: TransportType, r: Row, minted: Confirmed)
    ensures Stable(db, t, r, minted) <==> RecoverRecord(db, t, r, minted) == db
  {
  }

  lemma {:induction false} RepeatHead<T>(xs: seq<T>, n: nat)
    ensures |Repeat(xs, n + 1)| >= |xs| && Repeat(xs, n + 1)[..|xs|] == xs
  {
    if n == 0 {
      assert Repeat(xs, 1) == [] + xs;
    } else {
      RepeatHead(xs, n - 1);
      assert Repeat(xs, n + 1)[..|xs|] == Repeat(xs, n)[..|xs|];
    }
  }

  /** Before each turn either the record is still in flight, and nowhere else, or handling it changes nothing. */
  lemma RecoveryTurn(start: Database, queueSizeLimit: nat, records: Records, n: nat, minted: Confirmed, i: nat)
    requires Inv(start, queueSizeLimit) && IdsUnique(start) && RecordsOf(start, records) && i < |Repeat(records, n + 1)|
    ensures var all := Repeat(records, n + 1);
            var db := RecoverRecords(start, all[..i], minted);
            var (t, r) := all[i];
            && Inv(db, queueSizeLimit) && r.solanaId.Some?
            && RecoverRecords(start, all[..i + 1], minted) == RecoverRecord(db, t, r, minted)
            && ((IsFront(db, t, r.burn) && OnlyFlight(db, t, r.solanaId.value)) || RecoverRecord(db, t, r, minted) == db)
  {
    hide Inv, IdsUnique, Settled, RecoverRecord, OnlyFlight, Repeat, RecordsOf, IsFront;
    var all := Repeat(records, n + 1);
    RepeatHead(records, n);
    assert all[..i + 1][..i] == all[..i] && all[..i + 1][i] == all[i];
    assert all[i].1.solanaId.Some? by {
      RepeatMembers(records, n + 1);
      assert all[i] in all;
      RecordsHaveIds(start, records);
    }
    if i < |records| {
      assert all[..i] == all[..|records|][..i] && all[i] == all[..|records|][i];
      FirstTurn(start, queueSizeLimit, records, minted, i);
    } else {
      RepeatedRecovery(start, records, n, minted, i);
      RepeatedRecovery(start, records, n, minted, i + 1);
      RecoverRecordsSettles(start, queueSizeLimit, records, minted);
    }
  }

  lemma RecordsHaveIds(db: Database, records: Records)
    requires RecordsOf(db, records)
    ensures forall x :: x in records ==> x.1.solanaId.Some?
  {
  }

  lemma FirstTurn(start: Database, queueSizeLimit: nat, records: Records, minted: Confirmed, i: nat)
    requires Inv(start, queueSizeLimit) && IdsUnique(start) && RecordsOf(start, records) && i < |records|
    ensures var db := RecoverRecords(start, records[..i], minted);
            var (t, r) := records[i];
            Inv(db, queueSizeLimit) && IsFront(db, t, r.burn) && r.solanaId.Some? && OnlyFlight(db, t, r.solanaId.value)
  {
    hide Inv, IdsUnique, Settled;
    var db := RecoverRecords(start, records[..i], minted);
    var (t, r) := records[i];
    RecoverRecordsSettles(start, queueSizeLimit, records[..i], minted);
    assert !Handled(records[..i], t);
    assert Untouched(start, db, t);
    UniqueFlightIsOnly(db, t);
  }

  /** The ledger between two turns of the loop. */
  ghost predicate RecoveredUpTo(start: Database, db: Database, records: Records, minted: Confirmed) {
    exists i :: 0 <= i <= |records| && db == RecoverRecords(start, records[..i], minted)
  }

  /** A loop over a repeated list stops nowhere that the loop over the list would not. */
  lemma RecoveredStop(start: Database, records: Records, n: nat, minted: Confirmed, i: nat)
    requires i <= |Repeat(records, n + 1)|
    ensures RecoveredUpTo(start, RecoverRecords(start, Repeat(records, n + 1)[..i], minted), records, minted)
  {
    RepeatHead(records, n);
    if i <= |records| {
      assert Repeat(records, n + 1)[..i] == records[..i];
    } else {
      RepeatedRecovery(start, records, n, minted, i);
      assert records[..|records|] == records;
    }
  }

  lemma RecoveryBegins(start: Database, records: Records, n: nat, minted: Confirmed)
    ensures RecoverRecords(start, Repeat(records, n + 1)[..0], minted) == start
    ensures RecoveredUpTo(start, start, records, minted)
  {
    RecoveredStop(start, records, n, minted, 0);
  }

  lemma RecoveryEnds(start: Database, records: Records, n: nat, minted: Confirmed)
    ensures var all := Repeat(records, n + 1);
            RecoverRecords(start, all[..|all|], minted) == RecoverRecords(start, records, minted)
    ensures Repeat(records, n + 1) == [] ==> RecoverRecords(start, records, minted) == start
  {
    RepeatHead(records, n);
    RepeatedRecovery(start, records, n, minted, |Repeat(records, n + 1)|);
  }

  // ---------- minting ----------

  /** What one attempt of mint meets. A save may take effect though it is reported as failed. NotMinted covers
      a transaction that is known not to have minted and one whose status cannot be had. */
  datatype Attempt =
    | BuildFailed
    | SaveFailed(id: SolanaTxId, effect: bool)
    | NotMinted(id: SolanaTxId)
    | Minted(id: SolanaTxId, confirmFailures: nat)

  function WithRecorded(db: Database, burn: BurnId, t: TransportType, id: SolanaTxId, time: Time): Database {
    match AddSolana(db, burn, t, id, time)
    case Ok(db') => db'
    case Err(_) => db
  }

  /** What an attempt does to the ledger, and whether it ends mint. */
  function AttemptEffect(db: Database, req: Request, attempt: Attempt, now: Time): (Database, bool) {
    match attempt
    case BuildFailed => (db, false)
    case SaveFailed(id, effect) => (if effect then WithRecorded(db, req.burn, req.kind, id, now) else db, false)
    case NotMinted(id) => (WithRecorded(db, req.burn, req.kind, id, now), false)
    case Minted(id, _) =>
      if id in db.solana then (db, false)
      else (ConfirmSolana(WithRecorded(db, req.burn, req.kind, id, now), id, now), true)
  }

  /** What mint does to the ledger, attempt by attempt, until one ends it. */
  function MintEffect(db: Database, req: Request, script: seq<Attempt>, now: Time): (Database, bool)
    decreases |script|
  {
    if script == [] then (db, false)
    else
      var (db', done) := AttemptEffect(db, req, script[0], now);
      if done then (db', true) else MintEffect(db', req, script[1..], now)
  }

  /** The ledgers differ at most in the Solana id at the front of one chain. */
  predicate OnlyFrontChanged(db: Database, db': Database, t: TransportType) {
    && (forall u: TransportType :: u != t ==> db'.Table(u) == db.Table(u))
    && SameButIds(db.Table(t), db'.Table(t))
    && forall i :: 0 <= i < |db.Table(t)| && i != db.Done(t) ==> db'.Table(t)[i] == db.Table(t)[i]
  }

  lemma NothingChanged(db: Database, t: TransportType)
    ensures OnlyFrontChanged(db, db, t)
  {
  }

  lemma OnlyFrontChangedTrans(db: Database, mid: Database, db': Database, t: TransportType)
    requires OnlyFrontChanged(db, mid, t) && OnlyFrontChanged(mid, db', t) && mid.Done(t) == db.Done(t)
    ensures OnlyFrontChanged(db, db', t)
  {
  }

  lemma SameTablesChanged(db: Database, mid: Database, db': Database, t: TransportType)
    requires OnlyFrontChanged(db, mid, t) && forall u: TransportType :: db'.Table(u) == mid.Table(u)
    ensures OnlyFrontChanged(db, db', t)
  {
  }

  /** An id that is new to solana_transactions is recorded in no row. */
  lemma NewIdIsUnused(db: Database, queueSizeLimit: nat, id: SolanaTxId)
    requires Inv(db, queueSizeLimit) && id !in db.solana
    ensures forall u: TransportType, i :: 0 <= i < |db.Table(u)| ==> db.Table(u)[i].solanaId != Some(id)
  {
    hide Inv, Orderly;
    forall u: TransportType, i | 0 <= i < |db.Table(u)|
      ensures db.Table(u)[i].solanaId != Some(id)
    {
      SolanaTableIs(db, queueSizeLimit, u);
      assert db.Table(u)[i] in db.Table(u);
    }
  }

  /** The id just recorded at the front is recorded nowhere else. */
  lemma FrontRecordedOnly(db: Database, queueSizeLimit: nat, burn: BurnId, t: TransportType, id: SolanaTxId, time: Time)
    requires Inv(db, queueSizeLimit) && id !in db.solana && IsFront(db, t, burn)
    ensures var db' := WithRecorded(db, burn, t, id, time);
            && Inv(db', queueSizeLimit) && OnlyFlight(db', t, id) && IsFront(db', t, burn)
            && (PreminedInv(db) ==> PreminedInv(db'))
            && (forall u: TransportType :: db'.Done(u) == db.Done(u))
            && OnlyFrontChanged(db, db', t)
            && db'.Table(t)[db.Done(t)].solanaId == Some(id)
            && db'.flags == db.flags
  {
    hide Inv, Orderly, PreminedInv;
    FrontRecorded(db, queueSizeLimit, burn, t, id, time);
    NewIdIsUnused(db, queueSizeLimit, id);
    assert TableDistinct(db.Table(t)) by {
      SolanaTableIs(db, queueSizeLimit, t);
    }
    FrontIdOnly(db, WithRecorded(db, burn, t, id, time), burn, t, id);
  }

  lemma FrontIdOnly(db: Database, db': Database, burn: BurnId, t: TransportType, id: SolanaTxId)
    requires TableDistinct(db.Table(t)) && IsFront(db, t, burn)
    requires forall u: TransportType, i :: 0 <= i < |db.Table(u)| ==> db.Table(u)[i].solanaId != Some(id)
    requires forall u: TransportType ::
               db'.Table(u) == if u == t then SetSolanaId(db.Table(t), burn, Some(id)) else db.Table(u)
    requires forall u: TransportType :: db'.Done(u) == db.Done(u)
    ensures OnlyFlight(db', t, id) && IsFront(db', t, burn) && OnlyFrontChanged(db, db', t)
    ensures db'.Table(t)[db.Done(t)].solanaId == Some(id)
  {
    assert forall i :: 0 <= i < |db.Table(t)| && i != db.Done(t) ==> db'.Table(t)[i] == db.Table(t)[i];
  }

  // ---------- what mint achieves ----------

  /** A script touches only the row at the front of one chain; it completes exactly that row, by the id
      of the transaction that minted, or leaves completion as it was. */
  lemma {:induction false} MintEffectIs(db: Database, queueSizeLimit: nat, req: Request, script: seq<Attempt>, now: Time)
    requires Inv(db, queueSizeLimit) && IsFront(db, req.kind, req.burn)
    ensures var (db', done) := MintEffect(db, req, script, now);
            && Inv(db', queueSizeLimit) && (PreminedInv(db) ==> PreminedInv(db')) && db'.flags == db.flags
            && OnlyFrontChanged(db, db', req.kind)
            && (forall t: TransportType :: db'.Done(t) == db.Done(t) + (if done && t == req.kind then 1 else 0))
            && (!done ==> IsFront(db', req.kind, req.burn))
            && (done ==> exists k :: 0 <= k < |script| && script[k].Minted?
                                     && db'.Table(req.kind)[db.Done(req.kind)].solanaId == Some(script[k].id)
                                     && MintedAt(db', script[k].id, now))
            && (!done ==> forall k :: 0 <= k < |script| && script[k].Minted? ==> script[k].id in db'.solana)
    decreases |script|
  {
    hide Inv, PreminedInv, OnlyFrontChanged, OnlyFlight, IsFront, AttemptEffect;
    if script == [] {
      NothingChanged(db, req.kind);
    } else {
      var (mid, done) := AttemptEffect(db, req, script[0], now);
      AttemptIs(db, queueSizeLimit, req, script[0], now);
      if !done {
        MintEffectIs(mid, queueSizeLimit, req, script[1..], now);
        var (db', done') := MintEffect(mid, req, script[1..], now);
        OnlyFrontChangedTrans(db, mid, db', req.kind);
        EffectKeepsIds(mid, req, script[1..], now);
        if done' {
          var k :| 0 <= k < |script[1..]| && script[1..][k].Minted?
                   && db'.Table(req.kind)[mid.Done(req.kind)].solanaId == Some(script[1..][k].id)
                   && MintedAt(db', script[1..][k].id, now);
          assert script[k + 1] == script[1..][k];
        } else {
          forall k | 0 <= k < |script| && script[k].Minted?
            ensures script[k].id in db'.solana
          {
            assert k > 0 ==> script[k] == script[1..][k - 1];
          }
        }
      }
    }
  }

  lemma {:induction false} EffectKeepsIds(db: Database, req: Request, script: seq<Attempt>, now: Time)
    ensures db.solana.Keys <= MintEffect(db, req, script, now).0.solana.Keys
    decreases |script|
  {
    if script != [] && !AttemptEffect(db, req, script[0], now).1 {
      EffectKeepsIds(AttemptEffect(db, req, script[0], now).0, req, script[1..], now);
    }
  }

  lemma AttemptIs(db: Database, queueSizeLimit: nat, req: Request, attempt: Attempt, now: Time)
    requires Inv(db, queueSizeLimit) && IsFront(db, req.kind, req.burn)
    ensures var (db', done) := AttemptEffect(db, req, attempt, now);
            && Inv(db', queueSizeLimit) && (PreminedInv(db) ==> PreminedInv(db')) && db'.flags == db.flags
            && OnlyFrontChanged(db, db', req.kind)
            && (forall t: TransportType :: db'.Done(t) == db.Done(t) + (if done && t == req.kind then 1 else 0))
            && (!done ==> IsFront(db', req.kind, req.burn))
            && (done ==> && attempt.Minted? && db'.Table(req.kind)[db.Done(req.kind)].solanaId == Some(attempt.id)
                         && MintedAt(db', attempt.id, now))
            && (!done && attempt.Minted? ==> attempt.id in db'.solana)
  {
    hide Inv, PreminedInv, OnlyFrontChanged, OnlyFlight, IsFront, WithRecorded;
    NothingChanged(db, req.kind);
    if !attempt.BuildFailed? {
      if attempt.id in db.solana {
        AlreadyRecorded(db, req, attempt.id, now);
      } else {
        FrontRecordedOnly(db, queueSizeLimit, req.burn, req.kind, attempt.id, now);
        if attempt.Minted? {
          var mid := WithRecorded(db, req.burn, req.kind, attempt.id, now);
          FlightConfirmed(mid, queueSizeLimit, req.kind, attempt.id, now);
          ConfirmedTables(mid, attempt.id, now);
          SavedAndConfirmed(db, req, attempt.id, now);
          SameTablesChanged(db, mid, ConfirmSolana(mid, attempt.id, now), req.kind);
        }
      }
    }
  }

  /** The transaction is held as broadcast and confirmed at that time. */
  predicate MintedAt(db: Database, id: SolanaTxId, now: Time) {
    id in db.solana && db.solana[id] == SolanaRow(now, Some(now), true)
  }

  lemma SavedAndConfirmed(db: Database, req: Request, id: SolanaTxId, now: Time)
    requires id !in db.solana
    ensures MintedAt(ConfirmSolana(WithRecorded(db, req.burn, req.kind, id, now), id, now), id, now)
  {
  }

  lemma AlreadyRecorded(db: Database, req: Request, id: SolanaTxId, now: Time)
    requires id in db.solana
    ensures WithRecorded(db, req.burn, req.kind, id, now) == db
  {
  }

  lemma ConfirmedTables(db: Database, id: SolanaTxId, now: Time)
    ensures forall t: TransportType :: ConfirmSolana(db, id, now).Table(t) == db.Table(t)
    ensures ConfirmSolana(db, id, now).flags == db.flags
  {
  }
}
