/** What the storage methods are proved against: allowances, batches, ordered reads, and the
    Solana bookkeeping of the row at the front of a chain. */
module StorageSpec {
  import opened Common
  import opened Tables
  import opened Ledger

  datatype QueueQuote = QueueQuote(freeCapacity: nat, queueSize: nat)

  datatype Allowance = Allowance(queue: QueueQuote, airdrop: nat, premined: map<UnlockHash, nat>)

  function Min(a: int, b: int): int {
    if a <= b then a else b
  }

  function PositivePart(a: int): nat {
    if a < 0 then 0 else a
  }

  /** SELECT * FROM premined_limits WHERE address = ANY(addresses) AND blocked = FALSE. */
  predicate Usable(db: Database, a: UnlockHash) {
    a in db.limits && !db.limits[a].blocked
  }

  /** The address is not depleted; a depleted one spends like a regular address. */
  predicate Spendable(db: Database, a: UnlockHash) {
    Usable(db, a) && db.limits[a].transported < db.limits[a].allowedMax
  }

  predicate AllDifferent(addresses: seq<UnlockHash>) {
    forall i, j :: 0 <= i < j < |addresses| ==> addresses[i] != addresses[j]
  }

  // ---------- queries ----------

  /** The results of `n` attempts, each appended to the same list. */
  function Repeat<T>(xs: seq<T>, n: nat): seq<T> {
    if n == 0 then [] else Repeat(xs, n - 1) + xs
  }

  lemma {:induction false} RepeatLength<T>(xs: seq<T>, n: nat)
    ensures |Repeat(xs, n)| == n * |xs|
  {
    if n > 0 {
      RepeatLength(xs, n - 1);
    }
  }

  function InsertByTime(us: seq<Unconfirmed>, u: Unconfirmed): seq<Unconfirmed> {
    if us == [] || us[|us| - 1].time <= u.time then us + [u]
    else InsertByTime(us[..|us| - 1], u) + [us[|us| - 1]]
  }

  /** SELECT * FROM unconfirmed_burns WHERE time < before ORDER BY time. */
  function SelectBefore(us: seq<Unconfirmed>, before: Time): seq<Unconfirmed> {
    if us == [] then []
    else
      var rest := SelectBefore(us[..|us| - 1], before);
      if us[|us| - 1].time < before then InsertByTime(rest, us[|us| - 1]) else rest
  }

  predicate OldestFirst(us: seq<Unconfirmed>) {
    forall i, j :: 0 <= i < j < |us| ==> us[i].time <= us[j].time
  }

  lemma {:induction false} InsertByTimeMembers(us: seq<Unconfirmed>, u: Unconfirmed)
    ensures forall v :: v in InsertByTime(us, u) <==> v == u || v in us
  {
    if us != [] && us[|us| - 1].time > u.time {
      assert us == us[..|us| - 1] + [us[|us| - 1]];
      InsertByTimeMembers(us[..|us| - 1], u);
    }
  }

  lemma {:induction false} InsertByTimeIs(us: seq<Unconfirmed>, u: Unconfirmed)
    requires OldestFirst(us) && Distinct(us)
    requires forall v :: v in us ==> v.burn != u.burn
    ensures OldestFirst(InsertByTime(us, u)) && Distinct(InsertByTime(us, u))
  {
    if us != [] && us[|us| - 1].time > u.time {
      var init, last := us[..|us| - 1], us[|us| - 1];
      InsertByTimeIs(init, u);
      InsertByTimeMembers(init, u);
      var out := InsertByTime(init, u);
      forall i | 0 <= i < |out|
        ensures out[i].time <= last.time && out[i].burn != last.burn
      {
        assert out[i] == u || out[i] in init;
      }
    } else {
      forall i | 0 <= i < |us|
        ensures us[i].burn != u.burn
      {
        assert us[i] in us;
      }
    }
  }

  lemma {:induction false} SelectBeforeIs(us: seq<Unconfirmed>, before: Time)
    requires Distinct(us)
    ensures OldestFirst(SelectBefore(us, before)) && Distinct(SelectBefore(us, before))
    ensures forall u :: u in SelectBefore(us, before) <==> u in us && u.time < before
  {
    if us != [] {
      var init, last := us[..|us| - 1], us[|us| - 1];
      assert us == init + [last];
      SelectBeforeIs(init, before);
      forall u | u in init
        ensures u.burn != last.burn
      {
        var i :| 0 <= i < |init| && init[i] == u;
        assert us[i].burn != us[|us| - 1].burn;
      }
      InsertByTimeIs(SelectBefore(init, before), last);
      InsertByTimeMembers(SelectBefore(init, before), last);
    }
  }

  /** DELETE FROM unconfirmed_burns WHERE burn_id = ANY(ids). */
  function DeleteAny(us: seq<Unconfirmed>, ids: seq<BurnId>): seq<Unconfirmed> {
    if us == [] then []
    else DeleteAny(us[..|us| - 1], ids) + (if us[|us| - 1].burn in ids then [] else [us[|us| - 1]])
  }

  lemma {:induction false} DeleteAnyNone(us: seq<Unconfirmed>)
    ensures DeleteAny(us, []) == us
  {
    if us != [] {
      DeleteAnyNone(us[..|us| - 1]);
      assert us == us[..|us| - 1] + [us[|us| - 1]];
    }
  }

  lemma {:induction false} WithoutAppend(us: seq<Unconfirmed>, u: Unconfirmed, burn: BurnId)
    ensures Without(us + [u], burn) == Without(us, burn) + (if u.burn == burn then [] else [u])
  {
    assert (us + [u])[..|us|] == us;
  }

  /** Deleting a batch at the end is deleting its burns one at a time. */
  lemma {:induction false} DeleteAnyAppend(us: seq<Unconfirmed>, ids: seq<BurnId>, burn: BurnId)
    ensures DeleteAny(us, ids + [burn]) == Without(DeleteAny(us, ids), burn)
  {
    if us != [] {
      var init, last := us[..|us| - 1], us[|us| - 1];
      DeleteAnyAppend(init, ids, burn);
      if last.burn !in ids {
        WithoutAppend(DeleteAny(init, ids), last, burn);
      } else {
        assert DeleteAny(us, ids) == DeleteAny(init, ids);
      }
    }
  }

  // ---------- batches ----------

  predicate IsRequestFor(req: Request, u: Unconfirmed) {
    req.kind == u.kind && req.burn == u.burn && req.recipient == u.recipient && req.amount == u.amount
  }

  /** Some row of the request's table reads back as the request. */
  predicate Stored(db: Database, req: Request) {
    exists i :: 0 <= i < |db.Table(req.kind)| && ToRequest(req.kind, db.Table(req.kind)[i]) == req
  }

  lemma StoredStays(db: Database, db': Database, reqs: seq<Request>)
    requires forall t: TransportType :: db.Table(t) <= db'.Table(t)
    requires forall k :: 0 <= k < |reqs| ==> Stored(db, reqs[k])
    ensures forall k :: 0 <= k < |reqs| ==> Stored(db', reqs[k])
  {
    forall k | 0 <= k < |reqs|
      ensures Stored(db', reqs[k])
    {
      var t := reqs[k].kind;
      var i :| 0 <= i < |db.Table(t)| && ToRequest(t, db.Table(t)[i]) == reqs[k];
      assert db.Table(t) <= db'.Table(t);
      assert db'.Table(t)[i] == db.Table(t)[i];
    }
  }

  lemma InsertIgnoresUnconfirmed(db: Database, us: seq<Unconfirmed>, u: Unconfirmed, prev: int, now: Time)
    ensures InsertTransport(db.(unconfirmed := us), u, prev, now)
            == match InsertTransport(db, u, prev, now)
               case Err(e) => Err(e)
               case Ok(db') => Ok(db'.(unconfirmed := us))
    ensures SupplyAfterTransports(db.(unconfirmed := us), u.kind) == SupplyAfterTransports(db, u.kind)
  {
    assert db.(unconfirmed := us).Table(u.kind) == db.Table(u.kind);
  }

  lemma {:induction false} ConfirmAllFailsEarly(db: Database, us: seq<Unconfirmed>, now: Time, k: nat)
    requires k <= |us| && ConfirmAll(db, us[..k], now).Err?
    ensures ConfirmAll(db, us, now).Err?
    decreases |us| - k
  {
    if k < |us| {
      assert us[..k + 1][..k] == us[..k];
      ConfirmAllFailsEarly(db, us, now, k + 1);
    } else {
      assert us[..k] == us;
    }
  }

  function BurnIds(us: seq<Unconfirmed>): (ids: seq<BurnId>)
    ensures |ids| == |us| && forall k :: 0 <= k < |us| ==> ids[k] == us[k].burn
  {
    seq(|us|, k requires 0 <= k < |us| => us[k].burn)
  }

  lemma BurnIdsAppend(us: seq<Unconfirmed>, i: nat)
    requires i < |us|
    ensures BurnIds(us[..i + 1]) == BurnIds(us[..i]) + [us[i].burn]
    ensures us[..i + 1] != [] && us[..i + 1][..|us[..i + 1]| - 1] == us[..i] && us[..i + 1][|us[..i + 1]| - 1] == us[i]
  {
  }

  /** The database with the rows of a batch inserted and its burns deleted. */
  function Deleted(work: Database, us: seq<Unconfirmed>): Database {
    work.(unconfirmed := DeleteAny(work.unconfirmed, BurnIds(us)))
  }

  /** The first `i` burns of the batch are inserted, and none is deleted yet. */
  predicate Inserted(start: Database, txs: seq<Unconfirmed>, now: Time, i: nat, work: Database) {
    && i <= |txs|
    && work.unconfirmed == start.unconfirmed
    && ConfirmAll(start, txs[..i], now) == Ok(Deleted(work, txs[..i]))
  }

  predicate Cached(supplyMap: map<TransportType, nat>, work: Database) {
    forall t :: t in supplyMap ==> supplyMap[t] == SupplyAfterTransports(work, t)
  }

  predicate Requested(reqs: seq<Request>, txs: seq<Unconfirmed>, work: Database) {
    && |reqs| <= |txs|
    && forall k :: 0 <= k < |reqs| ==> IsRequestFor(reqs[k], txs[k]) && Stored(work, reqs[k])
  }

  lemma BatchStart(start: Database, txs: seq<Unconfirmed>, now: Time)
    ensures Inserted(start, txs, now, 0, start)
  {
    DeleteAnyNone(start.unconfirmed);
    assert txs[..0] == [];
    assert BurnIds(txs[..0]) == [];
  }

  /** One iteration, against confirming the burn on its own after the others. */
  lemma BatchIteration(start: Database, txs: seq<Unconfirmed>, now: Time, i: nat, work: Database)
    requires i < |txs| && Inserted(start, txs, now, i, work)
    ensures var tx, mid := txs[i], Deleted(work, txs[..i]);
            var inserted := InsertTransport(work, tx, SupplyAfterTransports(work, tx.kind), now);
            && SupplyAfterTransports(mid, tx.kind) == SupplyAfterTransports(work, tx.kind)
            && ConfirmAll(start, txs[..i + 1], now) == ConfirmOne(mid, tx, now)
            && (inserted.Err? <==> ConfirmOne(mid, tx, now).Err?)
            && (inserted.Ok? ==> Inserted(start, txs, now, i + 1, inserted.value)
                                 && ConfirmOne(mid, tx, now).value == Deleted(inserted.value, txs[..i + 1]))
  {
    hide InsertAllowed, TransportRow, SupplyAfterTransports;
    var tx, mid := txs[i], Deleted(work, txs[..i]);
    BurnIdsAppend(txs, i);
    InsertIgnoresUnconfirmed(work, mid.unconfirmed, tx, SupplyAfterTransports(work, tx.kind), now);
    DeleteAnyAppend(start.unconfirmed, BurnIds(txs[..i]), tx.burn);
  }

  lemma DeletedTables(work: Database, us: seq<Unconfirmed>)
    ensures forall t: TransportType :: Deleted(work, us).Table(t) == work.Table(t)
    ensures forall t: TransportType :: SupplyAfterTransports(Deleted(work, us), t) == SupplyAfterTransports(work, t)
    ensures forall req :: Stored(Deleted(work, us), req) <==> Stored(work, req)
  {
    forall t: TransportType
      ensures Deleted(work, us).Table(t) == work.Table(t)
    {
    }
  }

  /** One iteration of the loop with its cached supply, for rows listed in any way. */
  lemma BatchStep(start: Database, txs: seq<Unconfirmed>, now: Time, i: nat, work: Database)
    requires Base(start) && WereRows(start, txs) && i < |txs| && Inserted(start, txs, now, i, work)
    ensures var tx := txs[i];
            var supply := SupplyAfterTransports(work, tx.kind);
            var inserted := InsertTransport(work, tx, supply, now);
            && (inserted.Err? ==> ConfirmAll(start, txs, now).Err?)
            && (inserted.Ok? ==>
                  var work' := inserted.value;
                  && Inserted(start, txs, now, i + 1, work')
                  && (forall t: TransportType :: work.Table(t) <= work'.Table(t))
                  && (forall t: TransportType ::
                        SupplyAfterTransports(work', t)
                        == if t == tx.kind then supply + tx.amount else SupplyAfterTransports(work, t))
                  && Stored(work', Request(tx.kind, tx.burn, tx.recipient, tx.amount, supply)))
  {
    hide Base, InsertTransport, ConfirmOne, Deleted, SupplyAfterTransports, Stored;
    var tx, mid := txs[i], Deleted(work, txs[..i]);
    var inserted := InsertTransport(work, tx, SupplyAfterTransports(work, tx.kind), now);
    BatchIteration(start, txs, now, i, work);
    if inserted.Err? {
      ConfirmAllFailsEarly(start, txs, now, i + 1);
    } else {
      ConfirmAllNeedsFreshRows(start, txs[..i + 1], now);
      assert txs[..i + 1][..i] == txs[..i] && txs[..i + 1][i] == tx;
      BatchInserted(start, txs[..i + 1], now, i, mid);
      DeletedTables(work, txs[..i]);
      DeletedTables(inserted.value, txs[..i + 1]);
    }
  }

  lemma BatchEnd(start: Database, queueSizeLimit: nat, txs: seq<Unconfirmed>, now: Time, work: Database)
    requires Inv(start, queueSizeLimit) && WereRows(start, txs) && Inserted(start, txs, now, |txs|, work)
    ensures ConfirmAll(start, txs, now) == Ok(Deleted(work, txs)) && Inv(Deleted(work, txs), queueSizeLimit)
    ensures PreminedInv(start) ==> PreminedInv(Deleted(work, txs))
    ensures txs[..|txs|] == txs && FromTable(start, txs)
  {
    hide Base;
    assert txs[..|txs|] == txs;
    ConfirmAllNeedsFreshRows(start, txs, now);
    ConfirmAllKeepsInv(start, queueSizeLimit, txs, now);
  }

  lemma BatchInserted(db: Database, txs: seq<Unconfirmed>, now: Time, i: nat, mid: Database)
    requires Base(db) && FromTable(db, txs) && i < |txs|
    requires ConfirmAll(db, txs[..i], now) == Ok(mid)
    requires ConfirmOne(mid, txs[i], now).Ok?
    ensures var tx := txs[i];
            var supply := SupplyAfterTransports(mid, tx.kind);
            var db' := ConfirmOne(mid, tx, now).value;
            && (forall t: TransportType :: mid.Table(t) <= db'.Table(t))
            && (forall t: TransportType ::
                  SupplyAfterTransports(db', t)
                  == if t == tx.kind then supply + tx.amount else SupplyAfterTransports(mid, t))
            && Stored(db', Request(tx.kind, tx.burn, tx.recipient, tx.amount, supply))
  {
    hide ConfirmOne, Base;
    var tx := txs[i];
    var db' := ConfirmOne(mid, tx, now).value;
    assert FromTable(db, txs[..i]);
    ConfirmAllKeepsBase(db, txs[..i], now);
    assert tx in mid.unconfirmed;
    ConfirmOneAppends(mid, tx, now);
    ConfirmOneKeepsBase(mid, tx, now);
    SuppliesAre(mid);
    SuppliesAre(db');
    AmountIsInt64(mid, tx);
    var rows := db'.Table(tx.kind);
    assert ToRequest(tx.kind, rows[|rows| - 1])
           == Request(tx.kind, tx.burn, tx.recipient, tx.amount, End(mid.Table(tx.kind)));
  }

  lemma SuppliesAre(db: Database)
    requires Base(db)
    ensures forall t: TransportType ::
              SupplyAfterTransports(db, t) == End(db.Table(t)) && 0 <= End(db.Table(t)) <= MAX_INT64
  {
    forall t: TransportType
      ensures SupplyAfterTransports(db, t) == End(db.Table(t)) && 0 <= End(db.Table(t)) <= MAX_INT64
    {
      SupplyIsEnd(db, t);
    }
  }

  lemma AmountIsInt64(db: Database, u: Unconfirmed)
    requires Base(db) && u in db.unconfirmed
    ensures 0 < u.amount <= MAX_INT64 && ToInt64(u.amount) == u.amount
    ensures u.kind.Premined? ==> u.source.Some? && u.source.value in db.limits
  {
  }

  lemma RowsAreReadable(db: Database, us: seq<Unconfirmed>)
    requires Base(db) && RowsOf(db, us)
    ensures Readable(us)
  {
  }

  lemma DeletedIs(work: Database, us: seq<Unconfirmed>)
    ensures Deleted(work, us) == work.(unconfirmed := DeleteAny(work.unconfirmed, BurnIds(us)))
  {
  }

  lemma RemovalStart(start: Database, txs: seq<Unconfirmed>)
    ensures RemoveAll(start, txs[..0]) == Deleted(start, txs[..0])
  {
    DeleteAnyNone(start.unconfirmed);
    assert BurnIds(txs[..0]) == [];
  }

  /** Giving the amount back now and deleting at the end is removing the burn on its own. */
  lemma RemovalStep(start: Database, txs: seq<Unconfirmed>, i: nat, work: Database)
    requires Readable(txs) && i < |txs|
    requires work.unconfirmed == start.unconfirmed && RemoveAll(start, txs[..i]) == Deleted(work, txs[..i])
    ensures var tx := txs[i];
            var work' := if tx.kind.Premined?
                         then work.(limits := Transported(work.limits, tx, 0 - ToInt64(tx.amount)))
                         else work;
            RemoveAll(start, txs[..i + 1]) == Deleted(work', txs[..i + 1])
  {
    var tx := txs[i];
    assert tx in txs;
    BurnIdsAppend(txs, i);
    RemovedNext(RemoveAll(start, txs[..i]), work, txs, i);
    DeleteAnyAppend(start.unconfirmed, BurnIds(txs[..i]), tx.burn);
  }

  lemma RemovedNext(mid: Database, work: Database, txs: seq<Unconfirmed>, i: nat)
    requires i < |txs| && mid == Deleted(work, txs[..i])
    ensures RemoveOne(mid, txs[i])
            == work.(unconfirmed := Without(DeleteAny(work.unconfirmed, BurnIds(txs[..i])), txs[i].burn),
                     limits := Transported(work.limits, txs[i], 0 - txs[i].amount))
  {
  }

  // ---------- removals that run more than once ----------

  /** A removal list that failed commits delivered several times, or a removal whose closure runs again
      after its effect was reported as failed, keeps the premined accounts exactly if there was no
      repetition or no premined burn to remove. */
  lemma RepeatedRemovalIff(db: Database, us: seq<Unconfirmed>, n: nat)
    requires Base(db) && PreminedInv(db) && FromTable(db, us)
    ensures PreminedInv(RemoveAll(db, Repeat(us, n + 1))) <==> n == 0 || forall u :: u in us ==> !u.kind.Premined?
    ensures PreminedInv(RemoveAll(RemoveAll(db, us), us)) <==> forall u :: u in us ==> !u.kind.Premined?
  {
    RepeatMembers(us, n + 1);
    RemovalKeepsPreminedIff(db, Repeat(us, n + 1));
    RepeatedIff(us, n);
    assert Repeat(us, 2) == Repeat(us, 1) + us == us + us by {
      assert Repeat(us, 1) == [] + us;
    }
    RepeatMembers(us, 2);
    RemovalKeepsPreminedIff(db, us + us);
    RepeatedIff(us, 1);
    RemoveAllAppend(db, us, us);
  }

  lemma RepeatedIff(us: seq<Unconfirmed>, n: nat)
    requires Distinct(us)
    ensures RepeatsPremined(Repeat(us, n + 1)) <==> n > 0 && exists u :: u in us && u.kind.Premined?
  {
    var all := Repeat(us, n + 1);
    if n == 0 {
      assert all == [] + us == us;
    } else {
      RepeatMembers(us, n + 1);
      RepeatMembers(us, n);
      assert all == Repeat(us, n) + us;
      if u :| u in us && u.kind.Premined? {
        var k :| 0 <= k < |us| && us[k] == u;
        var i :| 0 <= i < |Repeat(us, n)| && Repeat(us, n)[i] == u;
        var j := |Repeat(us, n)| + k;
        assert all[i] == u && all[j] == u;
      }
      if i, j :| 0 <= i < j < |all| && all[i].burn == all[j].burn && all[j].kind.Premined? {
        assert all[j] in all;
      }
    }
  }

  /** A confirmation list delivered several times is refused by the primary keys, and so is a
      confirmation whose closure runs again, unless there is nothing to confirm. */
  lemma RepeatedConfirmationIsRefused(db: Database, us: seq<Unconfirmed>, n: nat, now: Time)
    requires Base(db) && FromTable(db, us) && us != []
    ensures n > 0 ==> ConfirmAll(db, Repeat(us, n + 1), now).Err?
    ensures ConfirmAll(db, us, now).Ok? ==> ConfirmAll(ConfirmAll(db, us, now).value, us, now).Err?
  {
    if n > 0 {
      RepeatMembers(us, n + 1);
      RepeatMembers(us, n);
      var all := Repeat(us, n + 1);
      assert all == Repeat(us, n) + us;
      assert us[0] in Repeat(us, n);
      var i :| 0 <= i < |Repeat(us, n)| && Repeat(us, n)[i] == us[0];
      assert all[i].burn == all[|Repeat(us, n)|].burn;
      assert !Distinct(all);
      if ConfirmAll(db, all, now).Ok? {
        ConfirmAllNeedsFreshRows(db, all, now);
      }
    }
    if ConfirmAll(db, us, now).Ok? {
      var db' := ConfirmAll(db, us, now).value;
      ConfirmAllKeepsBase(db, us, now);
      ConfirmAllNeedsFreshRows(db, us, now);
      assert us[0] in us && us[0] !in db'.unconfirmed;
      if ConfirmAll(db', us, now).Ok? {
        ConfirmAllNeedsFreshRows(db', us, now);
      }
    }
  }

  /** The other writes may run again without harm. */
  lemma RerunIsHarmless(db: Database, burns: seq<BurnId>, height: nat, burn: BurnId, t: TransportType, id: SolanaTxId, time: Time)
    ensures SetHeights(SetHeights(db.unconfirmed, burns, height), burns, height) == SetHeights(db.unconfirmed, burns, height)
    ensures RemoveSolana(RemoveSolana(db, burn, t), burn, t) == RemoveSolana(db, burn, t)
    ensures ConfirmSolana(ConfirmSolana(db, id, time), id, time) == ConfirmSolana(db, id, time)
  {
    SetHeightsEffect(db.unconfirmed, burns, height);
    SetHeightsEffect(SetHeights(db.unconfirmed, burns, height), burns, height);
    assert SetSolanaId(SetSolanaId(db.Table(t), burn, None), burn, None) == SetSolanaId(db.Table(t), burn, None);
  }

  lemma HeightRoundTrip(height: nat)
    requires height < TWO64
    ensures ToUint64(ToInt64(height)) == height
  {
  }

  // ---------- the row at the front ----------

  /** The burn's row is the first uncompleted one of its chain. */
  predicate IsFront(db: Database, t: TransportType, burn: BurnId) {
    db.Done(t) < |db.Table(t)| && db.Table(t)[db.Done(t)].burn == burn
  }

  lemma SolanaTableIs(db: Database, queueSizeLimit: nat, t: TransportType)
    requires Inv(db, queueSizeLimit)
    ensures TableDistinct(db.Table(t)) && Orderly(db.Table(t), db.solana, db.Done(t))
    ensures forall r :: r in db.Table(t) && r.solanaId.Some? ==> r.solanaId.value in db.solana
  {
  }

  lemma FrontUpdated(rows: seq<Row>, sol: SolanaTable, n: nat, sid: Option<SolanaTxId>, sol': SolanaTable)
    requires TableDistinct(rows) && Orderly(rows, sol, n) && n < |rows|
    requires forall i :: 0 <= i < |rows| && i != n ==> (Completed(rows[i], sol') <==> Completed(rows[i], sol))
    requires sid.Some? ==> sid.value in sol' && !sol'[sid.value].confirmed
    ensures var rows' := SetSolanaId(rows, rows[n].burn, sid);
            && SameButIds(rows, rows') && Orderly(rows', sol', n) && DoneCount(rows', sol') == n && Flight(rows', n) == sid
            && forall i :: 0 <= i < |rows| && i != n ==> rows'[i] == rows[i]
  {
    var rows' := SetSolanaId(rows, rows[n].burn, sid);
    assert forall i :: 0 <= i < |rows| && i != n ==> rows[i].burn != rows[n].burn;
    DoneCountIs(rows', sol', n);
  }

  lemma FrontRecorded(db: Database, queueSizeLimit: nat, burn: BurnId, t: TransportType, id: SolanaTxId, time: Time)
    requires Inv(db, queueSizeLimit) && id !in db.solana && IsFront(db, t, burn)
    ensures var db' := AddSolana(db, burn, t, id, time).value;
            && (PreminedInv(db) ==> PreminedInv(db'))
            && Inv(db', queueSizeLimit) && Flight(db'.Table(t), db'.Done(t)) == Some(id)
            && forall u: TransportType :: db'.Done(u) == db.Done(u) && SameButIds(db.Table(u), db'.Table(u))
  {
    hide Inv, Orderly, PreminedInv;
    var db' := AddSolana(db, burn, t, id, time).value;
    forall u: TransportType
      ensures SameButIds(db.Table(u), db'.Table(u)) && db'.Done(u) == db.Done(u)
      ensures Orderly(db'.Table(u), db'.solana, db'.Done(u))
      ensures forall r :: r in db'.Table(u) && r.solanaId.Some? ==> r.solanaId.value in db'.solana
      ensures u == t ==> Flight(db'.Table(u), db'.Done(u)) == Some(id)
    {
      SolanaTableIs(db, queueSizeLimit, u);
      assert forall i :: 0 <= i < |db.Table(u)| ==>
               (Completed(db.Table(u)[i], db'.solana) <==> Completed(db.Table(u)[i], db.solana));
      if u == t {
        FrontUpdated(db.Table(t), db.solana, db.Done(t), Some(id), db'.solana);
      } else {
        OtherTable(db.Table(u), db.solana, db.Done(u), db'.solana);
      }
    }
    SolanaChangeKeepsInv(db, queueSizeLimit, db');
  }

  lemma OtherTable(rows: seq<Row>, sol: SolanaTable, n: nat, sol': SolanaTable)
    requires Orderly(rows, sol, n)
    requires forall i :: 0 <= i < |rows| ==> (Completed(rows[i], sol') <==> Completed(rows[i], sol))
    ensures SameButIds(rows, rows) && Orderly(rows, sol', n) && DoneCount(rows, sol') == n
  {
    DoneCountIs(rows, sol', n);
  }

  lemma FrontForgotten(db: Database, queueSizeLimit: nat, burn: BurnId, t: TransportType)
    requires Inv(db, queueSizeLimit) && IsFront(db, t, burn)
    ensures var db' := RemoveSolana(db, burn, t);
            && (PreminedInv(db) ==> PreminedInv(db'))
            && Inv(db', queueSizeLimit) && Flight(db'.Table(t), db'.Done(t)).None?
            && forall u: TransportType :: db'.Done(u) == db.Done(u) && SameButIds(db.Table(u), db'.Table(u))
  {
    hide Inv, Orderly, PreminedInv;
    var db' := RemoveSolana(db, burn, t);
    forall u: TransportType
      ensures SameButIds(db.Table(u), db'.Table(u)) && db'.Done(u) == db.Done(u)
      ensures Orderly(db'.Table(u), db'.solana, db'.Done(u))
      ensures forall r :: r in db'.Table(u) && r.solanaId.Some? ==> r.solanaId.value in db'.solana
      ensures u == t ==> Flight(db'.Table(u), db'.Done(u)).None?
    {
      SolanaTableIs(db, queueSizeLimit, u);
      if u == t {
        FrontUpdated(db.Table(t), db.solana, db.Done(t), None, db'.solana);
      } else {
        OtherTable(db.Table(u), db.solana, db.Done(u), db'.solana);
      }
    }
    SolanaChangeKeepsInv(db, queueSizeLimit, db');
  }

  // ---------- what the reads return ----------

  datatype Record = Record(request: Request, solanaTx: Option<SolanaTxId>, completed: bool)

  /** The next uncompleted rows of a chain below the bound, as requests. */
  function NextRows(db: Database, t: TransportType, bound: Option<int>): seq<Request> {
    ToRequests(t, db.Table(t)[db.Done(t)..Below(db.Table(t), db.Done(t), bound)])
  }

  lemma RowStored(db: Database, t: TransportType, r: Row)
    requires r in db.Table(t)
    ensures Stored(db, ToRequest(t, r))
  {
    var i :| 0 <= i < |db.Table(t)| && db.Table(t)[i] == r;
    assert ToRequest(t, db.Table(t)[i]) == ToRequest(t, r);
  }

  lemma ChainIs(db: Database, queueSizeLimit: nat, t: TransportType)
    requires Inv(db, queueSizeLimit)
    ensures Chain(db.Table(t))
  {
  }

  /** How many rows of a chain ConfirmedSupply counts: outside the queue also the one in flight. */
  function Reported(db: Database, t: TransportType): nat {
    db.Done(t) + (if !t.Regular? && Flight(db.Table(t), db.Done(t)).Some? then 1 else 0)
  }

  lemma SuppliesReported(db: Database, queueSizeLimit: nat)
    requires Inv(db, queueSizeLimit)
    ensures forall t: TransportType ::
              && Reported(db, t) <= |db.Table(t)|
              && ConfirmedSupply(db).Get(t) == EndAt(db.Table(t), Reported(db, t))
              && 0 <= EndAt(db.Table(t), Reported(db, t)) <= MAX_INT64
  {
    hide Inv, Orderly, ConfirmedSupply;
    forall t: TransportType
      ensures Reported(db, t) <= |db.Table(t)|
      ensures ConfirmedSupply(db).Get(t) == EndAt(db.Table(t), Reported(db, t))
      ensures 0 <= EndAt(db.Table(t), Reported(db, t)) <= MAX_INT64
    {
      ChainIs(db, queueSizeLimit, t);
      SolanaTableIs(db, queueSizeLimit, t);
      MaxRecordedIsEnd(db.Table(t), db.solana, db.Done(t));
      MaxCompletedIsEnd(db.Table(t), db.solana, db.Done(t));
      EndGrows(db.Table(t), 0, Reported(db, t));
      SupplyReported(db, t);
    }
  }

  lemma SupplyReported(db: Database, t: TransportType)
    ensures ConfirmedSupply(db).Get(t)
            == SelectMax(db.Table(t), if t.Regular? then IsCompleted else HasSolanaId, db.solana)
  {
  }

  function Labelled(t: TransportType, rows: seq<Row>): (res: seq<(TransportType, Row)>)
    ensures |res| == |rows| && forall i :: 0 <= i < |rows| ==> res[i] == (t, rows[i])
  {
    seq(|rows|, i requires 0 <= i < |rows| => (t, rows[i]))
  }

  /** SelectSolanaUnconfirmed: queue, then premined, then airdrop. */
  function InFlight(db: Database): seq<(TransportType, Row)> {
    Labelled(Regular, SelectInFlight(db.queue, db.solana))
    + Labelled(Premined, SelectInFlight(db.premined, db.solana))
    + Labelled(Airdrop, SelectInFlight(db.airdrop, db.solana))
  }

  lemma LabelledMembers(t: TransportType, rows: seq<Row>)
    ensures forall u, r :: (u, r) in Labelled(t, rows) <==> u == t && r in rows
  {
    forall u, r
      ensures (u, r) in Labelled(t, rows) <==> u == t && r in rows
    {
      if u == t && r in rows {
        var i :| 0 <= i < |rows| && rows[i] == r;
        assert Labelled(t, rows)[i] == (t, r);
      }
    }
  }

  lemma InFlightMembers(db: Database)
    ensures forall t: TransportType, r :: (t, r) in InFlight(db) <==> r in SelectInFlight(db.Table(t), db.solana)
  {
    LabelledMembers(Regular, SelectInFlight(db.queue, db.solana));
    LabelledMembers(Premined, SelectInFlight(db.premined, db.solana));
    LabelledMembers(Airdrop, SelectInFlight(db.airdrop, db.solana));
    assert db.premined == db.Table(Premined) && db.airdrop == db.Table(Airdrop) && db.queue == db.Table(Regular);
  }

  lemma InFlightIs(db: Database, queueSizeLimit: nat)
    requires Inv(db, queueSizeLimit)
    ensures forall t: TransportType, r ::
              (t, r) in InFlight(db) <==> db.Done(t) < |db.Table(t)| && r == db.Table(t)[db.Done(t)] && r.solanaId.Some?
  {
    hide Inv, Orderly, InFlight;
    InFlightMembers(db);
    forall t: TransportType
      ensures SelectInFlight(db.Table(t), db.solana)
              == if Flight(db.Table(t), db.Done(t)).Some? then [db.Table(t)[db.Done(t)]] else []
    {
      SolanaTableIs(db, queueSizeLimit, t);
      InFlightIsFront(db.Table(t), db.solana, db.Done(t), |db.Table(t)|);
      assert db.Table(t)[..|db.Table(t)|] == db.Table(t);
    }
  }

  lemma {:induction false} RepeatMembers<T>(xs: seq<T>, n: nat)
    requires n > 0
    ensures forall x :: x in Repeat(xs, n) <==> x in xs
  {
    if n > 1 {
      RepeatMembers(xs, n - 1);
    } else {
      assert Repeat(xs, 1) == [] + xs;
    }
  }

  /** A missing flag reads as false. */
  predicate FlagValue(flags: map<string, bool>, name: string) {
    name in flags && flags[name]
  }

  function AfterWrites(flags: map<string, bool>, writes: seq<(string, bool)>): map<string, bool> {
    if writes == [] then flags
    else AfterWrites(flags, writes[..|writes| - 1])[writes[|writes| - 1].0 := writes[|writes| - 1].1]
  }

  function LastWrite(writes: seq<(string, bool)>, name: string): Option<bool> {
    if writes == [] then None
    else if writes[|writes| - 1].0 == name then Some(writes[|writes| - 1].1)
    else LastWrite(writes[..|writes| - 1], name)
  }

  /** A flag reads as what was last written to it, whatever was written to other flags since. */
  lemma {:induction false} FlagIsLastWrite(flags: map<string, bool>, writes: seq<(string, bool)>, name: string)
    ensures FlagValue(AfterWrites(flags, writes), name) == LastWrite(writes, name).GetOr(FlagValue(flags, name))
  {
    if writes != [] {
      FlagIsLastWrite(flags, writes[..|writes| - 1], name);
    }
  }

  lemma FlagsKeepInv(db: Database, queueSizeLimit: nat, flags: map<string, bool>)
    requires Inv(db, queueSizeLimit)
    ensures Inv(db.(flags := flags), queueSizeLimit) && (PreminedInv(db) ==> PreminedInv(db.(flags := flags)))
  {
    TablesOnly(db, db.(flags := flags));
  }

  /** The id is recorded at the front of this chain and nowhere else. */
  predicate OnlyFlight(db: Database, t: TransportType, id: SolanaTxId) {
    && Flight(db.Table(t), db.Done(t)) == Some(id)
    && (forall i :: 0 <= i < |db.Table(t)| && db.Table(t)[i].solanaId == Some(id) ==> i == db.Done(t))
    && forall u: TransportType, i :: u != t && 0 <= i < |db.Table(u)| ==> db.Table(u)[i].solanaId != Some(id)
  }

  lemma ConfirmedFront(rows: seq<Row>, sol: SolanaTable, n: nat, id: SolanaTxId, sol': SolanaTable)
    requires Orderly(rows, sol, n) && Flight(rows, n) == Some(id) && id in sol
    requires id in sol' && sol' == sol[id := sol'[id]] && sol'[id].confirmed
    requires forall i :: 0 <= i < |rows| && rows[i].solanaId == Some(id) ==> i == n
    ensures Orderly(rows, sol', n + 1) && DoneCount(rows, sol') == n + 1
  {
    assert forall i :: 0 <= i < |rows| && i != n ==> (Completed(rows[i], sol') <==> Completed(rows[i], sol));
    DoneCountIs(rows, sol', n + 1);
  }

  lemma FlightConfirmed(db: Database, queueSizeLimit: nat, t: TransportType, id: SolanaTxId, time: Time)
    requires Inv(db, queueSizeLimit) && OnlyFlight(db, t, id)
    ensures var db' := Ledger.ConfirmSolana(db, id, time);
            && Inv(db', queueSizeLimit) && (PreminedInv(db) ==> PreminedInv(db'))
            && forall u: TransportType :: db'.Done(u) == db.Done(u) + (if u == t then 1 else 0)
    ensures forall u: TransportType :: OnlyFlight(db, u, id) ==> u == t
  {
    hide Inv, Orderly, PreminedInv;
    var db' := Ledger.ConfirmSolana(db, id, time);
    SolanaTableIs(db, queueSizeLimit, t);
    assert db.Table(t)[db.Done(t)] in db.Table(t);
    forall u: TransportType
      ensures SameButIds(db.Table(u), db'.Table(u)) && db'.Done(u) == db.Done(u) + (if u == t then 1 else 0)
      ensures Orderly(db'.Table(u), db'.solana, db'.Done(u))
      ensures forall r :: r in db'.Table(u) && r.solanaId.Some? ==> r.solanaId.value in db'.solana
    {
      SolanaTableIs(db, queueSizeLimit, u);
      assert db'.Table(u) == db.Table(u);
      if u == t {
        ConfirmedFront(db.Table(t), db.solana, db.Done(t), id, db'.solana);
      } else {
        OtherTable(db.Table(u), db.solana, db.Done(u), db'.solana);
      }
    }
    SolanaChangeKeepsInv(db, queueSizeLimit, db');
  }

  // ---------- batches that cannot fail ----------

  /** Premined supply once everything burned so far is confirmed. */
  function PreminedEndSupply(db: Database): int {
    End(db.premined) + Sum(db.unconfirmed, OfKind(Premined))
  }

  /** Within bigint, no constraint can refuse a batch of unconfirmed burns, whatever it mixes. */
  lemma {:induction false} ConfirmAllSucceeds(db: Database, us: seq<Unconfirmed>, now: Time)
    requires Base(db) && FromTable(db, us) && PreminedEndSupply(db) <= MAX_INT64
    ensures ConfirmAll(db, us, now).Ok?
    ensures PreminedEndSupply(ConfirmAll(db, us, now).value) == PreminedEndSupply(db)
  {
    hide Base, ConfirmOne;
    if us != [] {
      var init, last := us[..|us| - 1], us[|us| - 1];
      assert us == init + [last];
      ConfirmAllSucceeds(db, init, now);
      ConfirmAllKeepsBase(db, init, now);
      var mid := ConfirmAll(db, init, now).value;
      assert last in mid.unconfirmed;
      ConfirmOneFits(mid, last, now);
    }
  }

  lemma ConfirmOneFits(db: Database, u: Unconfirmed, now: Time)
    requires Base(db) && u in db.unconfirmed && PreminedEndSupply(db) <= MAX_INT64
    ensures ConfirmOne(db, u, now).Ok?
    ensures PreminedEndSupply(ConfirmOne(db, u, now).value) == PreminedEndSupply(db)
  {
    hide ConfirmOne, Base;
    assert db.premined == db.Table(Premined);
    assert Distinct(db.unconfirmed) by {
      DistinctIs(db);
    }
    SumWithout(db.unconfirmed, u, OfKind(Premined));
    assert ConfirmOne(db, u, now).Ok? by {
      ConfirmOneSucceeds(db, u, now);
    }
    ConfirmOneAppends(db, u, now);
    var db' := ConfirmOne(db, u, now).value;
    assert db'.premined == db'.Table(Premined);
  }

  lemma DistinctIs(db: Database)
    requires Base(db)
    ensures Distinct(db.unconfirmed)
  {
  }

  // ---------- admission ----------

  /** What becomes of a transaction: it commits; it cannot be carried out; or it takes effect but its
      commit is reported as failed, and its closure is run again. */
  datatype Commit = Commits | Unavailable | Unacknowledged

  /** RemoveUnconfirmed: whether it reports success, and the ledger it leaves. */
  function RemoveOutcome(db: Database, txs: seq<Unconfirmed>, commit: Commit): (bool, Database) {
    var once := RemoveAll(db, txs);
    if commit.Unavailable? || !InBigint(once.limits) then (false, db)
    else if commit.Commits? then (true, once)
    else if InBigint(RemoveAll(once, txs).limits) then (true, RemoveAll(once, txs))
    else (false, once)
  }

  /** ConfirmUnconfirmed: whether it reports success, and the ledger it leaves. */
  function ConfirmOutcome(db: Database, txs: seq<Unconfirmed>, now: Time, commit: Commit): (bool, Database) {
    match ConfirmAll(db, txs, now)
    case Err(_) => (false, db)
    case Ok(db') =>
      if commit.Unavailable? then (false, db)
      else (commit.Commits? || txs == [], db')
  }

  /** What AddUnconfirmedScpTx answers when it does not admit the burn; the checks come in this order. */
  function Refusal(db: Database, settings: Settings, u: Unconfirmed): Error
    requires u.kind.Premined? ==> u.source.Some?
  {
    if Known(db, u.burn) then BurnIdExists
    else if u.amount == 0 then ZeroAmount
    else if u.kind.Premined? && !Usable(db, u.source.value) then NotPremined
    else if u.amount > Room(db, settings, u) then AllowanceExceeded
    else ConstraintViolation
  }

  /** allowedMax.Sub(transported) on unsigned amounts. */
  function LimitRoom(l: Limit): nat {
    CurrencySub(ToUint64(l.allowedMax), ToUint64(l.transported))
  }

  /** The room left for a burn of this type. */
  function Room(db: Database, settings: Settings, u: Unconfirmed): int
    requires u.kind.Premined? ==> u.source.Some? && Usable(db, u.source.value)
  {
    match u.kind
    case Airdrop => AIRDROP_MAX - AirdropEndSupply(db)
    case Premined => LimitRoom(db.limits[u.source.value])
    case Regular => Min(settings.queueSizeLimit - QueueSize(db), TOTAL_SUPPLY - QueueEndSupply(db))
  }

  /** The checks of AddUnconfirmedScpTx amount to the admission rule of the ledger. */
  lemma AdmittedIff(db: Database, settings: Settings, u: Unconfirmed)
    requires Inv(db, settings.queueSizeLimit)
    requires u.kind.Premined? ==> u.source.Some?
    ensures CanAdmit(db, settings.queueSizeLimit, u)
            <==> && !Known(db, u.burn)
                 && u.amount > 0
                 && (u.source.Some? ==> u.source.value in db.limits)
                 && (u.kind.Premined? ==> Usable(db, u.source.value))
                 && u.amount <= Room(db, settings, u)
    ensures CanAdmit(db, settings.queueSizeLimit, u) <==> CanAdmit(db, settings.queueSizeLimit, u.(height := None))
    ensures u.kind.Premined? && Usable(db, u.source.value) && u.amount <= Room(db, settings, u) ==>
              db.limits[u.source.value].transported + u.amount <= db.limits[u.source.value].allowedMax
  {
    if u.kind.Premined? && u.source.value in db.limits {
      LimitRoomIs(db, u.source.value);
    }
  }

  /** The decimal sums that the code parses as int64s fit for the two types with a supply cap, which
      are those whose sums it asks for. */
  lemma UnconfirmedSumFits(db: Database)
    requires Base(db)
    ensures Sum(db.unconfirmed, OfKind(Regular)) <= TOTAL_SUPPLY
    ensures Sum(db.unconfirmed, OfKind(Airdrop)) <= AIRDROP_MAX
  {
    EndGrows(db.Table(Regular), 0, |db.queue|);
    EndGrows(db.Table(Airdrop), 0, |db.airdrop|);
  }

  /** A closure that runs again after the burn was admitted finds it. */
  lemma AdmittedOnce(db: Database, settings: Settings, u: Unconfirmed)
    requires u.kind.Premined? ==> u.source.Some?
    ensures var db' := Admit(db, u.(height := None));
            !CanAdmit(db', settings.queueSizeLimit, u) && Refusal(db', settings, u) == BurnIdExists
  {
    BurnsAppend(db.unconfirmed, u.(height := None));
  }

  lemma ConfirmedOnce(db: Database, txs: seq<Unconfirmed>, now: Time)
    requires Base(db) && FromTable(db, txs) && ConfirmAll(db, txs, now).Ok?
    ensures WereRows(ConfirmAll(db, txs, now).value, txs)
    ensures ConfirmAll(ConfirmAll(db, txs, now).value, txs, now).Ok? <==> txs == []
    ensures txs == [] ==> ConfirmAll(db, txs, now).value == db
  {
    ConfirmAllNeedsFreshRows(db, txs, now);
    if txs != [] {
      RepeatedConfirmationIsRefused(db, txs, 0, now);
    }
  }

  lemma RemovedTwice(db: Database, txs: seq<Unconfirmed>)
    ensures RemoveAll(db, txs + txs) == RemoveAll(RemoveAll(db, txs), txs)
    ensures Base(db) && PreminedInv(db) && RowsOf(db, txs) && !RepeatsPremined(txs) ==>
              && InBigint(RemoveAll(db, txs).limits) && PreminedInv(RemoveAll(db, txs))
              && InBigint(RemoveAll(db, txs + txs).limits)
              && (PreminedInv(RemoveAll(db, txs + txs)) <==> forall u :: u in txs ==> !u.kind.Premined?)
  {
    RemoveAllAppend(db, txs, txs);
    if Base(db) && PreminedInv(db) && RowsOf(db, txs) && !RepeatsPremined(txs) {
      OrderlyRemovalFits(db, txs);
      RemovalKeepsPreminedIff(db, txs);
      RemovalKeepsPreminedIff(db, txs + txs);
      DoubledRepeats(txs);
      DoubledRemovalFits(db, txs);
    }
  }

  /** Giving back what an account holds a second time takes it no lower than a bigint goes. */
  lemma DoubledRemovalFits(db: Database, txs: seq<Unconfirmed>)
    requires Base(db) && PreminedInv(db) && RowsOf(db, txs) && !RepeatsPremined(txs)
    ensures InBigint(RemoveAll(RemoveAll(db, txs), txs).limits)
  {
    var once := RemoveAll(db, txs);
    OrderlyRemovalFits(db, txs);
    SameKeys(once, txs);
    forall a | a in db.limits
      ensures MIN_INT64 <= RemoveAll(once, txs).limits[a].transported
    {
      RemoveAllLimits(db, txs, a);
      RemoveAllLimits(once, txs, a);
    }
  }

  lemma DoubledRepeats(txs: seq<Unconfirmed>)
    requires !RepeatsPremined(txs)
    ensures RepeatsPremined(txs + txs) <==> exists u :: u in txs && u.kind.Premined?
  {
    var all := txs + txs;
    if u :| u in txs && u.kind.Premined? {
      var k :| 0 <= k < |txs| && txs[k] == u;
      assert all[k] == u && all[|txs| + k] == u;
    }
    if i, j :| 0 <= i < j < |all| && all[i].burn == all[j].burn && all[j].kind.Premined? {
      assert all[j] in txs;
    }
  }

  lemma AllInBigint(limits: map<UnlockHash, Limit>)
    requires !exists a :: a in limits && limits[a].transported < MIN_INT64
    ensures InBigint(limits)
  {
  }

  lemma NotInBigint(limits: map<UnlockHash, Limit>)
    requires exists a :: a in limits && limits[a].transported < MIN_INT64
    ensures !InBigint(limits)
  {
  }

  lemma QueueEmptyIff(db: Database, queueSizeLimit: nat)
    requires Inv(db, queueSizeLimit)
    ensures Ledger.QueueSize(db) == 0
            <==> db.Done(Regular) == |db.queue| && forall u :: u in db.unconfirmed ==> !u.kind.Regular?
  {
    var n := db.Done(Regular);
    assert db.queue == db.Table(Regular);
    OutstandingIs(db.queue, db.solana, n);
    EndGrows(db.queue, n, |db.queue|);
    SumZeroIff(db.unconfirmed, Regular);
  }

  lemma {:induction false} SumZeroIff(us: seq<Unconfirmed>, t: TransportType)
    requires forall u :: u in us ==> u.amount > 0
    ensures Sum(us, OfKind(t)) == 0 <==> forall u :: u in us ==> u.kind != t
  {
    if us != [] {
      var init, last := us[..|us| - 1], us[|us| - 1];
      assert us == init + [last];
      SumZeroIff(init, t);
    }
  }

  lemma {:induction false} DistinctCount(addresses: seq<UnlockHash>, found: set<UnlockHash>)
    requires forall a :: a in found ==> a in addresses
    ensures |found| <= |addresses|
    ensures |found| == |addresses| <==> AllDifferent(addresses) && forall a :: a in addresses ==> a in found
  {
    if addresses == [] {
      assert found == {};
    } else {
      var init, last := addresses[..|addresses| - 1], addresses[|addresses| - 1];
      assert addresses == init + [last];
      DistinctCount(init, found - {last});
      if AllDifferent(addresses) && forall a :: a in addresses ==> a in found {
        assert forall a :: a in init ==> a in found - {last} by {
          forall i | 0 <= i < |init|
            ensures init[i] != last
          {
            assert addresses[i] != addresses[|addresses| - 1];
          }
        }
      }
    }
  }

  /** The room of a premined address: what its account says, unless the account went below zero; and
      with the accounts in order, its maximum less all it burned. */
  lemma LimitRoomIs(db: Database, a: UnlockHash)
    requires Base(db) && a in db.limits
    ensures var l := db.limits[a];
            LimitRoom(l) == (if l.transported < 0 then 0 else l.allowedMax - l.transported) <= MAX_INT64
    ensures PreminedInv(db) ==>
              LimitRoom(db.limits[a]) == db.limits[a].allowedMax - Sum(db.unconfirmed, OfSource(a)) - SumFrom(db.premined, a)
  {
    WrapShift(db.limits[a].transported, 1);
    SumFromNonNegative(db.Table(Premined), a, |db.premined|);
    assert db.premined[..|db.premined|] == db.premined;
  }

  /** An amount within the room of its type converts to a bigint unchanged. */
  lemma RoomFits(db: Database, settings: Settings, u: Unconfirmed)
    requires Inv(db, settings.queueSizeLimit)
    requires u.kind.Premined? ==> u.source.Some? && Usable(db, u.source.value)
    requires u.amount <= Room(db, settings, u)
    ensures ToInt64(u.amount) == u.amount
  {
    EndGrows(db.Table(Regular), 0, |db.queue|);
    EndGrows(db.Table(Airdrop), 0, |db.airdrop|);
    if u.kind.Premined? {
      LimitRoomIs(db, u.source.value);
    }
  }
}
