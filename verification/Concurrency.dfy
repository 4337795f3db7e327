/** Interleaved confirmations. Transactions use the default isolation level, so one may insert
    after supplies it read before another one committed. What protects the chains is
    UNIQUE (supply_before), together with the retry on a unique violation. */
module Concurrency {
  import opened Common
  import opened Tables
  import opened Ledger

  type Supplies = map<TransportType, nat>

  /** ConfirmUnconfirmed whose supplies in `read` date from an earlier moment. */
  function StaleConfirm(db: Database, us: seq<Unconfirmed>, read: Supplies, now: Time): Result<(Database, Supplies)> {
    if us == [] then Ok((db, read))
    else
      match StaleConfirm(db, us[..|us| - 1], read, now)
      case Err(e) => Err(e)
      case Ok((mid, cache)) =>
        var u := us[|us| - 1];
        var supply := if u.kind in cache then cache[u.kind] else SupplyAfterTransports(mid, u.kind);
        match InsertTransport(mid, u, supply, now)
        case Err(e) => Err(e)
        case Ok(db') =>
          Ok((db'.(unconfirmed := Without(db'.unconfirmed, u.burn)), cache[u.kind := supply + u.amount]))
  }

  /** The supply was the end of the chain at some moment after its first row. */
  predicate PastEnd(rows: seq<Row>, supply: int) {
    exists i :: 0 < i <= |rows| && supply == EndAt(rows, i)
  }

  predicate PastEnds(db: Database, read: Supplies) {
    forall t :: t in read ==> PastEnd(db.Table(t), read[t])
  }

  /** Some row continues from this supply already. */
  predicate Taken(rows: seq<Row>, supply: int) {
    exists q :: q in rows && q.supplyBefore == Some(supply)
  }

  lemma PastSuppliesAreTaken(rows: seq<Row>)
    requires Chain(rows)
    ensures forall i :: 0 < i < |rows| ==> Taken(rows, EndAt(rows, i))
  {
    forall i | 0 < i < |rows|
      ensures Taken(rows, EndAt(rows, i))
    {
      assert Link(rows, i);
      assert rows[i] in rows;
    }
  }

  /** Inserting after a past end is refused unless it is still the end. */
  lemma OnlyCurrentEndAccepts(rows: seq<Row>, r: Row, supply: int)
    requires Chain(rows) && PastEnd(rows, supply) && r.supplyBefore == Some(supply)
    requires InsertAllowed(rows, r)
    ensures supply == End(rows)
  {
    PastSuppliesAreTaken(rows);
    var i :| 0 < i <= |rows| && supply == EndAt(rows, i);
    assert i == |rows|;
  }

  lemma PastEndsStay(db: Database, db': Database, read: Supplies)
    requires PastEnds(db, read) && forall t: TransportType :: db.Table(t) <= db'.Table(t)
    ensures PastEnds(db', read)
  {
    forall t | t in read
      ensures PastEnd(db'.Table(t), read[t])
    {
      var i :| 0 < i <= |db.Table(t)| && read[t] == EndAt(db.Table(t), i);
      assert db.Table(t) <= db'.Table(t);
      assert EndAt(db'.Table(t), i) == read[t];
    }
  }

  /** One stale insertion that commits is the up-to-date one. */
  lemma StaleInsertIsCurrent(db: Database, u: Unconfirmed, cache: Supplies, now: Time)
    requires Base(db) && u in db.unconfirmed && PastEnds(db, cache) && u.kind in cache
    requires InsertTransport(db, u, cache[u.kind], now).Ok?
    ensures cache[u.kind] == SupplyAfterTransports(db, u.kind)
  {
    var rows, supply := db.Table(u.kind), cache[u.kind];
    SupplyIsEnd(db, u.kind);
    assert PastEnd(rows, supply);
    var i :| 0 < i <= |rows| && supply == EndAt(rows, i);
    EndGrows(rows, 0, i);
    OnlyCurrentEndAccepts(rows, TransportRow(u, supply, now), supply);
  }

  predicate Touches(us: seq<Unconfirmed>, t: TransportType) {
    exists u :: u in us && u.kind == t
  }

  /** Supplies read ahead were the current ends for the types of the batch, and are unused for others. */
  predicate ReadsHeld(db: Database, us: seq<Unconfirmed>, read: Supplies, db': Database, cache: Supplies) {
    forall t :: t in read ==>
      && t in cache
      && (if Touches(us, t) then read[t] == End(db.Table(t)) else cache[t] == read[t] && db'.Table(t) == db.Table(t))
  }

  /** A transaction that read non-zero ends some time ago and still commits has the effect
      of a transaction that runs now, on the types it read ahead as on the others. */
  lemma {:induction false} StaleCommitIsSerial(db: Database, us: seq<Unconfirmed>,
                                               read: Supplies, now: Time)
    requires Base(db) && FromTable(db, us) && PastEnds(db, read)
    requires StaleConfirm(db, us, read, now).Ok?
    ensures var (db', cache) := StaleConfirm(db, us, read, now).value;
            ConfirmAll(db, us, now) == Ok(db') && PastEnds(db', cache) && ReadsHeld(db, us, read, db', cache)
  {
    hide Base, InsertTransport, SupplyAfterTransports, PastEnds, ReadsHeld, ConfirmOne;
    if us == [] {
      NothingRead(db, read);
    } else {
      var init, u := us[..|us| - 1], us[|us| - 1];
      assert us == init + [u];
      StaleCommitIsSerial(db, init, read, now);
      var (mid, cache) := StaleConfirm(db, init, read, now).value;
      assert Base(mid) && u in mid.unconfirmed by {
        ConfirmAllKeepsBase(db, init, now);
      }
      assert u.kind in cache ==> cache[u.kind] == SupplyAfterTransports(mid, u.kind) by {
        if u.kind in cache {
          StaleInsertIsCurrent(mid, u, cache, now);
        }
      }
      StaleIsConfirmOne(mid, u, cache, now);
      StaleStep(mid, u, cache, now);
      SupplyIsEndNow(mid, u.kind);
      HeldByStep(db, init, u, read, mid, cache, ConfirmOne(mid, u, now).value, End(mid.Table(u.kind)) + u.amount);
    }
  }

  lemma StaleIsConfirmOne(mid: Database, u: Unconfirmed, cache: Supplies, now: Time)
    requires u.kind in cache ==> cache[u.kind] == SupplyAfterTransports(mid, u.kind)
    requires InsertTransport(mid, u, SupplyAfterTransports(mid, u.kind), now).Ok?
    ensures var db' := InsertTransport(mid, u, SupplyAfterTransports(mid, u.kind), now).value;
            ConfirmOne(mid, u, now) == Ok(db'.(unconfirmed := Without(db'.unconfirmed, u.burn)))
  {
  }

  lemma NothingRead(db: Database, read: Supplies)
    ensures ReadsHeld(db, [], read, db, read)
  {
  }

  lemma HeldByStep(db: Database, init: seq<Unconfirmed>, u: Unconfirmed, read: Supplies,
                   mid: Database, cache: Supplies, db': Database, supply: nat)
    requires ReadsHeld(db, init, read, mid, cache)
    requires u.kind in cache ==> cache[u.kind] == End(mid.Table(u.kind))
    requires forall t :: t != u.kind ==> db'.Table(t) == mid.Table(t)
    ensures ReadsHeld(db, init + [u], read, db', cache[u.kind := supply])
  {
    forall t
      ensures Touches(init + [u], t) <==> Touches(init, t) || t == u.kind
    {
      if Touches(init, t) {
        var v :| v in init && v.kind == t;
        assert v in init + [u];
      }
      assert u in init + [u];
    }
  }

  lemma SupplyIsEndNow(db: Database, t: TransportType)
    requires Base(db)
    ensures SupplyAfterTransports(db, t) == End(db.Table(t))
  {
    SupplyIsEnd(db, t);
  }

  lemma StaleStep(mid: Database, u: Unconfirmed, cache: Supplies, now: Time)
    requires Base(mid) && u in mid.unconfirmed && PastEnds(mid, cache)
    requires ConfirmOne(mid, u, now).Ok?
    ensures var db' := ConfirmOne(mid, u, now).value;
            && PastEnds(db', cache[u.kind := SupplyAfterTransports(mid, u.kind) + u.amount])
            && forall t :: t != u.kind ==> db'.Table(t) == mid.Table(t)
  {
    hide ConfirmOne, Base;
    var db' := ConfirmOne(mid, u, now).value;
    ConfirmOneAppends(mid, u, now);
    SupplyIsEndNow(mid, u.kind);
    assert forall t: TransportType :: mid.Table(t) <= db'.Table(t);
    PastEndsStay(mid, db', cache);
    var rows := db'.Table(u.kind);
    assert EndAt(rows, |rows|) == SupplyAfterTransports(mid, u.kind) + u.amount;
    assert PastEnd(rows, SupplyAfterTransports(mid, u.kind) + u.amount);
  }

  lemma {:induction false} ConfirmedTableGrows(db: Database, us: seq<Unconfirmed>, now: Time,
                                               u: Unconfirmed)
    requires Base(db) && FromTable(db, us) && ConfirmAll(db, us, now).Ok? && u in us
    ensures End(db.Table(u.kind)) < End(ConfirmAll(db, us, now).value.Table(u.kind))
  {
    hide Base, ConfirmOne;
    var init, last := us[..|us| - 1], us[|us| - 1];
    assert us == init + [last];
    ConfirmAllKeepsBase(db, init, now);
    var mid := ConfirmAll(db, init, now).value;
    assert last in mid.unconfirmed;
    ConfirmOneAppends(mid, last, now);
    AmountPositive(mid, last);
    if u in init {
      ConfirmedTableGrows(db, init, now, u);
    } else {
      EndsOnlyGrow(db, init, now, u.kind);
    }
  }

  lemma AmountPositive(db: Database, u: Unconfirmed)
    requires Base(db) && u in db.unconfirmed
    ensures u.amount > 0
  {
  }

  lemma EndsOnlyGrow(db: Database, us: seq<Unconfirmed>, now: Time, t: TransportType)
    requires Base(db) && FromTable(db, us) && ConfirmAll(db, us, now).Ok?
    ensures End(db.Table(t)) <= End(ConfirmAll(db, us, now).value.Table(t))
    ensures db.Table(t) <= ConfirmAll(db, us, now).value.Table(t)
  {
    ConfirmAllExtends(db, us, now);
    ConfirmAllKeepsBase(db, us, now);
    var rows' := ConfirmAll(db, us, now).value.Table(t);
    assert db.Table(t) <= rows';
    EndGrows(rows', |db.Table(t)|, |rows'|);
  }

  /** What the second transaction read before the first committed. */
  function Read(db: Database, kinds: set<TransportType>): Supplies {
    map t | t in kinds :: SupplyAfterTransports(db, t)
  }

  lemma {:induction false} StaleConfirmGrows(db: Database, us: seq<Unconfirmed>, read: Supplies, now: Time)
    requires StaleConfirm(db, us, read, now).Ok?
    ensures forall t: TransportType :: db.Table(t) <= StaleConfirm(db, us, read, now).value.0.Table(t)
  {
    if us != [] {
      StaleConfirmGrows(db, us[..|us| - 1], read, now);
    }
  }

  /** The primary key refuses a burn that was confirmed meanwhile. */
  lemma {:induction false} StaleConfirmNeedsNewBurns(db: Database, us: seq<Unconfirmed>, read: Supplies, now: Time)
    requires StaleConfirm(db, us, read, now).Ok?
    ensures forall u :: u in us ==> u.burn !in RowBurns(db.Table(u.kind))
  {
    if us != [] {
      var init, last := us[..|us| - 1], us[|us| - 1];
      assert us == init + [last];
      StaleConfirmNeedsNewBurns(db, init, read, now);
      StaleConfirmGrows(db, init, read, now);
      ConfirmedStay(db, StaleConfirm(db, init, read, now).value.0);
    }
  }

  /** Two confirmations that both read the ledger before either commits, from non-empty chains: once
      the first has committed, the second either fails on a constraint, or has the effect of running
      after the first. If both confirm burns of a common type it fails, and if both confirm the
      same burn it fails whatever it read ahead. So with the retry the outcome is that of the
      serial order in which they commit. */
  lemma InterleavedConfirmations(db: Database, first: seq<Unconfirmed>, second: seq<Unconfirmed>,
                                 kinds: set<TransportType>, now: Time)
    requires Base(db) && FromTable(db, first) && FromTable(db, second)
    requires forall t :: t in kinds ==> db.Table(t) != []
    requires ConfirmAll(db, first, now).Ok?
    ensures var db1 := ConfirmAll(db, first, now).value;
            var stale := StaleConfirm(db1, second, Read(db, kinds), now);
            && (stale.Ok? ==> ConfirmAll(db1, second, now) == Ok(stale.value.0))
            && (forall u, v :: u in first && v in second && u.kind == v.kind && v.kind in kinds ==> stale.Err?)
            && (forall u, v :: u in first && v in second && u.burn == v.burn ==> stale.Err?)
  {
    hide Base;
    var db1 := ConfirmAll(db, first, now).value;
    var read := Read(db, kinds);
    if StaleConfirm(db1, second, read, now).Ok? {
      StaleConfirmNeedsNewBurns(db1, second, read, now);
      ConfirmedAreNew(db, first, second, now);
      ReadIsPastEnd(db, kinds);
      forall t: TransportType
        ensures db.Table(t) <= db1.Table(t)
      {
        EndsOnlyGrow(db, first, now, t);
      }
      PastEndsStay(db, db1, read);
      StaleCommitIsSerial(db1, second, read, now);
      forall u, v | u in first && v in second && u.kind == v.kind && v.kind in kinds
        ensures false
      {
        assert Touches(second, v.kind);
        ConfirmedTableGrows(db, first, now, u);
        SupplyIsEndNow(db, u.kind);
      }
    }
  }

  /** Burns of a second batch that are in no table yet are none of the first batch's. */
  lemma ConfirmedAreNew(db: Database, first: seq<Unconfirmed>, second: seq<Unconfirmed>, now: Time)
    requires Base(db) && FromTable(db, first) && FromTable(db, second) && ConfirmAll(db, first, now).Ok?
    requires var db1 := ConfirmAll(db, first, now).value; forall v :: v in second ==> v.burn !in RowBurns(db1.Table(v.kind))
    ensures var db1 := ConfirmAll(db, first, now).value; Base(db1) && FromTable(db1, second)
    ensures forall u, v :: u in first && v in second ==> u.burn != v.burn
  {
    ConfirmAllKeepsBase(db, first, now);
    ConfirmAllNeedsFreshRows(db, first, now);
    OneRowPerBurn(db.unconfirmed);
  }

  lemma ReadIsPastEnd(db: Database, kinds: set<TransportType>)
    requires Base(db) && forall t :: t in kinds ==> db.Table(t) != []
    ensures PastEnds(db, Read(db, kinds))
  {
    forall t | t in kinds
      ensures PastEnd(db.Table(t), SupplyAfterTransports(db, t))
    {
      SupplyIsEnd(db, t);
      assert SupplyAfterTransports(db, t) == EndAt(db.Table(t), |db.Table(t)|);
    }
  }

  /** At the root of a chain, where supply_before is NULL, UNIQUE does not help: of two first
      burns confirmed concurrently both are accepted exactly when their amounts differ, and
      the table is then no chain. */
  lemma RootIsNotProtected(u: Unconfirmed, v: Unconfirmed, now: Time)
    requires u.burn != v.burn
    requires 0 < u.amount <= TOTAL_SUPPLY && 0 < v.amount <= TOTAL_SUPPLY
    ensures var rows := [TransportRow(u, 0, now)];
            && InsertAllowed([], rows[0]) && Chain(rows)
            && (InsertAllowed(rows, TransportRow(v, 0, now)) <==> u.amount != v.amount)
            && !Chain(rows + [TransportRow(v, 0, now)])
  {
    var rows, r := [TransportRow(u, 0, now)], TransportRow(v, 0, now);
    assert RowBurns(rows) == {u.burn} by {
      assert rows[0] in rows;
    }
    assert rows[0] in rows;
    assert !Link(rows + [r], 1);
  }
}
