/** mint on a request that comes again for a row that is completed: it overwrites the id of that row, which
    takes the completion back, and ends only if a new transaction minted. */
module RepeatedMint {
  import opened Common
  import opened Tables
  import opened Ledger
  import opened StorageSpec
  import opened LoopSpec
  import opened BurnStatus

  /** The request is for row `i` of its chain, which is completed. */
  predicate ForCompleted(db: Database, req: Request, i: nat) {
    i < db.Done(req.kind) && db.Table(req.kind)[i].burn == req.burn
  }

  /** The ledgers differ at most in the Solana id of one row, and in new rows of solana_transactions. */
  predicate OnlyRowChanged(db: Database, db': Database, t: TransportType, i: nat) {
    && db'.unconfirmed == db.unconfirmed && db'.limits == db.limits && db'.flags == db.flags
    && (forall u: TransportType :: u != t ==> db'.Table(u) == db.Table(u))
    && |db'.Table(t)| == |db.Table(t)|
    && (forall k :: 0 <= k < |db.Table(t)| && k != i ==> db'.Table(t)[k] == db.Table(t)[k])
    && (i < |db.Table(t)| ==> db'.Table(t)[i] == db.Table(t)[i].(solanaId := db'.Table(t)[i].solanaId))
    && (forall id :: id in db.solana ==> id in db'.solana && db'.solana[id] == db.solana[id])
  }

  /** Row `i` now carries a new id, with that confirmation. */
  predicate Overwritten(db: Database, db': Database, t: TransportType, i: nat, id: SolanaTxId, confirmed: bool) {
    && OnlyRowChanged(db, db', t, i) && i < |db.Table(t)|
    && db'.Table(t)[i].solanaId == Some(id) && id !in db.solana
    && id in db'.solana && db'.solana[id].confirmed == confirmed
  }

  /** The attempt saves its id if the ledger does not hold it. */
  predicate Saving(attempt: Attempt) {
    attempt.NotMinted? || attempt.Minted? || (attempt.SaveFailed? && attempt.effect)
  }

  predicate SavesNew(db: Database, script: seq<Attempt>) {
    exists k :: 0 <= k < |script| && Saving(script[k]) && script[k].id !in db.solana
  }

  // ---------- what an overwritten row means ----------

  lemma OverwrittenMeans(db: Database, queueSizeLimit: nat, db': Database, t: TransportType, i: nat, id: SolanaTxId,
                         confirmed: bool)
    requires Inv(db, queueSizeLimit) && i < db.Done(t) && Overwritten(db, db', t, i, id, confirmed)
    ensures i < |db'.Table(t)| && forall u: TransportType :: db'.Done(u) == if u == t && !confirmed then i else db.Done(u)
    ensures var burn := db.Table(t)[i].burn;
            && StatusOf(db, burn).Completed?
            && StatusOf(db', burn) == if confirmed then Status.Completed else SolanaTxCreated
  {
    hide Inv, StatusOf, OnlyRowChanged;
    forall u: TransportType
      ensures db'.Done(u) == if u == t && !confirmed then i else db.Done(u)
    {
      SolanaTableIs(db, queueSizeLimit, u);
      DoneAfter(db, db', t, i, id, confirmed, u);
    }
    LocationIs(db, queueSizeLimit);
    LookupIs(db, t, i);
    SolanaTableIs(db, queueSizeLimit, t);
    SameBurns(db, db', t, i);
    OverwrittenRow(db, db', t, i, id, confirmed);
    LookupIs(db', t, i);
    StatusReads(db, t, i);
    StatusReads(db', t, i);
  }

  lemma OverwrittenRow(db: Database, db': Database, t: TransportType, i: nat, id: SolanaTxId, confirmed: bool)
    requires Overwritten(db, db', t, i, id, confirmed)
    ensures i < |db'.Table(t)| && db'.Table(t)[i].burn == db.Table(t)[i].burn
    ensures RowStatus(db'.Table(t)[i], db'.solana) == if confirmed then Status.Completed else SolanaTxCreated
  {
  }

  lemma LocationIs(db: Database, queueSizeLimit: nat)
    requires Inv(db, queueSizeLimit)
    ensures LocationInv(db)
  {
  }

  lemma StatusReads(db: Database, t: TransportType, i: nat)
    requires i < |db.Table(t)| && Lookup(db, db.Table(t)[i].burn) == Some((t, db.Table(t)[i]))
    ensures StatusOf(db, db.Table(t)[i].burn) == RowStatus(db.Table(t)[i], db.solana)
  {
  }

  lemma SameBurns(db: Database, db': Database, t: TransportType, i: nat)
    requires LocationInv(db) && OnlyRowChanged(db, db', t, i)
    ensures LocationInv(db')
  {
    hide TableDistinct;
    forall u: TransportType
      ensures RowBurns(db'.Table(u)) == RowBurns(db.Table(u)) && (TableDistinct(db.Table(u)) ==> TableDistinct(db'.Table(u)))
    {
      SameRowBurns(db.Table(u), db'.Table(u));
    }
  }

  lemma SameRowBurns(rows: seq<Row>, rows': seq<Row>)
    requires |rows'| == |rows| && forall k :: 0 <= k < |rows| ==> rows'[k].burn == rows[k].burn
    ensures RowBurns(rows') == RowBurns(rows) && (TableDistinct(rows) ==> TableDistinct(rows'))
  {
    forall burn
      ensures burn in RowBurns(rows') <==> burn in RowBurns(rows)
    {
      if k :| 0 <= k < |rows| && rows[k].burn == burn {
        assert rows'[k] in rows' && rows[k] in rows;
      }
    }
  }

  lemma DoneAfter(db: Database, db': Database, t: TransportType, i: nat, id: SolanaTxId, confirmed: bool, u: TransportType)
    requires Overwritten(db, db', t, i, id, confirmed) && i < db.Done(t)
    requires Orderly(db.Table(u), db.solana, db.Done(u))
    requires forall r :: r in db.Table(u) && r.solanaId.Some? ==> r.solanaId.value in db.solana
    ensures db'.Done(u) == if u == t && !confirmed then i else db.Done(u)
  {
    var rows, rows' := db.Table(u), db'.Table(u);
    assert forall k :: 0 <= k < |rows| ==> rows[k] in rows;
    assert forall k :: 0 <= k < |rows| && (u != t || k != i) ==>
        (Tables.Completed(rows'[k], db'.solana) <==> Tables.Completed(rows[k], db.solana));
    DoneCountIs(rows', db'.solana, if u == t && !confirmed then i else db.Done(u));
  }

  // ---------- attempt by attempt ----------

  /** Nothing is saved yet, or the row is overwritten by an id that is not confirmed. */
  ghost predicate AtWork(start: Database, db: Database, t: TransportType, i: nat) {
    db == start || exists id :: Overwritten(start, db, t, i, id, false)
  }

  lemma SavedAgain(start: Database, queueSizeLimit: nat, db: Database, req: Request, i: nat, id: SolanaTxId, now: Time)
    requires Inv(start, queueSizeLimit) && ForCompleted(start, req, i) && AtWork(start, db, req.kind, i) && id !in db.solana
    ensures Overwritten(start, WithRecorded(db, req.burn, req.kind, id, now), req.kind, i, id, false)
  {
    hide Inv, Orderly, WithRecorded, AtWork, OnlyRowChanged, TableDistinct;
    var t, db' := req.kind, WithRecorded(db, req.burn, req.kind, id, now);
    SolanaTableIs(start, queueSizeLimit, t);
    ChangedSoFar(start, db, t, i);
    RecordedDb(db, req.burn, t, id, now);
    RecordedOverRow(start, db, t, i, req.burn, id, db');
  }

  lemma ChangedSoFar(start: Database, db: Database, t: TransportType, i: nat)
    requires AtWork(start, db, t, i)
    ensures OnlyRowChanged(start, db, t, i)
  {
    hide OnlyRowChanged;
    if db == start { NothingYet(start, t, i); }
  }

  lemma RecordedOverRow(start: Database, db: Database, t: TransportType, i: nat, burn: BurnId, id: SolanaTxId, db': Database)
    requires TableDistinct(start.Table(t)) && i < |start.Table(t)| && start.Table(t)[i].burn == burn
    requires OnlyRowChanged(start, db, t, i) && id !in db.solana
    requires db'.unconfirmed == db.unconfirmed && db'.limits == db.limits && db'.flags == db.flags
    requires id in db'.solana && db'.solana == db.solana[id := db'.solana[id]]
    requires forall u: TransportType :: db'.Table(u) == if u == t then SetSolanaId(db.Table(t), burn, Some(id)) else db.Table(u)
    ensures OnlyRowChanged(start, db', t, i) && db'.Table(t)[i].solanaId == Some(id) && id !in start.solana
  {
    hide TableDistinct;
    RowSet(start.Table(t), db.Table(t), i, burn, id);
  }

  lemma RecordedDb(db: Database, burn: BurnId, t: TransportType, id: SolanaTxId, now: Time)
    requires id !in db.solana
    ensures var db' := WithRecorded(db, burn, t, id, now);
            && db'.unconfirmed == db.unconfirmed && db'.limits == db.limits && db'.flags == db.flags
            && db'.solana == db.solana[id := SolanaRow(now, None, false)]
            && forall u: TransportType :: db'.Table(u) == if u == t then SetSolanaId(db.Table(t), burn, Some(id)) else db.Table(u)
  {
  }

  lemma NothingYet(db: Database, t: TransportType, i: nat)
    ensures OnlyRowChanged(db, db, t, i)
  {
  }

  lemma RowSet(rows: seq<Row>, mid: seq<Row>, i: nat, burn: BurnId, id: SolanaTxId)
    requires TableDistinct(rows) && i < |rows| == |mid| && rows[i].burn == burn
    requires forall k :: 0 <= k < |rows| && k != i ==> mid[k] == rows[k]
    requires mid[i] == rows[i].(solanaId := mid[i].solanaId)
    ensures var rows' := SetSolanaId(mid, burn, Some(id));
            && (forall k :: 0 <= k < |rows| && k != i ==> rows'[k] == rows[k])
            && rows'[i] == rows[i].(solanaId := Some(id))
  {
  }

  lemma ConfirmedAgain(start: Database, db: Database, t: TransportType, i: nat, id: SolanaTxId, now: Time)
    requires Overwritten(start, db, t, i, id, false)
    ensures Overwritten(start, ConfirmSolana(db, id, now), t, i, id, true)
  {
    ConfirmedTables(db, id, now);
  }

  lemma AttemptAgain(start: Database, queueSizeLimit: nat, db: Database, req: Request, i: nat, attempt: Attempt, now: Time)
    requires Inv(start, queueSizeLimit) && ForCompleted(start, req, i) && AtWork(start, db, req.kind, i)
    ensures var (db', done) := AttemptEffect(db, req, attempt, now);
            && (done <==> attempt.Minted? && attempt.id !in db.solana)
            && (done ==> Overwritten(start, db', req.kind, i, attempt.id, true))
            && (!done ==> AtWork(start, db', req.kind, i) && db.solana.Keys <= db'.solana.Keys)
            && (!done && Saving(attempt) ==> attempt.id in db'.solana)
            && (!done && db' != db ==> Saving(attempt) && attempt.id !in db.solana)
  {
    hide Inv, Overwritten, ForCompleted, WithRecorded, ConfirmSolana;
    if Saving(attempt) {
      if attempt.id in db.solana {
        AlreadyRecorded(db, req, attempt.id, now);
      } else {
        SavedAgain(start, queueSizeLimit, db, req, i, attempt.id, now);
        var mid := WithRecorded(db, req.burn, req.kind, attempt.id, now);
        ConfirmedAgain(start, mid, req.kind, i, attempt.id, now);
        SavedIds(db, req, attempt.id, now);
      }
    }
  }

  lemma SavedIds(db: Database, req: Request, id: SolanaTxId, now: Time)
    requires id !in db.solana
    ensures WithRecorded(db, req.burn, req.kind, id, now).solana.Keys == db.solana.Keys + {id}
  {
  }

  /** What a script for a completed row comes to, from the ledger it starts on. */
  ghost predicate AgainEffect(start: Database, db: Database, req: Request, i: nat, script: seq<Attempt>,
                              db': Database, done: bool) {
    && (done ==> exists k :: 0 <= k < |script| && script[k].Minted? && script[k].id !in db.solana
                             && Overwritten(start, db', req.kind, i, script[k].id, true))
    && (!done ==> AtWork(start, db', req.kind, i) && (db' == db <==> !SavesNew(db, script)))
    && (!done ==> forall k :: 0 <= k < |script| && script[k].Minted? ==> script[k].id in db'.solana)
  }

  lemma {:induction false} ScriptAgain(start: Database, queueSizeLimit: nat, db: Database, req: Request, i: nat,
                                       script: seq<Attempt>, now: Time)
    requires Inv(start, queueSizeLimit) && ForCompleted(start, req, i) && AtWork(start, db, req.kind, i)
    ensures var (db', done) := MintEffect(db, req, script, now); AgainEffect(start, db, req, i, script, db', done)
    decreases |script|
  {
    hide Inv, Overwritten, ForCompleted, AttemptEffect, AtWork;
    if script != [] {
      var (mid, done) := AttemptEffect(db, req, script[0], now);
      AttemptAgain(start, queueSizeLimit, db, req, i, script[0], now);
      if !done {
        ScriptAgain(start, queueSizeLimit, mid, req, i, script[1..], now);
        var (db', done') := MintEffect(mid, req, script[1..], now);
        EffectKeepsIds(mid, req, script[1..], now);
        AgainSteps(start, db, mid, req, i, script, db', done');
      }
    }
  }

  lemma AgainSteps(start: Database, db: Database, mid: Database, req: Request, i: nat, script: seq<Attempt>,
                   db': Database, done: bool)
    requires script != [] && AgainEffect(start, mid, req, i, script[1..], db', done)
    requires db.solana.Keys <= mid.solana.Keys <= db'.solana.Keys
    requires Saving(script[0]) ==> script[0].id in mid.solana
    requires mid != db ==> Saving(script[0]) && script[0].id !in db.solana
    ensures AgainEffect(start, db, req, i, script, db', done)
  {
    hide Overwritten, AtWork;
    assert forall k :: 0 < k < |script| ==> script[k] == script[1..][k - 1];
    if done {
      var k :| 0 <= k < |script[1..]| && script[1..][k].Minted? && script[1..][k].id !in mid.solana
               && Overwritten(start, db', req.kind, i, script[1..][k].id, true);
      assert script[k + 1] == script[1..][k];
    } else if mid == db {
      if SavesNew(db, script) {
        var k :| 0 <= k < |script| && Saving(script[k]) && script[k].id !in db.solana;
        assert script[1..][k - 1] == script[k];
      }
      if SavesNew(db, script[1..]) {
        var k :| 0 <= k < |script[1..]| && Saving(script[1..][k]) && script[1..][k].id !in db.solana;
        assert script[k + 1] == script[1..][k];
      }
    } else {
      assert script[0].id in db'.solana && script[0].id !in db.solana;
    }
  }

  // ---------- the theorem ----------

  /** A request that comes again for the completed row `i` of its chain: mint touches no other row. As long as no attempt
      is known to have minted it is never done, and with the first id it saves the burn is no longer
      completed, nor is any row from there on counted as completed in order. */
  ghost predicate TakesBack(db: Database, req: Request, i: nat, script: seq<Attempt>, db': Database, done: bool) {
    && OnlyRowChanged(db, db', req.kind, i) && i < |db'.Table(req.kind)|
    && (done ==> exists k :: 0 <= k < |script| && script[k].Minted? && db'.Table(req.kind)[i].solanaId == Some(script[k].id))
    && (!done && !SavesNew(db, script) ==> db' == db)
    && (done || !SavesNew(db, script) ==>
          StatusOf(db', req.burn).Completed? && forall t: TransportType :: db'.Done(t) == db.Done(t))
    && (!done && SavesNew(db, script) ==>
          && StatusOf(db', req.burn).SolanaTxCreated?
          && forall t: TransportType :: db'.Done(t) == if t == req.kind then i else db.Done(t))
  }

  lemma MintAgainIs(db: Database, queueSizeLimit: nat, req: Request, i: nat, script: seq<Attempt>, now: Time)
    requires Inv(db, queueSizeLimit) && ForCompleted(db, req, i)
    ensures StatusOf(db, req.burn).Completed?
    ensures var (db', done) := MintEffect(db, req, script, now); TakesBack(db, req, i, script, db', done)
  {
    hide Inv, OnlyRowChanged, StatusOf, MintEffect, SavesNew;
    var (db', done) := MintEffect(db, req, script, now);
    ScriptAgain(db, queueSizeLimit, db, req, i, script, now);
    CompletedNow(db, queueSizeLimit, req, i);
    if done {
      var k :| 0 <= k < |script| && script[k].Minted? && Overwritten(db, db', req.kind, i, script[k].id, true);
      OverwrittenMeans(db, queueSizeLimit, db', req.kind, i, script[k].id, true);
    } else if db' != db {
      var id :| Overwritten(db, db', req.kind, i, id, false);
      OverwrittenMeans(db, queueSizeLimit, db', req.kind, i, id, false);
    } else {
      NothingYet(db, req.kind, i);
    }
  }

  lemma CompletedNow(db: Database, queueSizeLimit: nat, req: Request, i: nat)
    requires Inv(db, queueSizeLimit) && ForCompleted(db, req, i)
    ensures StatusOf(db, req.burn).Completed?
  {
    hide Inv;
    SolanaTableIs(db, queueSizeLimit, req.kind);
    LocationIs(db, queueSizeLimit);
    LookupIs(db, req.kind, i);
  }
}
