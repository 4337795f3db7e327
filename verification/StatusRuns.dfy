/** How a burn's status and data move over the runs of the system. */
module StatusRuns {
  import opened Common
  import opened Tables
  import opened Ledger
  import opened MintProtocol
  import opened MintSafety
  import opened MintTheorems
  import opened BurnStatus
  import opened Agreement
  import MintLanes

  // ---------- one step: the tables ----------

  /** Rows stay where they are with everything but the Solana id, new rows have no id, and
      completion only advances over the row in flight. */
  predicate TableKept(db: Database, db': Database, t: TransportType) {
    var rows, rows', n := db.Table(t), db'.Table(t), db.Done(t);
    && |rows| <= |rows'|
    && (forall i :: 0 <= i < |rows| ==> rows'[i] == rows[i].(solanaId := rows'[i].solanaId))
    && (forall i :: |rows| <= i < |rows'| ==> rows'[i].solanaId.None?)
    && (db'.Done(t) == n || (db'.Done(t) == n + 1 && Flight(rows, n).Some?))
  }

  /** Rows with a Solana id still have one. */
  predicate IdsKept(db: Database, db': Database, t: TransportType) {
    var rows, rows' := db.Table(t), db'.Table(t);
    && |rows| <= |rows'|
    && (forall i :: 0 <= i < |rows| && rows[i].solanaId.Some? ==> rows'[i].solanaId.Some?)
  }

  lemma SameTableKept(db: Database, db': Database, t: TransportType)
    requires db'.Table(t) == db.Table(t) && db'.solana == db.solana
    ensures TableKept(db, db', t) && IdsKept(db, db', t)
  {
  }

  lemma ExtendedTableKept(db: Database, db': Database, t: TransportType)
    requires SolanaInv(db) && Extends(db, db')
    ensures TableKept(db, db', t) && IdsKept(db, db', t)
  {
    assert db.Table(t) <= db'.Table(t);
    DoneCountIs(db'.Table(t), db'.solana, db.Done(t));
  }

  lemma RecoveringFacts(s: State, queueSizeLimit: nat)
    requires MintSafety.Inv(s, queueSizeLimit) && Enabled(s, RecoverNext, queueSizeLimit)
    ensures SingleFlight(s) && VerdictOk(s, s.proc.todo[0])
    ensures Flight(s.db.Table(s.proc.todo[0].kind), s.db.Done(s.proc.todo[0].kind)).Some?
    ensures forall t: TransportType :: LaneOf(s, t)
    ensures Apply(s, RecoverNext, queueSizeLimit).db == Recovered(s.db, s.proc.todo[0], s.now)
  {
    hide MintLanes.Lane, Ledger.Inv;
  }

  lemma RecoveredTableKept(s: State, queueSizeLimit: nat, t: TransportType)
    requires MintSafety.Inv(s, queueSizeLimit) && Enabled(s, RecoverNext, queueSizeLimit)
    ensures TableKept(s.db, Apply(s, RecoverNext, queueSizeLimit).db, t)
  {
    hide MintSafety.Inv, MintLanes.Lane, Apply, Recovered, VerdictOk, SingleFlight;
    RecoveringFacts(s, queueSizeLimit);
    assert LaneOf(s, t) && LaneOf(s, s.proc.todo[0].kind);
    RecoverLane(s, t, s.proc.todo[0]);
  }

  lemma RecordedTableKept(s: State, queueSizeLimit: nat, t: TransportType)
    requires MintSafety.Inv(s, queueSizeLimit)
    requires InPhase(s) && s.proc.phase.Save? && s.proc.phase.id !in s.db.solana
    ensures TableKept(s.db, Recorded(s).db, t) && IdsKept(s.db, Recorded(s).db, t)
  {
    hide MintLanes.Lane, Ledger.Inv;
    assert LaneOf(s, t) && LaneOf(s, s.proc.work[0].kind);
    assert TableKept(s.db, Recorded(s).db, t) by {
      hide Recorded;
      RecordLane(s, t);
    }
  }

  lemma MarkedTableKept(s: State, queueSizeLimit: nat, t: TransportType)
    requires MintSafety.Inv(s, queueSizeLimit) && Enabled(s, MarkConfirmed, queueSizeLimit)
    ensures TableKept(s.db, Apply(s, MarkConfirmed, queueSizeLimit).db, t)
    ensures IdsKept(s.db, Apply(s, MarkConfirmed, queueSizeLimit).db, t)
  {
    hide MintLanes.Lane, Ledger.Inv, WorkOk, TableAdvances;
    MarkingFacts(s, queueSizeLimit, t);
    MarkLane(s, t);
    MarkingFlies(s);
  }

  lemma MarkingFacts(s: State, queueSizeLimit: nat, t: TransportType)
    requires MintSafety.Inv(s, queueSizeLimit) && Enabled(s, MarkConfirmed, queueSizeLimit)
    ensures ProcInv(s) && LaneOf(s, t) && LaneOf(s, s.proc.work[0].kind)
  {
    hide MintLanes.Lane, Ledger.Inv, WorkOk;
  }

  lemma MarkingFlies(s: State)
    requires ProcInv(s) && InPhase(s) && s.proc.phase.Mark?
    ensures Flight(s.db.Table(s.proc.work[0].kind), s.db.Done(s.proc.work[0].kind)).Some?
  {
    hide WorkOk;
  }

  lemma ConfirmedTableKept(s: State, queueSizeLimit: nat, us: seq<Ledger.Unconfirmed>, t: TransportType)
    requires MintSafety.Inv(s, queueSizeLimit) && WereRows(s.db, us)
    ensures var db' := Apply(s, ConfirmBurns(us), queueSizeLimit).db; TableKept(s.db, db', t) && IdsKept(s.db, db', t)
  {
    hide TableKept, IdsKept, ConfirmAll;
    match ConfirmAll(s.db, us, s.now)
    case Err(_) => SameTableKept(s.db, s.db, t);
    case Ok(db') =>
      ConfirmAllNeedsFreshRows(s.db, us, s.now);
      ConfirmAllExtends(s.db, us, s.now);
      ExtendedTableKept(s.db, db', t);
  }

  /** A burn in a transport table never leaves it, and its amount, recipient, source and place in the
      chain never change; completion advances by at most the row in flight; only recovery forgets ids. */
  lemma StepKeepsTables(s: State, queueSizeLimit: nat, step: Step, t: TransportType)
    requires MintSafety.Inv(s, queueSizeLimit) && Enabled(s, step, queueSizeLimit)
    ensures TableKept(s.db, Apply(s, step, queueSizeLimit).db, t)
    ensures step.RecoverNext? || IdsKept(s.db, Apply(s, step, queueSizeLimit).db, t)
  {
    hide MintSafety.Inv, Recorded, TableKept, IdsKept, ConfirmAll, RemoveAll, Ledger.SetHeights, Verdicts, Uncompleted,
         ConfirmedSupply, ConfirmSolana, RemoveSolana, CanAdmit, InBigint, Readable, WereRows;
    match step
    case RecoverNext => RecoveredTableKept(s, queueSizeLimit, t);
    case SaveTx => RecordedTableKept(s, queueSizeLimit, t);
    case SaveFails(effect) =>
      if effect { RecordedTableKept(s, queueSizeLimit, t); } else { SameTableKept(s.db, s.db, t); }
    case MarkConfirmed => MarkedTableKept(s, queueSizeLimit, t);
    case Submit(u) => SameTableKept(s.db, Admit(s.db, u), t);
    case SetHeights(burns, height) =>
      SameTableKept(s.db, s.db.(unconfirmed := Ledger.SetHeights(s.db.unconfirmed, burns, height)), t);
    case RemoveBurns(us) =>
      RemoveAllTables(s.db, us);
      SameTableKept(s.db, RemoveAll(s.db, us), t);
    case ConfirmBurns(us) => ConfirmedTableKept(s, queueSizeLimit, us, t);
    case _ => SameTableKept(s.db, s.db, t);
  }

  // ---------- one step: what is known of a burn ----------

  lemma InfoAtRow(db: Database, t: TransportType, i: nat)
    requires LocationInv(db) && i < |db.Table(t)|
    ensures InfoOf(db, db.Table(t)[i].burn) == Some(RowInfo(t, db.Table(t)[i]))
  {
    LookupIs(db, t, i);
  }

  lemma InfoAtUnconfirmed(db: Database, u: Ledger.Unconfirmed)
    requires LocationInv(db) && u in db.unconfirmed
    ensures InfoOf(db, u.burn) == Some(RequestInfo(u))
  {
    UnconfirmedIs(db, u);
  }

  /** Confirming a burn moves it with its kind, amount and recipient, and touches no other burn. */
  lemma ConfirmOneKeepsInfo(db: Database, u: Ledger.Unconfirmed, now: Time, burn: BurnId)
    requires Base(db) && u in db.unconfirmed && ConfirmOne(db, u, now).Ok?
    ensures InfoOf(ConfirmOne(db, u, now).value, burn) == InfoOf(db, burn)
  {
    hide ConfirmOne;
    var db' := ConfirmOne(db, u, now).value;
    assert LocationInv(db) && LocationInv(db') && Appended(db, u, now, db')
           && TransportRow(u, End(db.Table(u.kind)), now).Amount() == u.amount by {
      ConfirmOneKeepsBase(db, u, now);
      ConfirmOneAppends(db, u, now);
    }
    AppendedKeepsInfo(db, u, now, db', burn);
  }

  lemma AppendedKeepsInfo(db: Database, u: Ledger.Unconfirmed, now: Time, db': Database, burn: BurnId)
    requires LocationInv(db) && LocationInv(db') && u in db.unconfirmed && Appended(db, u, now, db')
    requires TransportRow(u, End(db.Table(u.kind)), now).Amount() == u.amount
    ensures InfoOf(db', burn) == InfoOf(db, burn)
  {
    hide LocationInv, InfoOf;
    WithoutMembers(db.unconfirmed, u.burn);
    var place, v := InfoWhere(db', burn);
    if place.Some? {
      var (t, i) := place.value;
      InfoAtRow(db', t, i);
      if i < |db.Table(t)| {
        InfoAtRow(db, t, i);
      } else {
        InfoAtUnconfirmed(db, u);
      }
    } else if v.Some? {
      InfoAtUnconfirmed(db', v.value);
      InfoAtUnconfirmed(db, v.value);
    } else {
      AppendedForgetsNothing(db, u, now, db', burn);
    }
  }

  lemma AppendedForgetsNothing(db: Database, u: Ledger.Unconfirmed, now: Time, db': Database, burn: BurnId)
    requires LocationInv(db) && LocationInv(db') && Appended(db, u, now, db')
    requires InfoOf(db', burn).None?
    ensures InfoOf(db, burn).None?
  {
    hide LocationInv, InfoOf;
    WithoutMembers(db.unconfirmed, u.burn);
    var place, v := InfoWhere(db, burn);
    if place.Some? {
      var (t, i) := place.value;
      InfoAtRow(db', t, i);
    } else if v.Some? {
      if v.value.burn == u.burn {
        InfoAtRow(db', u.kind, |db.Table(u.kind)|);
      } else {
        InfoAtUnconfirmed(db', v.value);
      }
    }
  }

  lemma {:induction false} ConfirmAllKeepsInfo(db: Database, us: seq<Ledger.Unconfirmed>, now: Time, burn: BurnId)
    requires Base(db) && FromTable(db, us) && ConfirmAll(db, us, now).Ok?
    ensures InfoOf(ConfirmAll(db, us, now).value, burn) == InfoOf(db, burn)
  {
    hide Base, ConfirmOne, InfoOf;
    if us != [] {
      var init, last := us[..|us| - 1], us[|us| - 1];
      assert us == init + [last];
      ConfirmAllKeepsInfo(db, init, now, burn);
      ConfirmAllKeepsBase(db, init, now);
      ConfirmOneKeepsInfo(ConfirmAll(db, init, now).value, last, now, burn);
    }
  }

  /** Requests of the later ledger were there before, up to recorded heights. */
  ghost predicate NoNewRequests(db: Database, db': Database) {
    forall u' :: u' in db'.unconfirmed ==> exists u :: u in db.unconfirmed && u' == u.(height := u'.height)
  }

  lemma InfoFrom(db: Database, db': Database, burn: BurnId)
    requires LocationInv(db) && LocationInv(db') && NoNewRequests(db, db')
    requires forall t: TransportType :: TableKept(db, db', t) && |db'.Table(t)| == |db.Table(t)|
    requires InfoOf(db', burn).Some?
    ensures InfoOf(db, burn) == InfoOf(db', burn)
  {
    hide LocationInv, InfoOf;
    var place, v := InfoWhere(db', burn);
    if place.Some? {
      var (t, i) := place.value;
      assert TableKept(db, db', t);
      InfoAtRow(db', t, i);
      InfoAtRow(db, t, i);
    } else {
      var u :| u in db.unconfirmed && v.value == u.(height := v.value.height);
      InfoAtUnconfirmed(db', v.value);
      InfoAtUnconfirmed(db, u);
    }
  }

  lemma InfoStays(db: Database, db': Database, burn: BurnId)
    requires LocationInv(db) && LocationInv(db')
    requires forall t: TransportType :: TableKept(db, db', t)
    requires InfoOf(db, burn).Some?
    requires StatusOf(db, burn).Unconfirmed? ==> NoNewRequests(db', db)
    ensures InfoOf(db', burn).Some?
  {
    hide LocationInv, InfoOf;
    var place, v := InfoWhere(db, burn);
    if place.Some? {
      var (t, i) := place.value;
      assert TableKept(db, db', t);
      InfoAtRow(db', t, i);
    } else {
      var u :| u in db'.unconfirmed && v.value == u.(height := v.value.height);
      InfoAtUnconfirmed(db', u);
    }
  }

  lemma StepRequests(s: State, queueSizeLimit: nat, step: Step)
    requires MintSafety.Inv(s, queueSizeLimit) && Enabled(s, step, queueSizeLimit)
    requires !step.ConfirmBurns? && !step.Submit?
    ensures var db' := Apply(s, step, queueSizeLimit).db;
            && NoNewRequests(s.db, db')
            && (step.RemoveBurns? || NoNewRequests(db', s.db))
            && forall t: TransportType :: |db'.Table(t)| == |s.db.Table(t)|
  {
    hide MintSafety.Inv, NoNewRequests;
    if step.SetHeights? {
      SetHeightsRequests(s.db, step.burns, step.height);
    } else if step.RemoveBurns? {
      LedgerInvOf(s, queueSizeLimit);
      RemovedRequests(s.db, step.us);
      RemoveAllTables(s.db, step.us);
    } else {
      SolanaStepRequests(s, queueSizeLimit, step);
      SameRequests(s.db, Apply(s, step, queueSizeLimit).db);
    }
  }

  lemma SameRequests(db: Database, db': Database)
    requires db'.unconfirmed == db.unconfirmed
    ensures NoNewRequests(db, db') && NoNewRequests(db', db)
  {
    assert forall u :: u in db.unconfirmed ==> u == u.(height := u.height);
  }

  lemma RemovedRequests(db: Database, us: seq<Ledger.Unconfirmed>)
    requires Base(db) && InBigint(RemoveAll(db, us).limits)
    ensures NoNewRequests(db, RemoveAll(db, us))
  {
    hide Base, InBigint;
    RemoveAllKeepsBase(db, us);
    assert forall u :: u in RemoveAll(db, us).unconfirmed ==> u in db.unconfirmed && u == u.(height := u.height);
  }

  lemma SolanaStepRequests(s: State, queueSizeLimit: nat, step: Step)
    requires Enabled(s, step, queueSizeLimit)
    requires !step.ConfirmBurns? && !step.Submit? && !step.SetHeights? && !step.RemoveBurns?
    ensures var db' := Apply(s, step, queueSizeLimit).db;
            db'.unconfirmed == s.db.unconfirmed && forall t: TransportType :: |db'.Table(t)| == |s.db.Table(t)|
  {
    hide Enabled, Apply;
    OtherStepsLeaveRequests(s, queueSizeLimit, step);
  }

  lemma SetHeightsRequests(db: Database, burns: seq<BurnId>, height: nat)
    ensures var db' := db.(unconfirmed := Ledger.SetHeights(db.unconfirmed, burns, height));
            NoNewRequests(db, db') && NoNewRequests(db', db)
  {
    var us, us' := db.unconfirmed, Ledger.SetHeights(db.unconfirmed, burns, height);
    SetHeightsEffect(us, burns, height);
    forall u' | u' in us'
      ensures exists u :: u in us && u' == u.(height := u'.height)
    {
      var i :| 0 <= i < |us'| && us'[i] == u';
      assert us[i] in us;
    }
    forall u | u in us
      ensures exists u' :: u' in us' && u == u'.(height := u.height)
    {
      var i :| 0 <= i < |us| && us[i] == u;
      assert us'[i] in us' && u == us'[i].(height := u.height);
    }
  }

  lemma SubmitInfo(db: Database, queueSizeLimit: nat, u: Ledger.Unconfirmed, burn: BurnId)
    requires Ledger.Inv(db, queueSizeLimit) && CanAdmit(db, queueSizeLimit, u)
    ensures InfoOf(Admit(db, u), burn) == if burn == u.burn then Some(RequestInfo(u)) else InfoOf(db, burn)
    ensures burn == u.burn ==> InfoOf(db, burn).None? && StatusOf(Admit(db, u), burn).Unconfirmed?
  {
    hide LocationInv, InfoOf;
    var db' := Admit(db, u);
    AdmitKeepsInv(db, queueSizeLimit, u);
    TablesOnly(db, db');
    var place, v := InfoWhere(db, burn);
    if burn == u.burn {
      InfoAtUnconfirmed(db', u);
      UnconfirmedIs(db', u);
    } else if place.Some? {
      InfoAtRow(db, place.value.0, place.value.1);
      InfoAtRow(db', place.value.0, place.value.1);
    } else if v.Some? {
      InfoAtUnconfirmed(db, v.value);
      InfoAtUnconfirmed(db', v.value);
    } else {
      var _, _ := InfoWhere(db', burn);
      BurnsAppend(db.unconfirmed, u);
      assert !Known(db', burn);
    }
  }

  /** What is known of a burn never changes: it is created by its submission, and can only
      be dropped, by removal, while it is unconfirmed. */
  lemma StepKeepsInfo(s: State, queueSizeLimit: nat, step: Step, burn: BurnId)
    requires MintSafety.Inv(s, queueSizeLimit) && Enabled(s, step, queueSizeLimit)
    ensures var info, info' := InfoOf(s.db, burn), InfoOf(Apply(s, step, queueSizeLimit).db, burn);
            || info == info'
            || (step.Submit? && step.u.burn == burn && info.None? && info' == Some(RequestInfo(step.u)))
            || (step.RemoveBurns? && StatusOf(s.db, burn).Unconfirmed? && info'.None?)
  {
    hide MintSafety.Inv, InfoOf, StatusOf, TableKept, IdsKept, NoNewRequests;
    var s' := Apply(s, step, queueSizeLimit);
    LedgerInvOf(s, queueSizeLimit);
    if step.Submit? {
      SubmitInfo(s.db, queueSizeLimit, step.u, burn);
    } else if step.ConfirmBurns? {
      if ConfirmAll(s.db, step.us, s.now).Ok? {
        ConfirmAllNeedsFreshRows(s.db, step.us, s.now);
        ConfirmAllKeepsInfo(s.db, step.us, s.now, burn);
      }
    } else {
      OtherStepInfo(s, queueSizeLimit, step, burn);
    }
  }

  lemma LedgerInvOf(s: State, queueSizeLimit: nat)
    requires MintSafety.Inv(s, queueSizeLimit)
    ensures Ledger.Inv(s.db, queueSizeLimit) && Base(s.db) && LocationInv(s.db) && SolanaInv(s.db)
  {
  }

  lemma OtherStepInfo(s: State, queueSizeLimit: nat, step: Step, burn: BurnId)
    requires MintSafety.Inv(s, queueSizeLimit) && Enabled(s, step, queueSizeLimit)
    requires !step.ConfirmBurns? && !step.Submit?
    ensures var info, info' := InfoOf(s.db, burn), InfoOf(Apply(s, step, queueSizeLimit).db, burn);
            info == info' || (step.RemoveBurns? && StatusOf(s.db, burn).Unconfirmed? && info'.None?)
  {
    hide MintSafety.Inv, Enabled, Apply, InfoOf, StatusOf, TableKept, IdsKept, NoNewRequests;
    var s' := Apply(s, step, queueSizeLimit);
    StepKeepsInv(s, queueSizeLimit, step);
    LedgerInvOf(s, queueSizeLimit);
    LedgerInvOf(s', queueSizeLimit);
    StepRequests(s, queueSizeLimit, step);
    forall t: TransportType
      ensures TableKept(s.db, s'.db, t)
    {
      StepKeepsTables(s, queueSizeLimit, step, t);
    }
    if InfoOf(s'.db, burn).Some? {
      InfoFrom(s.db, s'.db, burn);
    }
    if InfoOf(s.db, burn).Some? && !(step.RemoveBurns? && StatusOf(s.db, burn).Unconfirmed?) {
      InfoStays(s.db, s'.db, burn);
    }
  }

  // ---------- status ----------

  /** The moves of the reported status. */
  predicate Moves(a: Status, b: Status) {
    || a == b
    || (a.NotFound? && b.Unconfirmed?)
    || (a.Unconfirmed? && (b.NotFound? || b.InTheQueue?))
    || (a.InTheQueue? && b.SolanaTxCreated?)
    || (a.SolanaTxCreated? && (b.InTheQueue? || b.Completed?))
  }

  lemma StatusAtRow(db: Database, t: TransportType, i: nat)
    requires LocationInv(db) && SolanaInv(db) && i < |db.Table(t)|
    ensures StatusOf(db, db.Table(t)[i].burn)
            == if i < db.Done(t) then Status.Completed
               else if db.Table(t)[i].solanaId.None? then InTheQueue
               else SolanaTxCreated
    ensures i > db.Done(t) ==> db.Table(t)[i].solanaId.None?
  {
    LookupIs(db, t, i);
    assert Orderly(db.Table(t), db.solana, db.Done(t));
  }

  lemma RowMovesStatus(db: Database, db': Database, t: TransportType, i: nat)
    requires LocationInv(db) && SolanaInv(db) && LocationInv(db') && SolanaInv(db')
    requires TableKept(db, db', t) && i < |db.Table(t)|
    ensures var a, b := StatusOf(db, db.Table(t)[i].burn), StatusOf(db', db.Table(t)[i].burn);
            && Moves(a, b) && !a.Unconfirmed?
            && (IdsKept(db, db', t) && a.SolanaTxCreated? ==> !b.InTheQueue?)
  {
    hide StatusOf, LocationInv, SolanaInv;
    StatusAtRow(db, t, i);
    StatusAtRow(db', t, i);
  }

  /** The status moves forward one stage at a time; it moves back only from Unconfirmed to
      NotFound by removal and from SolanaTxCreated to InTheQueue by recovery. */
  lemma StepMovesStatus(s: State, queueSizeLimit: nat, step: Step, burn: BurnId)
    requires MintSafety.Inv(s, queueSizeLimit) && Enabled(s, step, queueSizeLimit)
    ensures var a, b := StatusOf(s.db, burn), StatusOf(Apply(s, step, queueSizeLimit).db, burn);
            && Moves(a, b)
            && (a.Unconfirmed? && b.NotFound? ==> step.RemoveBurns?)
            && (a.SolanaTxCreated? && b.InTheQueue? ==> step.RecoverNext?)
  {
    hide MintSafety.Inv, Enabled, Apply, InfoOf, StatusOf, Lookup, LocationInv, SolanaInv, TableKept, IdsKept;
    var s' := Apply(s, step, queueSizeLimit);
    StepKeepsInv(s, queueSizeLimit, step);
    LedgerInvOf(s, queueSizeLimit);
    LedgerInvOf(s', queueSizeLimit);
    StepKeepsInfo(s, queueSizeLimit, step, burn);
    var place, u := InfoWhere(s.db, burn);
    var place', u' := InfoWhere(s'.db, burn);
    if place.Some? {
      var (t, i) := place.value;
      StepKeepsTables(s, queueSizeLimit, step, t);
      RowMovesStatus(s.db, s'.db, t, i);
    } else if place'.Some? {
      NewRowIsQueued(s, queueSizeLimit, step, burn, place'.value.0, place'.value.1);
    }
  }

  lemma NewRowIsQueued(s: State, queueSizeLimit: nat, step: Step, burn: BurnId, t: TransportType, i: nat)
    requires MintSafety.Inv(s, queueSizeLimit) && Enabled(s, step, queueSizeLimit)
    requires Lookup(s.db, burn).None?
    requires var db' := Apply(s, step, queueSizeLimit).db; i < |db'.Table(t)| && db'.Table(t)[i].burn == burn
    ensures StatusOf(s.db, burn).Unconfirmed? && StatusOf(Apply(s, step, queueSizeLimit).db, burn).InTheQueue?
  {
    hide MintSafety.Inv, Enabled, Apply, InfoOf, StatusOf, LocationInv, SolanaInv, Lookup;
    var s' := Apply(s, step, queueSizeLimit);
    StepKeepsInv(s, queueSizeLimit, step);
    LedgerInvOf(s, queueSizeLimit);
    LedgerInvOf(s', queueSizeLimit);
    StepKeepsTables(s, queueSizeLimit, step, t);
    StatusAtRow(s'.db, t, i);
    if i < |s.db.Table(t)| {
      LookupIs(s.db, t, i);
      assert false;
    }
    EndsQueued(s.db, s'.db, t, i);
    StepKeepsInfo(s, queueSizeLimit, step, burn);
    var place', _ := InfoWhere(s'.db, burn);
    var place, u := InfoWhere(s.db, burn);
    if step.Submit? && step.u.burn == burn {
      SubmittedIsUnconfirmed(s, queueSizeLimit, step, burn);
    }
  }

  lemma SubmittedIsUnconfirmed(s: State, queueSizeLimit: nat, step: Step, burn: BurnId)
    requires MintSafety.Inv(s, queueSizeLimit) && Enabled(s, step, queueSizeLimit)
    requires step.Submit? && step.u.burn == burn
    ensures StatusOf(Apply(s, step, queueSizeLimit).db, burn).Unconfirmed?
  {
    SubmitInfo(s.db, queueSizeLimit, step.u, burn);
  }

  /** A row that is new in the table lies beyond the completed ones. */
  lemma EndsQueued(db: Database, db': Database, t: TransportType, i: nat)
    requires TableKept(db, db', t) && |db.Table(t)| <= i < |db'.Table(t)|
    ensures db'.Done(t) <= i && db'.Table(t)[i].solanaId.None?
  {
  }

  // ---------- runs ----------

  /** Completed is permanent. */
  lemma {:induction false} CompletedIsFinal(states: seq<State>, steps: seq<Step>, queueSizeLimit: nat, i: nat,
                                            j: nat, burn: BurnId)
    requires Run(states, steps, queueSizeLimit) && i <= j < |states|
    requires StatusOf(states[i].db, burn).Completed?
    ensures StatusOf(states[j].db, burn).Completed?
    decreases j
  {
    hide Enabled, Apply, MintSafety.Inv, StatusOf;
    if i < j {
      CompletedIsFinal(states, steps, queueSizeLimit, i, j - 1, burn);
      RunInvariant(states, steps, queueSizeLimit, j - 1);
      StepMovesStatus(states[j - 1], queueSizeLimit, steps[j - 1], burn);
    }
  }

  /** A burn reported completed is minted; a minted burn is in a table, with an id recorded unless a mint is lost to the
      ledger; and a burn reported unconfirmed or unknown is not minted. */
  lemma StatusTellsMint(s: State, queueSizeLimit: nat, burn: BurnId)
    requires MintSafety.Inv(s, queueSizeLimit)
    ensures var a := StatusOf(s.db, burn);
            && (a.Completed? ==> Minted(s, burn))
            && (Minted(s, burn) ==> a.Completed? || a.SolanaTxCreated? || (a.InTheQueue? && !NothingLost(s)))
  {
    hide StatusOf, InfoOf, MintSafety.Inv, LocationInv, SolanaInv, Base, Ledger.Inv;
    LedgerInvOf(s, queueSizeLimit);
    var place, u := InfoWhere(s.db, burn);
    if place.Some? {
      RowTellsMint(s, queueSizeLimit, place.value.0, place.value.1);
    } else if Minted(s, burn) {
      var id :| IsExecuted(s, id) && s.txs[id].burn == burn;
      var i := TxHasRow(s, queueSizeLimit, id);
      LookupIs(s.db, s.txs[id].kind, i);
      assert false;
    }
  }

  lemma RowTellsMint(s: State, queueSizeLimit: nat, t: TransportType, i: nat)
    requires MintSafety.Inv(s, queueSizeLimit) && i < |s.db.Table(t)|
    ensures var burn := s.db.Table(t)[i].burn;
            var a := StatusOf(s.db, burn);
            && (a.Completed? ==> Minted(s, burn))
            && (Minted(s, burn) ==> a.Completed? || a.SolanaTxCreated? || (a.InTheQueue? && !NothingLost(s)))
  {
    hide StatusOf, Ledger.Inv, MintSafety.ProcInv, MintLanes.Lane, LocationInv, SolanaInv;
    LedgerInvOf(s, queueSizeLimit);
    StatusAtRow(s.db, t, i);
    ContractHoldsPrefix(s, queueSizeLimit, t);
    assert LaneOf(s, t);
    AheadHasId(s, t);
  }

  lemma AheadHasId(s: State, t: TransportType)
    requires LaneOf(s, t)
    ensures MintLanes.Ahead(s.db.Table(t), s.chain.Get(t), s.db.Done(t)) ==> FlightOf(s, t).Some? || !NothingLost(s)
  {
    assert FlightOf(s, t).None? && MintLanes.Ahead(s.db.Table(t), s.chain.Get(t), s.db.Done(t)) ==> LostAt(s, t);
  }

  /** What a landing transaction mints is what the ledger holds for its burn. */
  lemma MintsWhatLedgerHolds(s: State, queueSizeLimit: nat, id: SolanaTxId)
    requires MintSafety.Inv(s, queueSizeLimit) && id in s.txs
    ensures var tx := s.txs[id]; InfoOf(s.db, tx.burn) == Some(BurnInfo(tx.kind, tx.amount, tx.recipient))
  {
    hide MintSafety.Inv, InfoOf;
    LedgerInvOf(s, queueSizeLimit);
    var i := TxHasRow(s, queueSizeLimit, id);
    InfoAtRow(s.db, s.txs[id].kind, i);
    ChainBefore(s.db.Table(s.txs[id].kind), i);
  }

  lemma {:induction false} InfoSince(states: seq<State>, steps: seq<Step>, queueSizeLimit: nat, i: nat, j: nat,
                                     burn: BurnId)
    requires Run(states, steps, queueSizeLimit) && i < j < |states|
    requires forall k :: i < k < j ==> !(steps[k].Submit? && steps[k].u.burn == burn)
    requires InfoOf(states[j].db, burn).Some?
    ensures InfoOf(states[i + 1].db, burn) == InfoOf(states[j].db, burn)
    decreases j
  {
    hide Enabled, Apply, MintSafety.Inv, InfoOf;
    if i + 1 < j {
      RunInvariant(states, steps, queueSizeLimit, j - 1);
      StepKeepsInfo(states[j - 1], queueSizeLimit, steps[j - 1], burn);
      InfoSince(states, steps, queueSizeLimit, i, j - 1, burn);
    }
  }

  /** End to end: what is minted for a burn is exactly what its last submission asked for, whatever
      happened in between: the same type, the same amount, to the same Solana address. */
  lemma MintedAsSubmitted(states: seq<State>, steps: seq<Step>, queueSizeLimit: nat, i: nat, j: nat)
    requires Run(states, steps, queueSizeLimit) && i < j < |steps|
    requires steps[i].Submit? && Mints(states, steps, j, steps[i].u.burn)
    requires forall k :: i < k < j ==> !(steps[k].Submit? && steps[k].u.burn == steps[i].u.burn)
    ensures var u, tx := steps[i].u, states[j].txs[steps[j].id];
            tx.kind == u.kind && tx.amount == u.amount && tx.recipient == u.recipient
  {
    hide MintSafety.Inv, InfoOf;
    var u := steps[i].u;
    assert Enabled(states[i], steps[i], queueSizeLimit);
    RunInvariant(states, steps, queueSizeLimit, i);
    LedgerInvOf(states[i], queueSizeLimit);
    SubmitInfo(states[i].db, queueSizeLimit, u, u.burn);
    RunInvariant(states, steps, queueSizeLimit, j);
    MintsWhatLedgerHolds(states[j], queueSizeLimit, steps[j].id);
    InfoSince(states, steps, queueSizeLimit, i, j, u.burn);
  }

  /** The ledger knows, and so mints, only burns that were submitted. */
  lemma {:induction false} KnownWasSubmitted(states: seq<State>, steps: seq<Step>, queueSizeLimit: nat, j: nat,
                                             burn: BurnId)
    requires Run(states, steps, queueSizeLimit) && j < |states|
    requires InfoOf(states[j].db, burn).Some?
    ensures exists i :: 0 <= i < j && steps[i].Submit? && steps[i].u.burn == burn
  {
    hide Enabled, Apply, MintSafety.Inv;
    if j > 0 {
      RunInvariant(states, steps, queueSizeLimit, j - 1);
      StepKeepsInfo(states[j - 1], queueSizeLimit, steps[j - 1], burn);
      if InfoOf(states[j - 1].db, burn).Some? {
        KnownWasSubmitted(states, steps, queueSizeLimit, j - 1, burn);
      }
    }
  }
}
