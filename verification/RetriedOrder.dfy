/** When a list that was delivered more than once takes completion back, and when it breaks the order of
    completion. The state is followed by one the protocol could be in. */
module RetriedOrder {
  import opened Common
  import opened Tables
  import opened Ledger
  import opened Emission
  import opened StorageSpec
  import opened LoopSpec
  import opened MintProtocol
  import opened MintLanes
  import opened MintSafety
  import opened RetriedReads
  import opened Agreement
  import opened BurnStatus
  import MintTheorems
  import StatusRuns

  // ---------- the state behind the state ----------

  /** How many requests are work in order, and the queue limit to go with them. */
  datatype View = View(k: nat, limit: nat)

  predicate HasWork(proc: Proc) {
    proc.Gathering? || proc.Minting?
  }

  function Cut(proc: Proc, k: nat): Proc {
    match proc
    case Gathering(read, work) => if k <= |work| then Gathering(read, work[..k]) else proc
    case Minting(work, phase) => if k <= |work| then Minting(work[..k], phase) else proc
    case _ => proc
  }

  function Shadow(s: State, v: View): State {
    s.(proc := Cut(s.proc, v.k))
  }

  /** Nothing is cut off. */
  predicate Whole(proc: Proc, k: nat) {
    HasWork(proc) ==> |proc.work| <= k
  }

  /** The last request in order comes again next. */
  predicate Doubled(proc: Proc, k: nat) {
    HasWork(proc) && 0 < k < |proc.work| && proc.work[k] == proc.work[k - 1]
  }

  /** One of the requests in order is for a chain whose next mint is lost to the ledger. */
  predicate BlockedBefore(s: State, k: nat) {
    HasWork(s.proc) && k <= |s.proc.work| && exists j :: 0 <= j < k && LostAt(s, s.proc.work[j].kind)
  }

  /** Nothing comes again that could be reached. */
  predicate Steady(s: State, k: nat) {
    Whole(s.proc, k) || BlockedBefore(s, k)
  }

  /** The last request in order, as long as it comes again, is the one it was. */
  predicate Tracks(s: State, v: View, s': State, v': View) {
    && v'.limit == v.limit
    && (HasWork(s'.proc) && 0 < v'.k < |s'.proc.work| ==>
          HasWork(s.proc) && 0 < v.k < |s.proc.work| && s'.proc.work[v'.k - 1] == s.proc.work[v.k - 1])
  }

  ghost predicate Follows(s: State, v: View, queueSizeLimit: nat) {
    && MintSafety.Inv(Shadow(s, v), v.limit) && queueSizeLimit <= v.limit
    && (Steady(s, v.k) || Doubled(s.proc, v.k))
  }

  /** The state without its work. */
  function AtRest(s: State): State {
    s.(proc := Idle)
  }

  /** The request at hand is for the last completed row, and no transaction is built for any row beyond. */
  ghost predicate Again(s: State) {
    && InPhase(s)
    && var req := s.proc.work[0];
    var rows, n := s.db.Table(req.kind), s.db.Done(req.kind);
    && 0 < n <= |rows|
    && req == ToRequest(req.kind, rows[n - 1])
    && (req.kind.Regular? ==> rows[n - 1].supplyAfter < AllowedSupply(s.now))
    && BuiltInv(req.kind, rows, s.txs, n - 1)
    && (s.proc.phase.Save? ==> s.proc.phase.id in s.txs && s.txs[s.proc.phase.id] == TxFor(req))
  }

  ghost predicate Repeats(s: State, v: View, queueSizeLimit: nat) {
    && MintSafety.Inv(AtRest(s), v.limit) && queueSizeLimit <= v.limit
    && Again(s) && (s.proc.phase.Build? || s.proc.phase.Save?)
  }

  // ---------- steps that both states take ----------

  /** The step does the same to both states. */
  predicate Parallel(s: State, v: View, step: Step, queueSizeLimit: nat) {
    && Enabled(s, step, queueSizeLimit) && Enabled(Shadow(s, v), step, v.limit)
    && var s', a := Apply(s, step, queueSizeLimit), Apply(Shadow(s, v), step, v.limit);
    && a == Shadow(s', v)
    && (HasWork(s'.proc) ==> if HasWork(s.proc) then s'.proc.work == s.proc.work && (s.proc.Minting? ==> s'.proc.Minting?)
                             else s'.proc.work == [])
  }

  predicate FromOutside(step: Step) {
    step.Submit? || step.SetHeights? || step.RemoveBurns? || step.ConfirmBurns? || step.Tick?
    || step.Land? || step.Reject? || step.Vanish? || step.Crash?
  }

  predicate OfMint(step: Step) {
    step.BuildTx? || step.SaveTx? || step.SaveFails? || step.SendTx? || step.SendConfirmed? || step.SendFails?
    || step.StatusKnown? || step.StatusFails? || step.MarkConfirmed?
  }

  lemma OutsideParallel(s: State, v: View, step: Step, queueSizeLimit: nat)
    requires Enabled(s, step, queueSizeLimit) && queueSizeLimit <= v.limit && FromOutside(step)
    ensures Parallel(s, v, step, queueSizeLimit)
  {
    hide ConfirmAll, FitsSupply, Ledger.SetHeights, RemoveAll, InBigint, WereRows, Readable, Admit, QueueSize;
  }

  lemma ServerParallel(s: State, v: View, step: Step, queueSizeLimit: nat)
    requires Enabled(s, step, queueSizeLimit) && !FromOutside(step) && !OfMint(step) && !step.ReadUncompleted?
    requires HasWork(s.proc) && v.k == 0 ==> s.proc.work == []
    ensures Parallel(s, v, step, queueSizeLimit)
  {
    hide Verdicts, ConfirmedSupply, ConfirmSolana, RemoveSolana;
    if step.Start? { SameVerdicts(s, v, step.found); }
  }

  lemma MintParallel(s: State, v: View, step: Step, queueSizeLimit: nat)
    requires Enabled(s, step, queueSizeLimit) && OfMint(step) && !step.MarkConfirmed? && v.k > 0
    ensures Parallel(s, v, step, queueSizeLimit)
  {
    hide Parallel, Enabled;
    if step.SaveTx? || step.SaveFails? {
      SavingParallel(s, v, step, queueSizeLimit);
    } else if step.BuildTx? || step.SendTx? {
      SendingParallel(s, v, step, queueSizeLimit);
    } else {
      OutcomeParallel(s, v, step, queueSizeLimit);
    }
  }

  lemma SendingParallel(s: State, v: View, step: Step, queueSizeLimit: nat)
    requires Enabled(s, step, queueSizeLimit) && (step.BuildTx? || step.SendTx?) && v.k > 0
    ensures Parallel(s, v, step, queueSizeLimit)
  {
  }

  lemma OutcomeParallel(s: State, v: View, step: Step, queueSizeLimit: nat)
    requires Enabled(s, step, queueSizeLimit) && v.k > 0
    requires step.SendConfirmed? || step.SendFails? || step.StatusKnown? || step.StatusFails?
    ensures Parallel(s, v, step, queueSizeLimit)
  {
  }

  lemma SavingParallel(s: State, v: View, step: Step, queueSizeLimit: nat)
    requires Enabled(s, step, queueSizeLimit) && (step.SaveTx? || step.SaveFails?) && v.k > 0
    ensures Parallel(s, v, step, queueSizeLimit)
  {
    hide AddSolana, Flight;
  }

  lemma SameVerdicts(s: State, v: View, found: set<SolanaTxId>)
    ensures Verdicts(Shadow(s, v), found) == Verdicts(s, found)
  {
  }

  lemma ShadowLoses(s: State, v: View)
    ensures forall t: TransportType :: LostAt(Shadow(s, v), t) <==> LostAt(s, t)
  {
  }

  lemma StillLost(s: State, v: View, step: Step, s': State)
    requires MintSafety.Inv(Shadow(s, v), v.limit) && Enabled(Shadow(s, v), step, v.limit)
    requires var a := Apply(Shadow(s, v), step, v.limit); s'.db == a.db && s'.txs == a.txs && s'.chain == a.chain
    ensures forall t: TransportType :: LostAt(s, t) ==> LostAt(s', t)
  {
    hide MintSafety.Inv, Enabled, Apply;
    ShadowLoses(s, v);
    var a := Apply(Shadow(s, v), step, v.limit);
    forall t: TransportType | LostAt(s, t)
      ensures LostAt(s', t)
    {
      LossStays(Shadow(s, v), v.limit, step, t);
      assert LostAt(a, t) <==> LostAt(s', t);
    }
  }

  /** Such a step keeps the states together. */
  lemma ParallelFollows(s: State, v: View, step: Step, queueSizeLimit: nat)
    requires Follows(s, v, queueSizeLimit) && Parallel(s, v, step, queueSizeLimit)
    ensures Follows(Apply(s, step, queueSizeLimit), v, queueSizeLimit)
    ensures Steady(s, v.k) ==> Steady(Apply(s, step, queueSizeLimit), v.k)
    ensures Tracks(s, v, Apply(s, step, queueSizeLimit), v)
  {
    hide MintSafety.Inv, Enabled, Apply, LostAt;
    var s' := Apply(s, step, queueSizeLimit);
    StepKeepsInv(Shadow(s, v), v.limit, step);
    StillLost(s, v, step, s');
    if BlockedBefore(s, v.k) && HasWork(s'.proc) && s'.proc.work != [] {
      var j :| 0 <= j < v.k && LostAt(s, s.proc.work[j].kind);
      assert LostAt(s', s'.proc.work[j].kind);
    }
  }

  // ---------- reading on ----------

  lemma SameReadings(s: State, v: View, t: TransportType)
    ensures Uncompleted(Shadow(s, v), t) == Uncompleted(s, t)
  {
  }

  lemma ReadFollows(s: State, v: View, t: TransportType, queueSizeLimit: nat) returns (v': View)
    requires Follows(s, v, queueSizeLimit) && Enabled(s, ReadUncompleted(t), queueSizeLimit)
    ensures var s' := Apply(s, ReadUncompleted(t), queueSizeLimit);
            Follows(s', v', queueSizeLimit) && (Steady(s, v.k) ==> Steady(s', v'.k)) && Tracks(s, v, s', v')
  {
    hide MintSafety.Inv, Uncompleted, LostAt;
    var s', work := Apply(s, ReadUncompleted(t), queueSizeLimit), s.proc.work;
    SameReadings(s, v, t);
    if Whole(s.proc, v.k) {
      v' := v.(k := |s'.proc.work|);
      StepKeepsInv(Shadow(s, v), v.limit, ReadUncompleted(t));
      assert work[..|work|] == work && s'.proc.work[..|s'.proc.work|] == s'.proc.work;
      assert Apply(Shadow(s, v), ReadUncompleted(t), v.limit) == Shadow(s', v');
    } else {
      v' := v;
      assert s'.proc.work[..v.k] == work[..v.k];
      ReadsNothing(Shadow(s, v), t, v.limit);
      SameLosses(s, s'.proc);
      if BlockedBefore(s, v.k) {
        var j :| 0 <= j < v.k && LostAt(s, work[j].kind);
        assert LostAt(s', s'.proc.work[j].kind);
      }
    }
  }

  lemma ReadsNothing(s: State, t: TransportType, queueSizeLimit: nat)
    requires MintSafety.Inv(s, queueSizeLimit) && Reading(s, t)
    ensures MintSafety.Inv(s.(proc := Gathering(s.proc.read + [t], s.proc.work)), queueSizeLimit)
  {
    hide MintLanes.Lane, Ledger.Inv, WorkOk;
    var proc := Gathering(s.proc.read + [t], s.proc.work);
    ReadsInOrder(s.proc.read, s.proc.work, t, []);
    assert s.proc.work + [] == s.proc.work;
    SameFlights(s, proc);
    ProcStepKeeps(s, queueSizeLimit, proc);
  }

  // ---------- completing a request ----------

  /** A mint that is lost to the ledger is never marked. */
  lemma LostIsNotMarked(s: State, queueSizeLimit: nat)
    requires MintSafety.Inv(s, queueSizeLimit) && InPhase(s) && s.proc.phase.Mark?
    ensures !LostAt(s, s.proc.work[0].kind)
  {
    hide Ledger.Inv, WorkOk;
  }

  lemma MarkIs(s: State, queueSizeLimit: nat)
    requires Enabled(s, MarkConfirmed, queueSizeLimit)
    ensures InPhase(s) && s.proc.phase.Mark?
    ensures Apply(s, MarkConfirmed, queueSizeLimit)
            == s.(db := ConfirmSolana(s.db, s.proc.phase.id, s.now),
                  proc := if s.proc.work[1..] == [] then Idle else Minting(s.proc.work[1..], Build))
  {
  }

  /** After the mark, the requests in order are one less. */
  lemma MarkedShadow(s: State, v: View, queueSizeLimit: nat)
    requires Follows(s, v, queueSizeLimit) && Enabled(s, MarkConfirmed, queueSizeLimit)
    ensures var s', a := Apply(s, MarkConfirmed, queueSizeLimit), Apply(Shadow(s, v), MarkConfirmed, v.limit);
            && Enabled(Shadow(s, v), MarkConfirmed, v.limit)
            && MintSafety.Inv(a, v.limit) && v.k > 0
            && (|s.proc.work| <= v.k ==> a == Shadow(s', v))
            && (1 < v.k < |s.proc.work| ==> a == Shadow(s', v.(k := v.k - 1)))
            && (v.k == 1 < |s.proc.work| ==> a == AtRest(s'))
            && (HasWork(s'.proc) ==> s'.proc.work == s.proc.work[1..])
            && s'.db == a.db && s'.txs == a.txs && s'.chain == a.chain
  {
    hide MintSafety.Inv, Enabled, Apply, ConfirmSolana, LostAt;
    MarkIs(s, queueSizeLimit);
    var work, s0 := s.proc.work, Shadow(s, v);
    MarkOfShadow(s, v, queueSizeLimit);
    MarkIs(s0, v.limit);
    StepKeepsInv(s0, v.limit, MarkConfirmed);
    if |work| <= v.k {
      assert work[..|work|] == work;
    } else {
      assert work[..v.k][1..] == work[1..][..v.k - 1];
    }
  }

  lemma MarkFollows(s: State, v: View, queueSizeLimit: nat) returns (v': View)
    requires Follows(s, v, queueSizeLimit) && Enabled(s, MarkConfirmed, queueSizeLimit)
    ensures var s' := Apply(s, MarkConfirmed, queueSizeLimit);
            && (Follows(s', v', queueSizeLimit)
                || (Repeats(s', v', queueSizeLimit) && Doubled(s.proc, 1) && v.k == 1 && s'.proc.work == s.proc.work[1..]))
            && (Steady(s, v.k) ==> Follows(s', v', queueSizeLimit) && Steady(s', v'.k))
            && Tracks(s, v, s', v')
  {
    hide MintSafety.Inv, Enabled, Apply, ConfirmSolana, Again, LostAt;
    MarkIs(s, queueSizeLimit);
    MarkedShadow(s, v, queueSizeLimit);
    var work := s.proc.work;
    v' := if |work| <= v.k then v else v.(k := v.k - 1);
    if |work| > v.k {
      if BlockedBefore(s, v.k) {
        BlockedMoves(s, v, queueSizeLimit);
      } else if v.k == 1 {
        CompletedAgain(s, v, queueSizeLimit);
      }
    }
  }

  /** What is blocked comes one closer. */
  lemma BlockedMoves(s: State, v: View, queueSizeLimit: nat)
    requires Follows(s, v, queueSizeLimit) && Enabled(s, MarkConfirmed, queueSizeLimit)
    requires BlockedBefore(s, v.k) && v.k < |s.proc.work|
    ensures v.k > 1 && BlockedBefore(Apply(s, MarkConfirmed, queueSizeLimit), v.k - 1)
  {
    hide MintSafety.Inv, Enabled, Apply, ConfirmSolana, LostAt;
    var s' := Apply(s, MarkConfirmed, queueSizeLimit);
    MarkIs(s, queueSizeLimit);
    MarkedShadow(s, v, queueSizeLimit);
    StillLost(s, v, MarkConfirmed, s');
    ShadowLoses(s, v);
    MarkIs(Shadow(s, v), v.limit);
    LostIsNotMarked(Shadow(s, v), v.limit);
    var j :| 0 <= j < v.k && LostAt(s, s.proc.work[j].kind);
    assert LostAt(s', s'.proc.work[j - 1].kind);
  }

  lemma MarkOfShadow(s: State, v: View, queueSizeLimit: nat)
    requires Enabled(s, MarkConfirmed, queueSizeLimit) && v.k > 0
    ensures Enabled(Shadow(s, v), MarkConfirmed, v.limit)
  {
  }

  /** What marking does to the chain of the request, and what is known of it. */
  lemma MarkFacts(s: State, queueSizeLimit: nat)
    requires MintSafety.Inv(s, queueSizeLimit) && InPhase(s) && s.proc.phase.Mark?
    ensures var req := s.proc.work[0];
            var rows, n := s.db.Table(req.kind), s.db.Done(req.kind);
            var db' := ConfirmSolana(s.db, s.proc.phase.id, s.now);
            && n < |rows| && db'.Table(req.kind) == rows && db'.Done(req.kind) == n + 1
            && req == ToRequest(req.kind, rows[n])
            && (req.kind.Regular? ==> rows[n].supplyAfter < AllowedSupply(s.now))
            && BuiltInv(req.kind, rows, s.txs, n)
  {
    hide Ledger.Inv, ConfirmSolana, TableAdvances, BuiltInv, ExecutedInv, RecordedInv, SupplyInv, Orderly,
         Chain, TableDistinct;
    assert LaneOf(s, s.proc.work[0].kind);
    MarkLane(s, s.proc.work[0].kind);
    assert WorkItem(s.db, s.now, s.proc.work, 0);
  }

  /** The last request in order is completed, and comes again. */
  lemma CompletedAgain(s: State, v: View, queueSizeLimit: nat)
    requires Follows(s, v, queueSizeLimit) && Enabled(s, MarkConfirmed, queueSizeLimit)
    requires Doubled(s.proc, 1) && v.k == 1
    ensures Again(Apply(s, MarkConfirmed, queueSizeLimit))
  {
    hide MintSafety.Inv, Enabled, Apply, ConfirmSolana, BuiltInv;
    MarkIs(s, queueSizeLimit);
    MarkFacts(Shadow(s, v), v.limit);
    assert s.proc.work[1..][0] == s.proc.work[1] == s.proc.work[0];
  }

  // ---------- the request again ----------

  lemma RestFacts(s: State, v: View, queueSizeLimit: nat)
    requires Repeats(s, v, queueSizeLimit)
    ensures Grounded(AtRest(s)) && Ledger.Inv(s.db, v.limit)
    ensures forall t: TransportType :: LaneOf(AtRest(s), t) && FlightOf(AtRest(s), t).None? && FlightOf(s, t).None?
  {
    hide MintLanes.Lane, Ledger.Inv, Again;
    assert forall t: TransportType :: FlightOf(AtRest(s), t) == FlightOf(s, t);
  }

  lemma OutsideAtRest(s: State, v: View, step: Step, queueSizeLimit: nat)
    requires Enabled(s, step, queueSizeLimit) && queueSizeLimit <= v.limit && FromOutside(step) && !step.Crash?
    ensures Enabled(AtRest(s), step, v.limit)
    ensures var s' := Apply(s, step, queueSizeLimit);
            && Apply(AtRest(s), step, v.limit) == AtRest(s')
            && s'.proc == s.proc && s.now <= s'.now
            && (!step.Land? && !step.Reject? && !step.Vanish? ==> s'.txs == s.txs)
            && (step.Land? || step.Reject? || step.Vanish? ==>
                  && s'.db == s.db && s'.now == s.now && IsPending(s, step.id) && step.id in s'.txs
                  && s'.txs == WithStatus(s.txs, step.id, s'.txs[step.id].status))
  {
    hide ConfirmAll, FitsSupply, Ledger.SetHeights, RemoveAll, InBigint, WereRows, Readable, Admit, QueueSize;
  }

  lemma AgainMoves(s: State, s': State, t: TransportType)
    requires Again(s) && s'.proc == s.proc && s'.txs == s.txs && s.now <= s'.now
    requires t == s.proc.work[0].kind && FlightOf(s, t).None? && StatusRuns.TableKept(s.db, s'.db, t)
    ensures Again(s')
  {
    AllowedSupplyMonotone(s.now, s'.now);
    var rows, rows', n := s.db.Table(t), s'.db.Table(t), s.db.Done(t);
    forall id | Of(s.txs, id, t)
      ensures exists i :: 0 <= i <= n - 1 && i < |rows'| && BuiltFor(rows', i, s.txs[id])
    {
      var i :| 0 <= i <= n - 1 && i < |rows| && BuiltFor(rows, i, s.txs[id]);
      assert BuiltFor(rows', i, s.txs[id]);
    }
    assert BuiltInv(t, rows', s.txs, n - 1);
  }

  /** What was sent before may still land, and fail. */
  lemma LandsAgain(s: State, s': State, id: SolanaTxId)
    requires Again(s) && s'.db == s.db && s'.proc == s.proc && s'.now == s.now
    requires IsPending(s, id) && id in s'.txs && s'.txs == WithStatus(s.txs, id, s'.txs[id].status)
    ensures Again(s')
  {
    hide BuiltInv;
    var req := s.proc.work[0];
    RestatusKeepsBuilt(req.kind, s.db.Table(req.kind), s.txs, s.db.Done(req.kind) - 1, id, s'.txs[id].status);
  }

  lemma RepeatsOutside(s: State, v: View, step: Step, queueSizeLimit: nat)
    requires Repeats(s, v, queueSizeLimit) && Enabled(s, step, queueSizeLimit) && FromOutside(step) && !step.Crash?
    ensures var s' := Apply(s, step, queueSizeLimit); Repeats(s', v, queueSizeLimit) && s'.proc == s.proc
  {
    hide MintSafety.Inv, Enabled, Apply, Again, StatusRuns.TableKept, LaneOf, Grounded, Ledger.Inv, IsPending;
    var s0 := AtRest(s);
    RestFacts(s, v, queueSizeLimit);
    OutsideAtRest(s, v, step, queueSizeLimit);
    StepKeepsInv(s0, v.limit, step);
    if step.Land? || step.Reject? || step.Vanish? {
      LandsAgain(s, Apply(s, step, queueSizeLimit), step.id);
    } else {
      var t := WorkKind(s);
      StatusRuns.StepKeepsTables(s0, v.limit, step, t);
      SameTableKept(s0.db, s.db, AtRest(Apply(s, step, queueSizeLimit)).db, Apply(s, step, queueSizeLimit).db, t);
      AgainMoves(s, Apply(s, step, queueSizeLimit), t);
    }
  }

  lemma SameTableKept(a: Database, b: Database, a': Database, b': Database, t: TransportType)
    requires a == b && a' == b'
    ensures StatusRuns.TableKept(a, a', t) <==> StatusRuns.TableKept(b, b', t)
  {
  }

  lemma WorkKind(s: State) returns (t: TransportType)
    requires Again(s)
    ensures InPhase(s) && t == s.proc.work[0].kind
  {
    t := s.proc.work[0].kind;
  }

  /** A transaction may be built for the last completed row. */
  lemma BuildAgain(s: State, v: View, id: SolanaTxId, queueSizeLimit: nat)
    requires Repeats(s, v, queueSizeLimit) && Enabled(s, BuildTx(id), queueSizeLimit)
    ensures var s' := Apply(s, BuildTx(id), queueSizeLimit);
            Repeats(s', v, queueSizeLimit) && s'.proc.work == s.proc.work
  {
    hide Ledger.Inv, MintLanes.Lane;
    var req := s.proc.work[0];
    var t, rows, n := req.kind, s.db.Table(req.kind), s.db.Done(req.kind);
    var s', s0 := Apply(s, BuildTx(id), queueSizeLimit), AtRest(s);
    RestFacts(s, v, queueSizeLimit);
    AgainBuiltFor(s, v, queueSizeLimit);
    BuildKeepsBuilt(t, rows, s.txs, n - 1, id, TxFor(req), n - 1);
    if id !in s.txs {
      forall u: TransportType
        ensures LaneOf(AtRest(s'), u)
      {
        assert LaneOf(s0, u);
        BuildLane(s0, id, TxFor(req), n - 1, u);
      }
      assert forall u: TransportType :: FlightOf(AtRest(s'), u) == FlightOf(s0, u);
    } else {
      assert s'.txs == s.txs;
    }
  }

  lemma AgainBuiltFor(s: State, v: View, queueSizeLimit: nat)
    requires Repeats(s, v, queueSizeLimit)
    ensures var req := s.proc.work[0];
            var rows, n := s.db.Table(req.kind), s.db.Done(req.kind);
            && 0 < n <= |rows| && BuiltFor(rows, n - 1, TxFor(req))
            && req.totalSupply + req.amount == rows[n - 1].supplyAfter
  {
    hide Ledger.Inv, BuiltInv;
    var t := s.proc.work[0].kind;
    assert LaneOf(AtRest(s), t);
    ChainBefore(s.db.Table(t), s.db.Done(t) - 1);
    EndGrows(s.db.Table(t), 0, s.db.Done(t) - 1);
  }

  /** The ledger with the id recorded over that of the last completed row. */
  function Over(s: State): Database
    requires InPhase(s) && s.proc.phase.Save?
  {
    WithRecorded(s.db, s.proc.work[0].burn, s.proc.work[0].kind, s.proc.phase.id, s.now)
  }

  /** The contract cannot be ahead with no transaction built for the next row. */
  lemma BuiltIsLevel(t: TransportType, rows: seq<Row>, sol: SolanaTable, txs: Txs, supply: int, n: nat)
    requires Lane(t, rows, sol, txs, supply, n) && n > 0 && BuiltInv(t, rows, txs, n - 1)
    ensures supply == EndAt(rows, n)
  {
    EndGrows(rows, 0, n);
    if supply != EndAt(rows, n) {
      EndGrows(rows, n, n + 1);
      var id :| ExecutedOf(txs, id, t) && txs[id].supply + txs[id].amount == supply;
      assert Of(txs, id, t);
      var i :| 0 <= i <= n - 1 && i < |rows| && BuiltFor(rows, i, txs[id]);
      EndGrows(rows, i + 1, n);
    }
  }

  lemma RewoundLane(s: State, v: View, u: TransportType, queueSizeLimit: nat)
    requires Repeats(s, v, queueSizeLimit) && s.proc.phase.Save? && s.proc.phase.id !in s.db.solana
    ensures var t, id, db' := s.proc.work[0].kind, s.proc.phase.id, Over(s);
            && Lane(u, db'.Table(u), db'.solana, s.txs, s.chain.Get(u), db'.Done(u))
            && db'.Done(u) == s.db.Done(u) - (if u == t then 1 else 0)
            && Flight(db'.Table(u), db'.Done(u)) == if u == t then Some(id) else None
  {
    hide Ledger.Inv, MintLanes.Lane, BuiltInv;
    var req, id, db' := s.proc.work[0], s.proc.phase.id, Over(s);
    var rows, n := s.db.Table(u), s.db.Done(u);
    RestFacts(s, v, queueSizeLimit);
    AgainBuiltFor(s, v, queueSizeLimit);
    assert LaneOf(AtRest(s), u);
    assert Flight(rows, n).None?;
    if u == req.kind {
      BuiltIsLevel(u, rows, s.db.solana, s.txs, s.chain.Get(u), n);
      LaneRewind(u, rows, s.db.solana, s.txs, s.chain.Get(u), n, id, db'.Table(u), db'.solana);
    } else {
      assert db'.Table(u) == rows;
      LaneFrame(u, rows, s.db.solana, s.txs, s.chain.Get(u), n, db'.solana, s.txs);
    }
  }

  function Larger(a: nat, b: int): nat {
    if b > a then b else a
  }

  lemma RewoundLedger(s: State, v: View, queueSizeLimit: nat)
    requires Repeats(s, v, queueSizeLimit) && s.proc.phase.Save? && s.proc.phase.id !in s.db.solana
    ensures var db' := Over(s); Ledger.Inv(db', Larger(v.limit, QueueSize(db')))
  {
    hide Base, MintLanes.Lane, Again, SameButIds, WithRecorded, Orderly;
    var t := WorkKind(s);
    RestFacts(s, v, queueSizeLimit);
    InvIsBase(s.db, v.limit);
    OverOnlyIds(s);
    SolanaChangeKeepsBase(s.db, Over(s));
    forall u: TransportType
      ensures Orderly(Over(s).Table(u), Over(s).solana, Over(s).Done(u))
      ensures forall r :: r in Over(s).Table(u) && r.solanaId.Some? ==> r.solanaId.value in Over(s).solana
    {
      RewoundLane(s, v, u, queueSizeLimit);
      LaneBasics(s.(db := Over(s)), u);
    }
  }

  lemma OverOnlyIds(s: State)
    requires InPhase(s) && s.proc.phase.Save? && s.proc.phase.id !in s.db.solana
    ensures OnlySolanaChanged(s.db, Over(s))
  {
    SolanaWritesOnlyIds(s.db, s.proc.work[0].burn, s.proc.work[0].kind, s.proc.phase.id, s.now);
  }

  /** Recording the id anew is, seen from the ledger, a mint lost, and nothing is completed any more. */
  lemma SaveAgain(s: State, v: View, step: Step, queueSizeLimit: nat) returns (v': View)
    requires Repeats(s, v, queueSizeLimit) && Enabled(s, step, queueSizeLimit)
    requires step.SaveTx? || step == SaveFails(true)
    ensures var s' := Apply(s, step, queueSizeLimit);
            && Follows(s', v', queueSizeLimit) && BlockedBefore(s', v'.k)
            && v'.limit == Larger(v.limit, QueueSize(Over(s)))
  {
    hide Ledger.Inv, MintLanes.Lane, Repeats, WithRecorded, BuiltInv, ProcInv, EmissionInv, WorkOk, Enabled, Apply, Over,
         LostAt;
    SaveAgainIs(s, step, queueSizeLimit);
    RepeatsLimit(s, v, queueSizeLimit);
    var s', t, id, db' := Apply(s, step, queueSizeLimit), s.proc.work[0].kind, s.proc.phase.id, Over(s);
    v' := View(1, Larger(v.limit, QueueSize(db')));
    RewoundLedger(s, v, queueSizeLimit);
    var sh := Shadow(s', v');
    forall u: TransportType
      ensures LaneOf(sh, u) && FlightOf(sh, u) == (if u == t then Some(id) else None)
    {
      RewoundLane(s, v, u, queueSizeLimit);
    }
    RewoundWork(s, v, queueSizeLimit);
    assert s'.proc.work[..1] == [s.proc.work[0]];
    RewoundProc(s, v, sh, queueSizeLimit);
    RewoundIsLost(s, v, s', queueSizeLimit);
  }

  lemma RewoundIsLost(s: State, v: View, s': State, queueSizeLimit: nat)
    requires Repeats(s, v, queueSizeLimit) && s.proc.phase.Save? && s.proc.phase.id !in s.db.solana
    requires s'.db == Over(s) && s'.chain == s.chain && s'.txs == s.txs && s'.proc.Minting? && s'.proc.work == s.proc.work
    ensures LostAt(s', s.proc.work[0].kind) && BlockedBefore(s', 1)
  {
    hide Ledger.Inv, MintLanes.Lane, BuiltInv, WithRecorded, Over;
    var req := s.proc.work[0];
    var t, rows, n := req.kind, s.db.Table(req.kind), s.db.Done(req.kind);
    RewoundLane(s, v, t, queueSizeLimit);
    OverOnlyIds(s);
    RestFacts(s, v, queueSizeLimit);
    AgainBuiltFor(s, v, queueSizeLimit);
    assert LaneOf(AtRest(s), t);
    BuiltIsLevel(t, rows, s.db.solana, s.txs, s.chain.Get(t), n);
    assert SameButIds(rows, Over(s).Table(t));
  }

  lemma RepeatsLimit(s: State, v: View, queueSizeLimit: nat)
    requires Repeats(s, v, queueSizeLimit)
    ensures queueSizeLimit <= v.limit
  {
  }

  lemma SaveAgainIs(s: State, step: Step, queueSizeLimit: nat)
    requires Enabled(s, step, queueSizeLimit) && (step.SaveTx? || step == SaveFails(true))
    ensures InPhase(s) && s.proc.phase.Save? && s.proc.phase.id !in s.db.solana
    ensures var s' := Apply(s, step, queueSizeLimit);
            && s'.db == Over(s) && s'.chain == s.chain && s'.txs == s.txs && s'.now == s.now
            && s'.proc == Minting(s.proc.work, if step.SaveTx? then Send(s.proc.phase.id) else Build)
  {
    hide Flight, IsExecuted;
  }

  lemma RewoundWork(s: State, v: View, queueSizeLimit: nat)
    requires Repeats(s, v, queueSizeLimit) && s.proc.phase.Save? && s.proc.phase.id !in s.db.solana
    ensures WorkOk(Over(s), s.now, [s.proc.work[0]])
  {
    hide Ledger.Inv, MintLanes.Lane, WithRecorded, BuiltInv;
    var req, work := s.proc.work[0], [s.proc.work[0]];
    OverOnlyIds(s);
    RewoundLane(s, v, req.kind, queueSizeLimit);
    assert work[..0] == [];
    assert SameButIds(s.db.Table(req.kind), Over(s).Table(req.kind));
  }

  lemma RewoundProc(s: State, v: View, sh: State, queueSizeLimit: nat)
    requires Repeats(s, v, queueSizeLimit) && s.proc.phase.Save?
    requires var t, id := s.proc.work[0].kind, s.proc.phase.id;
             && (sh.proc == Minting([s.proc.work[0]], Send(id)) || sh.proc == Minting([s.proc.work[0]], Build))
             && sh.txs == s.txs && sh.now == s.now
             && WorkOk(sh.db, sh.now, [s.proc.work[0]])
             && forall u: TransportType :: FlightOf(sh, u) == (if u == t then Some(id) else None)
    ensures ProcInv(sh) && EmissionInv(sh)
  {
    hide Ledger.Inv, MintLanes.Lane, BuiltInv, WorkOk;
    assert s.txs[s.proc.phase.id] == TxFor(s.proc.work[0]);
  }

  lemma RepeatsNext(s: State, v: View, step: Step, queueSizeLimit: nat) returns (v': View)
    requires Repeats(s, v, queueSizeLimit) && Enabled(s, step, queueSizeLimit)
    ensures var s' := Apply(s, step, queueSizeLimit);
            || (Repeats(s', v', queueSizeLimit) && v' == v && s'.proc.work == s.proc.work)
            || (Follows(s', v', queueSizeLimit) && Steady(s', v'.k)
                && (v' == v || (s.proc.phase.Save? && s.proc.phase.id !in s.db.solana
                                && v'.limit == Larger(v.limit, QueueSize(Over(s))))))
  {
    hide MintSafety.Inv, Apply, Again, Over, LostAt;
    v' := v;
    var _ := WorkKind(s);
    if step.Crash? {
      CrashAgain(s, v, queueSizeLimit);
    } else if FromOutside(step) {
      RepeatsOutside(s, v, step, queueSizeLimit);
    } else if step.BuildTx? {
      BuildAgain(s, v, step.id, queueSizeLimit);
    } else if step == SaveFails(false) {
      FailAgain(s, v, queueSizeLimit);
    } else {
      v' := SaveAgain(s, v, step, queueSizeLimit);
    }
  }

  lemma CrashAgain(s: State, v: View, queueSizeLimit: nat)
    requires Repeats(s, v, queueSizeLimit)
    ensures var s' := Apply(s, Crash, queueSizeLimit); Follows(s', v, queueSizeLimit) && Steady(s', v.k)
  {
    hide MintSafety.Inv, Again;
    StepKeepsInv(AtRest(s), v.limit, Crash);
  }

  lemma FailAgain(s: State, v: View, queueSizeLimit: nat)
    requires Repeats(s, v, queueSizeLimit) && Enabled(s, SaveFails(false), queueSizeLimit)
    ensures var s' := Apply(s, SaveFails(false), queueSizeLimit);
            Repeats(s', v, queueSizeLimit) && s'.proc.work == s.proc.work
  {
    hide MintSafety.Inv, BuiltInv;
  }

  lemma FollowsNext(s: State, v: View, step: Step, queueSizeLimit: nat) returns (v': View)
    requires Follows(s, v, queueSizeLimit) && Enabled(s, step, queueSizeLimit)
    ensures var s' := Apply(s, step, queueSizeLimit);
            && (Follows(s', v', queueSizeLimit)
                || (Repeats(s', v', queueSizeLimit) && step.MarkConfirmed? && Doubled(s.proc, 1) && v.k == 1
                    && s'.proc.work == s.proc.work[1..]))
            && (Steady(s, v.k) ==> Follows(s', v', queueSizeLimit) && Steady(s', v'.k))
            && Tracks(s, v, s', v')
    ensures Enabled(Shadow(s, v), step, v.limit)
    ensures Apply(Shadow(s, v), step, v.limit).db == Apply(s, step, queueSizeLimit).db
  {
    hide MintSafety.Inv, Apply, Again, Parallel, LostAt;
    if step.ReadUncompleted? {
      v' := ReadFollows(s, v, step.t, queueSizeLimit);
      ReadLeavesLedger(s, v, step.t, queueSizeLimit);
    } else if step.MarkConfirmed? {
      MarkedShadow(s, v, queueSizeLimit);
      v' := MarkFollows(s, v, queueSizeLimit);
    } else {
      v' := v;
      if FromOutside(step) {
        OutsideParallel(s, v, step, queueSizeLimit);
      } else if OfMint(step) {
        MintParallel(s, v, step, queueSizeLimit);
      } else {
        ServerParallel(s, v, step, queueSizeLimit);
      }
      ParallelEnabled(s, v, step, queueSizeLimit);
      ParallelFollows(s, v, step, queueSizeLimit);
    }
  }

  lemma ReadLeavesLedger(s: State, v: View, t: TransportType, queueSizeLimit: nat)
    requires Enabled(s, ReadUncompleted(t), queueSizeLimit)
    ensures Enabled(Shadow(s, v), ReadUncompleted(t), v.limit)
    ensures Apply(Shadow(s, v), ReadUncompleted(t), v.limit).db == Apply(s, ReadUncompleted(t), queueSizeLimit).db
  {
  }

  lemma ParallelEnabled(s: State, v: View, step: Step, queueSizeLimit: nat)
    requires Parallel(s, v, step, queueSizeLimit)
    ensures Enabled(Shadow(s, v), step, v.limit)
    ensures Apply(Shadow(s, v), step, v.limit).db == Apply(s, step, queueSizeLimit).db
  {
  }

  // ---------- the theorems ----------

  /** As long as nothing that comes again can be reached, completion is final. */
  lemma {:induction false} SteadyStays(s: State, v: View, steps: seq<Step>, queueSizeLimit: nat) returns (v': View)
    requires Follows(s, v, queueSizeLimit) && Steady(s, v.k) && CanRun(s, steps, queueSizeLimit)
    ensures var s' := After(s, steps, queueSizeLimit);
            && Follows(s', v', queueSizeLimit) && Steady(s', v'.k)
            && (forall t: TransportType :: s.db.Done(t) <= s'.db.Done(t))
            && (forall burn :: StatusOf(s.db, burn).Completed? ==> StatusOf(s'.db, burn).Completed?)
    decreases |steps|
  {
    hide Follows, Steady, Enabled, Apply, StatusOf;
    v' := v;
    if steps != [] {
      var mid := FollowsNext(s, v, steps[0], queueSizeLimit);
      SteadyMoves(s, v, steps[0], queueSizeLimit);
      v' := SteadyStays(Apply(s, steps[0], queueSizeLimit), mid, steps[1..], queueSizeLimit);
    }
  }

  lemma SteadyMoves(s: State, v: View, step: Step, queueSizeLimit: nat)
    requires Follows(s, v, queueSizeLimit) && Enabled(s, step, queueSizeLimit) && Enabled(Shadow(s, v), step, v.limit)
    requires Apply(Shadow(s, v), step, v.limit).db == Apply(s, step, queueSizeLimit).db
    ensures var db' := Apply(s, step, queueSizeLimit).db;
            && (forall t: TransportType :: s.db.Done(t) <= db'.Done(t))
            && (forall burn :: StatusOf(s.db, burn).Completed? ==> StatusOf(db', burn).Completed?)
  {
    hide MintSafety.Inv, Enabled, Apply, StatusOf;
    var s0, db' := Shadow(s, v), Apply(s, step, queueSizeLimit).db;
    forall t: TransportType
      ensures s.db.Done(t) <= db'.Done(t)
    {
      StatusRuns.StepKeepsTables(s0, v.limit, step, t);
    }
    forall burn | StatusOf(s.db, burn).Completed?
      ensures StatusOf(db', burn).Completed?
    {
      StatusRuns.StepMovesStatus(s0, v.limit, step, burn);
    }
  }

  lemma SteadyKeepsAll(s: State, v: View, queueSizeLimit: nat)
    requires Follows(s, v, queueSizeLimit) && Steady(s, v.k)
    ensures CompletedIsKept(s, queueSizeLimit) && PrefixIsKept(s, queueSizeLimit) && OrderIsKept(s, queueSizeLimit)
  {
    hide Follows, Steady, CanRun, After, StatusOf, InOrder;
    forall first, rest | CanRun(s, first, queueSizeLimit) && CanRun(After(s, first, queueSizeLimit), rest, queueSizeLimit)
      ensures forall t: TransportType :: !Shrinks(s, first, rest, t, queueSizeLimit)
      ensures forall burn :: !Undone(s, first, rest, burn, queueSizeLimit)
    {
      var v1 := SteadyStays(s, v, first, queueSizeLimit);
      var _ := SteadyStays(After(s, first, queueSizeLimit), v1, rest, queueSizeLimit);
    }
    forall steps | CanRun(s, steps, queueSizeLimit)
      ensures InOrder(After(s, steps, queueSizeLimit).db)
    {
      var v' := SteadyStays(s, v, steps, queueSizeLimit);
      ShadowInOrder(After(s, steps, queueSizeLimit), v', queueSizeLimit);
    }
  }

  lemma {:induction false} StaysInOrder(s: State, v: View, steps: seq<Step>, queueSizeLimit: nat)
    requires Follows(s, v, queueSizeLimit) || Repeats(s, v, queueSizeLimit)
    requires CanRun(s, steps, queueSizeLimit)
    ensures InOrder(After(s, steps, queueSizeLimit).db)
    decreases |steps|
  {
    hide Follows, Repeats, Enabled, Apply, InOrder;
    if steps == [] {
      ShadowInOrder(s, v, queueSizeLimit);
    } else {
      var v';
      if Follows(s, v, queueSizeLimit) {
        v' := FollowsNext(s, v, steps[0], queueSizeLimit);
      } else {
        v' := RepeatsNext(s, v, steps[0], queueSizeLimit);
      }
      StaysInOrder(Apply(s, steps[0], queueSizeLimit), v', steps[1..], queueSizeLimit);
    }
  }

  lemma ShadowInOrder(s: State, v: View, queueSizeLimit: nat)
    requires Follows(s, v, queueSizeLimit) || Repeats(s, v, queueSizeLimit)
    ensures InOrder(s.db)
  {
    hide MintSafety.Inv, Again;
    if Follows(s, v, queueSizeLimit) {
      InvIsInOrder(Shadow(s, v), v.limit);
    } else {
      InvIsInOrder(AtRest(s), v.limit);
    }
  }

  /** The list with the first copy of what was read, however often it was delivered, is followed from the start. */
  lemma FirstCopyFollows(s: State, t: TransportType, n: nat, queueSizeLimit: nat) returns (v: View)
    requires MintSafety.Inv(s, queueSizeLimit) && Reading(s, t)
    requires n > 0 && Uncompleted(s, t) != [] && (|Uncompleted(s, t)| == 1 || Blocks(s, t))
    ensures var s' := Reread(s, t, n);
            && Follows(s', v, queueSizeLimit) && (Blocks(s, t) ==> Steady(s', v.k))
            && v.limit == queueSizeLimit && 0 < v.k <= |s'.proc.work|
            && s'.proc.work[v.k - 1] == Uncompleted(s, t)[|Uncompleted(s, t)| - 1]
  {
    hide MintSafety.Inv, Uncompleted, Repeat, Enabled, Apply, LostAt;
    var reqs, s' := Uncompleted(s, t), Reread(s, t, n);
    RereadOnce(s, t, queueSizeLimit);
    StepKeepsInv(s, queueSizeLimit, ReadUncompleted(t));
    RetriedWork(s.proc.work, reqs, n, []);
    var work := s.proc.work + reqs;
    v := View(|work|, queueSizeLimit);
    assert s'.proc.work + [] == s'.proc.work && Repeat(reqs, n) + [] == Repeat(reqs, n);
    assert s'.proc.work == work + Repeat(reqs, n);
    assert s'.proc.work[..v.k] == work;
    OneRead(s, t);
    if Blocks(s, t) {
      BlockedRead(s, t, s', queueSizeLimit);
    }
  }

  lemma BlockedRead(s: State, t: TransportType, s': State, queueSizeLimit: nat)
    requires MintSafety.Inv(s, queueSizeLimit) && Reading(s, t) && Blocks(s, t) && Uncompleted(s, t) != []
    requires s' == s.(proc := s'.proc) && s'.proc.Gathering? && s.proc.work + Uncompleted(s, t) <= s'.proc.work
    ensures BlockedBefore(s', |s.proc.work + Uncompleted(s, t)|)
  {
    hide MintSafety.Inv, Uncompleted, LostAt, LaneOf;
    var work := s.proc.work + Uncompleted(s, t);
    ReadsSoFar(s, queueSizeLimit, t);
    ReadIsSegment(s, t);
    SameLosses(s, s'.proc);
    var j: nat;
    if LostAt(s, t) {
      j := |s.proc.work|;
      assert work[j] == Uncompleted(s, t)[0];
    } else {
      var req :| req in s.proc.work && LostAt(s, req.kind);
      var i :| 0 <= i < |s.proc.work| && s.proc.work[i] == req;
      j := i;
      assert work[j] == req;
    }
    assert s'.proc.work[j] == work[j] && LostAt(s', s'.proc.work[j].kind);
  }

  lemma OneRead(s: State, t: TransportType)
    requires s.proc.Gathering?
    ensures Reread(s, t, 0).proc.work == s.proc.work + Uncompleted(s, t)
  {
    assert Repeat(Uncompleted(s, t), 1) == [] + Uncompleted(s, t);
  }

  /** A read that went through after `n` failed commits: from then on completion is final, and the completed prefix of
      every chain is kept, exactly if no commit failed, or there was nothing to read, or a mint is lost that
      comes before the second copy, so that this is never reached. */
  lemma RetriedReadIff(s: State, t: TransportType, n: nat, queueSizeLimit: nat)
    requires MintSafety.Inv(s, queueSizeLimit) && Reading(s, t)
    ensures CompletedIsKept(Reread(s, t, n), queueSizeLimit) <==> n == 0 || Uncompleted(s, t) == [] || Blocks(s, t)
    ensures PrefixIsKept(Reread(s, t, n), queueSizeLimit) <==> n == 0 || Uncompleted(s, t) == [] || Blocks(s, t)
  {
    hide MintSafety.Inv, Uncompleted, CompletedIsKept, PrefixIsKept, OrderIsKept, Blocks, Repeat, Follows, Steady;
    if n == 0 || Uncompleted(s, t) == [] {
      NothingRepeatedKeepsAll(s, t, n, queueSizeLimit);
    } else if Blocks(s, t) {
      var v := FirstCopyFollows(s, t, n, queueSizeLimit);
      SteadyKeepsAll(Reread(s, t, n), v, queueSizeLimit);
    } else {
      RetriedReadUndoes(s, t, n, queueSizeLimit);
    }
  }

  lemma NothingRepeated(reqs: seq<Request>, n: nat)
    requires n == 0 || reqs == []
    ensures Repeat(reqs, n + 1) == Repeat(reqs, 1)
  {
    RepeatLength(reqs, n + 1);
    RepeatLength(reqs, 1);
  }

  lemma NothingRepeatedKeepsAll(s: State, t: TransportType, n: nat, queueSizeLimit: nat)
    requires MintSafety.Inv(s, queueSizeLimit) && Reading(s, t) && (n == 0 || Uncompleted(s, t) == [])
    ensures var s' := Reread(s, t, n);
            CompletedIsKept(s', queueSizeLimit) && PrefixIsKept(s', queueSizeLimit) && OrderIsKept(s', queueSizeLimit)
  {
    hide MintSafety.Inv, Uncompleted, CompletedIsKept, PrefixIsKept, OrderIsKept, Repeat, Enabled, Apply;
    NothingRepeated(Uncompleted(s, t), n);
    RereadOnce(s, t, queueSizeLimit);
    StepKeepsInv(s, queueSizeLimit, ReadUncompleted(t));
    InvKeepsAll(Reread(s, t, n), queueSizeLimit);
  }

  /** A read that went through after `n` failed commits: from then on completed rows are a prefix of every chain exactly if
      no commit failed, or there was at most one request to read, or the second copy is never reached. */
  lemma OrderIsKeptIff(s: State, t: TransportType, n: nat, queueSizeLimit: nat)
    requires MintSafety.Inv(s, queueSizeLimit) && Reading(s, t)
    ensures OrderIsKept(Reread(s, t, n), queueSizeLimit) <==> n == 0 || |Uncompleted(s, t)| <= 1 || Blocks(s, t)
  {
    hide MintSafety.Inv, Uncompleted, CompletedIsKept, PrefixIsKept, Blocks, Follows, Repeats, InOrder, CanRun, After, Repeat,
         Steady;
    if n == 0 || Uncompleted(s, t) == [] {
      NothingRepeatedKeepsAll(s, t, n, queueSizeLimit);
    } else if |Uncompleted(s, t)| == 1 || Blocks(s, t) {
      var s' := Reread(s, t, n);
      var v := FirstCopyFollows(s, t, n, queueSizeLimit);
      forall steps | CanRun(s', steps, queueSizeLimit)
        ensures InOrder(After(s', steps, queueSizeLimit).db)
      {
        StaysInOrder(s', v, steps, queueSizeLimit);
      }
    } else {
      RetriedReadUndoes(s, t, n, queueSizeLimit);
    }
  }
}
