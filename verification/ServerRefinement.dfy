/** The storage calls of the server's loops, as the class makes them, against the steps of the protocol:
    what a pass, a recovery, a round of reads or a script of mint attempts does to the ledger is
    what enabled steps of the protocol do to it. */
module ServerRefinement {
  import opened Common
  import opened Tables
  import opened Ledger
  import opened Emission
  import opened StorageSpec
  import opened LoopSpec
  import opened MintProtocol
  import opened MintSafety
  import opened MintTheorems
  import opened Agreement
  import MintLanes

  // ---------- processUnconfirmed ----------

  /** The storage calls of a pass, as steps; a removal whose commit is not acknowledged is two. */
  function RemoveSteps(db: Database, us: seq<Unconfirmed>, commit: Commit): seq<Step> {
    var once := RemoveAll(db, us);
    if commit.Unavailable? || !InBigint(once.limits) then []
    else if commit.Commits? || !InBigint(RemoveAll(once, us).limits) then [RemoveBurns(us)]
    else [RemoveBurns(us), RemoveBurns(us)]
  }

  function ConfirmSteps(us: seq<Unconfirmed>, commit: Commit): seq<Step> {
    if commit.Unavailable? then [] else [ConfirmBurns(us)]
  }

  lemma RemovalIsSteps(s: State, queueSizeLimit: nat, us: seq<Unconfirmed>, commit: Commit)
    requires Readable(us)
    ensures var steps := RemoveSteps(s.db, us, commit);
            && CanRun(s, steps, queueSizeLimit)
            && After(s, steps, queueSizeLimit) == s.(db := RemoveOutcome(s.db, us, commit).1)
  {
    hide RemoveAll, InBigint, Readable;
    var steps, one := RemoveSteps(s.db, us, commit), RemoveBurns(us);
    if steps != [] {
      var s' := Apply(s, one, queueSizeLimit);
      RunsOne(s, one, queueSizeLimit);
      if |steps| == 2 {
        RunsOne(s', one, queueSizeLimit);
        RunsConcat(s, [one], [one], queueSizeLimit);
        assert [one] + [one] == steps;
      }
    }
  }

  lemma ConfirmationIsSteps(s: State, queueSizeLimit: nat, us: seq<Unconfirmed>, commit: Commit)
    requires WereRows(s.db, us)
    ensures var steps := ConfirmSteps(us, commit);
            && CanRun(s, steps, queueSizeLimit)
            && After(s, steps, queueSizeLimit) == s.(db := ConfirmOutcome(s.db, us, s.now, commit).1)
  {
    hide ConfirmAll, WereRows;
    RunsOne(s, ConfirmBurns(us), queueSizeLimit);
  }

  /** Steps that are not storage calls of a pass. */
  predicate Foreign(step: Step) {
    !step.SetHeights? && !step.RemoveBurns? && !step.ConfirmBurns?
  }

  predicate AllForeign(steps: seq<Step>) {
    forall step :: step in steps ==> Foreign(step)
  }

  /** Submissions, minting and recovery leave what a pass read as it is in the table. */
  lemma ForeignKeepsRows(s: State, queueSizeLimit: nat, step: Step, us: seq<Unconfirmed>)
    requires Enabled(s, step, queueSizeLimit) && Foreign(step)
    ensures RowsOf(s.db, us) ==> RowsOf(Apply(s, step, queueSizeLimit).db, us)
    ensures FromTable(s.db, us) ==> FromTable(Apply(s, step, queueSizeLimit).db, us)
  {
    hide Enabled, Apply;
    if step.Submit? {
      SubmitKeepsRows(s, queueSizeLimit, step);
    } else {
      OtherStepsLeaveRequests(s, queueSizeLimit, step);
    }
  }

  lemma SubmitKeepsRows(s: State, queueSizeLimit: nat, step: Step)
    requires Enabled(s, step, queueSizeLimit) && step.Submit?
    ensures Apply(s, step, queueSizeLimit).db.unconfirmed == s.db.unconfirmed + [step.u]
  {
  }

  lemma {:induction false} ForeignRunKeepsRows(s: State, queueSizeLimit: nat, steps: seq<Step>, us: seq<Unconfirmed>)
    requires CanRun(s, steps, queueSizeLimit) && AllForeign(steps) && RowsOf(s.db, us)
    ensures RowsOf(After(s, steps, queueSizeLimit).db, us)
    decreases |steps|
  {
    hide Enabled, Apply, RowsOf, Foreign;
    if steps != [] {
      assert steps[0] in steps;
      ForeignKeepsRows(s, queueSizeLimit, steps[0], us);
      ForeignRunKeepsRows(Apply(s, steps[0], queueSizeLimit), queueSizeLimit, steps[1..], us);
    }
  }

  /** A pass beside whatever else runs. Between its read and each of its calls any submissions, landings, mints,
      crashes and recoveries may happen. Still every call finds the rows it was decided on as they were
      read, so that it meets its conditions, and it does to the ledger what its steps do. */
  lemma PassBesideOthers(s: State, queueSizeLimit: nat, us: seq<Unconfirmed>, onChain: OnChain, height: nat,
                         confirmations: int, newHeight: nat, commits: PassCommits,
                         others: (seq<Step>, seq<Step>, seq<Step>))
    requires MintSafety.Inv(s, queueSizeLimit) && RowsOf(s.db, us) && Answers(onChain, us)
    requires AllForeign(others.0) && AllForeign(others.1) && AllForeign(others.2)
    requires CanRun(s, others.0, queueSizeLimit)
    ensures var removed, confirmed := Chosen(us, Remove, onChain, height, confirmations),
                                      Chosen(us, Confirm, onChain, height, confirmations);
            var s1 := After(s, others.0, queueSizeLimit);
            var record := Step.SetHeights(BurnIds(Chosen(us, RecordHeight, onChain, height, confirmations)), newHeight);
            && Enabled(s1, record, queueSizeLimit)
            && var s2 := Apply(s1, record, queueSizeLimit);
            && s2 == s1.(db := AfterHeights(s1.db, us, onChain, height, confirmations, newHeight))
            && (CanRun(s2, others.1, queueSizeLimit) ==>
                  var s3 := After(s2, others.1, queueSizeLimit);
                  && CallsRemoval(s3, queueSizeLimit, removed, commits.remove)
                  && var s4 := After(s3, RemoveSteps(s3.db, removed, commits.remove), queueSizeLimit);
                  CanRun(s4, others.2, queueSizeLimit) ==>
                    CallsConfirmation(After(s4, others.2, queueSizeLimit), queueSizeLimit, confirmed, commits.confirm))
  {
    hide MintSafety.Inv, Chosen, Enabled, Apply, RowsOf, Answers, CanRun, After, RemoveSteps, CallsRemoval, CallsConfirmation,
         AllForeign;
    var removed := Chosen(us, Remove, onChain, height, confirmations);
    var confirmed := Chosen(us, Confirm, onChain, height, confirmations);
    var s1 := After(s, others.0, queueSizeLimit);
    var record := Step.SetHeights(BurnIds(Chosen(us, RecordHeight, onChain, height, confirmations)), newHeight);
    ForeignRunKeepsRows(s, queueSizeLimit, others.0, us);
    PathInvariant(s, others.0, queueSizeLimit);
    RecordingIsStep(s1, queueSizeLimit, us, onChain, height, confirmations, newHeight);
    var s2 := Apply(s1, record, queueSizeLimit);
    StepKeepsInv(s1, queueSizeLimit, record);
    if CanRun(s2, others.1, queueSizeLimit) {
      var s3 := After(s2, others.1, queueSizeLimit);
      ForeignRunKeepsRows(s2, queueSizeLimit, others.1, removed);
      ForeignRunKeepsRows(s2, queueSizeLimit, others.1, confirmed);
      PathInvariant(s2, others.1, queueSizeLimit);
      RemovalCalled(s3, queueSizeLimit, removed, confirmed, commits.remove);
      var s4 := After(s3, RemoveSteps(s3.db, removed, commits.remove), queueSizeLimit);
      if CanRun(s4, others.2, queueSizeLimit) {
        ForeignRunKeepsRows(s4, queueSizeLimit, others.2, confirmed);
        ConfirmationCalled(After(s4, others.2, queueSizeLimit), queueSizeLimit, confirmed, commits.confirm);
      }
    }
  }

  /** The call of RemoveUnconfirmed meets its condition and is its steps; with the premined accounts in order it
      can be carried out if it lists no premined burn twice. */
  predicate CallsRemoval(s: State, queueSizeLimit: nat, us: seq<Unconfirmed>, commit: Commit) {
    var steps := RemoveSteps(s.db, us, commit);
    && Readable(us) && RowsOf(s.db, us)
    && CanRun(s, steps, queueSizeLimit)
    && After(s, steps, queueSizeLimit) == s.(db := RemoveOutcome(s.db, us, commit).1)
    && (PreminedInv(s.db) && !RepeatsPremined(us) && !commit.Unavailable? ==> RemoveBurns(us) in steps)
  }

  predicate CallsConfirmation(s: State, queueSizeLimit: nat, us: seq<Unconfirmed>, commit: Commit) {
    var steps := ConfirmSteps(us, commit);
    && WereRows(s.db, us) && RowsOf(s.db, us)
    && CanRun(s, steps, queueSizeLimit)
    && After(s, steps, queueSizeLimit) == s.(db := ConfirmOutcome(s.db, us, s.now, commit).1)
  }

  lemma RecordingIsStep(s: State, queueSizeLimit: nat, us: seq<Unconfirmed>, onChain: OnChain, height: nat,
                        confirmations: int, newHeight: nat)
    requires MintSafety.Inv(s, queueSizeLimit) && RowsOf(s.db, us) && Answers(onChain, us)
    ensures var removed, confirmed := Chosen(us, Remove, onChain, height, confirmations),
                                      Chosen(us, Confirm, onChain, height, confirmations);
            var record := Step.SetHeights(BurnIds(Chosen(us, RecordHeight, onChain, height, confirmations)), newHeight);
            && Enabled(s, record, queueSizeLimit)
            && var s' := Apply(s, record, queueSizeLimit);
            && s' == s.(db := AfterHeights(s.db, us, onChain, height, confirmations, newHeight))
            && RowsOf(s'.db, removed) && RowsOf(s'.db, confirmed) && Burns(removed) !! Burns(confirmed)
  {
    hide MintSafety.Inv, Ledger.Inv, Chosen, RowsOf, Answers, Ledger.SetHeights;
    LedgerInvariant(s, queueSizeLimit);
    UntouchedLists(s.db, queueSizeLimit, us, onChain, height, confirmations, newHeight);
  }

  lemma RemovalCalled(s: State, queueSizeLimit: nat, removed: seq<Unconfirmed>, kept: seq<Unconfirmed>, commit: Commit)
    requires MintSafety.Inv(s, queueSizeLimit) && RowsOf(s.db, removed) && RowsOf(s.db, kept)
    requires Burns(removed) !! Burns(kept)
    ensures CallsRemoval(s, queueSizeLimit, removed, commit)
    ensures var steps := RemoveSteps(s.db, removed, commit);
            CanRun(s, steps, queueSizeLimit) && RowsOf(After(s, steps, queueSizeLimit).db, kept)
  {
    hide MintSafety.Inv, Ledger.Inv, RowsOf, Readable, RemoveOutcome, PreminedInv, RepeatsPremined, CanRun, After, InBigint,
         RemoveAll;
    LedgerInvariant(s, queueSizeLimit);
    RemovalLeaves(s.db, queueSizeLimit, removed, kept, commit);
    RemovalIsSteps(s, queueSizeLimit, removed, commit);
    if PreminedInv(s.db) && !RepeatsPremined(removed) {
      InvIsBase(s.db, queueSizeLimit);
      RemovedTwice(s.db, removed);
      assert !commit.Unavailable? ==> RemoveSteps(s.db, removed, commit)[0] == RemoveBurns(removed);
    }
  }

  lemma ConfirmationCalled(s: State, queueSizeLimit: nat, us: seq<Unconfirmed>, commit: Commit)
    requires RowsOf(s.db, us)
    ensures CallsConfirmation(s, queueSizeLimit, us, commit)
  {
    hide CanRun, After, ConfirmOutcome;
    ConfirmationIsSteps(s, queueSizeLimit, us, commit);
  }

  lemma LedgerInvariant(s: State, queueSizeLimit: nat)
    requires MintSafety.Inv(s, queueSizeLimit)
    ensures Ledger.Inv(s.db, queueSizeLimit)
    ensures forall t: TransportType :: LaneOf(s, t)
  {
  }

  // ---------- handleUnconfirmedSolana ----------

  /** In every reachable state no Solana id is recorded in two rows. */
  lemma RecordedIdsUnique(s: State, queueSizeLimit: nat)
    requires MintSafety.Inv(s, queueSizeLimit)
    ensures IdsUnique(s.db)
  {
    hide MintSafety.Inv, Ledger.Inv;
    LedgerInvariant(s, queueSizeLimit);
    forall t: TransportType, u: TransportType, i, j | 0 <= i < |s.db.Table(t)| && 0 <= j < |s.db.Table(u)|
      ensures s.db.Table(t)[i].solanaId.Some? && s.db.Table(u)[j].solanaId == s.db.Table(t)[i].solanaId ==> t == u && i == j
    {
      assert LaneOf(s, t) && LaneOf(s, u);
    }
  }

  /** The transactions that TxStatus says minted, all confirmed now. */
  function FoundIds(s: State, found: set<SolanaTxId>): Confirmed {
    map id | id in found && id in s.txs && s.txs[id].status.Executed? :: s.now
  }

  /** The recovery loop of the server does to the ledger what the recovery steps of the protocol do. */
  lemma RecoveryIsTheLoop(s: State, queueSizeLimit: nat, found: set<SolanaTxId>)
    requires MintSafety.Inv(s, queueSizeLimit) && Enabled(s, Start(found), queueSizeLimit)
    ensures Recover(Apply(s, Start(found), queueSizeLimit), queueSizeLimit).db
            == RecoverRecords(s.db, InFlight(s.db), FoundIds(s, found))
  {
    hide MintSafety.Inv, Ledger.Inv, Verdicts, InFlight;
    var s' := Apply(s, Start(found), queueSizeLimit);
    VerdictsAreRecords(s, found);
    PrefixAndSingleFlight(s, queueSizeLimit);
    var records := InFlight(s.db);
    if records == [] {
      assert Recover(s', queueSizeLimit).db == s.db;
    } else {
      assert records[..0] == [];
      assert RecoverRecords(s.db, [], FoundIds(s, found)) == s.db;
      OneRecord(s, queueSizeLimit, found, records[0].0, records[0].1);
    }
  }

  lemma OneRecord(s: State, queueSizeLimit: nat, found: set<SolanaTxId>, t: TransportType, r: Row)
    requires r.solanaId.Some?
    ensures var v := Verdict(t, r.burn, r.solanaId.value,
                             r.solanaId.value in found && IsExecuted(s, r.solanaId.value));
            Recover(s.(proc := Recovering([v])), queueSizeLimit).db == RecoverRecord(s.db, t, r, FoundIds(s, found))
  {
    var v := Verdict(t, r.burn, r.solanaId.value,
                             r.solanaId.value in found && IsExecuted(s, r.solanaId.value));
    var s' := s.(proc := Recovering([v]));
    var s'' := Apply(s', RecoverNext, queueSizeLimit);
    assert s'.proc.todo[1..] == [];
    assert Recover(s', queueSizeLimit) == Apply(s'', RecoveryDone, queueSizeLimit);
  }

  /** The records and the verdicts on them correspond one to one. */
  lemma VerdictsAreRecords(s: State, found: set<SolanaTxId>)
    ensures var records := InFlight(s.db);
            && |Verdicts(s, found)| == |records|
            && forall k :: 0 <= k < |records| ==>
                 var (t, r) := records[k];
                 r.solanaId.Some? && Verdicts(s, found)[k] == Verdict(t, r.burn, r.solanaId.value,
                             r.solanaId.value in found && IsExecuted(s, r.solanaId.value))
  {
    SelectedHaveIds(s.db.queue, s.db.solana);
    SelectedHaveIds(s.db.premined, s.db.solana);
    SelectedHaveIds(s.db.airdrop, s.db.solana);
  }

  lemma {:induction false} SelectedHaveIds(rows: seq<Row>, sol: SolanaTable)
    ensures forall i :: 0 <= i < |SelectInFlight(rows, sol)| ==> SelectInFlight(rows, sol)[i].solanaId.Some?
  {
    if rows != [] {
      SelectedHaveIds(rows[..|rows| - 1], sol);
    }
  }

  // ---------- processMints ----------

  /** One round of reads from an idle state, as steps. */
  function Gathered(s: State, queueSizeLimit: nat): State
    requires s.proc.Idle?
  {
    var s0 := Apply(s, BeginMints, queueSizeLimit);
    var s1 := Apply(s0, ReadUncompleted(Premined), queueSizeLimit);
    var s2 := Apply(s1, ReadUncompleted(Airdrop), queueSizeLimit);
    Apply(s2, ReadUncompleted(Regular), queueSizeLimit)
  }

  /** The list the server gathers is the one the protocol works through. */
  lemma GatheredIsTheList(s: State, queueSizeLimit: nat)
    requires MintSafety.Inv(s, queueSizeLimit) && s.proc.Idle?
    ensures var s' := Gathered(s, queueSizeLimit);
            && Enabled(s', RunMints, queueSizeLimit)
            && s'.proc.work == NextRows(s.db, Premined, None) + NextRows(s.db, Airdrop, None)
                               + NextRows(s.db, Regular, Some(AllowedSupply(s.now)))
  {
    hide MintSafety.Inv, Ledger.Inv, Uncompleted, NextRows;
    forall t: TransportType
      ensures Uncompleted(s, t) == NextRows(s.db, t, if t.Regular? then Some(AllowedSupply(s.now)) else None)
    {
      IdleFacts(s, queueSizeLimit, t);
      ReadIsNextRows(s, t);
    }
    GatheredIs(s, queueSizeLimit);
  }

  lemma GatheredIs(s: State, queueSizeLimit: nat)
    requires s.proc.Idle?
    ensures Gathered(s, queueSizeLimit)
            == s.(proc := Gathering(READ_ORDER, Uncompleted(s, Premined) + Uncompleted(s, Airdrop) + Uncompleted(s, Regular)))
  {
    hide Uncompleted;
    var p, a, r := Uncompleted(s, Premined), Uncompleted(s, Airdrop), Uncompleted(s, Regular);
    ReadStep(s, queueSizeLimit, [], [], Premined);
    assert [] + p == p && [] + [Premined] == [Premined];
    ReadStep(s, queueSizeLimit, [Premined], p, Airdrop);
    assert [Premined] + [Airdrop] == [Premined, Airdrop];
    ReadStep(s, queueSizeLimit, [Premined, Airdrop], p + a, Regular);
    assert [Premined, Airdrop] + [Regular] == READ_ORDER;
  }

  lemma ReadStep(s: State, queueSizeLimit: nat, read: seq<TransportType>, work: seq<Request>, t: TransportType)
    requires |read| < 3 && t == READ_ORDER[|read|]
    ensures var s' := s.(proc := Gathering(read, work));
            && Enabled(s', ReadUncompleted(t), queueSizeLimit)
            && Apply(s', ReadUncompleted(t), queueSizeLimit) == s.(proc := Gathering(read + [t], work + Uncompleted(s, t)))
  {
    SameReads(s, Gathering(read, work));
  }

  lemma SameReads(s: State, proc: Proc)
    ensures forall t: TransportType :: Uncompleted(s.(proc := proc), t) == Uncompleted(s, t)
  {
  }

  lemma IdleFacts(s: State, queueSizeLimit: nat, t: TransportType)
    requires MintSafety.Inv(s, queueSizeLimit) && s.proc.Idle?
    ensures LaneOf(s, t) && FlightOf(s, t).None?
  {
  }

  lemma ReadIsNextRows(s: State, t: TransportType)
    requires LaneOf(s, t) && FlightOf(s, t).None?
    ensures Uncompleted(s, t) == NextRows(s.db, t, if t.Regular? then Some(AllowedSupply(s.now)) else None)
  {
    UncompletedIsSegment(s.db.Table(t), s.db.solana, s.db.Done(t),
                         if t.Regular? then Some(AllowedSupply(s.now)) else None);
  }

  // ---------- mint ----------

  /** The steps of an attempt: an id that is already recorded cannot be saved again, and a transaction that is not
      known to have minted may land later. */
  function AttemptSteps(db: Database, attempt: Attempt): seq<Step> {
    match attempt
    case BuildFailed => []
    case SaveFailed(id, effect) => [BuildTx(id), SaveFails(effect && id !in db.solana)]
    case NotMinted(id) =>
      if id in db.solana then [BuildTx(id), SaveFails(false)]
      else [BuildTx(id), SaveTx, SendTx, SendFails, StatusKnown(false)]
    case Minted(id, _) =>
      if id in db.solana then [BuildTx(id), SaveFails(false)]
      else [BuildTx(id), SaveTx, SendTx, Land(id), SendConfirmed, MarkConfirmed]
  }

  function ScriptSteps(db: Database, req: Request, script: seq<Attempt>, now: Time): seq<Step>
    decreases |script|
  {
    if script == [] then []
    else
      var (db', done) := AttemptEffect(db, req, script[0], now);
      AttemptSteps(db, script[0]) + if done then [] else ScriptSteps(db', req, script[1..], now)
  }

  /** No transaction is built again once it may have been sent: it would name an old block. */
  predicate BuildsAnew(s: State, req: Request, script: seq<Attempt>) {
    && (forall k :: 0 <= k < |script| && !script[k].BuildFailed? && script[k].id in s.txs ==> s.txs[script[k].id] == TxFor(req))
    && (forall j, k | 0 <= j < k < |script| && !script[j].BuildFailed? && !script[k].BuildFailed? ::
          script[j].id == script[k].id ==> script[j].SaveFailed?)
  }

  /** The next request is about to be built. */
  predicate Ready(s: State, req: Request) {
    InPhase(s) && s.proc.phase.Build? && s.proc.work[0] == req
  }

  /** Where the loop over the requests is once the first is done, or still at work on it. */
  function Onward(proc: Proc, done: bool): Proc
    requires proc.Minting? && proc.work != []
  {
    if !done then proc else if proc.work[1..] == [] then Idle else Minting(proc.work[1..], Build)
  }

  lemma SavingFails(s: State, queueSizeLimit: nat, id: SolanaTxId, effect: bool)
    requires InPhase(s) && s.proc.phase.Build?
    requires id in s.txs ==> s.txs[id] == TxFor(s.proc.work[0])
    requires effect ==> id !in s.db.solana
    ensures var steps, req := [BuildTx(id), SaveFails(effect)], s.proc.work[0];
            && CanRun(s, steps, queueSizeLimit)
            && var s' := After(s, steps, queueSizeLimit);
            && s'.db == (if effect then WithRecorded(s.db, req.burn, req.kind, id, s.now) else s.db)
            && s'.proc == s.proc && s'.chain == s.chain && s'.now == s.now
            && s'.txs == s.txs[id := TxFor(req)]
  {
    var s1 := Apply(s, BuildTx(id), queueSizeLimit);
    RunsOne(s, BuildTx(id), queueSizeLimit);
    RunsOne(s1, SaveFails(effect), queueSizeLimit);
    RunsConcat(s, [BuildTx(id)], [SaveFails(effect)], queueSizeLimit);
    assert [BuildTx(id)] + [SaveFails(effect)] == [BuildTx(id), SaveFails(effect)];
  }

  /** The state once an attempt has built, saved and sent its transaction. */
  predicate Sent(s: State, id: SolanaTxId, s': State)
    requires InPhase(s)
  {
    var req := s.proc.work[0];
    && s'.txs == s.txs[id := TxFor(req).(status := Pending)]
    && s'.db == WithRecorded(s.db, req.burn, req.kind, id, s.now)
    && s'.proc == Minting(s.proc.work, Await(id))
    && s'.chain == s.chain && s'.now == s.now
  }

  lemma BuiltIs(s: State, queueSizeLimit: nat, id: SolanaTxId)
    requires InPhase(s) && s.proc.phase.Build?
    requires id in s.txs ==> s.txs[id] == TxFor(s.proc.work[0])
    ensures Enabled(s, BuildTx(id), queueSizeLimit)
    ensures Apply(s, BuildTx(id), queueSizeLimit)
            == s.(txs := s.txs[id := TxFor(s.proc.work[0])], proc := Minting(s.proc.work, Save(id)))
  {
  }

  lemma SavedIs(s: State, queueSizeLimit: nat, id: SolanaTxId)
    requires InPhase(s) && s.proc.phase == Save(id) && id !in s.db.solana
    ensures Enabled(s, SaveTx, queueSizeLimit)
    ensures var s', req := Apply(s, SaveTx, queueSizeLimit), s.proc.work[0];
            s' == s.(db := WithRecorded(s.db, req.burn, req.kind, id, s.now), proc := Minting(s.proc.work, Send(id)))
  {
    hide Flight, IsExecuted;
  }

  lemma SentIs(s: State, queueSizeLimit: nat, id: SolanaTxId)
    requires InPhase(s) && s.proc.phase == Send(id) && id in s.txs
    ensures Enabled(s, SendTx, queueSizeLimit)
    ensures Apply(s, SendTx, queueSizeLimit)
            == s.(txs := s.txs[id := s.txs[id].(status := Pending)], proc := Minting(s.proc.work, Await(id)))
  {
  }

  lemma SendingRuns(s: State, queueSizeLimit: nat, id: SolanaTxId)
    requires InPhase(s) && s.proc.phase.Build? && id !in s.db.solana
    requires id in s.txs ==> s.txs[id] == TxFor(s.proc.work[0])
    ensures var steps := [BuildTx(id), SaveTx, SendTx];
            CanRun(s, steps, queueSizeLimit) && Sent(s, id, After(s, steps, queueSizeLimit))
  {
    hide Enabled, Apply, WithRecorded, CanRun, After;
    BuiltIs(s, queueSizeLimit, id);
    var s1 := Apply(s, BuildTx(id), queueSizeLimit);
    SavedIs(s1, queueSizeLimit, id);
    SentIs(Apply(s1, SaveTx, queueSizeLimit), queueSizeLimit, id);
    ThreeRun(s, queueSizeLimit, BuildTx(id), SaveTx, SendTx);
  }

  lemma SentIsMissed(s: State, queueSizeLimit: nat, id: SolanaTxId)
    requires InPhase(s) && s.proc.phase == Await(id)
    ensures var steps := [SendFails, StatusKnown(false)];
            && CanRun(s, steps, queueSizeLimit)
            && After(s, steps, queueSizeLimit) == s.(proc := Minting(s.proc.work, Build))
  {
    var s1 := Apply(s, SendFails, queueSizeLimit);
    RunsOne(s, SendFails, queueSizeLimit);
    RunsOne(s1, StatusKnown(false), queueSizeLimit);
    RunsConcat(s, [SendFails], [StatusKnown(false)], queueSizeLimit);
    assert [SendFails] + [StatusKnown(false)] == [SendFails, StatusKnown(false)];
  }

  lemma SentIsMinted(s: State, queueSizeLimit: nat, id: SolanaTxId)
    requires InPhase(s) && s.proc.phase == Await(id) && IsPending(s, id)
    requires s.chain.Get(s.txs[id].kind) == s.txs[id].supply
    ensures Enabled(s, Land(id), queueSizeLimit)
            && var s1 := Apply(s, Land(id), queueSizeLimit);
            && Enabled(s1, SendConfirmed, queueSizeLimit)
            && var s2 := Apply(s1, SendConfirmed, queueSizeLimit);
            && Enabled(s2, MarkConfirmed, queueSizeLimit)
            && var rest := s.proc.work[1..];
            Apply(s2, MarkConfirmed, queueSizeLimit)
            == s.(db := ConfirmSolana(s.db, id, s.now),
                  txs := WithStatus(s.txs, id, Executed),
                  chain := s.chain.With(s.txs[id].kind, s.txs[id].supply + s.txs[id].amount),
                  proc := if rest == [] then Idle else Minting(rest, Build))
  {
  }

  lemma MissRuns(s: State, queueSizeLimit: nat, id: SolanaTxId)
    requires InPhase(s) && s.proc.phase.Build? && id !in s.db.solana
    requires id in s.txs ==> s.txs[id] == TxFor(s.proc.work[0])
    ensures var steps, req := [BuildTx(id), SaveTx, SendTx, SendFails, StatusKnown(false)], s.proc.work[0];
            && CanRun(s, steps, queueSizeLimit)
            && var s' := After(s, steps, queueSizeLimit);
            && s'.db == WithRecorded(s.db, req.burn, req.kind, id, s.now)
            && s'.proc == s.proc && s'.chain == s.chain && s'.now == s.now
            && s'.txs.Keys == s.txs.Keys + {id}
            && (forall x :: x in s.txs && x != id ==> s'.txs[x] == s.txs[x])
  {
    hide Enabled, Apply, WithRecorded;
    SendingRuns(s, queueSizeLimit, id);
    var first, second := [BuildTx(id), SaveTx, SendTx], [SendFails, StatusKnown(false)];
    var sent := After(s, first, queueSizeLimit);
    SentIsMissed(sent, queueSizeLimit, id);
    RunsConcat(s, first, second, queueSizeLimit);
    assert first + second == [BuildTx(id), SaveTx, SendTx, SendFails, StatusKnown(false)];
  }

  /** The six steps without a failure, for a request that names the contract's supply: they mint it on the
      contract and complete it in the ledger. */
  lemma MintRuns(s: State, queueSizeLimit: nat, id: SolanaTxId)
    requires InPhase(s) && s.proc.phase.Build? && id !in s.db.solana
    requires id in s.txs ==> s.txs[id] == TxFor(s.proc.work[0])
    requires s.chain.Get(s.proc.work[0].kind) == s.proc.work[0].totalSupply
    ensures var steps, req := [BuildTx(id), SaveTx, SendTx, Land(id), SendConfirmed, MarkConfirmed], s.proc.work[0];
            && CanRun(s, steps, queueSizeLimit)
            && var s', rest := After(s, steps, queueSizeLimit), s.proc.work[1..];
            && s'.db == ConfirmSolana(WithRecorded(s.db, req.burn, req.kind, id, s.now), id, s.now)
            && s'.chain == s.chain.With(req.kind, s.chain.Get(req.kind) + req.amount)
            && s'.txs == s.txs[id := TxFor(req).(status := Executed)]
            && s'.proc == (if rest == [] then Idle else Minting(rest, Build)) && s'.now == s.now
  {
    hide Enabled, Apply, WithRecorded;
    SendingRuns(s, queueSizeLimit, id);
    var first, second := [BuildTx(id), SaveTx, SendTx], [Land(id), SendConfirmed, MarkConfirmed];
    var sent := After(s, first, queueSizeLimit);
    SentIsMinted(sent, queueSizeLimit, id);
    ThreeRun(sent, queueSizeLimit, Land(id), SendConfirmed, MarkConfirmed);
    RunsConcat(s, first, second, queueSizeLimit);
    assert first + second == [BuildTx(id), SaveTx, SendTx, Land(id), SendConfirmed, MarkConfirmed];
  }

  /** mint can always succeed: from any request about to be built whose burn is not minted, the six steps
      without a failure are enabled one after the other and mint the request on the contract. It is
      not minted unless a status answer wrote off a transaction that minted or could still. */
  lemma MintCanSucceed(s: State, queueSizeLimit: nat, id: SolanaTxId)
    requires MintSafety.Inv(s, queueSizeLimit) && InPhase(s) && s.proc.phase.Build?
    requires id !in s.txs && id !in s.db.solana
    ensures NoneWrittenOff(s) ==> !MintTheorems.Minted(s, s.proc.work[0].burn)
    ensures !MintTheorems.Minted(s, s.proc.work[0].burn) ==>
              var steps, req := AttemptSteps(s.db, Attempt.Minted(id, 0)), s.proc.work[0];
              && CanRun(s, steps, queueSizeLimit)
              && var s' := After(s, steps, queueSizeLimit);
              && (s'.db, true) == AttemptEffect(s.db, req, Attempt.Minted(id, 0), s.now)
              && s'.chain == s.chain.With(req.kind, s.chain.Get(req.kind) + req.amount)
              && MintTheorems.Minted(s', req.burn)
  {
    hide MintSafety.Inv, CanRun, After, WithRecorded, ConfirmSolana, NoneWrittenOff;
    RequestNamesCurrentSupply(s, queueSizeLimit);
    if NoneWrittenOff(s) { SettledNamesSupply(s, queueSizeLimit); }
    var req := s.proc.work[0];
    if !MintTheorems.Minted(s, req.burn) {
      MintRuns(s, queueSizeLimit, id);
      var s' := After(s, AttemptSteps(s.db, Attempt.Minted(id, 0)), queueSizeLimit);
      assert IsExecuted(s', id) && s'.txs[id].burn == req.burn;
    }
  }

  /** What an attempt does to the ledger is what its steps do. */
  lemma AttemptIsSteps(s: State, queueSizeLimit: nat, req: Request, attempt: Attempt)
    requires Ready(s, req)
    requires !attempt.BuildFailed? && attempt.id in s.txs ==> s.txs[attempt.id] == TxFor(req)
    requires attempt.Minted? ==> s.chain.Get(req.kind) == req.totalSupply
    ensures var steps := AttemptSteps(s.db, attempt);
            && CanRun(s, steps, queueSizeLimit)
            && var s' := After(s, steps, queueSizeLimit);
            var (db', done) := AttemptEffect(s.db, req, attempt, s.now);
            && s'.db == db' && s'.proc == Onward(s.proc, done)
            && (!done ==>
                  && s'.chain == s.chain && s'.now == s.now
                  && (forall x :: x in s'.txs && (attempt.BuildFailed? || x != attempt.id) ==>
                        x in s.txs && s'.txs[x] == s.txs[x])
                  && (attempt.SaveFailed? && attempt.id in s'.txs ==> s'.txs[attempt.id] == TxFor(req)))
  {
    hide CanRun, After, WithRecorded, ConfirmSolana;
    match attempt
    case BuildFailed =>
      NoSteps(s, queueSizeLimit);
    case SaveFailed(id, effect) =>
      SavingFails(s, queueSizeLimit, id, effect && id !in s.db.solana);
      if id in s.db.solana { AlreadyRecorded(s.db, req, id, s.now); }
    case NotMinted(id) =>
      if id in s.db.solana {
        SavingFails(s, queueSizeLimit, id, false);
        AlreadyRecorded(s.db, req, id, s.now);
      } else {
        MissRuns(s, queueSizeLimit, id);
      }
    case Minted(id, _) =>
      if id in s.db.solana { SavingFails(s, queueSizeLimit, id, false); } else { MintRuns(s, queueSizeLimit, id); }
  }

  lemma NoSteps(s: State, queueSizeLimit: nat)
    ensures CanRun(s, [], queueSizeLimit) && After(s, [], queueSizeLimit) == s
  {
  }

  /** Whatever mint meets, failures included, what it does to the ledger is what enabled steps of the
      protocol do, one attempt after the other. A script in which the transaction mints makes sense only
      for a burn that is not minted yet. */
  lemma ScriptIsSteps(s: State, queueSizeLimit: nat, req: Request, script: seq<Attempt>)
    requires MintSafety.Inv(s, queueSizeLimit) && Ready(s, req) && BuildsAnew(s, req, script)
    requires MintTheorems.Minted(s, req.burn) ==> forall k :: 0 <= k < |script| ==> !script[k].Minted?
    ensures IsFront(s.db, req.kind, req.burn)
    ensures var steps := ScriptSteps(s.db, req, script, s.now);
            && CanRun(s, steps, queueSizeLimit)
            && var s', (db', done) := After(s, steps, queueSizeLimit), MintEffect(s.db, req, script, s.now);
            && s'.db == db' && s'.proc == Onward(s.proc, done)
            && MintSafety.Inv(s', queueSizeLimit)
  {
    hide MintSafety.Inv, CanRun, After, BuildsAnew;
    RequestNamesCurrentSupply(s, queueSizeLimit);
    ReadyIsFront(s, queueSizeLimit, req);
    AttemptsAreSteps(s, queueSizeLimit, req, script);
    PathInvariant(s, ScriptSteps(s.db, req, script, s.now), queueSizeLimit);
  }

  lemma ReadyIsFront(s: State, queueSizeLimit: nat, req: Request)
    requires MintSafety.Inv(s, queueSizeLimit) && Ready(s, req)
    ensures IsFront(s.db, req.kind, req.burn)
  {
    hide MintLanes.Lane, Ledger.Inv;
    assert LaneOf(s, req.kind);
    RequestIsFront(s);
  }

  lemma {:induction false} AttemptsAreSteps(s: State, queueSizeLimit: nat, req: Request, script: seq<Attempt>)
    requires Ready(s, req) && BuildsAnew(s, req, script)
    requires s.chain.Get(req.kind) == req.totalSupply || forall k :: 0 <= k < |script| ==> !script[k].Minted?
    ensures var steps := ScriptSteps(s.db, req, script, s.now);
            && CanRun(s, steps, queueSizeLimit)
            && var s', (db', done) := After(s, steps, queueSizeLimit), MintEffect(s.db, req, script, s.now);
            s'.db == db' && s'.proc == Onward(s.proc, done)
    decreases |script|
  {
    hide CanRun, After, AttemptSteps, AttemptEffect;
    if script == [] {
      NoSteps(s, queueSizeLimit);
    } else {
      var first := AttemptSteps(s.db, script[0]);
      AttemptIsSteps(s, queueSizeLimit, req, script[0]);
      var s', done := After(s, first, queueSizeLimit), AttemptEffect(s.db, req, script[0], s.now).1;
      if done {
        assert first + [] == first;
      } else {
        BuildsAnewStill(s, s', req, script);
        assert forall k :: 0 <= k < |script| - 1 ==> script[1..][k] == script[k + 1];
        AttemptsAreSteps(s', queueSizeLimit, req, script[1..]);
        RunsConcat(s, first, ScriptSteps(s'.db, req, script[1..], s.now), queueSizeLimit);
      }
    }
  }

  lemma BuildsAnewStill(s: State, s': State, req: Request, script: seq<Attempt>)
    requires script != [] && BuildsAnew(s, req, script)
    requires forall x :: x in s'.txs && (script[0].BuildFailed? || x != script[0].id) ==> x in s.txs && s'.txs[x] == s.txs[x]
    requires script[0].SaveFailed? && script[0].id in s'.txs ==> s'.txs[script[0].id] == TxFor(req)
    ensures BuildsAnew(s', req, script[1..])
  {
    var rest := script[1..];
    forall k | 0 <= k < |rest| && !rest[k].BuildFailed? && rest[k].id in s'.txs
      ensures s'.txs[rest[k].id] == TxFor(req)
    {
      assert rest[k] == script[k + 1];
    }
  }
}
