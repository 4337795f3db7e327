/** The mint and recovery protocol as a state machine: the server's mint loop and start-up
    recovery (loops.go, server.go) against the ledger and the Solana contract, with
    crashes, late landings and failures between any two steps. */
module MintProtocol {
  import opened Common
  import opened Tables
  import opened Ledger
  import opened Emission

  // ---------- the contract's side ----------

  datatype TxStatus = Unsent | Pending | Executed | Failed | Gone

  /** A built Solana transaction: it names the supply it expects to find. */
  datatype MintTx = MintTx(kind: TransportType, burn: BurnId, recipient: SolanaAddress, amount: int, supply: int,
                           status: TxStatus)

  // ---------- the server's side ----------

  /** A record with an unconfirmed Solana id, and whether TxStatus said that its transaction minted. */
  datatype Verdict = Verdict(kind: TransportType, burn: BurnId, id: SolanaTxId, success: bool)

  /** Where the mint loop is for the request it works on. */
  datatype Phase =
    | Build
    | Save(id: SolanaTxId)
    | Send(id: SolanaTxId)
    | Await(id: SolanaTxId)
    | Check(id: SolanaTxId)
    | Mark(id: SolanaTxId)

  datatype Proc =
    | Down
    | Recovering(todo: seq<Verdict>)
    | Comparing
    | Refused
    | Idle
    | Gathering(read: seq<TransportType>, work: seq<Request>)
    | Minting(work: seq<Request>, phase: Phase)

  datatype State = State(
    db: Database,
    chain: Supply,
    txs: map<SolanaTxId, MintTx>,
    proc: Proc,
    now: Time)

  datatype Step =
    // requests and the unconfirmed loop
    | Submit(u: Unconfirmed)
    | SetHeights(burns: seq<BurnId>, height: nat)
    | RemoveBurns(us: seq<Unconfirmed>)
    | ConfirmBurns(us: seq<Unconfirmed>)
    // environment
    | Tick(time: Time)
    | Land(id: SolanaTxId)
    | Reject(id: SolanaTxId)
    | Vanish(id: SolanaTxId)
    | Crash
    // start-up
    | Start(found: set<SolanaTxId>)
    | RecoverNext
    | RecoveryDone
    | Compare
    // processMints
    | BeginMints
    | ReadUncompleted(t: TransportType)
    | AbortMints
    | RunMints
    // mint
    | BuildTx(id: SolanaTxId)
    | SaveTx
    | SaveFails(effect: bool)
    | SendTx
    | SendConfirmed
    | SendFails
    | StatusKnown(success: bool)
    | StatusFails
    | MarkConfirmed

  predicate IsPending(s: State, id: SolanaTxId) {
    id in s.txs && s.txs[id].status.Pending?
  }

  predicate IsExecuted(s: State, id: SolanaTxId) {
    id in s.txs && s.txs[id].status.Executed?
  }

  function WithStatus(txs: map<SolanaTxId, MintTx>, id: SolanaTxId, status: TxStatus): map<SolanaTxId, MintTx> {
    if id in txs then txs[id := txs[id].(status := status)] else txs
  }

  /** RecordsWithUnconfirmedSolana together with the TxStatus answers. What TxStatus calls minted has executed; but
      it may miss a transaction that executed, and call gone one that lands later. */
  function VerdictsOf(s: State, t: TransportType, found: set<SolanaTxId>): seq<Verdict> {
    var rows := SelectInFlight(s.db.Table(t), s.db.solana);
    seq(|rows|, i requires 0 <= i < |rows| =>
        var id := rows[i].solanaId.GetOr(0);
        Verdict(t, rows[i].burn, id, id in found && IsExecuted(s, id)))
  }

  function Verdicts(s: State, found: set<SolanaTxId>): seq<Verdict> {
    VerdictsOf(s, Regular, found) + VerdictsOf(s, Premined, found) + VerdictsOf(s, Airdrop, found)
  }

  /** The requests one of the three reads of processMints returns; only the queue is bounded. */
  function Uncompleted(s: State, t: TransportType): seq<Request> {
    ToRequests(t, SelectUncompleted(s.db.Table(t), if t.Regular? then Some(AllowedSupply(s.now)) else None))
  }

  function TxFor(req: Request): MintTx {
    MintTx(req.kind, req.burn, req.recipient, req.amount, req.totalSupply, Unsent)
  }

  /** processMints reads premined first, then airdrop, then the queue. */
  const READ_ORDER: seq<TransportType> := [Premined, Airdrop, Regular]

  predicate InPhase(s: State) {
    s.proc.Minting? && s.proc.work != []
  }

  /** The lists of RemoveBurns and ConfirmBurns may repeat burns, or name burns that are gone or confirmed
      by now. Nothing is asked of a transaction whose status is negative: it may land later, or have landed. */
  predicate Enabled(s: State, step: Step, queueSizeLimit: nat) {
    match step
    case Submit(u) => CanAdmit(s.db, queueSizeLimit, u) && u.height.None?
    case SetHeights(_, _) => true
    case RemoveBurns(us) => Readable(us) && InBigint(RemoveAll(s.db, us).limits)
    case ConfirmBurns(us) => WereRows(s.db, us)
    case Tick(time) => s.now <= time
    case Land(id) => IsPending(s, id)
    case Reject(id) => IsPending(s, id)
    case Vanish(id) => IsPending(s, id)
    case Crash => true
    case Start(_) => s.proc.Down?
    case RecoverNext => s.proc.Recovering? && s.proc.todo != []
    case RecoveryDone => s.proc.Recovering? && s.proc.todo == []
    case Compare => s.proc.Comparing?
    case BeginMints => s.proc.Idle?
    case ReadUncompleted(t) => s.proc.Gathering? && |s.proc.read| < 3 && t == READ_ORDER[|s.proc.read|]
    case AbortMints => s.proc.Gathering?
    case RunMints => s.proc.Gathering? && |s.proc.read| == 3
    case BuildTx(id) =>
      && InPhase(s) && s.proc.phase.Build?
      && (id in s.txs ==> s.txs[id] == TxFor(s.proc.work[0]))
    case SaveTx => InPhase(s) && s.proc.phase.Save? && s.proc.phase.id !in s.db.solana
    case SaveFails(effect) => InPhase(s) && s.proc.phase.Save? && (effect ==> s.proc.phase.id !in s.db.solana)
    case SendTx => InPhase(s) && s.proc.phase.Send?
    case SendConfirmed => InPhase(s) && s.proc.phase.Await? && IsExecuted(s, s.proc.phase.id)
    case SendFails => InPhase(s) && s.proc.phase.Await?
    case StatusKnown(success) => InPhase(s) && s.proc.phase.Check? && (success ==> IsExecuted(s, s.proc.phase.id))
    case StatusFails => InPhase(s) && s.proc.phase.Check?
    case MarkConfirmed => InPhase(s) && s.proc.phase.Mark?
  }

  /** AddSolanaTransaction for the current request. */
  function Recorded(s: State): State
    requires InPhase(s) && s.proc.phase.Save?
  {
    var req := s.proc.work[0];
    match AddSolana(s.db, req.burn, req.kind, s.proc.phase.id, s.now)
    case Err(_) => s
    case Ok(db') => s.(db := db')
  }

  function Apply(s: State, step: Step, queueSizeLimit: nat): State
    requires Enabled(s, step, queueSizeLimit)
  {
    match step
    case Submit(u) => s.(db := Admit(s.db, u))
    case SetHeights(burns, height) => s.(db := s.db.(unconfirmed := Ledger.SetHeights(s.db.unconfirmed, burns, height)))
    case RemoveBurns(us) => s.(db := RemoveAll(s.db, us))
    case ConfirmBurns(us) => (match ConfirmAll(s.db, us, s.now) case Ok(db') => s.(db := db') case Err(_) => s)
    case Tick(time) => s.(now := time)
    case Land(id) =>
      var tx := s.txs[id];
      if s.chain.Get(tx.kind) == tx.supply
      then s.(txs := WithStatus(s.txs, id, Executed), chain := s.chain.With(tx.kind, tx.supply + tx.amount))
      else s.(txs := WithStatus(s.txs, id, Failed))
    case Reject(id) => s.(txs := WithStatus(s.txs, id, Failed))
    case Vanish(id) => s.(txs := WithStatus(s.txs, id, Gone))
    case Crash => s.(proc := Down)
    case Start(found) => s.(proc := Recovering(Verdicts(s, found)))
    case RecoverNext =>
      var v := s.proc.todo[0];
      s.(proc := Recovering(s.proc.todo[1..]),
         db := if v.success then ConfirmSolana(s.db, v.id, s.now) else RemoveSolana(s.db, v.burn, v.kind))
    case RecoveryDone => s.(proc := Comparing)
    case Compare => s.(proc := if s.chain == ConfirmedSupply(s.db) then Idle else Refused)
    case BeginMints => s.(proc := Gathering([], []))
    case ReadUncompleted(t) => s.(proc := Gathering(s.proc.read + [t], s.proc.work + Uncompleted(s, t)))
    case AbortMints => s.(proc := Idle)
    case RunMints => s.(proc := if s.proc.work == [] then Idle else Minting(s.proc.work, Build))
    case BuildTx(id) => s.(txs := s.txs[id := TxFor(s.proc.work[0])], proc := Minting(s.proc.work, Save(id)))
    case SaveTx => Recorded(s).(proc := Minting(s.proc.work, Send(s.proc.phase.id)))
    case SaveFails(effect) => (if effect then Recorded(s) else s).(proc := Minting(s.proc.work, Build))
    case SendTx =>
      s.(txs := WithStatus(s.txs, s.proc.phase.id, Pending), proc := Minting(s.proc.work, Await(s.proc.phase.id)))
    case SendConfirmed => s.(proc := Minting(s.proc.work, Mark(s.proc.phase.id)))
    case SendFails => s.(proc := Minting(s.proc.work, Check(s.proc.phase.id)))
    case StatusKnown(success) => s.(proc := Minting(s.proc.work, if success then Mark(s.proc.phase.id) else Build))
    case StatusFails => s.(proc := Minting(s.proc.work, Build))
    case MarkConfirmed =>
      var rest := s.proc.work[1..];
      s.(db := ConfirmSolana(s.db, s.proc.phase.id, s.now),
         proc := if rest == [] then Idle else Minting(rest, Build))
  }

  /** The steps can be taken one after the other. */
  predicate CanRun(s: State, steps: seq<Step>, queueSizeLimit: nat)
    decreases |steps|
  {
    || steps == []
    || (Enabled(s, steps[0], queueSizeLimit) && CanRun(Apply(s, steps[0], queueSizeLimit), steps[1..], queueSizeLimit))
  }

  function After(s: State, steps: seq<Step>, queueSizeLimit: nat): State
    requires CanRun(s, steps, queueSizeLimit)
    decreases |steps|
  {
    if steps == [] then s else After(Apply(s, steps[0], queueSizeLimit), steps[1..], queueSizeLimit)
  }

  lemma {:induction false} RunsConcat(s: State, first: seq<Step>, rest: seq<Step>, queueSizeLimit: nat)
    requires CanRun(s, first, queueSizeLimit)
    ensures CanRun(s, first + rest, queueSizeLimit) <==> CanRun(After(s, first, queueSizeLimit), rest, queueSizeLimit)
    ensures CanRun(s, first + rest, queueSizeLimit) ==>
              After(s, first + rest, queueSizeLimit) == After(After(s, first, queueSizeLimit), rest, queueSizeLimit)
    decreases |first|
  {
    hide Enabled, Apply;
    if first == [] {
      assert first + rest == rest;
    } else {
      assert (first + rest)[0] == first[0] && (first + rest)[1..] == first[1..] + rest;
      RunsConcat(Apply(s, first[0], queueSizeLimit), first[1..], rest, queueSizeLimit);
    }
  }

  lemma RunsOne(s: State, step: Step, queueSizeLimit: nat)
    ensures CanRun(s, [step], queueSizeLimit) <==> Enabled(s, step, queueSizeLimit)
    ensures Enabled(s, step, queueSizeLimit) ==> After(s, [step], queueSizeLimit) == Apply(s, step, queueSizeLimit)
  {
    hide Enabled, Apply;
    if Enabled(s, step, queueSizeLimit) {
      assert [step][1..] == [];
      assert CanRun(Apply(s, step, queueSizeLimit), [], queueSizeLimit);
      assert After(Apply(s, step, queueSizeLimit), [], queueSizeLimit) == Apply(s, step, queueSizeLimit);
    }
  }

  lemma ThreeRun(s: State, queueSizeLimit: nat, a: Step, b: Step, c: Step)
    requires Enabled(s, a, queueSizeLimit)
    requires var s1 := Apply(s, a, queueSizeLimit);
             && Enabled(s1, b, queueSizeLimit)
             && Enabled(Apply(s1, b, queueSizeLimit), c, queueSizeLimit)
    ensures CanRun(s, [a, b, c], queueSizeLimit)
    ensures After(s, [a, b, c], queueSizeLimit)
            == Apply(Apply(Apply(s, a, queueSizeLimit), b, queueSizeLimit), c, queueSizeLimit)
  {
    hide Enabled, Apply;
    var s1 := Apply(s, a, queueSizeLimit);
    var s2 := Apply(s1, b, queueSizeLimit);
    RunsOne(s2, c, queueSizeLimit);
    RunsOne(s1, b, queueSizeLimit);
    RunsConcat(s1, [b], [c], queueSizeLimit);
    assert [b] + [c] == [b, c];
    RunsOne(s, a, queueSizeLimit);
    RunsConcat(s, [a], [b, c], queueSizeLimit);
    assert [a] + [b, c] == [a, b, c];
  }

  /** A fresh schema, nothing minted, the server not started. */
  predicate Initial(s: State) {
    && Fresh(s.db)
    && s.chain == Supply(0, 0, 0)
    && s.txs == map[]
    && s.proc == Down
  }

  /** A run: from an initial state, every step enabled and applied. */
  predicate Run(states: seq<State>, steps: seq<Step>, queueSizeLimit: nat) {
    && |states| == |steps| + 1
    && Initial(states[0])
    && forall i :: 0 <= i < |steps| ==>
         Enabled(states[i], steps[i], queueSizeLimit) && states[i + 1] == Apply(states[i], steps[i], queueSizeLimit)
  }
}
