/** Where the protocol meets the Solana side: what the answers of the node become in its steps, and what the raw
    units of the contract become in its supplies. */
module SolanaSide {
  import opened Common
  import opened Tables
  import opened Ledger
  import opened SolanaUnits
  import opened MintProtocol
  import opened MintLanes
  import opened MintSafety
  import opened Agreement
  import SolanaStatus
  import MintTheorems

  // ---------- statuses ----------

  /** The node calls finalized and successful only what executed. */
  predicate Truthful(s: State, id: SolanaTxId, answer: SolanaStatus.NodeAnswer, minter: SolanaStatus.ProgramId) {
    SolanaStatus.MintedBy(answer, minter) ==> IsExecuted(s, id)
  }

  /** The step that mint takes on the answer. */
  function StatusStep(answer: SolanaStatus.NodeAnswer, minter: SolanaStatus.ProgramId): Step {
    match SolanaStatus.StatusOf(answer, minter)
    case Err(_) => StatusFails
    case Ok(status) => StatusKnown(status.confirmed && status.mintSuccessful)
  }

  /** Whatever a truthful node answers, mint takes a step of the protocol: it goes on to mark the transaction exactly if
      the answer is that it minted, and otherwise builds another, which is a slip exactly if the transaction
      executed or can still land. */
  lemma AnswerIsStep(s: State, answer: SolanaStatus.NodeAnswer, minter: SolanaStatus.ProgramId, queueSizeLimit: nat)
    requires InPhase(s) && s.proc.phase.Check? && Truthful(s, s.proc.phase.id, answer, minter)
    ensures var step, id := StatusStep(answer, minter), s.proc.phase.id;
            && Enabled(s, step, queueSizeLimit)
            && Apply(s, step, queueSizeLimit)
               == s.(proc := Minting(s.proc.work, if SolanaStatus.MintedBy(answer, minter) then Mark(id) else Build))
            && (Slips(s, step) <==> !SolanaStatus.MintedBy(answer, minter) && (IsExecuted(s, id) || IsPending(s, id)))
  {
    StatusMeans(answer, minter);
  }

  lemma StatusMeans(answer: SolanaStatus.NodeAnswer, minter: SolanaStatus.ProgramId)
    ensures var r := SolanaStatus.StatusOf(answer, minter);
            r.Ok? && r.value.confirmed && r.value.mintSuccessful <==> SolanaStatus.MintedBy(answer, minter)
  {
  }

  /** The ids that the answers call minted. */
  function FoundBy(ids: seq<SolanaTxId>, answers: seq<SolanaStatus.NodeAnswer>, minter: SolanaStatus.ProgramId):
    set<SolanaTxId>
    requires |answers| == |ids|
  {
    set k | 0 <= k < |ids| && SolanaStatus.MintedBy(answers[k], minter) :: ids[k]
  }

  /** The ids that recovery asks about. */
  function AskedIds(s: State): seq<SolanaTxId> {
    var verdicts := Verdicts(s, {});
    seq(|verdicts|, k requires 0 <= k < |verdicts| => verdicts[k].id)
  }

  /** The verdicts of recovery are the answers of a truthful node, record by record. */
  lemma AnswersAreVerdicts(s: State, queueSizeLimit: nat, answers: seq<SolanaStatus.NodeAnswer>,
                           minter: SolanaStatus.ProgramId)
    requires MintSafety.Inv(s, queueSizeLimit) && s.proc.Down? && |answers| == |AskedIds(s)|
    requires forall k :: 0 <= k < |answers| ==> Truthful(s, AskedIds(s)[k], answers[k], minter)
    ensures var verdicts := Verdicts(s, FoundBy(AskedIds(s), answers, minter));
            && |verdicts| == |answers|
            && forall k :: 0 <= k < |answers| ==>
                 && verdicts[k].id == AskedIds(s)[k]
                 && (verdicts[k].success <==> SolanaStatus.MintedBy(answers[k], minter))
  {
    hide MintSafety.Inv, Lane, Verdicts;
    var ids := AskedIds(s);
    var found := FoundBy(ids, answers, minter);
    SameAsked(s, {}, found);
    Lanes(s, queueSizeLimit);
    StartFindsFlight(s, {});
    assert |ids| <= 1;
    if |ids| == 1 {
      assert ids[0] in found <==> SolanaStatus.MintedBy(answers[0], minter);
      SuccessIs(s, found);
    }
  }

  lemma Lanes(s: State, queueSizeLimit: nat)
    requires MintSafety.Inv(s, queueSizeLimit)
    ensures SingleFlight(s) && forall t: TransportType :: LaneOf(s, t)
  {
    hide Lane, Ledger.Inv;
    SingleFlightOf(s);
  }

  lemma SameAsked(s: State, found: set<SolanaTxId>, found': set<SolanaTxId>)
    ensures |Verdicts(s, found)| == |Verdicts(s, found')|
    ensures forall k :: 0 <= k < |Verdicts(s, found)| ==> Verdicts(s, found)[k].id == Verdicts(s, found')[k].id
  {
  }

  lemma SuccessIs(s: State, found: set<SolanaTxId>)
    ensures forall v :: v in Verdicts(s, found) ==> (v.success <==> v.id in found && IsExecuted(s, v.id))
  {
  }

  // ---------- raw units ----------

  /** Raw units of a supply, with three decimals. */
  function Raw(supply: nat): nat {
    ToRaw(supply, Pow(10, 3))
  }

  /** The contract executes a pending transaction by comparing raw units, and adds raw units. For the queue and
      the airdrop this is always the landing of the protocol, and for premined supply as long as its raw units fit. */
  lemma RawLanding(s: State, queueSizeLimit: nat, id: SolanaTxId)
    requires MintSafety.Inv(s, queueSizeLimit) && IsPending(s, id)
    requires s.txs[id].kind.Premined? ==> Pow(10, 3) * End(s.db.premined) < TWO64
    ensures var tx := s.txs[id];
            var s' := Apply(s, Land(id), queueSizeLimit);
            && 0 <= s.chain.Get(tx.kind) && 0 <= tx.supply && 0 < tx.amount
            && (Raw(s.chain.Get(tx.kind)) == Raw(tx.supply) <==> IsExecuted(s', id))
            && (IsExecuted(s', id) ==> s'.chain.Get(tx.kind) == FromRaw(Raw(tx.supply) + Raw(tx.amount), Pow(10, 3)))
  {
    hide MintSafety.Inv, Lane, Pow, ToRaw;
    var tx := s.txs[id];
    RawFits(s, queueSizeLimit, id);
    RawMintIsTokenMint(s.chain.Get(tx.kind), tx.supply, tx.amount);
  }

  lemma RawFits(s: State, queueSizeLimit: nat, id: SolanaTxId)
    requires MintSafety.Inv(s, queueSizeLimit) && id in s.txs
    requires s.txs[id].kind.Premined? ==> Pow(10, 3) * End(s.db.premined) < TWO64
    ensures var tx := s.txs[id];
            && 0 <= s.chain.Get(tx.kind) && 0 <= tx.supply && 0 < tx.amount
            && Pow(10, 3) * s.chain.Get(tx.kind) < TWO64 && Pow(10, 3) * (tx.supply + tx.amount) < TWO64
  {
    hide MintSafety.Inv;
    var t := s.txs[id].kind;
    var rows, n := s.db.Table(t), s.db.Done(t);
    LaneHolds(s, queueSizeLimit, t);
    var i := MintTheorems.TxHasRow(s, queueSizeLimit, id);
    EndGrows(rows, i, i + 1);
    EndGrows(rows, 0, i);
    EndGrows(rows, i + 1, |rows|);
    EndGrows(rows, 0, n);
    EndGrows(rows, n, |rows|);
    if n < |rows| { EndGrows(rows, n + 1, |rows|); }
    ThousandFits(s, queueSizeLimit, t);
    TimesThousand(s.chain.Get(t), End(rows));
    TimesThousand(s.txs[id].supply + s.txs[id].amount, End(rows));
  }

  lemma TimesThousand(a: int, b: int)
    requires a <= b
    ensures Pow(10, 3) * a <= Pow(10, 3) * b
  {
    assert Pow(10, 3) == 10 * Pow(10, 2) == 10 * (10 * Pow(10, 1)) == 1000;
  }

  lemma ThousandFits(s: State, queueSizeLimit: nat, t: TransportType)
    requires MintSafety.Inv(s, queueSizeLimit)
    requires t.Premined? ==> Pow(10, 3) * End(s.db.premined) < TWO64
    ensures Pow(10, 3) * End(s.db.Table(t)) < TWO64
  {
    hide Lane, Orderly;
    assert Pow(10, 3) == 10 * Pow(10, 2) == 10 * (10 * Pow(10, 1)) == 1000;
  }
}
