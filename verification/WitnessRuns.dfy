/** Runs of the protocol, step by step: one in which TxStatus fails on a transaction that executed, and one in
    which a transaction lands after it was given up and replaced. Both times a mint is lost to the ledger. */
module WitnessRuns {
  import opened Common
  import opened Tables
  import opened Ledger
  import opened Emission
  import opened MintProtocol
  import opened MintTheorems
  import opened Agreement
  import opened BurnStatus
  import MintSafety

  const LIMIT: nat := 10

  /** A minute after emission started. */
  const NOW: Time := EMISSION_START + MINUTE

  const Burn := Ledger.Unconfirmed(1, 10, 7, None, None, 0, Regular)
  const Measured := Burn.(height := Some(5))
  const Unminted := Row(1, 7, None, 10, None, 0, Some(NOW), None)
  const Req := Request(Regular, 1, 7, 10, 0)
  const Broadcast := SolanaRow(NOW, None, false)

  const Submitted := EmptyDatabase.(unconfirmed := [Burn])
  const HeightKnown := EmptyDatabase.(unconfirmed := [Measured])
  const Confirmed := EmptyDatabase.(queue := [Unminted])
  const FirstSaved := EmptyDatabase.(queue := [Unminted.(solanaId := Some(0))], solana := map[0 := Broadcast])
  const SecondSaved :=
    EmptyDatabase.(queue := [Unminted.(solanaId := Some(1))], solana := map[0 := Broadcast, 1 := Broadcast])
  const Forgotten := EmptyDatabase.(queue := [Unminted], solana := map[0 := Broadcast, 1 := Broadcast])

  function At(db: Database, proc: Proc): State {
    State(db, Supply(0, 0, 0), map[], proc, NOW)
  }

  function Sent(status: TxStatus): map<SolanaTxId, MintTx> {
    map[0 := TxFor(Req).(status := status)]
  }

  function BothSent(first: TxStatus, second: TxStatus): map<SolanaTxId, MintTx> {
    map[0 := TxFor(Req).(status := first), 1 := TxFor(Req).(status := second)]
  }

  function MintingAt(db: Database, txs: map<SolanaTxId, MintTx>, phase: Phase): State {
    State(db, Supply(0, 0, 0), txs, Minting([Req], phase), NOW)
  }

  /** The contract minted the burn. */
  function MintedAt(db: Database, txs: map<SolanaTxId, MintTx>, proc: Proc): State {
    State(db, Supply(0, 0, 10), txs, proc, NOW)
  }

  // ---------- up to a transaction that is sent ----------

  const S0 := At(EmptyDatabase, Down)
  const S1 := At(EmptyDatabase, Recovering([]))
  const S2 := At(EmptyDatabase, Comparing)
  const S3 := At(EmptyDatabase, Idle)
  const S4 := At(Submitted, Idle)
  const S5 := At(HeightKnown, Idle)
  const S6 := At(Confirmed, Idle)
  const S7 := At(Confirmed, Gathering([], []))
  const S8 := At(Confirmed, Gathering([Premined], []))
  const S9 := At(Confirmed, Gathering([Premined, Airdrop], []))
  const S10 := At(Confirmed, Gathering([Premined, Airdrop, Regular], [Req]))
  const S11 := MintingAt(Confirmed, map[], Build)
  const S12 := MintingAt(Confirmed, Sent(Unsent), Save(0))
  const S13 := MintingAt(FirstSaved, Sent(Unsent), Send(0))
  const S14 := MintingAt(FirstSaved, Sent(Pending), Await(0))

  const STATES: seq<State> := [S0, S1, S2, S3, S4, S5, S6, S7, S8, S9, S10, S11, S12, S13, S14]

  const STEPS: seq<Step> := [
    Start({}), RecoveryDone, Compare,
    Submit(Burn), SetHeights([1], 5), ConfirmBurns([Measured]),
    BeginMints, ReadUncompleted(Premined), ReadUncompleted(Airdrop), ReadUncompleted(Regular), RunMints,
    BuildTx(0), SaveTx, SendTx
  ]

  predicate Leads(s: State, step: Step, s': State) {
    Enabled(s, step, LIMIT) && s' == Apply(s, step, LIMIT)
  }

  lemma Startup()
    ensures Leads(S0, Start({}), S1) && Leads(S1, RecoveryDone, S2) && Leads(S2, Compare, S3)
  {
    assert Verdicts(S0, {}) == [];
  }

  lemma Burning()
    ensures Leads(S3, Submit(Burn), S4)
  {
    assert !Known(EmptyDatabase, 1);
    assert Admit(EmptyDatabase, Burn) == Submitted;
  }

  lemma Measuring()
    ensures Leads(S4, SetHeights([1], 5), S5)
  {
    assert [1][..0] == [];
    assert Ledger.SetHeights([Burn], [], 5) == [Burn];
    assert SetHeight([Burn], 1, 5) == [Measured];
  }

  lemma Confirming()
    ensures Leads(S5, ConfirmBurns([Measured]), S6)
  {
    assert SelectMax(HeightKnown.queue, AnyRow, HeightKnown.solana) == 0;
    assert TransportRow(Measured, 0, NOW) == Unminted;
    assert InsertAllowed(HeightKnown.queue, Unminted);
    assert Without([Measured], 1) == [];
    assert HeightKnown.WithTable(Regular, [] + [Unminted]) == HeightKnown.(queue := [Unminted]);
    assert InsertTransport(HeightKnown, Measured, 0, NOW) == Ok(HeightKnown.(queue := [Unminted]));
    assert ConfirmOne(HeightKnown, Measured, NOW) == Ok(Confirmed);
    assert [Measured][..0] == [];
    assert ConfirmAll(HeightKnown, [], NOW) == Ok(HeightKnown);
    assert ConfirmAll(HeightKnown, [Measured], NOW) == Ok(Confirmed);
  }

  lemma Reads()
    ensures Uncompleted(S7, Premined) == []
    ensures Uncompleted(S8, Airdrop) == []
    ensures Uncompleted(S9, Regular) == [Req]
  {
    assert SelectUncompleted([], None) == [];
    var bound := Some(AllowedSupply(NOW));
    NowAllows();
    assert Unrecorded([Unminted], bound) == [Unminted];
    assert OrderByAfter([Unminted]) == [Unminted];
    assert ToRequest(Regular, Unminted) == Req;
  }

  lemma NowAllows()
    ensures AllowedSupply(NOW) > 10
  {
  }

  lemma Gathers()
    ensures Leads(S6, BeginMints, S7) && Leads(S10, RunMints, S11)
  {
  }

  lemma ReadsPremined()
    ensures Leads(S7, ReadUncompleted(Premined), S8)
  {
    hide Uncompleted;
    Reads();
    var none: seq<Request> := [];
    assert none + none == none;
    assert [] + [Premined] == [Premined];
  }

  lemma ReadsAirdrop()
    ensures Leads(S8, ReadUncompleted(Airdrop), S9)
  {
    hide Uncompleted;
    Reads();
    var none: seq<Request> := [];
    assert none + none == none;
    assert [Premined] + [Airdrop] == [Premined, Airdrop];
  }

  lemma ReadsQueue()
    ensures Leads(S9, ReadUncompleted(Regular), S10)
  {
    hide Uncompleted;
    Reads();
    var none: seq<Request> := [];
    assert none + [Req] == [Req];
    assert [Premined, Airdrop] + [Regular] == [Premined, Airdrop, Regular];
  }

  lemma FirstSending()
    ensures Leads(S11, BuildTx(0), S12) && Leads(S12, SaveTx, S13) && Leads(S13, SendTx, S14)
  {
    assert SetSolanaId([Unminted], 1, Some(0)) == FirstSaved.queue;
    assert AddSolana(Confirmed, 1, Regular, 0, NOW) == Ok(FirstSaved);
  }

  /** Every step is enabled and leads to the next state. */
  lemma AllLead(i: nat)
    requires i < 14
    ensures Leads(STATES[i], STEPS[i], STATES[i + 1])
  {
    hide Leads;
    Startup();
    Burning();
    Measuring();
    Confirming();
    Gathers();
    ReadsPremined();
    ReadsAirdrop();
    ReadsQueue();
    FirstSending();
  }

  lemma StatesRun()
    ensures Run(STATES, STEPS, LIMIT)
  {
    hide Leads;
    forall i: nat | i < |STEPS|
      ensures Leads(STATES[i], STEPS[i], STATES[i + 1])
    {
      AllLead(i);
    }
    TheyRun(STATES, STEPS);
  }

  lemma TheyRun(states: seq<State>, steps: seq<Step>)
    requires |states| == |steps| + 1 && states[0] == S0
    requires forall i: nat :: i < |steps| ==> Leads(states[i], steps[i], states[i + 1])
    ensures Run(states, steps, LIMIT)
  {
    hide Enabled, Apply;
    forall i | 0 <= i < |steps|
      ensures Enabled(states[i], steps[i], LIMIT) && states[i + 1] == Apply(states[i], steps[i], LIMIT)
    {
      var k: nat := i;
      assert Leads(states[k], steps[k], states[k + 1]);
    }
  }

  // ---------- a burn that is missed ----------

  /** A burn is submitted, its height recorded, and it is confirmed between the two lookups of TransportStatus: the answer
      is that there is no such burn, though the ledger knew it all the time. */
  lemma MissedIsReachable()
    ensures Run(STATES, STEPS, LIMIT)
    ensures Known(STATES[5].db, 1) && Known(STATES[6].db, 1)
    ensures TwoLookups(STATES[5].db, STATES[6].db, 1) == NotFound
    ensures StatusOf(STATES[5].db, 1) == Status.Unconfirmed && StatusOf(STATES[6].db, 1) == InTheQueue
  {
    hide Run;
    StatesRun();
    assert STATES[5].db == HeightKnown && STATES[6].db == Confirmed;
    assert 1 in Burns(HeightKnown.unconfirmed) by { assert HeightKnown.unconfirmed[0] == Measured; }
    assert 1 in RowBurns(Confirmed.Table(Regular)) by { assert Confirmed.queue[0] == Unminted; }
    LookupNone(HeightKnown, 1);
    FindUnconfirmedIs(HeightKnown.unconfirmed, 1);
    FindUnconfirmedIs(Confirmed.unconfirmed, 1);
    FindRowIs(Confirmed.queue, 1);
    FindRowIs(Confirmed.premined, 1);
  }

  // ---------- a failed status lookup ----------

  const L15 := MintedAt(FirstSaved, Sent(Executed), Minting([Req], Await(0)))
  const L16 := MintedAt(FirstSaved, Sent(Executed), Minting([Req], Check(0)))
  const L17 := MintedAt(FirstSaved, Sent(Executed), Minting([Req], Build))
  const L18 := MintedAt(FirstSaved, BothSent(Executed, Unsent), Minting([Req], Save(1)))
  const L19 := MintedAt(SecondSaved, BothSent(Executed, Unsent), Minting([Req], Send(1)))

  const LOSS_STATES := STATES + [L15, L16, L17, L18, L19]
  const LOSS_STEPS := STEPS + [Land(0), SendFails, StatusFails, BuildTx(1), SaveTx]

  lemma LosesMint()
    ensures Leads(S14, Land(0), L15) && Leads(L15, SendFails, L16) && Leads(L16, StatusFails, L17)
    ensures Leads(L17, BuildTx(1), L18) && Leads(L18, SaveTx, L19)
  {
    assert SetSolanaId(FirstSaved.queue, 1, Some(1)) == SecondSaved.queue;
    assert AddSolana(FirstSaved, 1, Regular, 1, NOW) == Ok(SecondSaved);
  }

  /** Disagreement between ledger and contract is reachable: TxStatus has to fail once. */
  lemma LossIsReachable()
    ensures Run(LOSS_STATES, LOSS_STEPS, LIMIT)
    ensures Slips(LOSS_STATES[16], LOSS_STEPS[16]) && NothingLost(LOSS_STATES[18]) && !NothingLost(LOSS_STATES[19])
  {
    hide Leads, Slips, NothingLost, Run;
    forall i: nat | i < |LOSS_STEPS|
      ensures Leads(LOSS_STATES[i], LOSS_STEPS[i], LOSS_STATES[i + 1])
    {
      if i < 14 { AllLead(i); } else { LosesMint(); }
    }
    TheyRun(LOSS_STATES, LOSS_STEPS);
    assert LOSS_STATES[16] == L16 && LOSS_STATES[18] == L18 && LOSS_STATES[19] == L19;
    LossAt();
  }

  lemma LossAt()
    ensures Slips(L16, StatusFails) && NothingLost(L18) && !NothingLost(L19)
  {
    assert MintSafety.LostAt(L19, Regular);
  }

  // ---------- a late landing ----------

  const T15 := MintingAt(FirstSaved, Sent(Pending), Check(0))
  const T16 := MintingAt(FirstSaved, Sent(Pending), Build)
  const T17 := MintingAt(FirstSaved, BothSent(Pending, Unsent), Save(1))
  const T18 := MintingAt(SecondSaved, BothSent(Pending, Unsent), Send(1))
  const T19 := MintingAt(SecondSaved, BothSent(Pending, Pending), Await(1))
  const T20 := MintedAt(SecondSaved, BothSent(Executed, Pending), Minting([Req], Await(1)))
  const T21 := MintedAt(SecondSaved, BothSent(Executed, Failed), Minting([Req], Await(1)))
  const T22 := MintedAt(SecondSaved, BothSent(Executed, Failed), Down)
  const T23 := MintedAt(SecondSaved, BothSent(Executed, Failed), Recovering([Verdict(Regular, 1, 1, false)]))
  const T24 := MintedAt(Forgotten, BothSent(Executed, Failed), Recovering([]))
  const T25 := MintedAt(Forgotten, BothSent(Executed, Failed), Comparing)
  const T26 := MintedAt(Forgotten, BothSent(Executed, Failed), Refused)

  const LATE_STATES := STATES + [T15, T16, T17, T18, T19, T20, T21, T22, T23, T24, T25, T26]
  const LATE_STEPS := STEPS + [
    SendFails, StatusKnown(false), BuildTx(1), SaveTx, SendTx, Land(0), Land(1),
    Crash, Start({0, 1}), RecoverNext, RecoveryDone, Compare
  ]

  lemma GivesUp()
    ensures Leads(S14, SendFails, T15) && Leads(T15, StatusKnown(false), T16) && Leads(T16, BuildTx(1), T17)
    ensures Leads(T17, SaveTx, T18) && Leads(T18, SendTx, T19)
  {
    assert SetSolanaId(FirstSaved.queue, 1, Some(1)) == SecondSaved.queue;
    assert AddSolana(FirstSaved, 1, Regular, 1, NOW) == Ok(SecondSaved);
  }

  lemma BothLand()
    ensures Leads(T19, Land(0), T20) && Leads(T20, Land(1), T21)
  {
  }

  lemma StopsAndStarts()
    ensures Leads(T21, Crash, T22) && Leads(T22, Start({0, 1}), T23)
  {
    hide Verdicts;
    FindsSecond();
  }

  lemma FindsSecond()
    ensures Verdicts(T22, {0, 1}) == [Verdict(Regular, 1, 1, false)]
  {
    assert SelectInFlight(SecondSaved.queue, SecondSaved.solana) == SecondSaved.queue;
  }

  lemma Forgets()
    ensures Leads(T23, RecoverNext, T24)
  {
    assert SetSolanaId(SecondSaved.queue, 1, None) == Forgotten.queue;
    assert RemoveSolana(SecondSaved, 1, Regular) == Forgotten;
    assert [Verdict(Regular, 1, 1, false)][1..] == [];
  }

  lemma Refuses()
    ensures Leads(T24, RecoveryDone, T25) && Leads(T25, Compare, T26)
  {
    NothingConfirmed();
  }

  lemma NothingConfirmed()
    ensures ConfirmedSupply(Forgotten) == Supply(0, 0, 0)
  {
    assert [Unminted][..0] == [];
    assert MaxAfter([Unminted], IsCompleted, Forgotten.solana).None?;
  }

  /** The first transaction is given up while it can still land, the second is recorded and sent, and then both land, the
      first one first: it mints and the second is refused. The id that minted was overwritten, so that ledger and
      contract are apart, and after the next crash the server does not start. */
  lemma LateLanding()
    ensures Run(LATE_STATES, LATE_STEPS, LIMIT)
    ensures IsPending(LATE_STATES[19], 0) && IsPending(LATE_STATES[19], 1)
            && LATE_STATES[19].txs[0].burn == LATE_STATES[19].txs[1].burn == 1
    ensures Mints(LATE_STATES, LATE_STEPS, 19, 1) && !Mints(LATE_STATES, LATE_STEPS, 20, 1)
    ensures 1 in LATE_STATES[21].txs && LATE_STATES[21].txs[1].status.Failed?
    ensures Slips(LATE_STATES[15], LATE_STEPS[15])
    ensures Dropped(LATE_STATES, 18, 0) && !IsExecuted(LATE_STATES[19], 0) && IsExecuted(LATE_STATES[20], 0)
    ensures NothingLost(LATE_STATES[19]) && !NothingLost(LATE_STATES[20])
    ensures LATE_STATES[25].chain != ConfirmedSupply(LATE_STATES[25].db) && LATE_STATES[26].proc == Refused
  {
    hide NothingLost, Slips, IsRecorded, Run;
    LateRun();
    LateStates();
    LateAt();
    Lands();
    assert Dropped(LATE_STATES, 18, 0) by {
      assert IsRecorded(LATE_STATES[17].db, 0) && !IsRecorded(LATE_STATES[18].db, 0);
    }
  }

  lemma LateStates()
    ensures |LATE_STATES| == 27 && |LATE_STEPS| == 26
    ensures LATE_STATES[15] == T15 && LATE_STATES[17] == T17 && LATE_STATES[18] == T18 && LATE_STATES[19] == T19
    ensures LATE_STATES[20] == T20 && LATE_STATES[21] == T21 && LATE_STATES[25] == T25 && LATE_STATES[26] == T26
    ensures LATE_STEPS[15] == StatusKnown(false) && LATE_STEPS[19] == Land(0) && LATE_STEPS[20] == Land(1)
  {
  }

  lemma LateRun()
    ensures Run(LATE_STATES, LATE_STEPS, LIMIT)
  {
    hide Leads, Run;
    forall i: nat | i < |LATE_STEPS|
      ensures Leads(LATE_STATES[i], LATE_STEPS[i], LATE_STATES[i + 1])
    {
      if i < 14 { AllLead(i); } else { LatePart(i); }
    }
    TheyRun(LATE_STATES, LATE_STEPS);
  }

  lemma LatePart(i: nat)
    requires 14 <= i < 26
    ensures Leads(LATE_STATES[i], LATE_STEPS[i], LATE_STATES[i + 1])
  {
    hide Leads;
    GivesUp();
    BothLand();
    StopsAndStarts();
    Forgets();
    Refuses();
  }

  lemma Lands()
    ensures Mints(LATE_STATES, LATE_STEPS, 19, 1) && !Mints(LATE_STATES, LATE_STEPS, 20, 1)
  {
    LateStates();
  }

  lemma LateAt()
    ensures Slips(T15, StatusKnown(false)) && NothingLost(T19) && !NothingLost(T20)
    ensures IsRecorded(T17.db, 0) && !IsRecorded(T18.db, 0)
    ensures IsPending(T19, 0) && IsPending(T19, 1) && T19.txs[0].burn == T19.txs[1].burn == 1
    ensures !IsExecuted(T19, 0) && IsExecuted(T20, 0) && T21.txs[1].status.Failed? && T26.proc == Refused
    ensures T25.chain != ConfirmedSupply(T25.db)
  {
    assert MintSafety.LostAt(T20, Regular);
    assert T17.db.Table(Regular)[0].solanaId == Some(0);
    NothingConfirmed();
  }
}
