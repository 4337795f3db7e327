/** The premined accounts over runs: when they stay in order, and what happens when they do not. */
module PreminedRuns {
  import opened Common
  import opened Tables
  import opened Ledger
  import opened MintProtocol
  import opened MintTheorems
  import MintSafety

  /** Every step but a removal keeps the accounts in order, and a removal of rows keeps them in
      order exactly if it lists no premined burn twice. */
  lemma StepKeepsAccountsIff(s: State, queueSizeLimit: nat, step: Step)
    requires MintSafety.Inv(s, queueSizeLimit) && Enabled(s, step, queueSizeLimit) && PreminedInv(s.db)
    requires step.RemoveBurns? ==> RowsOf(s.db, step.us)
    ensures PreminedInv(Apply(s, step, queueSizeLimit).db) <==> !(step.RemoveBurns? && RepeatsPremined(step.us))
  {
    hide MintSafety.Inv, PreminedInv, RepeatsPremined, Base;
    LedgerHolds(s, queueSizeLimit);
    match step
    case Submit(u) => AdmitKeepsInv(s.db, queueSizeLimit, u);
    case SetHeights(burns, height) => SetHeightsKeepsInv(s.db, queueSizeLimit, burns, height);
    case RemoveBurns(us) => RemovalKeepsPreminedIff(s.db, us);
    case ConfirmBurns(us) =>
      if ConfirmAll(s.db, us, s.now).Ok? {
        ConfirmAllNeedsFreshRows(s.db, us, s.now);
        ConfirmAllKeepsInv(s.db, queueSizeLimit, us, s.now);
      }
    case _ =>
      MintSafety.OtherStepsLeaveRequests(s, queueSizeLimit, step);
      PreminedTableKept(s.db, Apply(s, step, queueSizeLimit).db);
  }

  lemma LedgerHolds(s: State, queueSizeLimit: nat)
    requires MintSafety.Inv(s, queueSizeLimit)
    ensures Ledger.Inv(s.db, queueSizeLimit) && Base(s.db)
  {
  }

  /** The removal takes rows that are there, and no premined one twice. */
  predicate OrderlyRemoval(s: State, step: Step) {
    step.RemoveBurns? ==> RowsOf(s.db, step.us) && !RepeatsPremined(step.us)
  }

  predicate OrderlyRemovals(states: seq<State>, steps: seq<Step>, i: nat)
    requires i <= |steps| < |states|
  {
    forall k :: 0 <= k < i ==> OrderlyRemoval(states[k], steps[k])
  }

  /** In every run whose removals are orderly the accounts stay in order. */
  lemma {:induction false} RunKeepsAccounts(states: seq<State>, steps: seq<Step>, queueSizeLimit: nat, i: nat)
    requires Run(states, steps, queueSizeLimit) && i < |states| && OrderlyRemovals(states, steps, i)
    ensures PreminedInv(states[i].db)
  {
    hide MintSafety.Inv, Enabled, Apply, PreminedInv;
    if i == 0 {
      FreshInv(states[0].db, queueSizeLimit);
    } else {
      RunKeepsAccounts(states, steps, queueSizeLimit, i - 1);
      RunInvariant(states, steps, queueSizeLimit, i - 1);
      assert OrderlyRemoval(states[i - 1], steps[i - 1]);
      StepKeepsAccountsIff(states[i - 1], queueSizeLimit, steps[i - 1]);
    }
  }

  /** In such a run every address stays within its maximum, with everything it has unconfirmed, queued or minted. */
  lemma RunKeepsPreminedLimits(states: seq<State>, steps: seq<Step>, queueSizeLimit: nat, i: nat, source: UnlockHash)
    requires Run(states, steps, queueSizeLimit) && i < |states| && OrderlyRemovals(states, steps, i)
    requires source in states[i].db.limits
    ensures var db := states[i].db;
            && Sum(db.unconfirmed, OfSource(source)) + SumFrom(db.premined, source) <= db.limits[source].allowedMax
            && MintedRows(states[i], Premined) <= |db.premined|
            && SumFrom(db.premined[..MintedRows(states[i], Premined)], source) <= db.limits[source].allowedMax
  {
    hide MintSafety.Inv, Run;
    RunKeepsAccounts(states, steps, queueSizeLimit, i);
    RunInvariant(states, steps, queueSizeLimit, i);
    LedgerHolds(states[i], queueSizeLimit);
    MintedWithinLimits(states[i], queueSizeLimit, source);
  }

  // ---------- a run that exceeds a maximum ----------

  const LIMIT: nat := 100
  const SOURCE: UnlockHash := 5

  const Aged := Unconfirmed(1, 10, 7, Some(SOURCE), None, 0, Premined)
  const Young := Unconfirmed(2, 30, 7, Some(SOURCE), None, 0, Premined)
  const Late := Unconfirmed(3, 80, 7, Some(SOURCE), None, 0, Premined)

  function LedgerWith(us: seq<Unconfirmed>, transported: int): Database {
    EmptyDatabase.(unconfirmed := us, limits := map[SOURCE := Limit(100, transported, false)])
  }

  function Stopped(db: Database): State {
    State(db, Supply(0, 0, 0), map[], Down, 0)
  }

  const S0 := Stopped(LedgerWith([], 0))
  const S1 := Stopped(LedgerWith([Aged], 10))
  const S2 := Stopped(LedgerWith([Aged, Young], 40))
  const S3 := Stopped(LedgerWith([Young], 20))
  const S4 := Stopped(LedgerWith([Young, Late], 100))

  const STATES: seq<State> := [S0, S1, S2, S3, S4]
  const STEPS: seq<Step> := [Submit(Aged), Submit(Young), RemoveBurns([Aged, Aged]), Submit(Late)]

  lemma Submissions()
    ensures Enabled(S0, Submit(Aged), LIMIT) && S1 == Apply(S0, Submit(Aged), LIMIT)
    ensures Enabled(S1, Submit(Young), LIMIT) && S2 == Apply(S1, Submit(Young), LIMIT)
    ensures Enabled(S3, Submit(Late), LIMIT) && S4 == Apply(S3, Submit(Late), LIMIT)
  {
  }

  lemma FirstRemoval()
    ensures RemoveAll(LedgerWith([Aged, Young], 40), [Aged]) == LedgerWith([Young], 30)
  {
    var db := LedgerWith([Aged, Young], 40);
    assert RemoveAll(db, []) == db;
    assert [Aged][..0] == [];
    assert [Aged, Young][..1] == [Aged];
    assert Without([Aged], 1) == [];
    assert Without([Aged, Young], 1) == [Young];
  }

  lemma SecondRemoval()
    ensures RemoveOne(LedgerWith([Young], 30), Aged) == LedgerWith([Young], 20)
  {
    assert [Young][..0] == [];
    assert Without([Young], 1) == [Young];
  }

  lemma DoubledRemoval()
    ensures Enabled(S2, RemoveBurns([Aged, Aged]), LIMIT) && S3 == Apply(S2, RemoveBurns([Aged, Aged]), LIMIT)
  {
    assert RemoveAll(S2.db, [Aged, Aged]) == LedgerWith([Young], 20) by {
      hide RemoveOne;
      FirstRemoval();
      SecondRemoval();
      assert [Aged, Aged][..1] == [Aged];
    }
  }

  /** A removal list with a premined burn in it twice, as a read with a failed commit delivers it, lets the
      address burn more than its maximum. */
  lemma PreminedMaximumCanBeExceeded()
    ensures Run(STATES, STEPS, LIMIT) && !OrderlyRemovals(STATES, STEPS, 3)
    ensures !PreminedInv(STATES[3].db)
    ensures var db := STATES[4].db; Sum(db.unconfirmed, OfSource(SOURCE)) == 110 > db.limits[SOURCE].allowedMax
  {
    assert Run(STATES, STEPS, LIMIT) by {
      hide Enabled, Apply;
      Submissions();
      DoubledRemoval();
    }
    assert RepeatsPremined([Aged, Aged]) by {
      assert [Aged, Aged][0].burn == [Aged, Aged][1].burn;
    }
    assert !OrderlyRemoval(STATES[2], STEPS[2]);
    assert [Young, Late][..1] == [Young] && [Young][..0] == [];
    assert Sum([Young], OfSource(SOURCE)) == 30;
    assert SumFrom(STATES[3].db.premined, SOURCE) == 0;
  }
}
