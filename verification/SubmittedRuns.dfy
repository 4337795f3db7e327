/** From a ScPrime transaction to the tokens: what the server stores for it is a step of the protocol, and what
    is minted for a burn is what its own transaction says. */
module SubmittedRuns {
  import opened Common
  import opened Ledger
  import opened StorageSpec
  import opened QueueLock
  import opened ScpTransaction
  import opened Admission
  import opened MintProtocol
  import opened MintTheorems
  import opened BurnStatus
  import MintSafety
  import StatusRuns

  /** A submission that changes the ledger is a step of the protocol, with the record of the transaction. */
  lemma SubmissionIsStep(s: State, storage: Settings, settings: ServerSettings, c: Circumstances, burn: BurnId,
                         tx: Transaction, r: Result<Option<nat>>, db': Database)
    requires c.db == s.db && Outcome(storage, settings, c, burn, tx, r, db') && db' != s.db
    ensures exists u :: && IsRecordOf(u, burn, tx) && u.time == c.clock.2
                        && Enabled(s, Submit(u), storage.queueSizeLimit)
                        && Apply(s, Submit(u), storage.queueSizeLimit) == s.(db := db')
  {
    hide EarlyError, RecordFor, IsRecordOf, CanAdmit, Admit, Refusal;
    var u := RecordFor(settings, c, burn, tx);
    RecordIs(settings, c, burn, tx);
    NoHeight(u, burn, tx);
    assert Enabled(s, Submit(u), storage.queueSizeLimit);
  }

  lemma NoHeight(u: Ledger.Unconfirmed, burn: BurnId, tx: Transaction)
    requires IsRecordOf(u, burn, tx)
    ensures u.height.None?
  {
  }

  /** Every submission of the burn so far stored the record of this transaction, whose id the burn is. */
  predicate SubmittedFrom(steps: seq<Step>, j: nat, burn: BurnId, tx: Transaction)
    requires j <= |steps|
  {
    forall k :: 0 <= k < j && steps[k].Submit? && steps[k].u.burn == burn ==> IsRecordOf(steps[k].u, burn, tx)
  }

  lemma LastSubmission(states: seq<State>, steps: seq<Step>, queueSizeLimit: nat, j: nat, burn: BurnId)
    returns (i: nat)
    requires Run(states, steps, queueSizeLimit) && j < |states| && InfoOf(states[j].db, burn).Some?
    ensures i < j && steps[i].Submit? && steps[i].u.burn == burn
    ensures forall k :: i < k < j ==> !(steps[k].Submit? && steps[k].u.burn == burn)
  {
    hide Enabled, Apply, InfoOf;
    StatusRuns.KnownWasSubmitted(states, steps, queueSizeLimit, j, burn);
    var some :| 0 <= some < j && steps[some].Submit? && steps[some].u.burn == burn;
    i := LastBefore(steps, j, burn, some);
  }

  lemma {:induction false} LastBefore(steps: seq<Step>, j: nat, burn: BurnId, some: nat) returns (i: nat)
    requires some < j <= |steps| && steps[some].Submit? && steps[some].u.burn == burn
    ensures i < j && steps[i].Submit? && steps[i].u.burn == burn
    ensures forall k :: i < k < j ==> !(steps[k].Submit? && steps[k].u.burn == burn)
    decreases j
  {
    if steps[j - 1].Submit? && steps[j - 1].u.burn == burn {
      i := j - 1;
    } else {
      i := LastBefore(steps, j - 1, burn, some);
    }
  }

  /** A burn is minted to the address that its own transaction names, with the amount that this transaction sends to the
      burn address, from the premined or from the public supply. */
  lemma MintedToItsAddress(states: seq<State>, steps: seq<Step>, queueSizeLimit: nat, j: nat, burn: BurnId, tx: Transaction)
    requires Run(states, steps, queueSizeLimit) && j < |steps| && Mints(states, steps, j, burn)
    requires SubmittedFrom(steps, j, burn, tx)
    ensures var minted := states[j].txs[steps[j].id];
            && minted.amount == Burned(tx.outputs, BURN_ADDRESS)
            && exists i :: 0 <= i < |tx.arbitraryData| && HoldsFirst(tx.arbitraryData, i)
                           && minted.recipient == Number(ExtractSolanaAddress(tx.arbitraryData[i]).value)
  {
    hide MintSafety.Inv, InfoOf, HoldsFirst, Enabled, Apply;
    RunInvariant(states, steps, queueSizeLimit, j);
    StatusRuns.MintsWhatLedgerHolds(states[j], queueSizeLimit, steps[j].id);
    var i := LastSubmission(states, steps, queueSizeLimit, j, burn);
    StatusRuns.MintedAsSubmitted(states, steps, queueSizeLimit, i, j);
    assert IsRecordOf(steps[i].u, burn, tx);
  }
}
