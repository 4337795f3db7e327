/** What becomes of minting when the commit of a read fails: the closure runs again and appends to
    the same list, so that processMints works through requests it has completed already. */
module RetriedReads {
  import opened Common
  import opened Tables
  import opened Ledger
  import opened Emission
  import opened StorageSpec
  import opened LoopSpec
  import opened MintProtocol
  import opened MintSafety
  import opened ServerRefinement
  import opened BurnStatus
  import MintTheorems
  import StatusRuns

  predicate Reading(s: State, t: TransportType) {
    s.proc.Gathering? && |s.proc.read| < 3 && t == READ_ORDER[|s.proc.read|]
  }

  /** A read that went through after `n` attempts whose commit failed. */
  function Reread(s: State, t: TransportType, n: nat): State
    requires s.proc.Gathering?
  {
    s.(proc := Gathering(s.proc.read + [t], s.proc.work + Repeat(Uncompleted(s, t), n + 1)))
  }

  lemma RereadOnce(s: State, t: TransportType, queueSizeLimit: nat)
    requires Reading(s, t)
    ensures Enabled(s, ReadUncompleted(t), queueSizeLimit) && Reread(s, t, 0) == Apply(s, ReadUncompleted(t), queueSizeLimit)
  {
    var reqs := Uncompleted(s, t);
    assert Repeat(reqs, 1) == [] + reqs == reqs;
  }

  // ---------- what may be lost ----------

  /** Of the burn that is completed after the first steps, the others take the completion back. */
  predicate Undone(s: State, first: seq<Step>, rest: seq<Step>, burn: BurnId, queueSizeLimit: nat) {
    && CanRun(s, first, queueSizeLimit)
    && var s' := After(s, first, queueSizeLimit);
    && CanRun(s', rest, queueSizeLimit)
    && StatusOf(s'.db, burn).Completed?
    && !StatusOf(After(s', rest, queueSizeLimit).db, burn).Completed?
  }

  /** Whatever steps follow, completed burns stay completed. */
  ghost predicate CompletedIsKept(s: State, queueSizeLimit: nat) {
    forall first, rest, burn :: !Undone(s, first, rest, burn, queueSizeLimit)
  }

  /** The completed prefix of the chain is shorter after the other steps. */
  predicate Shrinks(s: State, first: seq<Step>, rest: seq<Step>, t: TransportType, queueSizeLimit: nat) {
    && CanRun(s, first, queueSizeLimit)
    && var s' := After(s, first, queueSizeLimit);
    && CanRun(s', rest, queueSizeLimit)
    && After(s', rest, queueSizeLimit).db.Done(t) < s'.db.Done(t)
  }

  ghost predicate PrefixIsKept(s: State, queueSizeLimit: nat) {
    forall first, rest, t: TransportType :: !Shrinks(s, first, rest, t, queueSizeLimit)
  }

  /** Completed rows are a prefix of each chain, and at most the next row carries an id. */
  predicate InOrder(db: Database) {
    forall t: TransportType :: Orderly(db.Table(t), db.solana, db.Done(t))
  }

  ghost predicate OrderIsKept(s: State, queueSizeLimit: nat) {
    forall steps :: CanRun(s, steps, queueSizeLimit) ==> InOrder(After(s, steps, queueSizeLimit).db)
  }

  // ---------- without repetition ----------

  lemma {:induction false} CompletedStays(s: State, steps: seq<Step>, burn: BurnId, queueSizeLimit: nat)
    requires MintSafety.Inv(s, queueSizeLimit) && CanRun(s, steps, queueSizeLimit) && StatusOf(s.db, burn).Completed?
    ensures StatusOf(After(s, steps, queueSizeLimit).db, burn).Completed?
    decreases |steps|
  {
    hide MintSafety.Inv, Enabled, Apply, StatusOf;
    if steps != [] {
      StepKeepsInv(s, queueSizeLimit, steps[0]);
      StatusRuns.StepMovesStatus(s, queueSizeLimit, steps[0], burn);
      CompletedStays(Apply(s, steps[0], queueSizeLimit), steps[1..], burn, queueSizeLimit);
    }
  }

  lemma {:induction false} PrefixStays(s: State, steps: seq<Step>, t: TransportType, queueSizeLimit: nat)
    requires MintSafety.Inv(s, queueSizeLimit) && CanRun(s, steps, queueSizeLimit)
    ensures s.db.Done(t) <= After(s, steps, queueSizeLimit).db.Done(t)
    decreases |steps|
  {
    hide MintSafety.Inv, Enabled, Apply;
    if steps != [] {
      StepKeepsInv(s, queueSizeLimit, steps[0]);
      StatusRuns.StepKeepsTables(s, queueSizeLimit, steps[0], t);
      PrefixStays(Apply(s, steps[0], queueSizeLimit), steps[1..], t, queueSizeLimit);
    }
  }

  lemma InvKeepsAll(s: State, queueSizeLimit: nat)
    requires MintSafety.Inv(s, queueSizeLimit)
    ensures CompletedIsKept(s, queueSizeLimit) && PrefixIsKept(s, queueSizeLimit) && OrderIsKept(s, queueSizeLimit)
  {
    hide MintSafety.Inv, CanRun, After, StatusOf, InOrder;
    forall first, rest, t: TransportType
      ensures !Shrinks(s, first, rest, t, queueSizeLimit)
    {
      if CanRun(s, first, queueSizeLimit) && CanRun(After(s, first, queueSizeLimit), rest, queueSizeLimit) {
        MintTheorems.PathInvariant(s, first, queueSizeLimit);
        PrefixStays(After(s, first, queueSizeLimit), rest, t, queueSizeLimit);
      }
    }
    forall first, rest, burn
      ensures !Undone(s, first, rest, burn, queueSizeLimit)
    {
      if Undone(s, first, rest, burn, queueSizeLimit) {
        MintTheorems.PathInvariant(s, first, queueSizeLimit);
        CompletedStays(After(s, first, queueSizeLimit), rest, burn, queueSizeLimit);
        assert false;
      }
    }
    forall steps | CanRun(s, steps, queueSizeLimit)
      ensures InOrder(After(s, steps, queueSizeLimit).db)
    {
      MintTheorems.PathInvariant(s, steps, queueSizeLimit);
      InvIsInOrder(After(s, steps, queueSizeLimit), queueSizeLimit);
    }
  }

  lemma InvIsInOrder(s: State, queueSizeLimit: nat)
    requires MintSafety.Inv(s, queueSizeLimit)
    ensures InOrder(s.db)
  {
  }

  // ---------- minting the first requests ----------

  lemma {:induction false} Bounded(used: set<nat>) returns (bound: nat)
    ensures forall x :: x in used ==> x < bound
    decreases |used|
  {
    bound := 0;
    if used != {} {
      var x :| x in used;
      var rest := Bounded(used - {x});
      bound := if x < rest then rest else x + 1;
      assert forall y :: y in used ==> y == x || y in used - {x};
    }
  }

  lemma FreshId(s: State) returns (id: SolanaTxId)
    ensures id !in s.txs && id !in s.db.solana
  {
    id := Bounded(s.txs.Keys + s.db.solana.Keys);
    assert id !in s.txs.Keys + s.db.solana.Keys;
  }

  function FirstOnes(work: seq<Request>, k: nat): Proc
    requires k <= |work|
  {
    if k == 0 then Idle else Minting(work[..k], Build)
  }

  /** No mint of the kind of any of these requests is lost to the ledger. */
  predicate Unblocked(s: State, work: seq<Request>) {
    forall req :: req in work ==> !LostAt(s, req.kind)
  }

  /** The first `k` requests are work in order that nothing blocks, and nothing is in flight. */
  ghost predicate CleanUpTo(s: State, k: nat, queueSizeLimit: nat) {
    && s.proc.Minting? && s.proc.phase.Build? && k < |s.proc.work|
    && MintSafety.Inv(s.(proc := FirstOnes(s.proc.work, k)), queueSizeLimit)
    && Grounded(s) && Unblocked(s, s.proc.work[..k])
  }

  /** The first `k` requests are completed. */
  ghost predicate Progress(s: State, s': State, k: nat, queueSizeLimit: nat) {
    && s.proc.Minting? && k < |s.proc.work|
    && s'.proc == Minting(s.proc.work[k..], Build)
    && s'.db.unconfirmed == s.db.unconfirmed
    && forall t: TransportType ::
         && SameButIds(s.db.Table(t), s'.db.Table(t))
         && s'.db.Done(t) == s.db.Done(t) + Count(s.proc.work[..k], t)
  }

  lemma NamesSupply(s: State, queueSizeLimit: nat)
    requires MintSafety.Inv(s, queueSizeLimit) && InPhase(s) && Grounded(s) && !LostAt(s, s.proc.work[0].kind)
    ensures s.chain.Get(s.proc.work[0].kind) == s.proc.work[0].totalSupply
    ensures var req := s.proc.work[0]; s.db.Done(req.kind) < |s.db.Table(req.kind)|
                                       && MintLanes.BuiltFor(s.db.Table(req.kind), s.db.Done(req.kind), TxFor(req))
    ensures Ledger.Inv(s.db, queueSizeLimit)
  {
    hide MintLanes.Lane, Ledger.Inv;
    assert LaneOf(s, s.proc.work[0].kind);
    RequestIsFront(s);
    SupplyWhere(s, s.proc.work[0].kind);
  }

  lemma SupplyWhere(s: State, t: TransportType)
    requires LaneOf(s, t) && Grounded(s) && !LostAt(s, t)
    ensures s.chain.Get(t) == EndAt(s.db.Table(t), s.db.Done(t))
  {
    assert FlightOf(s, t).None?;
  }

  /** After a mint is completed nothing is lost that was not before. */
  lemma MintLosesNothing(s: State, s': State, t: TransportType)
    requires Grounded(s) && Chain(s'.db.Table(t)) && s.db.Done(t) < |s.db.Table(t)|
    requires forall u: TransportType ::
               && SameButIds(s.db.Table(u), s'.db.Table(u))
               && s'.db.Done(u) == s.db.Done(u) + (if u == t then 1 else 0)
               && s'.chain.Get(u) == if u == t then s.db.Table(u)[s.db.Done(u)].supplyAfter else s.chain.Get(u)
    ensures forall u: TransportType :: !LostAt(s, u) ==> !LostAt(s', u)
  {
    assert SameButIds(s.db.Table(t), s'.db.Table(t));
    if s'.db.Done(t) < |s'.db.Table(t)| {
      assert Link(s'.db.Table(t), s'.db.Done(t));
    }
    forall u: TransportType
      ensures LostAt(s', u) ==> LostAt(s, u)
    {
      assert SameButIds(s.db.Table(u), s'.db.Table(u)) && FlightOf(s, u).None?;
    }
  }

  lemma GroundedAfter(s: State, queueSizeLimit: nat, db': Database, t: TransportType)
    requires Ledger.Inv(s.db, queueSizeLimit) && Grounded(s) && OnlyFrontChanged(s.db, db', t)
    requires forall u: TransportType :: db'.Done(u) == s.db.Done(u) + (if u == t then 1 else 0)
    ensures Grounded(s.(db := db'))
    ensures forall u: TransportType :: SameButIds(s.db.Table(u), db'.Table(u))
  {
    hide Ledger.Inv;
    var s' := s.(db := db');
    forall u: TransportType
      ensures FlightOf(s', u).None? && SameButIds(s.db.Table(u), db'.Table(u))
    {
      SolanaTableIs(s.db, queueSizeLimit, u);
      SameButIdsSelf(s.db.Table(u));
      assert FlightOf(s, u).None?;
    }
  }

  lemma MintOne(s: State, k: nat, id: SolanaTxId, queueSizeLimit: nat)
    requires k > 0 && CleanUpTo(s, k, queueSizeLimit) && id !in s.txs && id !in s.db.solana
    ensures var steps := [BuildTx(id), SaveTx, SendTx, Land(id), SendConfirmed, MarkConfirmed];
            && CanRun(s, steps, queueSizeLimit)
            && var s' := After(s, steps, queueSizeLimit);
            && Progress(s, s', 1, queueSizeLimit)
            && CleanUpTo(s', k - 1, queueSizeLimit)
  {
    hide MintSafety.Inv, Ledger.Inv, CanRun, After, Grounded, OnlyFrontChanged, WithRecorded, ConfirmSolana, SameButIds,
         PreminedInv, LostAt, MintLanes.BuiltFor;
    var steps := [BuildTx(id), SaveTx, SendTx, Land(id), SendConfirmed, MarkConfirmed];
    var work := s.proc.work;
    var req, s0 := work[0], s.(proc := FirstOnes(work, k));
    SameGround(s, s0.proc);
    SameLosses(s, s0.proc);
    assert work[..k][0] == work[0];
    NamesSupply(s0, queueSizeLimit);
    ReadyIsFront(s0, queueSizeLimit, req);
    MintRuns(s, queueSizeLimit, id);
    MintRuns(s0, queueSizeLimit, id);
    MintTheorems.PathInvariant(s0, steps, queueSizeLimit);
    var s1, s2 := After(s, steps, queueSizeLimit), After(s0, steps, queueSizeLimit);
    AttemptIs(s.db, queueSizeLimit, req, Attempt.Minted(id, 0), s.now);
    assert AttemptEffect(s.db, req, Attempt.Minted(id, 0), s.now) == (s1.db, true);
    GroundedAfter(s, queueSizeLimit, s1.db, req.kind);
    SameGround(s.(db := s1.db), s1.proc);
    NoFlights(s, req.kind);
    assert work[..k][1..] == work[1..][..k - 1];
    assert s2 == s1.(proc := FirstOnes(work[1..], k - 1));
    OnlyOne(work);
    SameGroundAs(s.(db := s1.db), s1);
    MintedRequest(s, s1, queueSizeLimit, req);
    SameUnconfirmed(s.db, req, id, s.now);
    assert forall r :: r in work[1..][..k - 1] ==> r in work[..k];
  }

  lemma MintedRequest(s: State, s': State, queueSizeLimit: nat, req: Request)
    requires Grounded(s) && Ledger.Inv(s'.db, queueSizeLimit)
    requires s.db.Done(req.kind) < |s.db.Table(req.kind)|
             && MintLanes.BuiltFor(s.db.Table(req.kind), s.db.Done(req.kind), TxFor(req))
    requires s.chain.Get(req.kind) == req.totalSupply && s'.chain == s.chain.With(req.kind, req.totalSupply + req.amount)
    requires forall u: TransportType ::
               && SameButIds(s.db.Table(u), s'.db.Table(u))
               && s'.db.Done(u) == s.db.Done(u) + (if u == req.kind then 1 else 0)
    ensures forall u: TransportType :: !LostAt(s, u) ==> !LostAt(s', u)
  {
    hide Orderly, SameButIds, Grounded;
    assert Chain(s'.db.Table(req.kind)) by { assert ChainInv(s'.db); }
    MintLosesNothing(s, s', req.kind);
  }

  lemma SameLosses(s: State, proc: Proc)
    ensures forall t: TransportType :: LostAt(s.(proc := proc), t) <==> LostAt(s, t)
  {
  }

  lemma SameUnconfirmed(db: Database, req: Request, id: SolanaTxId, now: Time)
    ensures ConfirmSolana(WithRecorded(db, req.burn, req.kind, id, now), id, now).unconfirmed == db.unconfirmed
  {
  }

  lemma SameGround(s: State, proc: Proc)
    ensures Grounded(s) <==> Grounded(s.(proc := proc))
  {
    assert forall t: TransportType :: FlightOf(s.(proc := proc), t) == FlightOf(s, t);
  }

  lemma SameGroundAs(s: State, s': State)
    requires s.db == s'.db
    ensures Grounded(s) <==> Grounded(s')
  {
    assert forall t: TransportType :: FlightOf(s', t) == FlightOf(s, t);
  }

  lemma NoFlights(s: State, t: TransportType)
    requires Grounded(s)
    ensures FlightOf(s, t).None?
  {
  }

  lemma OnlyOne(work: seq<Request>)
    requires work != []
    ensures forall t: TransportType :: Count(work[..1], t) == if work[0].kind == t then 1 else 0
  {
    assert work[..1] == [work[0]];
    assert [work[0]][1..] == [];
  }

  /** From a clean state the first requests can be minted one after the other, whatever comes behind them. */
  lemma {:induction false} MintFirst(s: State, k: nat, queueSizeLimit: nat) returns (steps: seq<Step>)
    requires CleanUpTo(s, k, queueSizeLimit)
    ensures CanRun(s, steps, queueSizeLimit)
    ensures Progress(s, After(s, steps, queueSizeLimit), k, queueSizeLimit)
    ensures CleanUpTo(After(s, steps, queueSizeLimit), 0, queueSizeLimit)
    decreases k
  {
    hide CleanUpTo, CanRun, After, Progress;
    if k == 0 {
      steps := [];
      NoSteps(s, queueSizeLimit);
      NoProgress(s, queueSizeLimit);
    } else {
      var id := FreshId(s);
      MintOne(s, k, id, queueSizeLimit);
      var first := [BuildTx(id), SaveTx, SendTx, Land(id), SendConfirmed, MarkConfirmed];
      var s' := After(s, first, queueSizeLimit);
      var rest := MintFirst(s', k - 1, queueSizeLimit);
      steps := first + rest;
      RunsConcat(s, first, rest, queueSizeLimit);
      ProgressAdds(s, s', After(s', rest, queueSizeLimit), k, queueSizeLimit);
    }
  }

  lemma NoProgress(s: State, queueSizeLimit: nat)
    requires CleanUpTo(s, 0, queueSizeLimit)
    ensures Progress(s, s, 0, queueSizeLimit)
  {
    hide MintSafety.Inv;
    assert s.proc.work[0..] == s.proc.work && s.proc.work[..0] == [];
    forall t: TransportType
      ensures SameButIds(s.db.Table(t), s.db.Table(t))
    {
      SameButIdsSelf(s.db.Table(t));
    }
  }

  lemma ProgressAdds(s: State, mid: State, s': State, k: nat, queueSizeLimit: nat)
    requires k > 0 && Progress(s, mid, 1, queueSizeLimit) && Progress(mid, s', k - 1, queueSizeLimit)
    ensures Progress(s, s', k, queueSizeLimit)
  {
    var work := s.proc.work;
    assert work[1..][k - 1..] == work[k..];
    assert work[..k] == work[..1] + work[1..][..k - 1];
    forall t: TransportType
      ensures SameButIds(s.db.Table(t), s'.db.Table(t))
      ensures s'.db.Done(t) == s.db.Done(t) + Count(work[..k], t)
    {
      CountConcat(work[..1], work[1..][..k - 1], t);
      assert SameButIds(s.db.Table(t), mid.db.Table(t)) && SameButIds(mid.db.Table(t), s'.db.Table(t));
    }
  }

  // ---------- a list that was read twice ----------

  /** The remaining reads of a round. */
  lemma {:induction false} ReadOn(s: State, queueSizeLimit: nat) returns (steps: seq<Step>, more: seq<Request>)
    requires s.proc.Gathering? && |s.proc.read| <= 3 && s.proc.read == READ_ORDER[..|s.proc.read|]
    ensures CanRun(s, steps, queueSizeLimit)
    ensures After(s, steps, queueSizeLimit) == s.(proc := Gathering(READ_ORDER, s.proc.work + more))
    decreases 3 - |s.proc.read|
  {
    hide CanRun, After, Uncompleted;
    var read, work := s.proc.read, s.proc.work;
    if |read| == 3 {
      steps, more := [], [];
      NoSteps(s, queueSizeLimit);
      assert work + [] == work;
    } else {
      var t := READ_ORDER[|read|];
      ReadStep(s, queueSizeLimit, read, work, t);
      assert s.(proc := Gathering(read, work)) == s;
      var s' := Apply(s, ReadUncompleted(t), queueSizeLimit);
      assert read + [t] == READ_ORDER[..|read| + 1];
      var rest, other := ReadOn(s', queueSizeLimit);
      steps, more := [ReadUncompleted(t)] + rest, Uncompleted(s, t) + other;
      RunsOne(s, ReadUncompleted(t), queueSizeLimit);
      RunsConcat(s, [ReadUncompleted(t)], rest, queueSizeLimit);
      assert work + Uncompleted(s, t) + other == work + more;
    }
  }

  lemma ReadsSoFar(s: State, queueSizeLimit: nat, t: TransportType)
    requires MintSafety.Inv(s, queueSizeLimit) && Reading(s, t)
    ensures s.proc.read == READ_ORDER[..|s.proc.read|] && s.proc.read + [t] == READ_ORDER[..|s.proc.read| + 1]
    ensures forall k :: 0 <= k < |s.proc.work| ==> s.proc.work[k].kind != t
    ensures Grounded(s) && LaneOf(s, t) && FlightOf(s, t).None?
  {
    hide MintLanes.Lane, Ledger.Inv, WorkOk;
    ReadsInOrder(s.proc.read, s.proc.work, t, []);
  }

  /** The list delivered at last, with the first copy of what was read in front. */
  lemma RetriedWork(work: seq<Request>, reqs: seq<Request>, n: nat, more: seq<Request>)
    ensures work + Repeat(reqs, n + 1) + more == (work + reqs) + (Repeat(reqs, n) + more)
    ensures reqs != [] && n > 0 ==> Repeat(reqs, n) != [] && Repeat(reqs, n)[0] == reqs[0]
  {
    RepeatSum(reqs, 1, n);
    assert Repeat(reqs, 1) == [] + reqs == reqs;
    if n > 0 { RepeatHead(reqs, n - 1); }
    assert work + Repeat(reqs, n + 1) + more == work + (reqs + Repeat(reqs, n)) + more;
  }

  /** After the remaining reads, processMints starts on the list. */
  lemma StartsMinting(s: State, t: TransportType, n: nat, queueSizeLimit: nat)
    returns (steps: seq<Step>, more: seq<Request>)
    requires MintSafety.Inv(s, queueSizeLimit) && Reading(s, t) && Uncompleted(s, t) != []
    ensures var s0, reqs := Reread(s, t, n), Uncompleted(s, t);
            && CanRun(s0, steps, queueSizeLimit)
            && After(s0, steps, queueSizeLimit)
               == s.(proc := Minting((s.proc.work + reqs) + (Repeat(reqs, n) + more), Build))
  {
    hide CanRun, After, Uncompleted, MintSafety.Inv, Repeat, LaneOf;
    var s0, reqs := Reread(s, t, n), Uncompleted(s, t);
    ReadsSoFar(s, queueSizeLimit, t);
    var first, rest := ReadOn(s0, queueSizeLimit);
    RetriedWork(s.proc.work, reqs, n, rest);
    RunsOne(After(s0, first, queueSizeLimit), RunMints, queueSizeLimit);
    RunsConcat(s0, first, [RunMints], queueSizeLimit);
    steps, more := first + [RunMints], rest;
  }

  /** A mint is lost that comes before the second copy of the list. */
  predicate Blocks(s: State, t: TransportType)
    requires s.proc.Gathering?
  {
    LostAt(s, t) || !Unblocked(s, s.proc.work)
  }

  /** Up to the first copy the list is work in order. */
  lemma FirstCopyIsClean(s: State, t: TransportType, more: seq<Request>, queueSizeLimit: nat)
    requires MintSafety.Inv(s, queueSizeLimit) && Reading(s, t) && !Blocks(s, t)
    requires Uncompleted(s, t) != [] && more != []
    ensures var work := s.proc.work + Uncompleted(s, t);
            CleanUpTo(s.(proc := Minting(work + more, Build)), |work|, queueSizeLimit)
  {
    hide MintLanes.Lane, Ledger.Inv, WorkOk, Uncompleted, LostAt;
    var work := s.proc.work + Uncompleted(s, t);
    ReadsSoFar(s, queueSizeLimit, t);
    ReadIsSegment(s, t);
    SameLosses(s, Minting(work + more, Build));
    assert (work + more)[..|work|] == work;
    StepKeepsInv(s, queueSizeLimit, ReadUncompleted(t));
    var s1 := Apply(s, ReadUncompleted(t), queueSizeLimit);
    SameFlights(s1, Minting(work, Build));
    ProcStepKeeps(s1, queueSizeLimit, Minting(work, Build));
    SameGround(s, Minting(work + more, Build));
    assert s1.(proc := Minting(work, Build)) == s.(proc := Minting(work, Build));
  }

  /** The first copy is minted; then its first request comes again, for a burn that is completed. */
  lemma SecondCopy(s: State, t: TransportType, n: nat, queueSizeLimit: nat) returns (steps: seq<Step>)
    requires MintSafety.Inv(s, queueSizeLimit) && Reading(s, t) && !Blocks(s, t) && n > 0 && Uncompleted(s, t) != []
    ensures var s0, reqs := Reread(s, t, n), Uncompleted(s, t);
            && CanRun(s0, steps, queueSizeLimit)
            && var s' := After(s0, steps, queueSizeLimit);
            && CleanUpTo(s', 0, queueSizeLimit) && s'.proc.work[0] == reqs[0]
            && SameButIds(s.db.Table(t), s'.db.Table(t))
            && s'.db.Done(t) == s.db.Done(t) + |reqs|
            && s'.db.unconfirmed == s.db.unconfirmed
  {
    hide CanRun, After, Uncompleted, MintSafety.Inv, Repeat, CleanUpTo, LaneOf, SameButIds;
    var s0, reqs := Reread(s, t, n), Uncompleted(s, t);
    var readOn, more := StartsMinting(s, t, n, queueSizeLimit);
    var work := s.proc.work + reqs;
    RetriedWork(s.proc.work, reqs, n, more);
    FirstCopyIsClean(s, t, Repeat(reqs, n) + more, queueSizeLimit);
    var s1 := After(s0, readOn, queueSizeLimit);
    var mints := MintFirst(s1, |work|, queueSizeLimit);
    steps := readOn + mints;
    RunsConcat(s0, readOn, mints, queueSizeLimit);
    var all := work + (Repeat(reqs, n) + more);
    assert all[..|work|] == work && all[|work|..] == Repeat(reqs, n) + more;
    ReadCounts(s, t, queueSizeLimit);
  }

  lemma ReadCounts(s: State, t: TransportType, queueSizeLimit: nat)
    requires MintSafety.Inv(s, queueSizeLimit) && Reading(s, t)
    ensures Count(s.proc.work + Uncompleted(s, t), t) == |Uncompleted(s, t)|
  {
    hide MintSafety.Inv, Uncompleted, LaneOf;
    ReadsSoFar(s, queueSizeLimit, t);
    var reqs := Uncompleted(s, t);
    ReadIsSegment(s, t);
    CountConcat(s.proc.work, reqs, t);
    CountAbsent(s.proc.work, t);
    CountUniform(reqs, t, t);
  }

  // ---------- recording over a completed row ----------

  /** Completed rows come before all others. */
  predicate DoneFirst(rows: seq<Row>, sol: SolanaTable) {
    forall i, j :: 0 <= i < j < |rows| && Tables.Completed(rows[j], sol) ==> Tables.Completed(rows[i], sol)
  }

  lemma RecordedOver(rows: seq<Row>, sol: SolanaTable, n: nat, i: nat, id: SolanaTxId, time: Time)
    requires TableDistinct(rows) && Orderly(rows, sol, n) && i < n && id !in sol
    requires forall r :: r in rows && r.solanaId.Some? ==> r.solanaId.value in sol
    ensures var rows', sol' := SetSolanaId(rows, rows[i].burn, Some(id)), sol[id := SolanaRow(time, None, false)];
            && rows'[i] == rows[i].(solanaId := Some(id)) && !Tables.Completed(rows'[i], sol')
            && DoneCount(rows', sol') == i
            && (i + 1 < n ==> !Orderly(rows', sol', i) && !DoneFirst(rows', sol'))
            && (forall k :: 0 <= k < |rows| && k != i ==>
                  && rows'[k] == rows[k]
                  && (Tables.Completed(rows'[k], sol') <==> Tables.Completed(rows[k], sol)))
  {
    var rows', sol' := SetSolanaId(rows, rows[i].burn, Some(id)), sol[id := SolanaRow(time, None, false)];
    assert forall j :: 0 <= j < |rows| && j != i ==> rows'[j] == rows[j];
    assert forall j :: 0 <= j < |rows| && rows[j].solanaId.Some? ==> rows[j] in rows;
    DoneCountIs(rows', sol', i);
    if i + 1 < n {
      assert rows'[i + 1].solanaId.Some?;
    }
  }

  /** AddSolanaTransaction writes its id over that of a completed row without asking. */
  lemma OverwritesCompleted(db: Database, queueSizeLimit: nat, t: TransportType, i: nat, id: SolanaTxId, time: Time)
    requires Ledger.Inv(db, queueSizeLimit) && i < db.Done(t) && id !in db.solana
    ensures var burn := db.Table(t)[i].burn;
            var db' := WithRecorded(db, burn, t, id, time);
            && StatusOf(db, burn).Completed? && StatusOf(db', burn).SolanaTxCreated?
            && db'.Done(t) == i
            && (i + 1 < db.Done(t) ==> !InOrder(db') && !DoneFirst(db'.Table(t), db'.solana))
  {
    hide StatusOf, Orderly, OnlySolanaChanged, SupplyCaps, LimitsInv, UnconfirmedInv, ChainInv;
    var rows, burn := db.Table(t), db.Table(t)[i].burn;
    var db' := WithRecorded(db, burn, t, id, time);
    StatusRuns.StatusAtRow(db, t, i);
    SolanaWritesOnlyIds(db, burn, t, id, time);
    SolanaChangeKeepsBase(db, db');
    SolanaTableIs(db, queueSizeLimit, t);
    RecordedOver(rows, db.solana, db.Done(t), i, id, time);
    assert db'.Table(t) == SetSolanaId(rows, burn, Some(id));
    RowReads(db', t, i);
  }

  lemma RowReads(db: Database, t: TransportType, i: nat)
    requires LocationInv(db) && i < |db.Table(t)|
    ensures StatusOf(db, db.Table(t)[i].burn) == RowStatus(db.Table(t)[i], db.solana)
  {
    LookupIs(db, t, i);
  }

  /** Two steps of mint take the completion of the row back. */
  lemma CompletionUndone(s: State, t: TransportType, i: nat, id: SolanaTxId, queueSizeLimit: nat)
    requires CleanUpTo(s, 0, queueSizeLimit) && id !in s.txs && id !in s.db.solana
    requires i < s.db.Done(t) && s.proc.work[0].kind == t && s.proc.work[0].burn == s.db.Table(t)[i].burn
    ensures var steps := [BuildTx(id), SaveTx];
            && CanRun(s, steps, queueSizeLimit)
            && var s' := After(s, steps, queueSizeLimit);
            && StatusOf(s.db, s.proc.work[0].burn).Completed? && StatusOf(s'.db, s.proc.work[0].burn).SolanaTxCreated?
            && s'.db.Done(t) == i
            && (i + 1 < s.db.Done(t) ==> !InOrder(s'.db) && !DoneFirst(s'.db.Table(t), s'.db.solana))
            && s'.db == WithRecorded(s.db, s.proc.work[0].burn, t, id, s.now)
  {
    hide MintSafety.Inv, Ledger.Inv, Enabled, Apply, StatusOf, InOrder, WithRecorded, Grounded;
    CleanLedger(s, queueSizeLimit);
    BuiltIs(s, queueSizeLimit, id);
    var s1 := Apply(s, BuildTx(id), queueSizeLimit);
    SavedIs(s1, queueSizeLimit, id);
    RunsOne(s, BuildTx(id), queueSizeLimit);
    RunsOne(s1, SaveTx, queueSizeLimit);
    RunsConcat(s, [BuildTx(id)], [SaveTx], queueSizeLimit);
    assert [BuildTx(id)] + [SaveTx] == [BuildTx(id), SaveTx];
    OverwritesCompleted(s.db, queueSizeLimit, t, i, id, s.now);
  }

  lemma CleanLedger(s: State, queueSizeLimit: nat)
    requires CleanUpTo(s, 0, queueSizeLimit)
    ensures Ledger.Inv(s.db, queueSizeLimit)
  {
  }

  // ---------- the theorem ----------

  /** After a read that went through after failed commits, completion can be taken back, and with two
      requests or more even the order of completion is lost, if no mint before is lost. */
  lemma RetriedReadUndoes(s: State, t: TransportType, n: nat, queueSizeLimit: nat)
    requires MintSafety.Inv(s, queueSizeLimit) && Reading(s, t) && !Blocks(s, t) && n > 0 && Uncompleted(s, t) != []
    ensures !CompletedIsKept(Reread(s, t, n), queueSizeLimit) && !PrefixIsKept(Reread(s, t, n), queueSizeLimit)
    ensures |Uncompleted(s, t)| > 1 ==> !OrderIsKept(Reread(s, t, n), queueSizeLimit)
  {
    hide MintSafety.Inv, Uncompleted, Repeat, CanRun, After, StatusOf, InOrder, CleanUpTo, LaneOf;
    var s0, reqs, i := Reread(s, t, n), Uncompleted(s, t), s.db.Done(t);
    var first := SecondCopy(s, t, n, queueSizeLimit);
    var s1 := After(s0, first, queueSizeLimit);
    ReadsSoFar(s, queueSizeLimit, t);
    ReadIsSegment(s, t);
    assert reqs[0] == ToRequest(t, s.db.Table(t)[i]);
    var id := FreshId(s1);
    CompletionUndone(s1, t, i, id, queueSizeLimit);
    var rest := [BuildTx(id), SaveTx];
    assert Undone(s0, first, rest, reqs[0].burn, queueSizeLimit);
    assert Shrinks(s0, first, rest, t, queueSizeLimit);
    RunsConcat(s0, first, rest, queueSizeLimit);
    assert CanRun(s0, first + rest, queueSizeLimit);
  }
}
