/** What one pass of processUnconfirmed does to each burn, told by what the chain says of it and by the two heights
    (loops.go). */
module PassEffect {
  import opened Common
  import opened Tables
  import opened Ledger
  import opened StorageSpec
  import opened QueueLock
  import opened LoopSpec

  // ---------- the three lists ----------

  predicate OnChainNow(onChain: OnChain, u: Unconfirmed) {
    u.burn in onChain && onChain[u.burn]
  }

  /** Enough blocks came after the height that an earlier pass recorded. */
  predicate Deep(u: Unconfirmed, height: nat, confirmations: int) {
    && u.height.Some?
    && if height <= MAX_INT64 && u.height.value <= MAX_INT64 then height - u.height.value >= confirmations
       else HeightGap(height, u.height.value) >= confirmations
  }

  /** Burns that are not on chain are listed for removal, those on chain without a height to have it recorded, and those on
      chain and deep enough for confirmation; each as often as it was read. */
  ghost predicate Sorted(us: seq<Unconfirmed>, onChain: OnChain, height: nat, confirmations: int, setHeight: seq<BurnId>,
                         toRemove: seq<Unconfirmed>, toConfirm: seq<Unconfirmed>) {
    && (forall u :: multiset(toRemove)[u] == if OnChainNow(onChain, u) then 0 else multiset(us)[u])
    && (forall u :: multiset(toConfirm)[u]
                    == if OnChainNow(onChain, u) && Deep(u, height, confirmations) then multiset(us)[u] else 0)
    && (forall burn :: burn in setHeight <==> exists u :: u in us && u.burn == burn && OnChainNow(onChain, u) && u.height.None?)
  }

  lemma DecisionIs(u: Unconfirmed, onChain: OnChain, height: nat, confirmations: int)
    requires u.burn in onChain
    ensures var d := Decide(u, onChain[u.burn], height, confirmations);
            && (d == Remove <==> !OnChainNow(onChain, u))
            && (d == RecordHeight <==> OnChainNow(onChain, u) && u.height.None?)
            && (d == Confirm <==> OnChainNow(onChain, u) && Deep(u, height, confirmations))
  {
    if u.height.Some? && height <= MAX_INT64 && u.height.value <= MAX_INT64 {
      HeightGapIsSigned(height, u.height.value);
    }
  }

  lemma {:induction false} ChosenCounts(us: seq<Unconfirmed>, d: Decision, onChain: OnChain, height: nat, confirmations: int,
                                        u: Unconfirmed)
    requires Answers(onChain, us)
    ensures multiset(Chosen(us, d, onChain, height, confirmations))[u]
            == if u in us && Decide(u, onChain[u.burn], height, confirmations) == d then multiset(us)[u] else 0
  {
    hide Decide;
    if us != [] {
      var init, last := us[..|us| - 1], us[|us| - 1];
      assert us == init + [last];
      assert multiset(us)[u] == multiset(init)[u] + if u == last then 1 else 0;
      ChosenCounts(init, d, onChain, height, confirmations, u);
    }
  }

  lemma SortedIs(us: seq<Unconfirmed>, onChain: OnChain, height: nat, confirmations: int)
    requires Answers(onChain, us)
    ensures Sorted(us, onChain, height, confirmations, BurnIds(Chosen(us, RecordHeight, onChain, height, confirmations)),
                   Chosen(us, Remove, onChain, height, confirmations), Chosen(us, Confirm, onChain, height, confirmations))
  {
    hide Decide, Chosen, OnChainNow, Deep;
    forall u
      ensures multiset(Chosen(us, Remove, onChain, height, confirmations))[u]
              == if OnChainNow(onChain, u) then 0 else multiset(us)[u]
      ensures multiset(Chosen(us, Confirm, onChain, height, confirmations))[u]
              == if OnChainNow(onChain, u) && Deep(u, height, confirmations) then multiset(us)[u] else 0
    {
      ChosenCounts(us, Remove, onChain, height, confirmations, u);
      ChosenCounts(us, Confirm, onChain, height, confirmations, u);
      if u in us { DecisionIs(u, onChain, height, confirmations); }
    }
    var recorded := Chosen(us, RecordHeight, onChain, height, confirmations);
    ChosenMembers(us, RecordHeight, onChain, height, confirmations);
    forall burn
      ensures burn in BurnIds(recorded)
              <==> exists u :: u in us && u.burn == burn && OnChainNow(onChain, u) && u.height.None?
    {
      IdsAreBurns(recorded, burn);
      forall u | u in us
        ensures u in recorded <==> OnChainNow(onChain, u) && u.height.None?
      {
        DecisionIs(u, onChain, height, confirmations);
      }
    }
  }

  // ---------- what becomes of a burn ----------

  /** The row holds what was stored of the burn, queued up at that time if it is for the queue. */
  predicate IsRowOf(row: Row, u: Unconfirmed, now: Time) {
    && row.burn == u.burn && row.recipient == u.recipient && row.Amount() == u.amount
    && row.source == (if u.kind.Premined? then u.source else None)
    && row.burnTime == u.time && row.queueUp == (if u.kind.Regular? then Some(now) else None)
    && row.solanaId.None?
  }

  /** The burn is in no table. */
  predicate Gone(db: Database, burn: BurnId) {
    !Known(db, burn)
  }

  /** The burn has left unconfirmed_burns for a new row of its own chain. */
  predicate Queued(db: Database, u: Unconfirmed, now: Time, db': Database) {
    && u.burn !in Burns(db'.unconfirmed)
    && exists k :: |db.Table(u.kind)| <= k < |db'.Table(u.kind)| && IsRowOf(db'.Table(u.kind)[k], u, now)
  }

  datatype Pass = Pass(before: Time, onChain: OnChain, height: nat, confirmations: int, newHeight: nat, now: Time)

  /** What a pass may do to a burn, and what it does if it reports success. */
  predicate Fate(db: Database, u: Unconfirmed, p: Pass, ok: bool, db': Database) {
    var stays := u in db'.unconfirmed;
    if u.time >= p.before then stays
    else if !OnChainNow(p.onChain, u) then Gone(db', u.burn) || (!ok && stays)
    else if u.height.None? then u.(height := Some(p.newHeight)) in db'.unconfirmed || (!ok && stays)
    else if Deep(u, p.height, p.confirmations) then Queued(db, u, p.now, db') || (!ok && stays)
    else stays
  }

  /** Every burn meets its fate, no burn is new, and the chains grow by nothing but the burns that are deep enough. */
  ghost predicate Passed(db: Database, p: Pass, ok: bool, db': Database) {
    && (forall u :: u in db.unconfirmed ==> Fate(db, u, p, ok, db'))
    && Burns(db'.unconfirmed) <= Burns(db.unconfirmed)
    && (forall t: TransportType :: db.Table(t) <= db'.Table(t) && NewRows(db, t, p, db'))
    && db'.solana == db.solana && db'.flags == db.flags
  }

  ghost predicate NewRows(db: Database, t: TransportType, p: Pass, db': Database) {
    forall k :: |db.Table(t)| <= k < |db'.Table(t)| ==> EligibleRow(db, t, p, db'.Table(t)[k])
  }

  predicate EligibleRow(db: Database, t: TransportType, p: Pass, row: Row) {
    exists u :: u in db.unconfirmed && Eligible(u, t, p) && IsRowOf(row, u, p.now)
  }

  predicate Eligible(u: Unconfirmed, t: TransportType, p: Pass) {
    u.kind == t && u.time < p.before && OnChainNow(p.onChain, u) && Deep(u, p.height, p.confirmations)
  }

  // ---------- what is left in unconfirmed_burns ----------

  function Marked(u: Unconfirmed, recorded: set<BurnId>, height: nat): Unconfirmed {
    if u.burn in recorded then u.(height := Some(height)) else u
  }

  /** The table holds the burns but for those that are gone, some with a new height. */
  ghost predicate Left(db: Database, db': Database, recorded: set<BurnId>, height: nat, gone: set<BurnId>) {
    && (forall u :: u in db.unconfirmed && u.burn !in gone ==> Marked(u, recorded, height) in db'.unconfirmed)
    && (forall v :: v in db'.unconfirmed ==>
          v.burn !in gone && exists u :: u in db.unconfirmed && v == Marked(u, recorded, height))
  }

  lemma HeightsLeave(db: Database, recorded: seq<Unconfirmed>, height: nat)
    ensures Left(db, db.(unconfirmed := SetHeights(db.unconfirmed, BurnIds(recorded), height)), Burns(recorded), height, {})
  {
    hide SetHeights;
    var db' := db.(unconfirmed := SetHeights(db.unconfirmed, BurnIds(recorded), height));
    SetHeightsEffect(db.unconfirmed, BurnIds(recorded), height);
    forall u | u in db.unconfirmed
      ensures u.burn in BurnIds(recorded) <==> u.burn in Burns(recorded)
    {
      IdsAreBurns(recorded, u.burn);
    }
    forall u | u in db.unconfirmed
      ensures Marked(u, Burns(recorded), height) in db'.unconfirmed
    {
      var i :| 0 <= i < |db.unconfirmed| && db.unconfirmed[i] == u;
      assert db'.unconfirmed[i] == Marked(u, Burns(recorded), height);
    }
    forall v | v in db'.unconfirmed
      ensures exists u :: u in db.unconfirmed && v == Marked(u, Burns(recorded), height)
    {
      var i :| 0 <= i < |db'.unconfirmed| && db'.unconfirmed[i] == v;
      assert db.unconfirmed[i] in db.unconfirmed && v == Marked(db.unconfirmed[i], Burns(recorded), height);
    }
  }

  lemma LeftDrops(db: Database, mid: Database, db': Database, recorded: set<BurnId>, height: nat, gone: set<BurnId>,
                  more: set<BurnId>)
    requires Left(db, mid, recorded, height, gone)
    requires forall v :: v in db'.unconfirmed <==> v in mid.unconfirmed && v.burn !in more
    ensures Left(db, db', recorded, height, gone + more)
  {
    assert forall u :: Marked(u, recorded, height).burn == u.burn;
  }

  // ---------- the rows of a confirmed batch ----------

  /** The chains grew by one row for each of the burns. */
  ghost predicate GrewBy(db: Database, us: seq<Unconfirmed>, now: Time, db': Database) {
    && (forall t: TransportType :: db.Table(t) <= db'.Table(t))
    && (forall u :: u in us ==> HasNewRow(db, u, now, db'))
    && (forall t: TransportType, k :: |db.Table(t)| <= k < |db'.Table(t)| ==> RowFor(us, t, db'.Table(t)[k], now))
  }

  predicate RowFor(us: seq<Unconfirmed>, t: TransportType, row: Row, now: Time) {
    exists u :: u in us && u.kind == t && IsRowOf(row, u, now)
  }

  predicate HasNewRow(db: Database, u: Unconfirmed, now: Time, db': Database) {
    exists k :: |db.Table(u.kind)| <= k < |db'.Table(u.kind)| && IsRowOf(db'.Table(u.kind)[k], u, now)
  }

  lemma {:induction false} ConfirmedGrow(db: Database, us: seq<Unconfirmed>, now: Time)
    requires Base(db) && FromTable(db, us) && ConfirmAll(db, us, now).Ok?
    ensures GrewBy(db, us, now, ConfirmAll(db, us, now).value)
  {
    hide Base, ConfirmOne, Appended, GrewBy;
    if us == [] {
      NothingGrew(db, now);
    } else {
      var init, last := us[..|us| - 1], us[|us| - 1];
      assert us == init + [last];
      ConfirmedGrow(db, init, now);
      ConfirmAllKeepsBase(db, init, now);
      var mid, db' := ConfirmAll(db, init, now).value, ConfirmAll(db, us, now).value;
      ConfirmOneAppends(mid, last, now);
      OneMoreRow(db, init, last, now, mid, db');
    }
  }

  lemma NothingGrew(db: Database, now: Time)
    ensures GrewBy(db, [], now, db)
  {
  }

  /** One row more, at the end of one table. */
  predicate GrewByRow(mid: Database, t: TransportType, row: Row, db': Database) {
    forall u: TransportType :: db'.Table(u) == if u == t then mid.Table(u) + [row] else mid.Table(u)
  }

  lemma OneMoreRow(db: Database, init: seq<Unconfirmed>, last: Unconfirmed, now: Time, mid: Database, db': Database)
    requires GrewBy(db, init, now, mid) && Appended(mid, last, now, db')
    requires TransportRow(last, End(mid.Table(last.kind)), now).Amount() == last.amount
    ensures GrewBy(db, init + [last], now, db')
  {
    hide IsRowOf, GrewBy, TransportRow, HasNewRow;
    var row := TransportRow(last, End(mid.Table(last.kind)), now);
    NewRowIs(last, End(mid.Table(last.kind)), now);
    assert GrewByRow(mid, last.kind, row, db');
    RowsGrow(db, init, last, now, mid, row, db');
  }

  lemma RowsGrow(db: Database, init: seq<Unconfirmed>, last: Unconfirmed, now: Time, mid: Database, row: Row, db': Database)
    requires GrewBy(db, init, now, mid) && GrewByRow(mid, last.kind, row, db') && IsRowOf(row, last, now)
    ensures GrewBy(db, init + [last], now, db')
  {
    hide IsRowOf;
    forall u | u in init + [last]
      ensures HasNewRow(db, u, now, db')
    {
      assert db.Table(u.kind) <= mid.Table(u.kind);
      if u in init {
        assert HasNewRow(db, u, now, mid);
        var k :| |db.Table(u.kind)| <= k < |mid.Table(u.kind)| && IsRowOf(mid.Table(u.kind)[k], u, now);
        assert db'.Table(u.kind)[k] == mid.Table(u.kind)[k];
      } else {
        assert db'.Table(u.kind)[|mid.Table(u.kind)|] == row;
      }
    }
    forall t: TransportType, k | |db.Table(t)| <= k < |db'.Table(t)|
      ensures RowFor(init + [last], t, db'.Table(t)[k], now)
    {
      assert db.Table(t) <= mid.Table(t);
      if k < |mid.Table(t)| {
        assert RowFor(init, t, mid.Table(t)[k], now);
        var u :| u in init && u.kind == t && IsRowOf(mid.Table(t)[k], u, now);
        assert db'.Table(t)[k] == mid.Table(t)[k] && u in init + [last];
      } else {
        assert t == last.kind && db'.Table(t)[k] == row && last in init + [last];
      }
    }
    forall t: TransportType
      ensures db.Table(t) <= db'.Table(t)
    {
      assert db.Table(t) <= mid.Table(t);
    }
  }

  lemma NewRowIs(u: Unconfirmed, prev: int, now: Time)
    requires TransportRow(u, prev, now).Amount() == u.amount
    ensures IsRowOf(TransportRow(u, prev, now), u, now)
  {
  }

  // ---------- call by call ----------

  /** The calls drop these burns from the table, or have no effect. */
  ghost predicate Drops(db: Database, db': Database, burns: set<BurnId>) {
    forall v :: v in db'.unconfirmed <==> v in db.unconfirmed && v.burn !in burns
  }

  predicate SameRest(db: Database, db': Database) {
    && db'.premined == db.premined && db'.airdrop == db.airdrop && db'.queue == db.queue
    && db'.solana == db.solana && db'.flags == db.flags
  }

  lemma NotIn(v: Unconfirmed, us: seq<Unconfirmed>)
    ensures v.burn !in Burns(us) <==> forall x :: x in us ==> x.burn != v.burn
  {
  }

  lemma RemovalDrops(db: Database, us: seq<Unconfirmed>, commit: Commit)
    requires Base(db)
    ensures var (ok, db') := RemoveOutcome(db, us, commit);
            SameRest(db, db') && (Drops(db, db', Burns(us)) || (!ok && db' == db))
  {
    hide Base, RemoveAll, InBigint, Burns;
    var once := RemoveAll(db, us);
    RemoveAllTables(db, us);
    RemoveAllTables(once, us);
    if InBigint(once.limits) {
      RemoveAllKeepsBase(db, us);
      if InBigint(RemoveAll(once, us).limits) { RemoveAllKeepsBase(once, us); }
    }
    forall v: Unconfirmed
      ensures v.burn !in Burns(us) <==> forall x :: x in us ==> x.burn != v.burn
    {
      NotIn(v, us);
    }
  }

  lemma ConfirmationDrops(db: Database, queueSizeLimit: nat, us: seq<Unconfirmed>, now: Time, commit: Commit)
    requires Inv(db, queueSizeLimit) && RowsOf(db, us)
    ensures var (ok, db') := ConfirmOutcome(db, us, now, commit);
            || (!ok && db' == db)
            || (Drops(db, db', Burns(us)) && GrewBy(db, us, now, db') && db'.solana == db.solana && db'.flags == db.flags)
  {
    hide Inv, Base, ConfirmAll, Burns, GrewBy, Drops, RowsOf;
    if ConfirmAll(db, us, now).Ok? {
      ConfirmedDrops(db, queueSizeLimit, us, now);
    }
  }

  lemma ConfirmedDrops(db: Database, queueSizeLimit: nat, us: seq<Unconfirmed>, now: Time)
    requires Inv(db, queueSizeLimit) && RowsOf(db, us) && ConfirmAll(db, us, now).Ok?
    ensures var db' := ConfirmAll(db, us, now).value;
            Drops(db, db', Burns(us)) && GrewBy(db, us, now, db') && db'.solana == db.solana && db'.flags == db.flags
  {
    hide Inv, Base, ConfirmAll, Burns, GrewBy, FromTable;
    InvIsBase(db, queueSizeLimit);
    ConfirmAllNeedsFreshRows(db, us, now);
    ConfirmAllKeepsInv(db, queueSizeLimit, us, now);
    ConfirmAllExtends(db, us, now);
    ConfirmedGrow(db, us, now);
    forall v: Unconfirmed
      ensures v.burn !in Burns(us) <==> forall x :: x in us ==> x.burn != v.burn
    {
      NotIn(v, us);
    }
  }

  /** Which burns the three lists name. */
  ghost predicate Lists(db: Database, p: Pass, recorded: set<BurnId>, removed: set<BurnId>, confirmed: seq<Unconfirmed>) {
    && (forall u :: u in db.unconfirmed ==>
          && (u.burn in recorded <==> u.time < p.before && OnChainNow(p.onChain, u) && u.height.None?)
          && (u.burn in removed <==> u.time < p.before && !OnChainNow(p.onChain, u))
          && (u.burn in Burns(confirmed) <==>
                u.time < p.before && OnChainNow(p.onChain, u) && Deep(u, p.height, p.confirmations)))
    && (forall u :: u in confirmed ==> u in db.unconfirmed)
  }

  lemma ListsAre(db: Database, us: seq<Unconfirmed>, p: Pass)
    requires Distinct(db.unconfirmed) && Answers(p.onChain, us)
    requires forall u :: u in us <==> u in db.unconfirmed && u.time < p.before
    ensures Lists(db, p, Burns(Chosen(us, RecordHeight, p.onChain, p.height, p.confirmations)),
                  Burns(Chosen(us, Remove, p.onChain, p.height, p.confirmations)),
                  Chosen(us, Confirm, p.onChain, p.height, p.confirmations))
  {
    hide Chosen, Decide, OnChainNow, Deep;
    OneRowPerBurn(db.unconfirmed);
    ChosenMembers(us, RecordHeight, p.onChain, p.height, p.confirmations);
    ChosenMembers(us, Remove, p.onChain, p.height, p.confirmations);
    ChosenMembers(us, Confirm, p.onChain, p.height, p.confirmations);
    forall u, d | u in db.unconfirmed
      ensures u.burn in Burns(Chosen(us, d, p.onChain, p.height, p.confirmations))
              <==> u in us && Decide(u, p.onChain[u.burn], p.height, p.confirmations) == d
    {
      ListedBurn(db, us, p, d, u);
    }
    forall u | u in us
      ensures u.burn in p.onChain
      ensures var d := Decide(u, p.onChain[u.burn], p.height, p.confirmations);
              && (d == Remove <==> !OnChainNow(p.onChain, u))
              && (d == RecordHeight <==> OnChainNow(p.onChain, u) && u.height.None?)
              && (d == Confirm <==> OnChainNow(p.onChain, u) && Deep(u, p.height, p.confirmations))
    {
      DecisionIs(u, p.onChain, p.height, p.confirmations);
    }
  }

  lemma ListedBurn(db: Database, us: seq<Unconfirmed>, p: Pass, d: Decision, u: Unconfirmed)
    requires forall v, w :: v in db.unconfirmed && w in db.unconfirmed && v.burn == w.burn ==> v == w
    requires Answers(p.onChain, us) && (forall v :: v in us ==> v in db.unconfirmed) && u in db.unconfirmed
    ensures u.burn in Burns(Chosen(us, d, p.onChain, p.height, p.confirmations))
            <==> u in us && Decide(u, p.onChain[u.burn], p.height, p.confirmations) == d
  {
    hide Chosen, Decide;
    ChosenMembers(us, d, p.onChain, p.height, p.confirmations);
  }

  /** What the calls left, put together: `measured`, `dropped` and `grown` say which of them took effect. */
  lemma FatesAre(db: Database, p: Pass, recorded: set<BurnId>, removed: set<BurnId>, confirmed: seq<Unconfirmed>,
                 measured: bool, dropped: bool, grown: bool, ok: bool, db': Database)
    requires LocationInv(db) && Lists(db, p, recorded, removed, confirmed)
    requires Left(db, db', if measured then recorded else {}, p.newHeight,
                  (if dropped then removed else {}) + (if grown then Burns(confirmed) else {}))
    requires if grown then GrewBy(db, confirmed, p.now, db') else forall t: TransportType :: db'.Table(t) == db.Table(t)
    requires db'.solana == db.solana && db'.flags == db.flags && (ok ==> measured && dropped && grown)
    ensures Passed(db, p, ok, db')
  {
    hide OnChainNow, Deep, IsRowOf;
    forall u | u in db.unconfirmed
      ensures Fate(db, u, p, ok, db')
    {
      FateIs(db, p, recorded, removed, confirmed, measured, dropped, grown, ok, db', u);
    }
    assert forall v :: v in db'.unconfirmed ==> v.burn in Burns(db.unconfirmed);
    forall t: TransportType
      ensures db.Table(t) <= db'.Table(t) && NewRows(db, t, p, db')
    {
      RowsAre(db, p, recorded, removed, confirmed, grown, db', t);
    }
  }

  lemma RowsAre(db: Database, p: Pass, recorded: set<BurnId>, removed: set<BurnId>, confirmed: seq<Unconfirmed>, grown: bool,
                db': Database, t: TransportType)
    requires Lists(db, p, recorded, removed, confirmed)
    requires if grown then GrewBy(db, confirmed, p.now, db') else db'.Table(t) == db.Table(t)
    ensures db.Table(t) <= db'.Table(t) && NewRows(db, t, p, db')
  {
    hide OnChainNow, Deep, IsRowOf;
    forall k | |db.Table(t)| <= k < |db'.Table(t)|
      ensures EligibleRow(db, t, p, db'.Table(t)[k])
    {
      assert RowFor(confirmed, t, db'.Table(t)[k], p.now);
      var u :| u in confirmed && u.kind == t && IsRowOf(db'.Table(t)[k], u, p.now);
      assert u.burn in Burns(confirmed);
      assert Eligible(u, t, p);
    }
  }

  lemma RowsDistinct(db: Database)
    requires LocationInv(db)
    ensures Distinct(db.unconfirmed)
  {
  }

  lemma FateIs(db: Database, p: Pass, recorded: set<BurnId>, removed: set<BurnId>, confirmed: seq<Unconfirmed>,
               measured: bool, dropped: bool, grown: bool, ok: bool, db': Database, u: Unconfirmed)
    requires LocationInv(db) && Lists(db, p, recorded, removed, confirmed) && u in db.unconfirmed
    requires Left(db, db', if measured then recorded else {}, p.newHeight,
                  (if dropped then removed else {}) + (if grown then Burns(confirmed) else {}))
    requires if grown then GrewBy(db, confirmed, p.now, db') else forall t: TransportType :: db'.Table(t) == db.Table(t)
    requires ok ==> measured && dropped && grown
    ensures Fate(db, u, p, ok, db')
  {
    hide OnChainNow, Deep, IsRowOf, LocationInv, GrewBy;
    assert Marked(u, {}, p.newHeight) == u;
    if u.time < p.before && !OnChainNow(p.onChain, u) && dropped {
      GoneIs(db, p, recorded, removed, confirmed, grown, db', u);
    }
    if u.time < p.before && OnChainNow(p.onChain, u) && Deep(u, p.height, p.confirmations) && grown {
      RowsDistinct(db);
      QueuedIs(db, p, confirmed, db', u);
    }
    NoHeightIsShallow(u, p);
  }

  lemma NoHeightIsShallow(u: Unconfirmed, p: Pass)
    ensures u.height.None? ==> !Deep(u, p.height, p.confirmations)
  {
  }

  lemma GoneIs(db: Database, p: Pass, recorded: set<BurnId>, removed: set<BurnId>, confirmed: seq<Unconfirmed>, grown: bool,
               db': Database, u: Unconfirmed)
    requires LocationInv(db) && Lists(db, p, recorded, removed, confirmed) && u in db.unconfirmed && u.burn in removed
    requires forall v :: v in db'.unconfirmed ==> v.burn != u.burn
    requires if grown then GrewBy(db, confirmed, p.now, db') else forall t: TransportType :: db'.Table(t) == db.Table(t)
    ensures Gone(db', u.burn)
  {
    hide Deep;
    forall t: TransportType
      ensures u.burn !in RowBurns(db'.Table(t))
    {
      assert u.burn in Burns(db.unconfirmed) && u.burn !in RowBurns(db.Table(t));
      forall k | 0 <= k < |db'.Table(t)|
        ensures db'.Table(t)[k].burn != u.burn
      {
        RowsAre(db, p, recorded, removed, confirmed, grown, db', t);
        if k < |db.Table(t)| {
          assert db'.Table(t)[k] == db.Table(t)[k] && db.Table(t)[k] in db.Table(t);
        } else {
          assert RowFor(confirmed, t, db'.Table(t)[k], p.now);
          var v :| v in confirmed && v.kind == t && IsRowOf(db'.Table(t)[k], v, p.now);
          assert v.burn in Burns(confirmed);
        }
      }
    }
  }

  lemma QueuedIs(db: Database, p: Pass, confirmed: seq<Unconfirmed>, db': Database, u: Unconfirmed)
    requires Distinct(db.unconfirmed) && (forall v :: v in confirmed ==> v in db.unconfirmed) && u in db.unconfirmed
    requires u.burn in Burns(confirmed) && GrewBy(db, confirmed, p.now, db')
    requires forall v :: v in db'.unconfirmed ==> v.burn != u.burn
    ensures Queued(db, u, p.now, db')
  {
    hide IsRowOf;
    OneRowPerBurn(db.unconfirmed);
    assert u in confirmed;
    assert HasNewRow(db, u, p.now, db');
  }

  // ---------- the whole pass ----------

  /** A pass that stops before its first call. */
  lemma NothingPassed(db: Database, p: Pass)
    ensures Passed(db, p, false, db)
  {
    hide OnChainNow, Deep;
    forall t: TransportType
      ensures NewRows(db, t, p, db)
    {
    }
  }

  /** Whatever becomes of the three calls, every burn meets its fate. */
  lemma PassIs(db: Database, queueSizeLimit: nat, us: seq<Unconfirmed>, p: Pass, commits: PassCommits)
    requires Inv(db, queueSizeLimit) && Answers(p.onChain, us)
    requires forall u :: u in us <==> u in db.unconfirmed && u.time < p.before
    ensures var (ok, db') := PassOutcome(db, us, p.onChain, p.height, p.confirmations, p.newHeight, p.now, commits);
            Passed(db, p, ok, db')
  {
    hide Inv, Chosen, RemoveOutcome, ConfirmOutcome, Passed, GrewBy, Drops, Left, Burns;
    if !commits.setHeights {
      NothingPassed(db, p);
    } else {
      var recorded := Chosen(us, RecordHeight, p.onChain, p.height, p.confirmations);
      var removed := Chosen(us, Remove, p.onChain, p.height, p.confirmations);
      var confirmed := Chosen(us, Confirm, p.onChain, p.height, p.confirmations);
      LedgerFacts(db, queueSizeLimit);
      ListsAre(db, us, p);
      ListsStayInTable(db, queueSizeLimit, us, p.onChain, p.height, p.confirmations, p.newHeight, commits.remove);
      var db1 := AfterHeights(db, us, p.onChain, p.height, p.confirmations, p.newHeight);
      HeightsLeave(db, recorded, p.newHeight);
      RemovalPasses(db, queueSizeLimit, p, recorded, removed, confirmed, db1, commits);
    }
  }

  lemma LedgerFacts(db: Database, queueSizeLimit: nat)
    requires Inv(db, queueSizeLimit)
    ensures LocationInv(db) && Distinct(db.unconfirmed) && Base(db)
  {
  }

  lemma RemovalPasses(db: Database, queueSizeLimit: nat, p: Pass, recorded: seq<Unconfirmed>, removed: seq<Unconfirmed>,
                      confirmed: seq<Unconfirmed>, db1: Database, commits: PassCommits)
    requires LocationInv(db) && Lists(db, p, Burns(recorded), Burns(removed), confirmed) && Inv(db1, queueSizeLimit)
    requires SameRest(db, db1) && Left(db, db1, Burns(recorded), p.newHeight, {})
    requires var db2 := RemoveOutcome(db1, removed, commits.remove).1; Inv(db2, queueSizeLimit) && RowsOf(db2, confirmed)
    ensures var (ok2, db2) := RemoveOutcome(db1, removed, commits.remove);
            var (ok, db') := if !ok2 then (false, db2) else ConfirmOutcome(db2, confirmed, p.now, commits.confirm);
            Passed(db, p, ok, db')
  {
    hide Inv, RemoveOutcome, ConfirmOutcome, Passed, GrewBy, Lists, LocationInv, RowsOf, Burns, Left, Drops;
    LedgerFacts(db1, queueSizeLimit);
    RemovalDrops(db1, removed, commits.remove);
    var (ok2, db2) := RemoveOutcome(db1, removed, commits.remove);
    var dropped := Drops(db1, db2, Burns(removed));
    TablesOnly(db, db2);
    assert {} + Burns(removed) == Burns(removed) == Burns(removed) + {};
    if dropped {
      Dropped(db, db1, db2, Burns(recorded), p.newHeight, {}, Burns(removed));
    }
    if !ok2 {
      var none: set<BurnId> := {};
      assert none + none == none;
      FatesAre(db, p, Burns(recorded), Burns(removed), confirmed, true, dropped, false, false, db2);
    } else {
      ConfirmationPasses(db, queueSizeLimit, p, recorded, removed, confirmed, db2, commits);
    }
  }

  lemma Dropped(db: Database, mid: Database, db': Database, recorded: set<BurnId>, height: nat, gone: set<BurnId>,
                more: set<BurnId>)
    requires Left(db, mid, recorded, height, gone) && Drops(mid, db', more)
    ensures Left(db, db', recorded, height, gone + more)
  {
    LeftDrops(db, mid, db', recorded, height, gone, more);
  }

  lemma ConfirmationPasses(db: Database, queueSizeLimit: nat, p: Pass, recorded: seq<Unconfirmed>, removed: seq<Unconfirmed>,
                           confirmed: seq<Unconfirmed>, db2: Database, commits: PassCommits)
    requires LocationInv(db) && Lists(db, p, Burns(recorded), Burns(removed), confirmed)
    requires SameRest(db, db2) && Left(db, db2, Burns(recorded), p.newHeight, Burns(removed))
    requires Inv(db2, queueSizeLimit) && RowsOf(db2, confirmed)
    ensures var (ok, db') := ConfirmOutcome(db2, confirmed, p.now, commits.confirm); Passed(db, p, ok, db')
  {
    hide Inv, ConfirmOutcome, Passed, Lists, LocationInv, RowsOf, Burns, Left, Drops, GrewBy;
    ConfirmationDrops(db2, queueSizeLimit, confirmed, p.now, commits.confirm);
    var (ok, db') := ConfirmOutcome(db2, confirmed, p.now, commits.confirm);
    TablesOnly(db, db2);
    assert Burns(removed) + {} == Burns(removed);
    if !ok && db' == db2 {
      FatesAre(db, p, Burns(recorded), Burns(removed), confirmed, true, true, false, false, db2);
    } else {
      Dropped(db, db2, db', Burns(recorded), p.newHeight, Burns(removed), Burns(confirmed));
      SameBase(db, db2, confirmed, p.now, db');
      FatesAre(db, p, Burns(recorded), Burns(removed), confirmed, true, true, true, ok, db');
    }
  }

  lemma SameBase(db: Database, db2: Database, us: seq<Unconfirmed>, now: Time, db': Database)
    requires GrewBy(db2, us, now, db') && forall t: TransportType :: db2.Table(t) == db.Table(t)
    ensures GrewBy(db, us, now, db')
  {
    hide IsRowOf;
    forall u | u in us
      ensures HasNewRow(db, u, now, db')
    {
      assert HasNewRow(db2, u, now, db');
    }
  }

  // ---------- when a pass succeeds ----------

  lemma {:induction false} RemovedSumsLess(db: Database, us: seq<Unconfirmed>, p: Pick)
    ensures Sum(RemoveAll(db, us).unconfirmed, p) <= Sum(db.unconfirmed, p)
  {
    if us != [] {
      var mid := RemoveAll(db, us[..|us| - 1]);
      RemovedSumsLess(db, us[..|us| - 1], p);
      WithoutSumsLess(mid.unconfirmed, us[|us| - 1].burn, p);
    }
  }

  lemma EndAfterRemoval(db: Database, recorded: seq<BurnId>, height: nat, removed: seq<Unconfirmed>)
    ensures var db1 := db.(unconfirmed := SetHeights(db.unconfirmed, recorded, height));
            PreminedEndSupply(RemoveAll(db1, removed)) <= PreminedEndSupply(db)
  {
    var db1 := db.(unconfirmed := SetHeights(db.unconfirmed, recorded, height));
    SetHeightsEffect(db.unconfirmed, recorded, height);
    SumIgnoresHeights(db.unconfirmed, db1.unconfirmed, OfKind(Premined));
    RemovedSumsLess(db1, removed, OfKind(Premined));
    RemoveAllTables(db1, removed);
  }

  lemma DistinctRepeatsNone(us: seq<Unconfirmed>)
    requires Distinct(us)
    ensures !RepeatsPremined(us)
  {
    assert Repeat(us, 1) == [] + us == us;
    RepeatedIff(us, 0);
  }

  /** With the premined accounts in order and premined supply within bigint, a pass over a list that came once succeeds if its
      calls do. */
  lemma PassSucceeds(db: Database, queueSizeLimit: nat, us: seq<Unconfirmed>, p: Pass)
    requires Inv(db, queueSizeLimit) && PreminedInv(db) && FromTable(db, us) && Answers(p.onChain, us)
    requires PreminedEndSupply(db) <= MAX_INT64
    ensures PassOutcome(db, us, p.onChain, p.height, p.confirmations, p.newHeight, p.now,
                        PassCommits(true, Commits, Commits)).0
  {
    hide Inv, Base, PreminedInv, Chosen, RemoveAll, ConfirmAll, FromTable, PreminedEndSupply, RepeatsPremined;
    var recorded := Chosen(us, RecordHeight, p.onChain, p.height, p.confirmations);
    var removed := Chosen(us, Remove, p.onChain, p.height, p.confirmations);
    var confirmed := Chosen(us, Confirm, p.onChain, p.height, p.confirmations);
    var db1 := AfterHeights(db, us, p.onChain, p.height, p.confirmations, p.newHeight);
    assert RowsOf(db, us) && Distinct(us) by { FromTableIs(db, us); }
    ListsStayInTable(db, queueSizeLimit, us, p.onChain, p.height, p.confirmations, p.newHeight, Commits);
    ChosenDistinct(us, Remove, p.onChain, p.height, p.confirmations);
    ChosenDistinct(us, Confirm, p.onChain, p.height, p.confirmations);
    DistinctRepeatsNone(removed);
    LedgerFacts(db1, queueSizeLimit);
    RemovedTwice(db1, removed);
    var db2 := RemoveAll(db1, removed);
    LedgerFacts(db2, queueSizeLimit);
    EndAfterRemoval(db, BurnIds(recorded), p.newHeight, removed);
    FromTableIs(db2, confirmed);
    ConfirmAllSucceeds(db2, confirmed, p.now);
  }

  /** Such a pass gives every removed premined burn back once, so that the accounts stay in order. */
  lemma PassKeepsAccounts(db: Database, queueSizeLimit: nat, us: seq<Unconfirmed>, p: Pass, commits: PassCommits)
    requires Inv(db, queueSizeLimit) && PreminedInv(db) && FromTable(db, us) && Answers(p.onChain, us)
    requires commits.remove.Commits?
    ensures var (ok, db') := PassOutcome(db, us, p.onChain, p.height, p.confirmations, p.newHeight, p.now, commits);
            ok ==> PreminedInv(db')
  {
    hide Inv, Base, PreminedInv, Chosen, RemoveOutcome, ConfirmAll, FromTable, AfterHeights;
    var removed := Chosen(us, Remove, p.onChain, p.height, p.confirmations);
    var confirmed := Chosen(us, Confirm, p.onChain, p.height, p.confirmations);
    RepeatedPassIff(db, queueSizeLimit, us, 0, p.onChain, p.height, p.confirmations, p.newHeight, p.now, commits);
    assert Repeat(us, 1) == [] + us == us && Repeat(removed, 1) == [] + removed == removed;
    FromTableIs(db, us);
    ListsStayInTable(db, queueSizeLimit, us, p.onChain, p.height, p.confirmations, p.newHeight, commits.remove);
    var db2 := RemoveOutcome(AfterHeights(db, us, p.onChain, p.height, p.confirmations, p.newHeight), removed, commits.remove).1;
    if ConfirmAll(db2, confirmed, p.now).Ok? {
      LedgerFacts(db2, queueSizeLimit);
      ConfirmAllNeedsFreshRows(db2, confirmed, p.now);
      ConfirmAllKeepsInv(db2, queueSizeLimit, confirmed, p.now);
    }
  }

  lemma FromTableIs(db: Database, us: seq<Unconfirmed>)
    ensures FromTable(db, us) <==> Distinct(us) && RowsOf(db, us)
  {
  }

  /** The premined accounts are in order and premined supply fits a bigint. */
  predicate AccountsInOrder(db: Database) {
    PreminedInv(db) && PreminedEndSupply(db) <= MAX_INT64
  }

  predicate AllAnswered(db: Database, p: Pass) {
    forall u :: u in db.unconfirmed && u.time < p.before ==> u.burn in p.onChain
  }

  lemma AnswersRead(db: Database, queueSizeLimit: nat, p: Pass, failedCommits: nat)
    requires Inv(db, queueSizeLimit)
    ensures var us := Repeat(SelectBefore(db.unconfirmed, p.before), failedCommits + 1);
            && (forall u :: u in us <==> u in db.unconfirmed && u.time < p.before)
            && (Answers(p.onChain, us) <==> AllAnswered(db, p))
  {
    hide Inv, SelectBefore, Repeat;
    LedgerFacts(db, queueSizeLimit);
    SelectBeforeIs(db.unconfirmed, p.before);
    RepeatMembers(SelectBefore(db.unconfirmed, p.before), failedCommits + 1);
  }

  /** The outcome of a pass over the burns as they are read. */
  lemma ReadPass(db: Database, queueSizeLimit: nat, p: Pass, failedCommits: nat, commits: PassCommits)
    requires Inv(db, queueSizeLimit) && AllAnswered(db, p)
    ensures var us := Repeat(SelectBefore(db.unconfirmed, p.before), failedCommits + 1);
            && Answers(p.onChain, us)
            && var (ok, db') := PassOutcome(db, us, p.onChain, p.height, p.confirmations, p.newHeight, p.now, commits);
            && Passed(db, p, ok, db')
            && (failedCommits == 0 && commits == PassCommits(true, Commits, Commits) && AccountsInOrder(db) ==> ok)
            && (failedCommits == 0 && commits.remove.Commits? && PreminedInv(db) && ok ==> PreminedInv(db'))
  {
    hide Inv, PreminedInv, SelectBefore, PassOutcome, Passed, PreminedEndSupply, Answers;
    var once := SelectBefore(db.unconfirmed, p.before);
    AnswersRead(db, queueSizeLimit, p, failedCommits);
    PassIs(db, queueSizeLimit, Repeat(once, failedCommits + 1), p, commits);
    if failedCommits == 0 {
      assert Repeat(once, 1) == [] + once == once;
      LedgerFacts(db, queueSizeLimit);
      SelectBeforeIs(db.unconfirmed, p.before);
      if PreminedInv(db) && PreminedEndSupply(db) <= MAX_INT64 {
        PassSucceeds(db, queueSizeLimit, once, p);
      }
      if PreminedInv(db) && commits.remove.Commits? {
        PassKeepsAccounts(db, queueSizeLimit, once, p, commits);
      }
    }
  }
}
