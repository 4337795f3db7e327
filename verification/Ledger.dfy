/** The transport ledger as a value: its tables, its invariant, and what each storage
    operation turns it into (transporterdb/transporterdb.go). */
module Ledger {
  import opened Common
  import opened Tables

  /** A row of unconfirmed_burns, and the request that creates it. */
  datatype Unconfirmed = Unconfirmed(
    burn: BurnId,
    amount: nat,
    recipient: SolanaAddress,
    source: Option<UnlockHash>,
    height: Option<nat>,
    time: Time,
    kind: TransportType)

  /** A row of premined_limits. */
  datatype Limit = Limit(allowedMax: int, transported: int, blocked: bool)

  datatype Settings = Settings(preliminaryQueueSizeLimit: nat, queueSizeLimit: nat)

  datatype Database = Database(
    unconfirmed: seq<Unconfirmed>,
    premined: seq<Row>,
    airdrop: seq<Row>,
    queue: seq<Row>,
    solana: SolanaTable,
    limits: map<UnlockHash, Limit>,
    flags: map<string, bool>)
  {
    function Table(t: TransportType): seq<Row> {
      match t
      case Airdrop => airdrop
      case Premined => premined
      case Regular => queue
    }

    function WithTable(t: TransportType, rows: seq<Row>): (db: Database)
      ensures forall t' :: db.Table(t') == if t' == t then rows else Table(t')
    {
      match t
      case Airdrop => this.(airdrop := rows)
      case Premined => this.(premined := rows)
      case Regular => this.(queue := rows)
    }

    /** Number of completed rows of a chain. */
    function Done(t: TransportType): nat {
      DoneCount(Table(t), solana)
    }
  }

  const EmptyDatabase := Database([], [], [], [], map[], map[], map[])

  // ---------- sums over unconfirmed burns ----------

  datatype Pick = OfKind(kind: TransportType) | OfSource(source: UnlockHash)

  predicate Picks(p: Pick, u: Unconfirmed) {
    match p
    case OfKind(kind) => u.kind == kind
    case OfSource(source) => u.kind.Premined? && u.source == Some(source)
  }

  /** SELECT COALESCE(SUM(amount), 0) over the picked burns. */
  function Sum(us: seq<Unconfirmed>, p: Pick): nat {
    if us == [] then 0
    else Sum(us[..|us| - 1], p) + (if Picks(p, us[|us| - 1]) then us[|us| - 1].amount else 0)
  }

  lemma SumAppend(us: seq<Unconfirmed>, u: Unconfirmed, p: Pick)
    ensures Sum(us + [u], p) == Sum(us, p) + (if Picks(p, u) then u.amount else 0)
  {
    assert (us + [u])[..|us|] == us;
  }

  predicate Distinct(us: seq<Unconfirmed>) {
    forall i, j :: 0 <= i < j < |us| ==> us[i].burn != us[j].burn
  }

  lemma OneRowPerBurn(us: seq<Unconfirmed>)
    requires Distinct(us)
    ensures forall u, v :: u in us && v in us && u.burn == v.burn ==> u == v
  {
    forall u, v | u in us && v in us && u.burn == v.burn
      ensures u == v
    {
      var i :| 0 <= i < |us| && us[i] == u;
      var j :| 0 <= j < |us| && us[j] == v;
    }
  }

  function Burns(us: seq<Unconfirmed>): set<BurnId> {
    set u | u in us :: u.burn
  }

  lemma BurnsAppend(us: seq<Unconfirmed>, u: Unconfirmed)
    ensures Burns(us + [u]) == Burns(us) + {u.burn}
  {
    forall b | b in Burns(us) + {u.burn}
      ensures b in Burns(us + [u])
    {
      if b == u.burn {
        assert u in us + [u];
      } else {
        var v :| v in us && v.burn == b;
        assert v in us + [u];
      }
    }
  }

  lemma BurnsWithout(us: seq<Unconfirmed>, burn: BurnId)
    ensures Burns(Without(us, burn)) == Burns(us) - {burn}
  {
    WithoutMembers(us, burn);
    forall b | b in Burns(us) - {burn}
      ensures b in Burns(Without(us, burn))
    {
      var v :| v in us && v.burn == b;
      assert v in Without(us, burn);
    }
  }

  /** DELETE ... WHERE burn_id = burn. */
  function Without(us: seq<Unconfirmed>, burn: BurnId): seq<Unconfirmed> {
    if us == [] then []
    else Without(us[..|us| - 1], burn) + (if us[|us| - 1].burn == burn then [] else [us[|us| - 1]])
  }

  lemma {:induction false} WithoutMembers(us: seq<Unconfirmed>, burn: BurnId)
    ensures forall u :: u in Without(us, burn) <==> u in us && u.burn != burn
  {
    if us != [] {
      var init, last := us[..|us| - 1], us[|us| - 1];
      WithoutMembers(init, burn);
      assert us == init + [last];
    }
  }

  lemma {:induction false} WithoutDistinct(us: seq<Unconfirmed>, burn: BurnId)
    requires Distinct(us)
    ensures Distinct(Without(us, burn))
  {
    if us != [] {
      var init, last := us[..|us| - 1], us[|us| - 1];
      WithoutDistinct(init, burn);
      WithoutMembers(init, burn);
      var rest := Without(init, burn);
      forall i | 0 <= i < |rest|
        ensures rest[i].burn != last.burn
      {
        assert rest[i] in rest;
      }
    }
  }

  lemma {:induction false} WithoutAbsent(us: seq<Unconfirmed>, burn: BurnId)
    requires forall i :: 0 <= i < |us| ==> us[i].burn != burn
    ensures Without(us, burn) == us
  {
    if us != [] {
      var init, last := us[..|us| - 1], us[|us| - 1];
      WithoutAbsent(init, burn);
      assert us == init + [last];
    }
  }

  lemma SumWithout(us: seq<Unconfirmed>, u: Unconfirmed, p: Pick)
    requires Distinct(us) && u in us
    ensures Sum(us, p) == Sum(Without(us, u.burn), p) + (if Picks(p, u) then u.amount else 0)
  {
    var i :| 0 <= i < |us| && us[i] == u;
    SumWithoutAt(us, i, p);
  }

  lemma {:induction false} SumWithoutAt(us: seq<Unconfirmed>, i: nat, p: Pick)
    requires Distinct(us) && i < |us|
    ensures Sum(us, p) == Sum(Without(us, us[i].burn), p) + (if Picks(p, us[i]) then us[i].amount else 0)
  {
    var init, last := us[..|us| - 1], us[|us| - 1];
    if i == |us| - 1 {
      assert forall j :: 0 <= j < |init| ==> init[j].burn != last.burn;
      WithoutAbsent(init, last.burn);
      assert Without(us, last.burn) == init + [] == init;
    } else {
      SumWithoutAt(init, i, p);
      SumAppend(Without(init, us[i].burn), last, p);
      assert Without(us, us[i].burn) == Without(init, us[i].burn) + [last];
    }
  }

  // ---------- invariant ----------

  predicate ChainInv(db: Database) {
    forall t: TransportType :: Chain(db.Table(t))
  }

  /** Every burn id is in at most one of the four tables, and at most once there. */
  predicate LocationInv(db: Database) {
    && Distinct(db.unconfirmed)
    && (forall t: TransportType :: TableDistinct(db.Table(t)))
    && (forall t: TransportType :: RowBurns(db.Table(t)) !! Burns(db.unconfirmed))
    && (forall t: TransportType, t': TransportType :: t != t' ==> RowBurns(db.Table(t)) !! RowBurns(db.Table(t')))
  }

  predicate UnconfirmedInv(db: Database) {
    forall u :: u in db.unconfirmed ==>
      && 0 < u.amount <= MAX_INT64
      && (u.kind.Premined? ==> u.source.Some? && u.source.value in db.limits)
  }

  /** Completion advances along every chain, and solana_id references solana_transactions. */
  predicate SolanaInv(db: Database) {
    forall t: TransportType ::
      && Orderly(db.Table(t), db.solana, db.Done(t))
      && (forall r :: r in db.Table(t) && r.solanaId.Some? ==> r.solanaId.value in db.solana)
  }

  /** Every account fits its bigint column; a removal that would take one below fails. */
  predicate InBigint(limits: map<UnlockHash, Limit>) {
    forall a :: a in limits ==> MIN_INT64 <= limits[a].transported
  }

  /** The CHECK and REFERENCES constraints around premined_limits. */
  predicate LimitsInv(db: Database) {
    && InBigint(db.limits)
    && (forall a :: a in db.limits ==>
          db.limits[a].transported <= db.limits[a].allowedMax && 0 < db.limits[a].allowedMax <= MAX_INT64)
    && (forall r :: r in db.premined ==> r.source.Some? && r.source.value in db.limits)
  }

  /** `transported` is what the address has unconfirmed plus what it has in the table. This is no
      part of the invariant: a removal that runs twice breaks it, see RemovalKeepsPreminedIff. */
  predicate PreminedInv(db: Database) {
    forall a :: a in db.limits ==> db.limits[a].transported == Sum(db.unconfirmed, OfSource(a)) + SumFrom(db.premined, a)
  }

  /** Everything burned for the queue and not yet minted, added one by one. */
  function QueueSize(db: Database): int {
    Outstanding(db.queue, db.solana) + Sum(db.unconfirmed, OfKind(Regular))
  }

  /** Regular supply once everything burned so far is minted. */
  function QueueEndSupply(db: Database): int {
    End(db.queue) + Sum(db.unconfirmed, OfKind(Regular))
  }

  function AirdropEndSupply(db: Database): int {
    End(db.airdrop) + Sum(db.unconfirmed, OfKind(Airdrop))
  }

  predicate SupplyCaps(db: Database) {
    QueueEndSupply(db) <= TOTAL_SUPPLY && AirdropEndSupply(db) <= AIRDROP_MAX
  }

  /** What holds however Solana ids were recorded. */
  predicate Base(db: Database) {
    ChainInv(db) && LocationInv(db) && UnconfirmedInv(db) && LimitsInv(db) && SupplyCaps(db)
  }

  predicate Inv(db: Database, queueSizeLimit: nat) {
    Base(db) && SolanaInv(db) && QueueSize(db) <= queueSizeLimit
  }

  /** A freshly created schema, with premined limits loaded. */
  predicate Fresh(db: Database) {
    && db.unconfirmed == [] && db.premined == [] && db.airdrop == [] && db.queue == [] && db.solana == map[]
    && forall a :: a in db.limits ==> db.limits[a].transported == 0 < db.limits[a].allowedMax <= MAX_INT64
  }

  lemma FreshInv(db: Database, queueSizeLimit: nat)
    requires Fresh(db)
    ensures Inv(db, queueSizeLimit) && PreminedInv(db)
  {
  }

  /** With the invariant, the difference of two maxima is the queue size. */
  lemma QueueSizeIsDifferenceOfMaxima(db: Database)
    requires ChainInv(db) && SolanaInv(db)
    ensures SelectMax(db.queue, AnyRow, db.solana) - SelectMax(db.queue, IsCompleted, db.solana)
            + Sum(db.unconfirmed, OfKind(Regular)) == QueueSize(db)
    ensures 0 <= SelectMax(db.queue, IsCompleted, db.solana) <= SelectMax(db.queue, AnyRow, db.solana)
    ensures SelectMax(db.queue, AnyRow, db.solana) == End(db.queue) <= MAX_INT64
    ensures SelectMax(db.queue, IsCompleted, db.solana) == EndAt(db.queue, db.Done(Regular))
  {
    assert db.queue == db.Table(Regular);
    var n := db.Done(Regular);
    MaxIsEnd(db.queue, db.solana);
    MaxCompletedIsEnd(db.queue, db.solana, n);
    OutstandingIs(db.queue, db.solana, n);
    EndGrows(db.queue, n, |db.queue|);
    EndGrows(db.queue, 0, n);
  }

  // ---------- AddUnconfirmedScpTx ----------

  predicate Known(db: Database, burn: BurnId) {
    burn in Burns(db.unconfirmed) || exists t: TransportType :: burn in RowBurns(db.Table(t))
  }

  /** The burn is new, positive, and leaves its type within its supply. */
  predicate FitsSupply(db: Database, u: Unconfirmed) {
    && !Known(db, u.burn)
    && u.amount > 0
    && (u.source.Some? ==> u.source.value in db.limits)
    && match u.kind
       case Airdrop => AirdropEndSupply(db) + u.amount <= AIRDROP_MAX
       case Regular => QueueEndSupply(db) + u.amount <= TOTAL_SUPPLY
       case Premined => u.source.Some? && FitsLimit(db.limits[u.source.value], u.amount)
  }

  /** A negative `transported` reads as a huge unsigned amount, which leaves no room. */
  predicate FitsLimit(l: Limit, amount: nat) {
    !l.blocked && 0 <= l.transported && l.transported + amount <= l.allowedMax
  }

  /** The burn fits its supply, and a regular one also the queue. */
  predicate CanAdmit(db: Database, queueSizeLimit: nat, u: Unconfirmed) {
    FitsSupply(db, u) && (u.kind.Regular? ==> QueueSize(db) + u.amount <= queueSizeLimit)
  }

  /** UPDATE premined_limits SET transported = transported + change, for a premined burn. */
  function Transported(limits: map<UnlockHash, Limit>, u: Unconfirmed, change: int): map<UnlockHash, Limit> {
    if u.kind.Premined? && u.source.Some? && u.source.value in limits then
      var l := limits[u.source.value];
      limits[u.source.value := l.(transported := l.transported + change)]
    else limits
  }

  function Admit(db: Database, u: Unconfirmed): Database {
    db.(unconfirmed := db.unconfirmed + [u], limits := Transported(db.limits, u, u.amount))
  }

  /** The lists agree on every sum except for one burn `u`, which changes them by `change`. */
  ghost predicate SumsDiffer(us: seq<Unconfirmed>, us': seq<Unconfirmed>, u: Unconfirmed, change: int) {
    forall p :: Sum(us', p) == Sum(us, p) + (if Picks(p, u) then change else 0)
  }

  lemma LimitsKeepPremined(db: Database, u: Unconfirmed, db': Database, change: int)
    requires PreminedInv(db)
    requires u.kind.Premined? ==> u.source.Some? && u.source.value in db.limits
    requires SumsDiffer(db.unconfirmed, db'.unconfirmed, u, change)
    requires db'.premined == db.premined
    requires db'.limits == Transported(db.limits, u, change)
    ensures PreminedInv(db')
  {
    forall a | a in db'.limits
      ensures db'.limits[a].transported == Sum(db'.unconfirmed, OfSource(a)) + SumFrom(db'.premined, a)
    {
      assert Picks(OfSource(a), u) <==> u.kind.Premined? && u.source.value == a;
    }
  }

  lemma AdmitSums(db: Database, u: Unconfirmed)
    ensures SumsDiffer(db.unconfirmed, Admit(db, u).unconfirmed, u, u.amount)
  {
    forall p
      ensures Sum(Admit(db, u).unconfirmed, p) == Sum(db.unconfirmed, p) + (if Picks(p, u) then u.amount else 0)
    {
      SumAppend(db.unconfirmed, u, p);
    }
  }

  lemma AdmitKeepsBase(db: Database, u: Unconfirmed)
    requires Base(db) && FitsSupply(db, u)
    ensures Base(Admit(db, u))
  {
    var db' := Admit(db, u);
    TablesOnly(db, db');
    AdmitSums(db, u);
    AdmitKeepsLocation(db, u);
    AmountFits(db, u);
    assert UnconfirmedInv(db');
    assert LimitsInv(db');
    assert SupplyCaps(db');
  }

  lemma AdmitKeepsInv(db: Database, queueSizeLimit: nat, u: Unconfirmed)
    requires Inv(db, queueSizeLimit) && CanAdmit(db, queueSizeLimit, u)
    ensures Inv(Admit(db, u), queueSizeLimit)
    ensures PreminedInv(db) ==> PreminedInv(Admit(db, u))
  {
    hide Base;
    AdmitKeepsBase(db, u);
    TablesOnly(db, Admit(db, u));
    AdmitSums(db, u);
    if PreminedInv(db) {
      LimitsKeepPremined(db, u, Admit(db, u), u.amount);
    }
  }

  lemma AdmitKeepsLocation(db: Database, u: Unconfirmed)
    requires LocationInv(db) && !Known(db, u.burn)
    ensures LocationInv(Admit(db, u))
  {
    var db' := Admit(db, u);
    TablesOnly(db, db');
    BurnsAppend(db.unconfirmed, u);
    forall i | 0 <= i < |db.unconfirmed|
      ensures db.unconfirmed[i].burn != u.burn
    {
      assert db.unconfirmed[i] in db.unconfirmed;
    }
  }

  lemma AmountFits(db: Database, u: Unconfirmed)
    requires Base(db) && FitsSupply(db, u)
    ensures u.amount <= MAX_INT64
  {
    EndGrows(db.Table(Regular), 0, |db.queue|);
    EndGrows(db.Table(Airdrop), 0, |db.airdrop|);
  }

  lemma {:induction false} SumFromNonNegative(rows: seq<Row>, source: UnlockHash, k: nat)
    requires Chain(rows) && k <= |rows|
    ensures SumFrom(rows[..k], source) >= 0
  {
    if k > 0 {
      assert rows[..k][..k - 1] == rows[..k - 1];
      SumFromNonNegative(rows, source, k - 1);
      ChainBefore(rows, k - 1);
    }
  }

  // ---------- RemoveUnconfirmed ----------

  function RemoveOne(db: Database, u: Unconfirmed): Database {
    db.(unconfirmed := Without(db.unconfirmed, u.burn),
        limits := Transported(db.limits, u, 0 - u.amount))
  }

  /** Whatever is removed, listed or not, everything but the premined accounts stays in order. */
  lemma RemoveOneKeepsBase(db: Database, u: Unconfirmed)
    requires Base(db) && InBigint(RemoveOne(db, u).limits)
    ensures Base(RemoveOne(db, u))
    ensures QueueSize(RemoveOne(db, u)) <= QueueSize(db)
  {
    hide LocationInv, LimitsInv, UnconfirmedInv, Without;
    var db' := RemoveOne(db, u);
    TablesOnly(db, db');
    RemovalKeepsLocation(db, u.burn, db');
    RemoveOneKeepsRows(db, u);
    WithoutSumsLess(db.unconfirmed, u.burn, OfKind(Regular));
    WithoutSumsLess(db.unconfirmed, u.burn, OfKind(Airdrop));
  }

  lemma RemoveOneKeepsRows(db: Database, u: Unconfirmed)
    requires UnconfirmedInv(db) && LimitsInv(db) && InBigint(RemoveOne(db, u).limits)
    ensures UnconfirmedInv(RemoveOne(db, u)) && LimitsInv(RemoveOne(db, u))
  {
    hide InBigint;
    WithoutMembers(db.unconfirmed, u.burn);
  }

  lemma {:induction false} WithoutSumsLess(us: seq<Unconfirmed>, burn: BurnId, p: Pick)
    ensures Sum(Without(us, burn), p) <= Sum(us, p)
  {
    if us != [] {
      var init, last := us[..|us| - 1], us[|us| - 1];
      WithoutSumsLess(init, burn, p);
      if last.burn == burn {
        assert Without(us, burn) == Without(init, burn);
      } else {
        SumAppend(Without(init, burn), last, p);
      }
    }
  }

  lemma TablesOnly(db: Database, db': Database)
    requires db'.premined == db.premined && db'.airdrop == db.airdrop && db'.queue == db.queue
    ensures forall t :: db'.Table(t) == db.Table(t)
    ensures db'.solana == db.solana && ChainInv(db) ==> ChainInv(db')
    ensures db'.solana == db.solana && SolanaInv(db) ==> SolanaInv(db')
  {
    forall t: TransportType
      ensures db'.Table(t) == db.Table(t)
    {
    }
  }

  lemma RemovalKeepsLocation(db: Database, burn: BurnId, db': Database)
    requires LocationInv(db)
    requires db'.unconfirmed == Without(db.unconfirmed, burn)
    requires forall t: TransportType :: db'.Table(t) == db.Table(t)
    ensures LocationInv(db')
  {
    WithoutDistinct(db.unconfirmed, burn);
    BurnsWithout(db.unconfirmed, burn);
  }

  /** Remove a list of burns one at a time. */
  function RemoveAll(db: Database, us: seq<Unconfirmed>): Database {
    if us == [] then db else RemoveOne(RemoveAll(db, us[..|us| - 1]), us[|us| - 1])
  }

  // ---------- ConfirmUnconfirmed ----------

  /** The row insertTransport writes after `prev`; a zero previous supply is stored as NULL. */
  function TransportRow(u: Unconfirmed, prev: int, now: Time): Row {
    Row(u.burn, u.recipient,
        if u.kind.Premined? then u.source else None,
        ToInt64(prev + u.amount),
        if ToInt64(prev) == 0 then None else Some(ToInt64(prev)),
        u.time,
        if u.kind.Regular? then Some(now) else None,
        None)
  }

  predicate RowAllowed(db: Database, u: Unconfirmed, r: Row) {
    && InsertAllowed(db.Table(u.kind), r)
    && (u.kind.Premined? ==> u.source.Some? && u.source.value in db.limits)
  }

  /** INSERT of the burn after the supply `prev`, which fails on a constraint violation. */
  function InsertTransport(db: Database, u: Unconfirmed, prev: int, now: Time): Result<Database> {
    var r := TransportRow(u, prev, now);
    if RowAllowed(db, u, r) then Ok(db.WithTable(u.kind, db.Table(u.kind) + [r]))
    else Err(ConstraintViolation)
  }

  /** supplyAfterTransports: the maximum over the whole table, read as an unsigned amount. */
  function SupplyAfterTransports(db: Database, t: TransportType): nat {
    ToUint64(SelectMax(db.Table(t), AnyRow, db.solana))
  }

  /** Confirm a single burn: insert after the current maximum, then delete it from unconfirmed. */
  function ConfirmOne(db: Database, u: Unconfirmed, now: Time): Result<Database> {
    match InsertTransport(db, u, SupplyAfterTransports(db, u.kind), now)
    case Err(e) => Err(e)
    case Ok(db') => Ok(db'.(unconfirmed := Without(db'.unconfirmed, u.burn)))
  }

  /** Confirm a list of burns one at a time, all or nothing. */
  function ConfirmAll(db: Database, us: seq<Unconfirmed>, now: Time): Result<Database> {
    if us == [] then Ok(db)
    else
      match ConfirmAll(db, us[..|us| - 1], now)
      case Err(e) => Err(e)
      case Ok(mid) => ConfirmOne(mid, us[|us| - 1], now)
  }

  lemma SupplyIsEnd(db: Database, t: TransportType)
    requires ChainInv(db)
    ensures SupplyAfterTransports(db, t) == End(db.Table(t))
    ensures 0 <= End(db.Table(t)) <= MAX_INT64
  {
    MaxIsEnd(db.Table(t), db.solana);
    EndGrows(db.Table(t), 0, |db.Table(t)|);
  }

  lemma EndFits(db: Database, u: Unconfirmed)
    requires Base(db) && u in db.unconfirmed
    ensures u.kind.Regular? || u.kind.Airdrop? ==> End(db.Table(u.kind)) + u.amount <= TOTAL_SUPPLY
  {
    SumWithout(db.unconfirmed, u, OfKind(u.kind));
  }

  /** With the supply the code reads, no constraint but the bigint bound can refuse a burn;
      the caps keep regular and airdrop burns below it. */
  lemma ConfirmOneSucceeds(db: Database, u: Unconfirmed, now: Time)
    requires Base(db) && u in db.unconfirmed
    ensures ConfirmOne(db, u, now).Ok? <==> End(db.Table(u.kind)) + u.amount <= MAX_INT64
    ensures u.kind.Regular? || u.kind.Airdrop? ==> ConfirmOne(db, u, now).Ok?
  {
    var rows := db.Table(u.kind);
    SupplyIsEnd(db, u.kind);
    EndFits(db, u);
    EndOfNonEmpty(rows);
    assert u.burn in Burns(db.unconfirmed);
    InsertAtEnd(rows, TransportRow(u, End(rows), now));
  }

  /** The primary key refuses a burn that is in its table already. */
  lemma ConfirmedBurnIsRefused(db: Database, u: Unconfirmed, now: Time)
    requires u.burn in RowBurns(db.Table(u.kind))
    ensures ConfirmOne(db, u, now).Err?
  {
  }

  lemma EndOfNonEmpty(rows: seq<Row>)
    requires Chain(rows)
    ensures rows == [] <==> End(rows) == 0
  {
    if rows != [] {
      EndGrows(rows, 0, |rows|);
    }
  }

  /** What a successful confirmation did: one row at the end of its chain, with the amount kept. */
  predicate Appended(db: Database, u: Unconfirmed, now: Time, db': Database) {
    && db'.Table(u.kind) == db.Table(u.kind) + [TransportRow(u, End(db.Table(u.kind)), now)]
    && (forall t :: t != u.kind ==> db'.Table(t) == db.Table(t))
    && db'.unconfirmed == Without(db.unconfirmed, u.burn)
    && db'.solana == db.solana && db'.limits == db.limits && db'.flags == db.flags
  }

  lemma ConfirmOneAppends(db: Database, u: Unconfirmed, now: Time)
    requires Base(db) && u in db.unconfirmed
    requires ConfirmOne(db, u, now).Ok?
    ensures Appended(db, u, now, ConfirmOne(db, u, now).value)
    ensures var rows := ConfirmOne(db, u, now).value.Table(u.kind);
            && Chain(rows)
            && End(rows) == End(db.Table(u.kind)) + u.amount
            && TransportRow(u, End(db.Table(u.kind)), now).Amount() == u.amount
            && rows[|rows| - 1].Before() == End(db.Table(u.kind))
  {
    var rows := db.Table(u.kind);
    ConfirmOneSucceeds(db, u, now);
    SupplyIsEnd(db, u.kind);
    EndOfNonEmpty(rows);
    ChainExtend(rows, TransportRow(u, End(rows), now));
  }

  lemma AppendKeepsOrder(rows: seq<Row>, sol: SolanaTable, r: Row)
    requires Orderly(rows, sol, DoneCount(rows, sol)) && r.solanaId.None?
    ensures DoneCount(rows + [r], sol) == DoneCount(rows, sol)
    ensures Orderly(rows + [r], sol, DoneCount(rows, sol))
    ensures Outstanding(rows + [r], sol) == Outstanding(rows, sol) + r.Amount()
  {
    DoneCountIs(rows + [r], sol, DoneCount(rows, sol));
    assert (rows + [r])[..|rows|] == rows;
  }

  lemma AppendedKeepsSolanaInv(db: Database, u: Unconfirmed, now: Time, db': Database)
    requires SolanaInv(db) && Appended(db, u, now, db')
    ensures SolanaInv(db')
    ensures forall t :: db'.Done(t) == db.Done(t)
  {
    var rows := db.Table(u.kind);
    var r := TransportRow(u, End(rows), now);
    AppendKeepsOrder(rows, db.solana, r);
    forall t
      ensures db'.Done(t) == db.Done(t)
      ensures Orderly(db'.Table(t), db'.solana, db'.Done(t))
      ensures forall q :: q in db'.Table(t) && q.solanaId.Some? ==> q.solanaId.value in db'.solana
    {
      if t != u.kind {
        assert db'.Table(t) == db.Table(t);
      }
    }
  }

  lemma AppendedKeepsPremined(db: Database, u: Unconfirmed, now: Time, db': Database)
    requires PreminedInv(db) && UnconfirmedInv(db) && Distinct(db.unconfirmed) && u in db.unconfirmed
    requires Appended(db, u, now, db')
    requires TransportRow(u, End(db.Table(u.kind)), now).Amount() == u.amount
    ensures PreminedInv(db')
  {
    var r := TransportRow(u, End(db.Table(u.kind)), now);
    assert db'.premined == db'.Table(Premined) && db.premined == db.Table(Premined);
    forall a | a in db.limits
      ensures Sum(db'.unconfirmed, OfSource(a)) + SumFrom(db'.premined, a) == db.limits[a].transported
    {
      SumWithout(db.unconfirmed, u, OfSource(a));
      SumFromAppend(db.premined, r, a);
    }
  }

  lemma AppendedKeepsLocation(db: Database, u: Unconfirmed, now: Time, db': Database)
    requires LocationInv(db) && u in db.unconfirmed && Appended(db, u, now, db')
    ensures LocationInv(db')
  {
    WithoutDistinct(db.unconfirmed, u.burn);
    BurnsWithout(db.unconfirmed, u.burn);
    var rows := db.Table(u.kind);
    RowBurnsAppend(rows, TransportRow(u, End(rows), now));
    assert u.burn in Burns(db.unconfirmed);
    forall i | 0 <= i < |rows|
      ensures rows[i].burn != u.burn
    {
      assert rows[i].burn in RowBurns(rows) by {
        assert rows[i] in rows;
      }
    }
  }

  lemma AppendedKeepsSupply(db: Database, u: Unconfirmed, now: Time, db': Database)
    requires Distinct(db.unconfirmed) && u in db.unconfirmed && Appended(db, u, now, db')
    requires End(db'.Table(u.kind)) == End(db.Table(u.kind)) + u.amount
    ensures QueueEndSupply(db') == QueueEndSupply(db)
    ensures AirdropEndSupply(db') == AirdropEndSupply(db)
  {
    assert db.queue == db.Table(Regular) && db'.queue == db'.Table(Regular);
    assert db.airdrop == db.Table(Airdrop) && db'.airdrop == db'.Table(Airdrop);
    SumWithout(db.unconfirmed, u, OfKind(Regular));
    SumWithout(db.unconfirmed, u, OfKind(Airdrop));
  }

  lemma AppendedKeepsQueueSize(db: Database, u: Unconfirmed, now: Time, db': Database)
    requires SolanaInv(db) && Distinct(db.unconfirmed) && u in db.unconfirmed && Appended(db, u, now, db')
    requires TransportRow(u, End(db.Table(u.kind)), now).Amount() == u.amount
    ensures QueueSize(db') == QueueSize(db)
  {
    var rows := db.Table(u.kind);
    AppendKeepsOrder(rows, db.solana, TransportRow(u, End(rows), now));
    assert db.queue == db.Table(Regular) && db'.queue == db'.Table(Regular);
    SumWithout(db.unconfirmed, u, OfKind(Regular));
  }

  lemma AppendedKeepsBase(db: Database, u: Unconfirmed, now: Time, db': Database)
    requires Base(db) && u in db.unconfirmed && Appended(db, u, now, db')
    requires Chain(db'.Table(u.kind))
    requires End(db'.Table(u.kind)) == End(db.Table(u.kind)) + u.amount
    ensures Base(db')
  {
    AppendedKeepsLocation(db, u, now, db');
    AppendedKeepsSupply(db, u, now, db');
    WithoutMembers(db.unconfirmed, u.burn);
    assert db'.premined == db'.Table(Premined) && db.premined == db.Table(Premined);
    assert LimitsInv(db');
  }

  lemma ConfirmOneKeepsBase(db: Database, u: Unconfirmed, now: Time)
    requires Base(db) && u in db.unconfirmed && ConfirmOne(db, u, now).Ok?
    ensures Base(ConfirmOne(db, u, now).value)
  {
    ConfirmOneAppends(db, u, now);
    AppendedKeepsBase(db, u, now, ConfirmOne(db, u, now).value);
  }

  /** Confirmation keeps every invariant; it moves supply between sums and leaves the caps alone. */
  lemma ConfirmOneKeepsInv(db: Database, queueSizeLimit: nat, u: Unconfirmed, now: Time)
    requires Inv(db, queueSizeLimit) && u in db.unconfirmed
    requires ConfirmOne(db, u, now).Ok?
    ensures var db' := ConfirmOne(db, u, now).value;
            && Inv(db', queueSizeLimit)
            && (PreminedInv(db) ==> PreminedInv(db'))
            && (forall t :: db'.Done(t) == db.Done(t))
            && QueueSize(db') == QueueSize(db)
            && QueueEndSupply(db') == QueueEndSupply(db)
            && AirdropEndSupply(db') == AirdropEndSupply(db)
  {
    hide ConfirmOne;
    var db' := ConfirmOne(db, u, now).value;
    ConfirmOneKeepsBase(db, u, now);
    ConfirmOneAppends(db, u, now);
    AppendedKeepsSolanaInv(db, u, now, db');
    AppendedKeepsSupply(db, u, now, db');
    AppendedKeepsQueueSize(db, u, now, db');
    if PreminedInv(db) {
      AppendedKeepsPremined(db, u, now, db');
    }
  }

  // ---------- batches ----------

  /** The burns are rows of unconfirmed_burns, each listed once. */
  predicate FromTable(db: Database, us: seq<Unconfirmed>) {
    && Distinct(us)
    && forall u :: u in us ==> u in db.unconfirmed
  }

  /** The burns are rows of unconfirmed_burns, perhaps listed more than once. */
  predicate RowsOf(db: Database, us: seq<Unconfirmed>) {
    forall u :: u in us ==> u in db.unconfirmed
  }

  /** The burns are values once read from unconfirmed_burns; nothing is asked about what is there now. */
  predicate Readable(us: seq<Unconfirmed>) {
    forall u :: u in us ==> u.amount <= MAX_INT64 && (u.kind.Premined? ==> u.source.Some?)
  }

  /** A removal of any list keeps everything but the premined accounts, and exactly the listed burns go. */
  lemma {:induction false} RemoveAllKeepsBase(db: Database, us: seq<Unconfirmed>)
    requires Base(db) && InBigint(RemoveAll(db, us).limits)
    ensures Base(RemoveAll(db, us)) && QueueSize(RemoveAll(db, us)) <= QueueSize(db)
    ensures forall u :: u in RemoveAll(db, us).unconfirmed
                        <==> u in db.unconfirmed && forall x :: x in us ==> x.burn != u.burn
  {
    hide Base, QueueSize;
    if us != [] {
      var init, last := us[..|us| - 1], us[|us| - 1];
      assert us == init + [last];
      FitsBefore(RemoveAll(db, init), last);
      RemoveAllKeepsBase(db, init);
      RemoveOneKeepsBase(RemoveAll(db, init), last);
      WithoutMembers(RemoveAll(db, init).unconfirmed, last.burn);
    }
  }

  lemma FitsBefore(db: Database, u: Unconfirmed)
    requires InBigint(RemoveOne(db, u).limits)
    ensures InBigint(db.limits)
  {
    forall a | a in db.limits
      ensures MIN_INT64 <= db.limits[a].transported
    {
      assert a in RemoveOne(db, u).limits;
    }
  }

  lemma {:induction false} RemoveAllTables(db: Database, us: seq<Unconfirmed>)
    ensures var db' := RemoveAll(db, us);
            && db'.premined == db.premined && db'.airdrop == db.airdrop && db'.queue == db.queue
            && db'.solana == db.solana && db'.flags == db.flags
  {
    if us != [] {
      RemoveAllTables(db, us[..|us| - 1]);
    }
  }

  lemma RemoveAllKeepsInv(db: Database, queueSizeLimit: nat, us: seq<Unconfirmed>)
    requires Inv(db, queueSizeLimit) && InBigint(RemoveAll(db, us).limits)
    ensures Inv(RemoveAll(db, us), queueSizeLimit)
    ensures forall u :: u in RemoveAll(db, us).unconfirmed
                        <==> u in db.unconfirmed && forall x :: x in us ==> x.burn != u.burn
  {
    hide Base;
    RemoveAllKeepsBase(db, us);
    RemoveAllTables(db, us);
    TablesOnly(db, RemoveAll(db, us));
  }

  // ---------- removal and the premined accounts ----------

  /** Amounts given back for burns that were listed earlier in the same list already. */
  function Excess(us: seq<Unconfirmed>, p: Pick): nat {
    if us == [] then 0
    else
      var init, last := us[..|us| - 1], us[|us| - 1];
      Excess(init, p) + (if Picks(p, last) && last.burn in Burns(init) then last.amount else 0)
  }

  /** Some premined burn is listed twice. */
  predicate RepeatsPremined(us: seq<Unconfirmed>) {
    exists i, j :: 0 <= i < j < |us| && us[i].burn == us[j].burn && us[j].kind.Premined?
  }

  lemma {:induction false} RemoveAllLimits(db: Database, us: seq<Unconfirmed>, a: UnlockHash)
    requires a in db.limits
    ensures var limits := RemoveAll(db, us).limits;
            && limits.Keys == db.limits.Keys
            && limits[a] == db.limits[a].(transported := db.limits[a].transported - Sum(us, OfSource(a)))
  {
    if us != [] {
      RemoveAllLimits(db, us[..|us| - 1], a);
    }
  }

  /** What a list gives back is what it removes, plus the excess. */
  lemma {:induction false} RemovalBalance(db: Database, us: seq<Unconfirmed>, p: Pick)
    requires Distinct(db.unconfirmed) && RowsOf(db, us)
    ensures Distinct(RemoveAll(db, us).unconfirmed)
    ensures forall u :: u in RemoveAll(db, us).unconfirmed <==> u in db.unconfirmed && u.burn !in Burns(us)
    ensures Sum(us, p) == Sum(db.unconfirmed, p) - Sum(RemoveAll(db, us).unconfirmed, p) + Excess(us, p)
  {
    if us != [] {
      var init, last := us[..|us| - 1], us[|us| - 1];
      var mid := RemoveAll(db, init);
      assert us == init + [last];
      BurnsAppend(init, last);
      RemovalBalance(db, init, p);
      WithoutMembers(mid.unconfirmed, last.burn);
      WithoutDistinct(mid.unconfirmed, last.burn);
      if last.burn in Burns(init) {
        GoneStaysGone(mid.unconfirmed, last.burn);
      } else {
        assert last in mid.unconfirmed;
        SumWithout(mid.unconfirmed, last, p);
      }
    }
  }

  lemma GoneStaysGone(us: seq<Unconfirmed>, burn: BurnId)
    requires forall u :: u in us ==> u.burn != burn
    ensures Without(us, burn) == us
  {
    forall i | 0 <= i < |us|
      ensures us[i].burn != burn
    {
      assert us[i] in us;
    }
    WithoutAbsent(us, burn);
  }

  /** Some premined burn from the address is listed twice. */
  predicate GivenTwice(us: seq<Unconfirmed>, a: UnlockHash) {
    exists i, j :: 0 <= i < j < |us| && us[i].burn == us[j].burn && Picks(OfSource(a), us[j])
  }

  lemma GivenTwiceAppend(us: seq<Unconfirmed>, u: Unconfirmed, a: UnlockHash)
    ensures GivenTwice(us + [u], a) <==> GivenTwice(us, a) || (Picks(OfSource(a), u) && u.burn in Burns(us))
  {
    var all := us + [u];
    if i, j :| 0 <= i < j < |us| && us[i].burn == us[j].burn && Picks(OfSource(a), us[j]) {
      assert all[i].burn == all[j].burn && Picks(OfSource(a), all[j]);
    }
    if Picks(OfSource(a), u) && u.burn in Burns(us) {
      var i :| 0 <= i < |us| && us[i].burn == u.burn;
      assert all[i].burn == all[|us|].burn;
    }
    if i, j :| 0 <= i < j < |all| && all[i].burn == all[j].burn && Picks(OfSource(a), all[j]) {
      assert us[i] in us;
    }
  }

  lemma {:induction false} ExcessIsRepetition(us: seq<Unconfirmed>, a: UnlockHash)
    requires forall u :: u in us ==> u.amount > 0
    ensures Excess(us, OfSource(a)) > 0 <==> GivenTwice(us, a)
  {
    hide GivenTwice;
    if us != [] {
      var init, last := us[..|us| - 1], us[|us| - 1];
      assert us == init + [last];
      ExcessIsRepetition(init, a);
      GivenTwiceAppend(init, last, a);
    } else {
      NothingGiven(a);
    }
  }

  lemma NothingGiven(a: UnlockHash)
    ensures !GivenTwice([], a)
  {
  }

  /** The premined accounts survive a removal exactly if no premined burn is listed twice; each
      account ends short by exactly the excess. */
  lemma RemovalKeepsPreminedIff(db: Database, us: seq<Unconfirmed>)
    requires Base(db) && PreminedInv(db) && RowsOf(db, us)
    ensures PreminedInv(RemoveAll(db, us)) <==> !RepeatsPremined(us)
    ensures forall a :: a in db.limits ==>
              a in RemoveAll(db, us).limits
              && RemoveAll(db, us).limits[a].transported
                 == Sum(RemoveAll(db, us).unconfirmed, OfSource(a)) + SumFrom(db.premined, a) - Excess(us, OfSource(a))
  {
    var db' := RemoveAll(db, us);
    RemoveAllTables(db, us);
    forall a | a in db.limits
      ensures a in db'.limits
      ensures db'.limits[a].transported
              == Sum(db'.unconfirmed, OfSource(a)) + SumFrom(db'.premined, a) - Excess(us, OfSource(a))
      ensures Excess(us, OfSource(a)) > 0 <==> GivenTwice(us, a)
    {
      RemoveAllLimits(db, us, a);
      RemovalBalance(db, us, OfSource(a));
      ExcessIsRepetition(us, a);
    }
    SameKeys(db, us);
    if i, j :| 0 <= i < j < |us| && us[i].burn == us[j].burn && us[j].kind.Premined? {
      assert us[j] in us;
      assert GivenTwice(us, us[j].source.value);
    }
  }

  /** Removing rows without a repeated premined one never takes an account below zero. */
  lemma OrderlyRemovalFits(db: Database, us: seq<Unconfirmed>)
    requires Base(db) && PreminedInv(db) && RowsOf(db, us) && !RepeatsPremined(us)
    ensures RemoveAll(db, us).limits.Keys == db.limits.Keys
    ensures forall a :: a in db.limits ==> 0 <= RemoveAll(db, us).limits[a].transported
  {
    RemovalKeepsPreminedIff(db, us);
    SameKeys(db, us);
    forall a | a in db.limits
      ensures 0 <= RemoveAll(db, us).limits[a].transported
    {
      RemoveAllTables(db, us);
      SumFromNonNegative(db.Table(Premined), a, |db.premined|);
      assert db.premined[..|db.premined|] == db.premined;
    }
  }

  lemma {:induction false} SameKeys(db: Database, us: seq<Unconfirmed>)
    ensures RemoveAll(db, us).limits.Keys == db.limits.Keys
  {
    if us != [] {
      SameKeys(db, us[..|us| - 1]);
    }
  }

  lemma {:induction false} RemoveAllAppend(db: Database, us: seq<Unconfirmed>, vs: seq<Unconfirmed>)
    ensures RemoveAll(db, us + vs) == RemoveAll(RemoveAll(db, us), vs)
  {
    if vs == [] {
      assert us + vs == us;
    } else {
      var init, last := vs[..|vs| - 1], vs[|vs| - 1];
      assert (us + vs)[..|us + vs| - 1] == us + init;
      RemoveAllAppend(db, us, init);
    }
  }

  // ---------- batches of confirmations ----------

  lemma {:induction false} ConfirmAllKeepsBase(db: Database, us: seq<Unconfirmed>, now: Time)
    requires Base(db) && FromTable(db, us)
    requires ConfirmAll(db, us, now).Ok?
    ensures Base(ConfirmAll(db, us, now).value)
    ensures forall u :: u in ConfirmAll(db, us, now).value.unconfirmed
                        <==> u in db.unconfirmed && forall x :: x in us ==> x.burn != u.burn
  {
    hide Base, ConfirmOne;
    if us != [] {
      var init, last := us[..|us| - 1], us[|us| - 1];
      assert us == init + [last];
      ConfirmAllKeepsBase(db, init, now);
      var mid := ConfirmAll(db, init, now).value;
      assert last in mid.unconfirmed;
      assert ConfirmOne(mid, last, now).value.unconfirmed == Without(mid.unconfirmed, last.burn) by {
        ConfirmOneAppends(mid, last, now);
      }
      assert Base(ConfirmOne(mid, last, now).value) by {
        ConfirmOneKeepsBase(mid, last, now);
      }
      WithoutMembers(mid.unconfirmed, last.burn);
    }
  }

  lemma {:induction false} ConfirmAllKeepsRest(db: Database, queueSizeLimit: nat, us: seq<Unconfirmed>, now: Time)
    requires Inv(db, queueSizeLimit) && FromTable(db, us)
    requires ConfirmAll(db, us, now).Ok?
    ensures Inv(ConfirmAll(db, us, now).value, queueSizeLimit)
    ensures PreminedInv(db) ==> PreminedInv(ConfirmAll(db, us, now).value)
  {
    hide Inv, PreminedInv, ConfirmOne;
    if us != [] {
      var init, last := us[..|us| - 1], us[|us| - 1];
      assert us == init + [last];
      ConfirmAllKeepsRest(db, queueSizeLimit, init, now);
      var mid := ConfirmAll(db, init, now).value;
      assert last in mid.unconfirmed by {
        InvIsBase(db, queueSizeLimit);
        ConfirmAllKeepsBase(db, init, now);
      }
      ConfirmOneKeepsInv(mid, queueSizeLimit, last, now);
    }
  }

  lemma InvIsBase(db: Database, queueSizeLimit: nat)
    requires Inv(db, queueSizeLimit)
    ensures Base(db) && SolanaInv(db) && QueueSize(db) <= queueSizeLimit
  {
  }

  lemma ConfirmAllKeepsInv(db: Database, queueSizeLimit: nat, us: seq<Unconfirmed>, now: Time)
    requires Inv(db, queueSizeLimit) && FromTable(db, us)
    requires ConfirmAll(db, us, now).Ok?
    ensures Inv(ConfirmAll(db, us, now).value, queueSizeLimit)
    ensures PreminedInv(db) ==> PreminedInv(ConfirmAll(db, us, now).value)
    ensures forall u :: u in ConfirmAll(db, us, now).value.unconfirmed
                        <==> u in db.unconfirmed && forall x :: x in us ==> x.burn != u.burn
  {
    hide Inv, Base;
    InvIsBase(db, queueSizeLimit);
    ConfirmAllKeepsRest(db, queueSizeLimit, us, now);
    ConfirmAllKeepsBase(db, us, now);
  }

  /** The burns were rows when they were read, and are rows still or confirmed by now. */
  predicate WereRows(db: Database, us: seq<Unconfirmed>) {
    forall u :: u in us ==> u in db.unconfirmed || u.burn in RowBurns(db.Table(u.kind))
  }

  /** A confirmation of rows, repeated or confirmed by now, succeeds only if it lists each row once
      and none is confirmed: the primary keys refuse everything else. */
  lemma {:induction false} ConfirmAllNeedsFreshRows(db: Database, us: seq<Unconfirmed>, now: Time)
    requires Base(db) && WereRows(db, us) && ConfirmAll(db, us, now).Ok?
    ensures FromTable(db, us)
    ensures forall u :: u in us ==> u.burn in RowBurns(ConfirmAll(db, us, now).value.Table(u.kind))
  {
    hide Base, ConfirmOne;
    if us != [] {
      var init, last := us[..|us| - 1], us[|us| - 1];
      assert us == init + [last];
      ConfirmAllNeedsFreshRows(db, init, now);
      var mid, db' := ConfirmAll(db, init, now).value, ConfirmAll(db, us, now).value;
      ConfirmAllKeepsBase(db, init, now);
      ConfirmAllExtends(db, init, now);
      ConfirmedStay(db, mid);
      assert last.burn !in RowBurns(mid.Table(last.kind)) by {
        if last.burn in RowBurns(mid.Table(last.kind)) {
          ConfirmedBurnIsRefused(mid, last, now);
        }
      }
      assert last in db.unconfirmed;
      FreshRowDiffers(db, init, last, mid);
      ConfirmOneAppends(mid, last, now);
      RowBurnsAppend(mid.Table(last.kind), TransportRow(last, End(mid.Table(last.kind)), now));
      AppendedExtends(mid, last, now, db');
      ConfirmedStay(mid, db');
      DistinctWith(init, last);
    }
  }

  lemma FreshRowDiffers(db: Database, us: seq<Unconfirmed>, u: Unconfirmed, db': Database)
    requires Base(db) && RowsOf(db, us) && u in db.unconfirmed
    requires forall v :: v in us ==> v.burn in RowBurns(db'.Table(v.kind))
    requires u.burn !in RowBurns(db'.Table(u.kind))
    ensures forall v :: v in us ==> v.burn != u.burn
  {
    OneRowPerBurn(db.unconfirmed);
  }

  lemma DistinctWith(us: seq<Unconfirmed>, u: Unconfirmed)
    requires Distinct(us) && forall v :: v in us ==> v.burn != u.burn
    ensures Distinct(us + [u])
  {
    forall i | 0 <= i < |us|
      ensures us[i].burn != u.burn
    {
      assert us[i] in us;
    }
  }

  lemma ConfirmedStay(db: Database, db': Database)
    requires forall t: TransportType :: db.Table(t) <= db'.Table(t)
    ensures forall t: TransportType :: RowBurns(db.Table(t)) <= RowBurns(db'.Table(t))
  {
    forall t: TransportType, b | b in RowBurns(db.Table(t))
      ensures b in RowBurns(db'.Table(t))
    {
      assert db.Table(t) <= db'.Table(t);
      var i :| 0 <= i < |db.Table(t)| && db.Table(t)[i].burn == b;
      assert db'.Table(t)[i] in db'.Table(t);
    }
  }

  // ---------- SetConfirmationHeight ----------

  /** UPDATE unconfirmed_burns SET height = h WHERE burn_id = burn. */
  function SetHeight(us: seq<Unconfirmed>, burn: BurnId, height: nat): (us': seq<Unconfirmed>)
    ensures |us'| == |us|
    ensures forall i :: 0 <= i < |us| ==>
              us'[i] == if us[i].burn == burn then us[i].(height := Some(height)) else us[i]
  {
    seq(|us|, i requires 0 <= i < |us| => if us[i].burn == burn then us[i].(height := Some(height)) else us[i])
  }

  function SetHeights(us: seq<Unconfirmed>, burns: seq<BurnId>, height: nat): seq<Unconfirmed> {
    if burns == [] then us else SetHeight(SetHeights(us, burns[..|burns| - 1], height), burns[|burns| - 1], height)
  }

  /** Only heights change, and only those of the listed burns. */
  lemma {:induction false} SetHeightsEffect(us: seq<Unconfirmed>, burns: seq<BurnId>, height: nat)
    ensures var us' := SetHeights(us, burns, height);
            && |us'| == |us|
            && forall i :: 0 <= i < |us| ==>
                 us'[i] == if us[i].burn in burns then us[i].(height := Some(height)) else us[i]
  {
    if burns != [] {
      SetHeightsEffect(us, burns[..|burns| - 1], height);
      assert burns == burns[..|burns| - 1] + [burns[|burns| - 1]];
    }
  }

  /** Same burns, except for recorded heights. */
  predicate SameButHeights(us: seq<Unconfirmed>, us': seq<Unconfirmed>) {
    && |us'| == |us|
    && forall i :: 0 <= i < |us| ==> us'[i] == us[i].(height := us'[i].height)
  }

  lemma {:induction false} SumIgnoresHeights(us: seq<Unconfirmed>, us': seq<Unconfirmed>, p: Pick)
    requires SameButHeights(us, us')
    ensures Sum(us', p) == Sum(us, p)
  {
    if us != [] {
      SumIgnoresHeights(us[..|us| - 1], us'[..|us| - 1], p);
    }
  }

  lemma SetHeightsKeepsInv(db: Database, queueSizeLimit: nat, burns: seq<BurnId>, height: nat)
    requires Inv(db, queueSizeLimit)
    ensures var db' := db.(unconfirmed := SetHeights(db.unconfirmed, burns, height));
            Inv(db', queueSizeLimit) && (PreminedInv(db) ==> PreminedInv(db'))
  {
    hide Base;
    SetHeightsEffect(db.unconfirmed, burns, height);
    HeightsKeepBase(db, SetHeights(db.unconfirmed, burns, height));
  }

  lemma HeightsKeepBase(db: Database, us': seq<Unconfirmed>)
    requires Base(db) && SameButHeights(db.unconfirmed, us')
    ensures var db' := db.(unconfirmed := us');
            && Base(db')
            && (forall t: TransportType :: db'.Table(t) == db.Table(t))
            && QueueSize(db') == QueueSize(db)
            && (SolanaInv(db) ==> SolanaInv(db'))
            && (PreminedInv(db) ==> PreminedInv(db'))
  {
    var db' := db.(unconfirmed := us');
    TablesOnly(db, db');
    forall p ensures Sum(us', p) == Sum(db.unconfirmed, p) {
      SumIgnoresHeights(db.unconfirmed, us', p);
    }
    HeightsKeepMembers(db, us');
    assert LimitsInv(db');
    assert SupplyCaps(db');
  }

  lemma HeightsKeepMembers(db: Database, us': seq<Unconfirmed>)
    requires LocationInv(db) && UnconfirmedInv(db) && SameButHeights(db.unconfirmed, us')
    ensures LocationInv(db.(unconfirmed := us')) && UnconfirmedInv(db.(unconfirmed := us'))
  {
    var db' := db.(unconfirmed := us');
    TablesOnly(db, db');
    forall u | u in us'
      ensures exists v :: v in db.unconfirmed && u == v.(height := u.height)
    {
      var i :| 0 <= i < |us'| && us'[i] == u;
      assert db.unconfirmed[i] in db.unconfirmed;
    }
    assert UnconfirmedInv(db');
    forall b | b in Burns(us')
      ensures b in Burns(db.unconfirmed)
    {
      var u :| u in us' && u.burn == b;
      var v :| v in db.unconfirmed && u == v.(height := u.height);
    }
  }

  // ---------- Solana transactions ----------

  /** AddSolanaTransaction: a new solana_transactions row, recorded in the burn's row. */
  function AddSolana(db: Database, burn: BurnId, t: TransportType, id: SolanaTxId, time: Time): Result<Database> {
    if id in db.solana then Err(UniqueViolation)
    else Ok(db.WithTable(t, SetSolanaId(db.Table(t), burn, Some(id)))
              .(solana := db.solana[id := SolanaRow(time, None, false)]))
  }

  /** RemoveSolanaTransaction: the burn's row forgets its id. */
  function RemoveSolana(db: Database, burn: BurnId, t: TransportType): Database {
    db.WithTable(t, SetSolanaId(db.Table(t), burn, None))
  }

  /** ConfirmSolana: UPDATE solana_transactions ... WHERE id = id. */
  function ConfirmSolana(db: Database, id: SolanaTxId, time: Time): Database {
    if id in db.solana
    then db.(solana := db.solana[id := db.solana[id].(confirmationTime := Some(time), confirmed := true)])
    else db
  }

  /** The transaction, if it is held, is confirmed at that time, and no other one changes. */
  predicate Confirms(sol: SolanaTable, id: SolanaTxId, time: Time, sol': SolanaTable) {
    && sol'.Keys == sol.Keys
    && (forall x :: x in sol && x != id ==> sol'[x] == sol[x])
    && (id in sol ==>
          && sol'[id].broadcastTime == sol[id].broadcastTime
          && sol'[id].confirmationTime == Some(time) && sol'[id].confirmed)
  }

  /** The databases differ at most in Solana ids and solana_transactions. */
  predicate OnlySolanaChanged(db: Database, db': Database) {
    && db'.unconfirmed == db.unconfirmed && db'.limits == db.limits
    && forall t: TransportType :: SameButIds(db.Table(t), db'.Table(t))
  }

  predicate SameButIds(rows: seq<Row>, rows': seq<Row>) {
    && |rows'| == |rows|
    && forall i :: 0 <= i < |rows| ==> rows'[i] == rows[i].(solanaId := rows'[i].solanaId)
  }

  lemma SetIdOnly(rows: seq<Row>, burn: BurnId, sid: Option<SolanaTxId>)
    ensures SameButIds(rows, SetSolanaId(rows, burn, sid)) && SameButIds(rows, rows)
  {
  }

  lemma SolanaWritesOnlyIds(db: Database, burn: BurnId, t: TransportType, id: SolanaTxId, time: Time)
    ensures id !in db.solana ==> OnlySolanaChanged(db, AddSolana(db, burn, t, id, time).value)
    ensures OnlySolanaChanged(db, RemoveSolana(db, burn, t))
    ensures OnlySolanaChanged(db, ConfirmSolana(db, id, time))
  {
    hide SameButIds;
    forall u: TransportType
      ensures SameButIds(db.Table(u), db.Table(u))
      ensures SameButIds(db.Table(u), SetSolanaId(db.Table(u), burn, Some(id)))
      ensures SameButIds(db.Table(u), SetSolanaId(db.Table(u), burn, None))
      ensures ConfirmSolana(db, id, time).Table(u) == db.Table(u)
    {
      SetIdOnly(db.Table(u), burn, Some(id));
      SetIdOnly(db.Table(u), burn, None);
    }
  }

  lemma SameButIdsKeeps(rows: seq<Row>, rows': seq<Row>)
    requires SameButIds(rows, rows')
    ensures Chain(rows) ==> Chain(rows')
    ensures TableDistinct(rows) ==> TableDistinct(rows')
    ensures RowBurns(rows') == RowBurns(rows)
    ensures forall i :: 0 <= i <= |rows| ==> EndAt(rows', i) == EndAt(rows, i)
    ensures forall a :: SumFrom(rows', a) == SumFrom(rows, a)
  {
    forall b
      ensures b in RowBurns(rows') <==> b in RowBurns(rows)
    {
      if b in RowBurns(rows') {
        var i :| 0 <= i < |rows'| && rows'[i].burn == b;
        assert rows[i] in rows;
      }
      if b in RowBurns(rows) {
        var i :| 0 <= i < |rows| && rows[i].burn == b;
        assert rows'[i] in rows';
      }
    }
    if Chain(rows) {
      forall i | 0 <= i < |rows'|
        ensures Link(rows', i)
      {
        assert Link(rows, i);
      }
    }
    forall a ensures SumFrom(rows', a) == SumFrom(rows, a) {
      SumFromSameButIds(rows, rows', a);
    }
  }

  lemma {:induction false} SumFromSameButIds(rows: seq<Row>, rows': seq<Row>, source: UnlockHash)
    requires SameButIds(rows, rows')
    ensures SumFrom(rows', source) == SumFrom(rows, source)
  {
    if rows != [] {
      SumFromSameButIds(rows[..|rows| - 1], rows'[..|rows| - 1], source);
    }
  }

  /** Solana bookkeeping alone keeps all that does not speak of completion. */
  lemma SolanaChangeKeepsBase(db: Database, db': Database)
    requires Base(db) && OnlySolanaChanged(db, db')
    ensures Base(db') && (PreminedInv(db) ==> PreminedInv(db'))
    ensures forall t: TransportType, i :: 0 <= i <= |db.Table(t)| ==> EndAt(db'.Table(t), i) == EndAt(db.Table(t), i)
  {
    forall t: TransportType
      ensures Chain(db'.Table(t)) && TableDistinct(db'.Table(t))
      ensures RowBurns(db'.Table(t)) == RowBurns(db.Table(t))
      ensures forall i :: 0 <= i <= |db.Table(t)| ==> EndAt(db'.Table(t), i) == EndAt(db.Table(t), i)
      ensures End(db'.Table(t)) == End(db.Table(t))
    {
      SameButIdsKeeps(db.Table(t), db'.Table(t));
    }
    assert SupplyCaps(db') by {
      assert db.queue == db.Table(Regular) && db'.queue == db'.Table(Regular);
      assert db.airdrop == db.Table(Airdrop) && db'.airdrop == db'.Table(Airdrop);
    }
    PreminedTableKept(db, db');
  }

  lemma PreminedTableKept(db: Database, db': Database)
    requires OnlySolanaChanged(db, db')
    ensures LimitsInv(db) ==> LimitsInv(db')
    ensures PreminedInv(db) ==> PreminedInv(db')
  {
    assert db.premined == db.Table(Premined) && db'.premined == db'.Table(Premined);
    SameButIdsKeeps(db.premined, db'.premined);
    forall r | r in db'.premined
      ensures exists q :: q in db.premined && r.source == q.source
    {
      var i :| 0 <= i < |db'.premined| && db'.premined[i] == r;
      assert db.premined[i] in db.premined;
    }
  }

  /** Solana bookkeeping that keeps the order of completion and never takes a completion
      back keeps the whole ledger invariant. */
  lemma SolanaChangeKeepsInv(db: Database, queueSizeLimit: nat, db': Database)
    requires Inv(db, queueSizeLimit) && OnlySolanaChanged(db, db') && SolanaInv(db')
    requires db.Done(Regular) <= db'.Done(Regular)
    ensures Inv(db', queueSizeLimit) && (PreminedInv(db) ==> PreminedInv(db'))
  {
    SolanaChangeKeepsBase(db, db');
    assert db.queue == db.Table(Regular) && db'.queue == db'.Table(Regular);
    OutstandingIs(db.queue, db.solana, db.Done(Regular));
    OutstandingIs(db'.queue, db'.solana, db'.Done(Regular));
    EndGrows(db.queue, db.Done(Regular), db'.Done(Regular));
  }

  /** A confirmed batch only extends the chains, with rows that have no Solana id yet. */
  predicate Extends(db: Database, db': Database) {
    && db'.solana == db.solana && db'.limits == db.limits && db'.flags == db.flags
    && forall t: TransportType ::
         && db.Table(t) <= db'.Table(t)
         && forall i :: |db.Table(t)| <= i < |db'.Table(t)| ==> db'.Table(t)[i].solanaId.None?
  }

  lemma {:induction false} ConfirmAllExtends(db: Database, us: seq<Unconfirmed>, now: Time)
    requires Base(db) && FromTable(db, us)
    requires ConfirmAll(db, us, now).Ok?
    ensures Extends(db, ConfirmAll(db, us, now).value)
  {
    hide Base, ConfirmOne, Appended;
    if us != [] {
      var init, last := us[..|us| - 1], us[|us| - 1];
      assert us == init + [last];
      ConfirmAllExtends(db, init, now);
      ConfirmAllKeepsBase(db, init, now);
      var mid, db' := ConfirmAll(db, init, now).value, ConfirmAll(db, us, now).value;
      assert Appended(mid, last, now, db') by {
        ConfirmOneAppends(mid, last, now);
      }
      AppendedExtends(mid, last, now, db');
      ExtendsTransitive(db, mid, db');
    }
  }

  lemma AppendedExtends(db: Database, u: Unconfirmed, now: Time, db': Database)
    requires Appended(db, u, now, db')
    ensures Extends(db, db')
  {
    forall t: TransportType
      ensures db.Table(t) <= db'.Table(t)
      ensures forall i :: |db.Table(t)| <= i < |db'.Table(t)| ==> db'.Table(t)[i].solanaId.None?
    {
      if t != u.kind {
        assert db'.Table(t) == db.Table(t);
      }
    }
  }

  lemma ExtendsTransitive(db: Database, mid: Database, db': Database)
    requires Extends(db, mid) && Extends(mid, db')
    ensures Extends(db, db')
  {
    forall t: TransportType
      ensures db.Table(t) <= db'.Table(t)
      ensures forall i :: |db.Table(t)| <= i < |db'.Table(t)| ==> db'.Table(t)[i].solanaId.None?
    {
      assert db.Table(t) <= mid.Table(t) <= db'.Table(t);
      assert forall i :: |db.Table(t)| <= i < |mid.Table(t)| ==> db'.Table(t)[i] == mid.Table(t)[i];
    }
  }

  // ---------- reads for minting and recovery ----------

  /** What processMints passes to mint for one burn. */
  datatype Request = Request(kind: TransportType, burn: BurnId, recipient: SolanaAddress, amount: nat,
                             totalSupply: nat)

  function ToRequest(t: TransportType, r: Row): Request {
    Request(t, r.burn, r.recipient, ToUint64(r.Amount()), ToUint64(r.Before()))
  }

  function ToRequests(t: TransportType, rows: seq<Row>): (reqs: seq<Request>)
    ensures |reqs| == |rows|
    ensures forall i :: 0 <= i < |rows| ==> reqs[i] == ToRequest(t, rows[i])
  {
    seq(|rows|, i requires 0 <= i < |rows| => ToRequest(t, rows[i]))
  }

  /** Supply of each type, as the contract or the ledger reports it. */
  datatype Supply = Supply(airdrop: int, premined: int, regular: int) {
    function Get(t: TransportType): int {
      match t
      case Airdrop => airdrop
      case Premined => premined
      case Regular => regular
    }

    function With(t: TransportType, v: int): (s: Supply)
      ensures forall t' :: s.Get(t') == if t' == t then v else Get(t')
    {
      match t
      case Airdrop => this.(airdrop := v)
      case Premined => this.(premined := v)
      case Regular => this.(regular := v)
    }
  }

  function ConfirmedSupply(db: Database): Supply {
    Supply(SelectMax(db.airdrop, HasSolanaId, db.solana),
           SelectMax(db.premined, HasSolanaId, db.solana),
           SelectMax(db.queue, IsCompleted, db.solana))
  }
}
