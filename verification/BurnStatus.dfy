/** Where a burn is and what is reported of it (TransportRecord, UnconfirmedInfo and
    TransportStatus). */
module BurnStatus {
  import opened Common
  import opened Tables
  import opened Ledger

  datatype Status = NotFound | Unconfirmed | InTheQueue | SolanaTxCreated | Completed

  /** What was burned and for whom. */
  datatype BurnInfo = BurnInfo(kind: TransportType, amount: int, recipient: SolanaAddress)

  /** SELECT * ... WHERE burn_id = burn. */
  function FindRow(rows: seq<Row>, burn: BurnId): Option<Row> {
    if rows == [] then None
    else if rows[0].burn == burn then Some(rows[0])
    else FindRow(rows[1..], burn)
  }

  function FindUnconfirmed(us: seq<Ledger.Unconfirmed>, burn: BurnId): Option<Ledger.Unconfirmed> {
    if us == [] then None
    else if us[0].burn == burn then Some(us[0])
    else FindUnconfirmed(us[1..], burn)
  }

  /** transportRecord: the tables are searched in this order. */
  function Lookup(db: Database, burn: BurnId): Option<(TransportType, Row)> {
    match FindRow(db.premined, burn)
    case Some(r) => Some((Premined, r))
    case None =>
      match FindRow(db.airdrop, burn)
      case Some(r) => Some((Airdrop, r))
      case None =>
        match FindRow(db.queue, burn)
        case Some(r) => Some((Regular, r))
        case None => None
  }

  function RowStatus(r: Row, sol: SolanaTable): Status {
    if Tables.Completed(r, sol) then Status.Completed
    else if r.solanaId.None? then InTheQueue
    else SolanaTxCreated
  }

  function StatusOf(db: Database, burn: BurnId): Status {
    match Lookup(db, burn)
    case Some((_, r)) => RowStatus(r, db.solana)
    case None => if FindUnconfirmed(db.unconfirmed, burn).Some? then Status.Unconfirmed else NotFound
  }

  function RowInfo(t: TransportType, r: Row): BurnInfo {
    BurnInfo(t, r.Amount(), r.recipient)
  }

  function RequestInfo(u: Ledger.Unconfirmed): BurnInfo {
    BurnInfo(u.kind, u.amount, u.recipient)
  }

  function InfoOf(db: Database, burn: BurnId): Option<BurnInfo> {
    match Lookup(db, burn)
    case Some((t, r)) => Some(RowInfo(t, r))
    case None =>
      match FindUnconfirmed(db.unconfirmed, burn)
      case Some(u) => Some(RequestInfo(u))
      case None => None
  }

  // ---------- the searches find what is there ----------

  lemma {:induction false} FindRowIs(rows: seq<Row>, burn: BurnId)
    ensures FindRow(rows, burn).Some? <==> burn in RowBurns(rows)
    ensures FindRow(rows, burn).Some? ==> FindRow(rows, burn).value in rows && FindRow(rows, burn).value.burn == burn
  {
    if rows != [] && rows[0].burn != burn {
      FindRowIs(rows[1..], burn);
      assert rows == [rows[0]] + rows[1..];
    }
  }

  lemma {:induction false} FindUnconfirmedIs(us: seq<Ledger.Unconfirmed>, burn: BurnId)
    ensures FindUnconfirmed(us, burn).Some? <==> burn in Burns(us)
    ensures FindUnconfirmed(us, burn).Some? ==>
              FindUnconfirmed(us, burn).value in us && FindUnconfirmed(us, burn).value.burn == burn
  {
    if us != [] && us[0].burn != burn {
      FindUnconfirmedIs(us[1..], burn);
      assert us == [us[0]] + us[1..];
    }
  }

  /** The search order does not matter: a burn is found where it is, with its own row. */
  lemma LookupIs(db: Database, t: TransportType, i: nat)
    requires LocationInv(db) && i < |db.Table(t)|
    ensures Lookup(db, db.Table(t)[i].burn) == Some((t, db.Table(t)[i]))
  {
    var burn := db.Table(t)[i].burn;
    assert db.Table(t)[i] in db.Table(t);
    assert burn in RowBurns(db.Table(t));
    forall u: TransportType
      ensures FindRow(db.Table(u), burn) == if u == t then Some(db.Table(t)[i]) else None
    {
      FindRowIs(db.Table(u), burn);
      if u == t {
        var r := FindRow(db.Table(t), burn).value;
        var j :| 0 <= j < |db.Table(t)| && db.Table(t)[j] == r;
        assert i == j;
      } else {
        assert RowBurns(db.Table(t)) !! RowBurns(db.Table(u));
      }
    }
    assert db.premined == db.Table(Premined) && db.airdrop == db.Table(Airdrop) && db.queue == db.Table(Regular);
  }

  lemma LookupNone(db: Database, burn: BurnId)
    ensures Lookup(db, burn).None? <==> forall t: TransportType :: burn !in RowBurns(db.Table(t))
  {
    FindRowIs(db.premined, burn);
    FindRowIs(db.airdrop, burn);
    FindRowIs(db.queue, burn);
    assert db.premined == db.Table(Premined) && db.airdrop == db.Table(Airdrop) && db.queue == db.Table(Regular);
  }

  lemma UnconfirmedIs(db: Database, u: Ledger.Unconfirmed)
    requires LocationInv(db) && u in db.unconfirmed
    ensures Lookup(db, u.burn).None? && FindUnconfirmed(db.unconfirmed, u.burn) == Some(u)
  {
    assert u.burn in Burns(db.unconfirmed);
    LookupNone(db, u.burn);
    FindUnconfirmedIs(db.unconfirmed, u.burn);
    var v := FindUnconfirmed(db.unconfirmed, u.burn).value;
    var i :| 0 <= i < |db.unconfirmed| && db.unconfirmed[i] == u;
    var j :| 0 <= j < |db.unconfirmed| && db.unconfirmed[j] == v;
    assert i == j;
  }

  /** A burn the ledger knows is in a transport table or in unconfirmed_burns, not both. */
  lemma InfoWhere(db: Database, burn: BurnId) returns (place: Option<(TransportType, nat)>,
                  u: Option<Ledger.Unconfirmed>)
    requires LocationInv(db)
    ensures place.Some? ==> var (t, i) := place.value; i < |db.Table(t)| && db.Table(t)[i].burn == burn
    ensures u.Some? ==> u.value in db.unconfirmed && u.value.burn == burn && place.None?
    ensures place.None? <==> Lookup(db, burn).None?
    ensures InfoOf(db, burn).Some? <==> Known(db, burn)
    ensures InfoOf(db, burn).Some? <==> place.Some? || u.Some?
    ensures InfoOf(db, burn).None? <==> StatusOf(db, burn).NotFound?
    ensures u.Some? <==> StatusOf(db, burn).Unconfirmed?
  {
    place, u := None, None;
    LookupNone(db, burn);
    FindUnconfirmedIs(db.unconfirmed, burn);
    if t: TransportType :| burn in RowBurns(db.Table(t)) {
      var i: nat :| i < |db.Table(t)| && db.Table(t)[i].burn == burn;
      place := Some((t, i));
    } else {
      u := FindUnconfirmed(db.unconfirmed, burn);
    }
  }

  // ---------- two lookups ----------

  /** TransportStatus looks the burn up twice, and the ledger may change in between. */
  function TwoLookups(first: Database, second: Database, burn: BurnId): Status {
    match Lookup(first, burn)
    case Some((_, r)) => RowStatus(r, first.solana)
    case None => if FindUnconfirmed(second.unconfirmed, burn).Some? then Status.Unconfirmed else NotFound
  }

  /** On one state of the ledger the answer is the status. A burn that is known throughout is reported as not found
      exactly if it was confirmed between the two lookups. */
  lemma MissedIff(first: Database, second: Database, burn: BurnId)
    requires LocationInv(first) && LocationInv(second) && Known(first, burn) && Known(second, burn)
    ensures TwoLookups(first, first, burn) == StatusOf(first, burn)
    ensures TwoLookups(first, second, burn).NotFound? <==> StatusOf(first, burn).Unconfirmed? && Lookup(second, burn).Some?
  {
    LookupNone(first, burn);
    LookupNone(second, burn);
    FindUnconfirmedIs(first.unconfirmed, burn);
    FindUnconfirmedIs(second.unconfirmed, burn);
  }
}
