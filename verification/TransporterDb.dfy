/** The storage object (transporterdb/transporterdb.go): every method is one serialised
    transaction. A method works on a copy of the database, which is kept on commit and
    dropped on an error. `available` says whether the transaction can be carried out. */
module TransporterDb {
  import opened Common
  import opened Tables
  import opened Ledger
  import opened StorageSpec
  import BurnStatus

  class TransporterDB {
    var db: Database
    const settings: Settings

    ghost predicate Valid()
      reads this
    {
      Inv(db, settings.queueSizeLimit)
    }

    constructor (settings: Settings, premined: map<UnlockHash, int>)
      requires forall a :: a in premined ==> 0 < premined[a] <= MAX_INT64
      ensures Valid() && PreminedInv(db) && this.settings == settings
      ensures db == EmptyDatabase.(limits := map a | a in premined :: Limit(premined[a], 0, false))
    {
      this.settings := settings;
      db := EmptyDatabase.(limits := map a | a in premined :: Limit(premined[a], 0, false));
      new;
      FreshInv(db, settings.queueSizeLimit);
    }

    // ---------- sizes and allowances ----------

    /** The sum comes back as a decimal string and is parsed as an int64, which cannot fail for
        the types with a supply cap. */
    method UnconfirmedAmount(t: TransportType) returns (r: Result<nat>)
      requires Valid()
      ensures r.Ok? <==> Sum(db.unconfirmed, OfKind(t)) <= MAX_INT64
      ensures r.Ok? ==> r.value == Sum(db.unconfirmed, OfKind(t))
      ensures !t.Premined? ==> r.Ok? && r.value <= TOTAL_SUPPLY
      ensures r.Err? ==> r.error == OutOfRange
    {
      UnconfirmedSumFits(db);
      var sum := Sum(db.unconfirmed, OfKind(t));
      if sum > MAX_INT64 {
        return Err(OutOfRange);
      }
      return Ok(ToUint64(sum));
    }

    /** Completed and total supply of the queue, as unsigned amounts. */
    method QueueState() returns (completed: nat, uncompleted: nat)
      requires Valid()
      ensures completed == EndAt(db.queue, db.Done(Regular)) && uncompleted == End(db.queue)
      ensures completed <= uncompleted
    {
      completed := ToUint64(SelectMax(db.queue, IsCompleted, db.solana));
      uncompleted := ToUint64(SelectMax(db.queue, AnyRow, db.solana));
      QueueSizeIsDifferenceOfMaxima(db);
    }

    /** A difference of two maxima plus one sum is the queue size, added up burn by burn.
        A transaction that cannot be carried out reads as an empty queue. */
    method QueueSize(available: bool) returns (size: nat)
      requires Valid()
      ensures size == if available then Ledger.QueueSize(db) else 0
      ensures available ==> (size == 0 <==> db.Done(Regular) == |db.queue| &&
                                            forall u :: u in db.unconfirmed ==> !u.kind.Regular?)
    {
      if !available {
        return 0;
      }
      var completed, uncompleted := QueueState();
      var sum := UnconfirmedAmount(Regular);
      QueueSizeIsDifferenceOfMaxima(db);
      EndGrows(db.queue, 0, |db.queue|);
      assert sum.Ok?;
      size := CurrencySub(uncompleted, completed) + sum.value;
      QueueEmptyIff(db, settings.queueSizeLimit);
    }

    method AirdropAllowance() returns (allowance: nat)
      requires Valid()
      ensures allowance == AIRDROP_MAX - AirdropEndSupply(db)
    {
      var sum := UnconfirmedAmount(Airdrop);
      SupplyIsEnd(db, Airdrop);
      assert sum.Ok?;
      allowance := CurrencySub(AIRDROP_MAX, SupplyAfterTransports(db, Airdrop) + sum.value);
    }

    /** Fails unless every address is listed once and is usable. */
    method PreminedAllowance(addresses: seq<UnlockHash>) returns (r: Result<map<UnlockHash, nat>>)
      requires Valid()
      ensures r.Ok? <==> AllDifferent(addresses) && forall a :: a in addresses ==> Usable(db, a)
      ensures r.Err? ==> r.error == NotPremined
      ensures r.Ok? ==> r.value.Keys == (set a | a in addresses)
      ensures r.Ok? ==> forall a :: a in addresses ==> r.value[a] == LimitRoom(db.limits[a])
      ensures r.Ok? && PreminedInv(db) ==> forall a :: a in addresses ==>
                r.value[a] == db.limits[a].allowedMax - Sum(db.unconfirmed, OfSource(a)) - SumFrom(db.premined, a)
    {
      var found := set a | a in addresses && a in db.limits && !db.limits[a].blocked;
      DistinctCount(addresses, found);
      if |found| != |addresses| {
        return Err(NotPremined);
      }
      var allowance: map<UnlockHash, nat> := map[];
      for i := 0 to |addresses|
        invariant allowance.Keys == set a | a in addresses[..i]
        invariant forall a :: a in addresses[..i] ==>
                    a in allowance && Usable(db, a) && allowance[a] == LimitRoom(db.limits[a])
      {
        var a := addresses[i];
        assert a in addresses && Usable(db, a);
        LimitRoomIs(db, a);
        var transported, allowedMax := ToUint64(db.limits[a].transported), ToUint64(db.limits[a].allowedMax);
        allowance := allowance[a := CurrencySub(allowedMax, transported)];
        assert addresses[..i + 1] == addresses[..i] + [a];
      }
      assert addresses[..|addresses|] == addresses;
      forall a | a in addresses && PreminedInv(db)
        ensures LimitRoom(db.limits[a]) == db.limits[a].allowedMax - Sum(db.unconfirmed, OfSource(a)) - SumFrom(db.premined, a)
      {
        LimitRoomIs(db, a);
      }
      return Ok(allowance);
    }

    /** The capacity subtraction underflows, and then reads as zero, exactly when the queue is
        larger than the limit asked about. The supply subtraction never underflows. */
    method QueueAllowance(limit: nat) returns (allowance: QueueQuote)
      requires Valid()
      ensures allowance.queueSize == Ledger.QueueSize(db)
      ensures allowance.freeCapacity
              == Min(PositivePart(limit - Ledger.QueueSize(db)), TOTAL_SUPPLY - QueueEndSupply(db))
    {
      var sum := UnconfirmedAmount(Regular);
      var completed, uncompleted := QueueState();
      QueueSizeIsDifferenceOfMaxima(db);
      EndGrows(db.queue, 0, |db.queue|);
      assert sum.Ok?;
      var queueSize := CurrencySub(uncompleted, completed) + sum.value;
      var queueEndSupply := completed + queueSize;
      var supplyLeft := CurrencySub(TOTAL_SUPPLY, queueEndSupply);
      var queueCapacityLeft := CurrencySub(limit, queueSize);
      var freeCapacity := if supplyLeft >= queueCapacityLeft then queueCapacityLeft else supplyLeft;
      return QueueQuote(freeCapacity, queueSize);
    }

    method CheckAllowance(addresses: seq<UnlockHash>, available: bool) returns (r: Result<Allowance>)
      requires Valid()
      ensures r.Ok? <==> available && AllDifferent(addresses) && forall a :: a in addresses ==> Usable(db, a)
      ensures r.Ok? ==>
                && r.value.queue.queueSize == Ledger.QueueSize(db)
                && r.value.queue.freeCapacity == Min(PositivePart(settings.preliminaryQueueSizeLimit - Ledger.QueueSize(db)),
                                                     TOTAL_SUPPLY - QueueEndSupply(db))
                && r.value.airdrop == AIRDROP_MAX - AirdropEndSupply(db)
                && r.value.premined.Keys == (set a | a in addresses)
                && forall a :: a in addresses ==> r.value.premined[a] == LimitRoom(db.limits[a])
    {
      if !available {
        return Err(StorageFailure);
      }
      var queue := QueueAllowance(settings.preliminaryQueueSizeLimit);
      var airdrop := AirdropAllowance();
      var premined: map<UnlockHash, nat> := map[];
      if |addresses| != 0 {
        var p := PreminedAllowance(addresses);
        if p.Err? {
          return Err(p.error);
        }
        premined := p.value;
      }
      return Ok(Allowance(queue, airdrop, premined));
    }

    // ---------- AddUnconfirmedScpTx ----------

    /** The allowance a burn is checked against, and the queue it would join. */
    method AllowanceFor(u: Unconfirmed) returns (r: Result<(nat, Option<QueueQuote>)>)
      requires Valid()
      requires u.kind.Premined? ==> u.source.Some?
      ensures r.Ok? <==> (u.kind.Premined? ==> Usable(db, u.source.value))
      ensures r.Err? ==> r.error == NotPremined
      ensures r.Ok? ==> r.value.0 == PositivePart(Room(db, settings, u))
      ensures r.Ok? ==> r.value.1.Some? == u.kind.Regular?
      ensures r.Ok? && u.kind.Regular? ==> r.value.1.value.queueSize == Ledger.QueueSize(db)
    {
      match u.kind {
        case Airdrop =>
          var allowance := AirdropAllowance();
          return Ok((allowance, None));
        case Premined =>
          var p := PreminedAllowance([u.source.value]);
          if p.Err? {
            assert u.source.value in [u.source.value];
            return Err(p.error);
          }
          return Ok((p.value[u.source.value], None));
        case Regular =>
          var queue := QueueAllowance(settings.queueSizeLimit);
          return Ok((queue.freeCapacity, Some(queue)));
      }
    }

    /** One run of the closure of AddUnconfirmedScpTx, committed. */
    method AdmitOnce(u: Unconfirmed) returns (r: Result<Option<QueueQuote>>)
      requires Valid()
      requires u.kind.Premined? ==> u.source.Some?
      modifies this
      ensures Valid() && (old(PreminedInv(db)) ==> PreminedInv(db))
      ensures r.Ok? <==> CanAdmit(old(db), settings.queueSizeLimit, u)
      ensures db == if r.Ok? then Admit(old(db), u.(height := None)) else old(db)
      ensures r.Err? ==> r.error == Refusal(old(db), settings, u)
      ensures r.Ok? && u.kind.Regular? ==> r.value.Some? && r.value.value.queueSize == Ledger.QueueSize(old(db))
      ensures r.Ok? && !u.kind.Regular? ==> r.value.None?
    {
      hide Inv, Known, Room, CanAdmit, PreminedInv;
      AdmittedIff(db, settings, u);
      var work := db;
      if Known(work, u.burn) {
        return Err(BurnIdExists);
      }
      if u.amount == 0 {
        return Err(ZeroAmount);
      }
      var quote := AllowanceFor(u);
      if quote.Err? {
        return Err(quote.error);
      }
      if quote.value.0 < u.amount {
        return Err(AllowanceExceeded);
      }
      RoomFits(db, settings, u);
      if u.kind.Premined? {
        // CHECK (transported <= allowed_max)
        var l := work.limits[u.source.value];
        if l.transported + ToInt64(u.amount) > l.allowedMax {
          return Err(ConstraintViolation);
        }
        work := work.(limits := work.limits[u.source.value := l.(transported := l.transported + ToInt64(u.amount))]);
      }
      // REFERENCES premined_limits(address)
      if u.source.Some? && u.source.value !in work.limits {
        return Err(ConstraintViolation);
      }
      work := work.(unconfirmed := work.unconfirmed + [u.(amount := ToInt64(u.amount), height := None)]);
      AdmitKeepsInv(db, settings.queueSizeLimit, u.(height := None));
      db := work;
      return Ok(quote.value.1);
    }

    /** A burn is admitted exactly when it is new, positive and within the room of its type, and then
        the ledger grows by it with no amount truncated. Otherwise nothing changes. If the commit
        is not acknowledged the burn is admitted and the caller told that it exists. */
    method AddUnconfirmedScpTx(u: Unconfirmed, commit: Commit) returns (r: Result<Option<QueueQuote>>)
      requires Valid()
      requires u.kind.Premined? ==> u.source.Some?
      modifies this
      ensures Valid() && (old(PreminedInv(db)) ==> PreminedInv(db))
      ensures var admitted := !commit.Unavailable? && CanAdmit(old(db), settings.queueSizeLimit, u);
              && db == (if admitted then Admit(old(db), u.(height := None)) else old(db))
              && (r.Ok? <==> admitted && commit.Commits?)
              && (r.Err? ==> r.error == if commit.Unavailable? then StorageFailure
                                        else if admitted then BurnIdExists
                                        else Refusal(old(db), settings, u))
      ensures r.Ok? && u.kind.Regular? ==> r.value.Some? && r.value.value.queueSize == Ledger.QueueSize(old(db))
      ensures r.Ok? && !u.kind.Regular? ==> r.value.None?
    {
      hide Inv, Room, CanAdmit, PreminedInv;
      if commit.Unavailable? {
        return Err(StorageFailure);
      }
      ghost var start := db;
      r := AdmitOnce(u);
      if r.Ok? && commit.Unacknowledged? {
        AdmittedOnce(start, settings, u);
        r := AdmitOnce(u);
      }
    }

    // ---------- unconfirmed burns ----------

    /** Burns older than `before`, oldest first. */
    method UnconfirmedBefore(before: Time, failedCommits: nat) returns (res: seq<Unconfirmed>)
      requires Valid()
      ensures res == Repeat(SelectBefore(db.unconfirmed, before), failedCommits + 1)
      ensures failedCommits == 0 ==> FromTable(db, res) && OldestFirst(res)
      ensures failedCommits == 0 ==> forall u :: u in res <==> u in db.unconfirmed && u.time < before
    {
      res := [];
      ghost var all := SelectBefore(db.unconfirmed, before);
      for attempt := 0 to failedCommits + 1
        invariant res == Repeat(all, attempt)
      {
        var raw := SelectBefore(db.unconfirmed, before);
        for i := 0 to |raw|
          invariant res == Repeat(all, attempt) + raw[..i]
        {
          res := res + [raw[i]];
        }
      }
      if failedCommits == 0 {
        assert Repeat(all, 1) == [] + all == all;
        SelectBeforeIs(db.unconfirmed, before);
      }
    }

    /** One run of the closure of ConfirmUnconfirmed, committed. A batch is confirmed all or nothing, with
        the outcome of confirming its burns one at a time. The supply cached per type is what the MAX
        query would return at every iteration. The returned requests are those the stored rows
        read back as. A batch that lists a row twice, or one confirmed by now, is refused. */
    method ConfirmOnce(txs: seq<Unconfirmed>, now: Time) returns (r: Result<seq<Request>>)
      requires Valid() && WereRows(db, txs)
      modifies this
      ensures Valid() && (old(PreminedInv(db)) ==> PreminedInv(db))
      ensures r.Ok? <==> ConfirmAll(old(db), txs, now).Ok?
      ensures r.Ok? ==> FromTable(old(db), txs)
      ensures db == if r.Ok? then ConfirmAll(old(db), txs, now).value else old(db)
      ensures r.Ok? ==> |r.value| == |txs|
      ensures r.Ok? ==> forall k :: 0 <= k < |txs| ==> IsRequestFor(r.value[k], txs[k]) && Stored(db, r.value[k])
    {
      hide Base, ConfirmAll, InsertTransport, SupplyAfterTransports, Inserted, FromTable, Stored, PreminedInv;
      var start, work := db, db;
      var ids: seq<BurnId>, reqs: seq<Request> := [], [];
      var supplyMap: map<TransportType, nat> := map[];
      BatchStart(start, txs, now);
      for i := 0 to |txs|
        invariant db == start && ids == BurnIds(txs[..i])
        invariant Inserted(start, txs, now, i, work)
        invariant Cached(supplyMap, work)
        invariant |reqs| == i && Requested(reqs, txs, work)
      {
        var tx := txs[i];
        ids := ids + [tx.burn];
        var supply := if tx.kind in supplyMap then supplyMap[tx.kind] else SupplyAfterTransports(work, tx.kind);
        BatchStep(start, txs, now, i, work);
        BurnIdsAppend(txs, i);
        var inserted := InsertTransport(work, tx, supply, now);
        if inserted.Err? {
          return Err(inserted.error);
        }
        StoredStays(work, inserted.value, reqs);
        work := inserted.value;
        reqs := reqs + [Request(tx.kind, tx.burn, tx.recipient, tx.amount, supply)];
        supplyMap := supplyMap[tx.kind := supply + tx.amount];
      }
      BatchEnd(start, settings.queueSizeLimit, txs, now, work);
      DeletedTables(work, txs);
      work := work.(unconfirmed := DeleteAny(work.unconfirmed, ids));
      db := work;
      return Ok(reqs);
    }

    /** If the commit of a batch is not acknowledged, the batch is confirmed and the caller told it failed. */
    method ConfirmUnconfirmed(txs: seq<Unconfirmed>, now: Time, commit: Commit) returns (r: Result<seq<Request>>)
      requires Valid() && WereRows(db, txs)
      modifies this
      ensures Valid() && (old(PreminedInv(db)) ==> PreminedInv(db))
      ensures (r.Ok?, db) == ConfirmOutcome(old(db), txs, now, commit)
      ensures r.Ok? ==> FromTable(old(db), txs)
      ensures r.Ok? ==> |r.value| == |txs|
      ensures r.Ok? ==> forall k :: 0 <= k < |txs| ==> IsRequestFor(r.value[k], txs[k]) && Stored(db, r.value[k])
    {
      hide Base, FromTable, Stored, PreminedInv;
      if commit.Unavailable? {
        return Err(StorageFailure);
      }
      ghost var start := db;
      r := ConfirmOnce(txs, now);
      if r.Ok? && commit.Unacknowledged? {
        ConfirmedOnce(start, txs, now);
        r := ConfirmOnce(txs, now);
      }
    }

    method SetConfirmationHeight(ids: seq<BurnId>, height: nat, available: bool) returns (ok: bool)
      requires Valid() && height < TWO64
      modifies this
      ensures Valid() && ok == available && (old(PreminedInv(db)) ==> PreminedInv(db))
      ensures db == if ok then old(db).(unconfirmed := SetHeights(old(db).unconfirmed, ids, height)) else old(db)
    {
      if !available {
        return false;
      }
      var start, work := db, db;
      for i := 0 to |ids|
        invariant work == start.(unconfirmed := SetHeights(start.unconfirmed, ids[..i], height))
      {
        // bigint stores the height as an int64; it is read back as an uint64.
        var stored := ToUint64(ToInt64(height));
        HeightRoundTrip(height);
        work := work.(unconfirmed := SetHeight(work.unconfirmed, ids[i], stored));
        assert ids[..i + 1][..i] == ids[..i] && ids[..i + 1][i] == ids[i];
      }
      assert ids[..|ids|] == ids;
      SetHeightsKeepsInv(start, settings.queueSizeLimit, ids, height);
      db := work;
      return true;
    }

    /** One run of the closure of RemoveUnconfirmed, committed. Burns are removed, and premined ones give
        their amounts back, once for every time they are listed. */
    method RemoveOnce(txs: seq<Unconfirmed>) returns (ok: bool)
      requires Valid() && Readable(txs)
      modifies this
      ensures Valid()
      ensures ok <==> InBigint(RemoveAll(old(db), txs).limits)
      ensures db == if ok then RemoveAll(old(db), txs) else old(db)
    {
      hide Base, RemoveAll, Transported, Deleted, InBigint;
      var start, work := db, db;
      var ids: seq<BurnId> := [];
      RemovalStart(start, txs);
      for i := 0 to |txs|
        invariant ids == BurnIds(txs[..i])
        invariant work.unconfirmed == start.unconfirmed && RemoveAll(start, txs[..i]) == Deleted(work, txs[..i])
      {
        var tx := txs[i];
        assert tx in txs;
        RemovalStep(start, txs, i, work);
        BurnIdsAppend(txs, i);
        ids := ids + [tx.burn];
        if tx.kind.Premined? {
          work := work.(limits := Transported(work.limits, tx, 0 - ToInt64(tx.amount)));
        }
      }
      assert txs[..|txs|] == txs;
      DeletedIs(work, txs);
      work := work.(unconfirmed := DeleteAny(work.unconfirmed, ids));
      // bigint out of range
      if exists a :: a in work.limits && work.limits[a].transported < MIN_INT64 {
        NotInBigint(work.limits);
        db := start;
        return false;
      }
      AllInBigint(work.limits);
      RemoveAllKeepsInv(start, settings.queueSizeLimit, txs);
      db := work;
      return true;
    }

    /** Removing rows keeps the premined accounts exactly if no premined burn is given back twice, be it
        listed twice or listed in a removal whose commit is not acknowledged. */
    method RemoveUnconfirmed(txs: seq<Unconfirmed>, commit: Commit) returns (ok: bool)
      requires Valid() && Readable(txs)
      modifies this
      ensures Valid()
      ensures (ok, db) == RemoveOutcome(old(db), txs, commit)
      ensures old(PreminedInv(db)) && RowsOf(old(db), txs) && !RepeatsPremined(txs) && !commit.Unavailable? ==>
                ok && (PreminedInv(db) <==> commit.Commits? || forall u :: u in txs ==> !u.kind.Premined?)
    {
      hide Base, RemoveAll, PreminedInv, InBigint, RepeatsPremined;
      ghost var start := db;
      RemovedTwice(start, txs);
      if commit.Unavailable? {
        return false;
      }
      ok := RemoveOnce(txs);
      if ok && commit.Unacknowledged? {
        ok := RemoveOnce(txs);
      }
    }

    method UnconfirmedInfo(burn: BurnId, available: bool) returns (r: Result<Unconfirmed>)
      ensures r.Ok? <==> available && burn in Burns(db.unconfirmed)
      ensures r.Ok? ==> r.value in db.unconfirmed && r.value.burn == burn
      ensures r.Err? ==> r.error == if available then NotExists else StorageFailure
    {
      if !available {
        return Err(StorageFailure);
      }
      BurnStatus.FindUnconfirmedIs(db.unconfirmed, burn);
      match BurnStatus.FindUnconfirmed(db.unconfirmed, burn) {
        case Some(u) => return Ok(u);
        case None => return Err(NotExists);
      }
    }

    // ---------- Solana transactions ----------

    /** Recording an id for the row at the front of its chain keeps the ledger invariant. If the commit is not
        acknowledged, the id is recorded and the caller told that it exists. */
    method AddSolanaTransaction(burn: BurnId, t: TransportType, id: SolanaTxId, time: Time, commit: Commit)
      returns (r: Result<()>)
      modifies this
      ensures var recorded := !commit.Unavailable? && id !in old(db).solana;
              && (r.Ok? <==> recorded && commit.Commits?)
              && db == (if recorded then AddSolana(old(db), burn, t, id, time).value else old(db))
              && (old(Valid()) && (IsFront(old(db), t, burn) || !recorded) ==>
                    Valid() && (old(PreminedInv(db)) ==> PreminedInv(db)))
              && (old(Valid()) && recorded && IsFront(old(db), t, burn) ==>
                    Flight(db.Table(t), db.Done(t)) == Some(id) && db.Done(t) == old(db).Done(t))
      ensures forall u :: u != t ==> db.Table(u) == old(db).Table(u)
    {
      if commit.Unavailable? {
        return Err(StorageFailure);
      }
      if id in db.solana {
        return Err(UniqueViolation);
      }
      var work := db.(solana := db.solana[id := SolanaRow(time, None, false)]);
      match t {
        case Premined => work := work.(premined := SetSolanaId(work.premined, burn, Some(id)));
        case Airdrop => work := work.(airdrop := SetSolanaId(work.airdrop, burn, Some(id)));
        case Regular => work := work.(queue := SetSolanaId(work.queue, burn, Some(id)));
      }
      assert AddSolana(db, burn, t, id, time) == Ok(work);
      hide Inv, PreminedInv;
      if Valid() && IsFront(db, t, burn) {
        FrontRecorded(db, settings.queueSizeLimit, burn, t, id, time);
      }
      db := work;
      if commit.Unacknowledged? {
        // The closure runs again and finds the id.
        return Err(UniqueViolation);
      }
      return Ok(());
    }

    /** Forgetting the id of the row at the front keeps the ledger invariant. */
    method RemoveSolanaTransaction(burn: BurnId, t: TransportType, available: bool) returns (ok: bool)
      requires Valid()
      modifies this
      ensures ok == available
      ensures db == if ok then RemoveSolana(old(db), burn, t) else old(db)
      ensures IsFront(old(db), t, burn) || !ok ==> Valid() && (old(PreminedInv(db)) ==> PreminedInv(db))
      ensures ok && IsFront(old(db), t, burn) ==> Flight(db.Table(t), db.Done(t)).None? && db.Done(t) == old(db).Done(t)
    {
      if !available {
        return false;
      }
      var work := db;
      match t {
        case Premined => work := work.(premined := SetSolanaId(work.premined, burn, None));
        case Airdrop => work := work.(airdrop := SetSolanaId(work.airdrop, burn, None));
        case Regular => work := work.(queue := SetSolanaId(work.queue, burn, None));
      }
      assert RemoveSolana(db, burn, t) == work;
      if IsFront(db, t, burn) {
        FrontForgotten(db, settings.queueSizeLimit, burn, t);
      }
      db := work;
      return true;
    }

    /** Confirming the id in flight of a chain completes exactly that row. */
    method ConfirmSolana(id: SolanaTxId, time: Time, available: bool) returns (ok: bool)
      modifies this
      ensures ok == available
      ensures db == if ok then Ledger.ConfirmSolana(old(db), id, time) else old(db)
      ensures forall t: TransportType :: db.Table(t) == old(db).Table(t)
      ensures ok ==> Confirms(old(db).solana, id, time, db.solana)
      ensures old(Valid()) && ((exists t: TransportType :: OnlyFlight(old(db), t, id)) || !ok) ==>
                Valid() && (old(PreminedInv(db)) ==> PreminedInv(db))
      ensures old(Valid()) && ok ==> forall t: TransportType :: OnlyFlight(old(db), t, id) ==>
                forall u: TransportType :: db.Done(u) == old(db).Done(u) + (if u == t then 1 else 0)
    {
      if !available {
        return false;
      }
      if t: TransportType :| Valid() && OnlyFlight(db, t, id) {
        FlightConfirmed(db, settings.queueSizeLimit, t, id, time);
      }
      if id in db.solana {
        db := db.(solana := db.solana[id := db.solana[id].(confirmationTime := Some(time), confirmed := true)]);
      }
      return true;
    }

    /** The supplies the ledger reports for comparison with the contract. Rows with an id count for the
        two tables without a join, completed rows for the queue; the notions differ by the row in flight. */
    method ConfirmedSupply(available: bool) returns (r: Result<Supply>)
      requires Valid()
      ensures r == if available then Ok(Ledger.ConfirmedSupply(db)) else Err(StorageFailure)
      ensures r.Ok? ==> forall t: TransportType ::
                r.value.Get(t) == EndAt(db.Table(t), db.Done(t)
                                                     + (if !t.Regular? && Flight(db.Table(t), db.Done(t)).Some? then 1 else 0))
    {
      if !available {
        return Err(StorageFailure);
      }
      SuppliesReported(db, settings.queueSizeLimit);
      ghost var reported := Ledger.ConfirmedSupply(db);
      assert 0 <= reported.Get(Airdrop) <= MAX_INT64;
      assert 0 <= reported.Get(Premined) <= MAX_INT64;
      assert 0 <= reported.Get(Regular) <= MAX_INT64;
      var airdrop := ToUint64(SelectMax(db.airdrop, HasSolanaId, db.solana));
      var premined := ToUint64(SelectMax(db.premined, HasSolanaId, db.solana));
      var regular := ToUint64(SelectMax(db.queue, IsCompleted, db.solana));
      return Ok(Supply(airdrop, premined, regular));
    }

    // ---------- records ----------

    /** The record of a burn in a transport table: the request it was confirmed with, the amount
        and previous supply read back from the row, and its Solana transaction. */
    method TransportRecord(burn: BurnId, available: bool) returns (r: Result<Record>)
      requires Valid()
      ensures r.Ok? <==> available && exists t: TransportType :: burn in RowBurns(db.Table(t))
      ensures r.Err? ==> r.error == if available then NotExists else StorageFailure
      ensures r.Ok? ==> r.value.request.burn == burn && Stored(db, r.value.request)
      ensures r.Ok? ==> BurnStatus.StatusOf(db, burn)
                        == if r.value.completed then BurnStatus.Completed
                           else if r.value.solanaTx.None? then BurnStatus.InTheQueue
                           else BurnStatus.SolanaTxCreated
      ensures r.Ok? ==> exists row :: row in db.Table(r.value.request.kind) && row.burn == burn
                                      && r.value.solanaTx == row.solanaId
    {
      if !available {
        return Err(StorageFailure);
      }
      BurnStatus.LookupNone(db, burn);
      BurnStatus.FindRowIs(db.premined, burn);
      BurnStatus.FindRowIs(db.airdrop, burn);
      BurnStatus.FindRowIs(db.queue, burn);
      var req, solanaId := None, None;
      if burn in RowBurns(db.premined) {
        var row := BurnStatus.FindRow(db.premined, burn).value;
        req, solanaId := Some(ToRequest(Premined, row)), row.solanaId;
        RowStored(db, Premined, row);
      } else if burn in RowBurns(db.airdrop) {
        var row := BurnStatus.FindRow(db.airdrop, burn).value;
        req, solanaId := Some(ToRequest(Airdrop, row)), row.solanaId;
        RowStored(db, Airdrop, row);
      } else if burn in RowBurns(db.queue) {
        var row := BurnStatus.FindRow(db.queue, burn).value;
        req, solanaId := Some(ToRequest(Regular, row)), row.solanaId;
        RowStored(db, Regular, row);
      } else {
        return Err(NotExists);
      }
      var completed := false;
      if solanaId.Some? {
        completed := solanaId.value in db.solana && db.solana[solanaId.value].confirmed;
      }
      return Ok(Record(req.value, solanaId, completed));
    }

    /** UncompletedPremined, UncompletedAirdrop and NextInQueue; only the queue is bounded by supply.
        Attempts whose commit failed leave their rows in the list. With nothing in flight the list is the
        next rows of the chain, in order, as often as the read was attempted. */
    method NextRequests(t: TransportType, allowedSupply: nat, failedCommits: nat) returns (res: seq<Request>)
      requires Valid() && allowedSupply <= MAX_INT64
      ensures var bound := if t.Regular? then Some(allowedSupply) else None;
              var rows, n := db.Table(t), db.Done(t);
              && res == Repeat(ToRequests(t, SelectUncompleted(rows, bound)), failedCommits + 1)
              && (Flight(rows, n).None? ==> res == Repeat(NextRows(db, t, bound), failedCommits + 1))
              && (failedCommits == 0 && Flight(rows, n).None? ==> res == NextRows(db, t, bound))
    {
      res := [];
      var bound := if t.Regular? then Some(ToInt64(allowedSupply)) else None;
      ghost var all := ToRequests(t, SelectUncompleted(db.Table(t), bound));
      for attempt := 0 to failedCommits + 1
        invariant res == Repeat(all, attempt)
      {
        var uncompleted := SelectUncompleted(db.Table(t), bound);
        for i := 0 to |uncompleted|
          invariant res == Repeat(all, attempt) + all[..i]
        {
          res := res + [ToRequest(t, uncompleted[i])];
        }
      }
      assert Repeat(all, 1) == [] + all == all;
      SolanaTableIs(db, settings.queueSizeLimit, t);
      if Flight(db.Table(t), db.Done(t)).None? {
        ChainIs(db, settings.queueSizeLimit, t);
        UncompletedIsSegment(db.Table(t), db.solana, db.Done(t), bound);
      }
    }

    /** One record per row in flight, table by table. */
    method RecordsWithUnconfirmedSolana(failedCommits: nat) returns (records: seq<(TransportType, Row)>)
      requires Valid()
      ensures records == Repeat(InFlight(db), failedCommits + 1)
      ensures forall t: TransportType, r ::
                (t, r) in records <==> db.Done(t) < |db.Table(t)| && r == db.Table(t)[db.Done(t)] && r.solanaId.Some?
    {
      hide Inv, InFlight;
      records := [];
      for attempt := 0 to failedCommits + 1
        invariant records == Repeat(InFlight(db), attempt)
      {
        var found := InFlight(db);
        for i := 0 to |found|
          invariant records == Repeat(InFlight(db), attempt) + found[..i]
        {
          records := records + [found[i]];
        }
      }
      RepeatMembers(InFlight(db), failedCommits + 1);
      InFlightIs(db, settings.queueSizeLimit);
    }

    /** Addresses still below their maximum; a depleted one spends like a regular address. */
    method FindPremined(addresses: seq<UnlockHash>, available: bool) returns (r: Result<map<UnlockHash, Limit>>)
      requires Valid()
      ensures r.Ok? <==> available
      ensures r.Ok? ==> forall a :: a in r.value <==> a in addresses && Spendable(db, a)
      ensures r.Ok? && PreminedInv(db) ==> forall a :: a in r.value ==>
                a in db.limits && Sum(db.unconfirmed, OfSource(a)) + SumFrom(db.premined, a) < db.limits[a].allowedMax
      ensures r.Ok? ==> forall a :: a in r.value ==> a in db.limits && r.value[a] == db.limits[a]
    {
      if !available {
        return Err(StorageFailure);
      }
      var records: map<UnlockHash, Limit> := map[];
      for i := 0 to |addresses|
        invariant forall a :: a in records <==> a in addresses[..i] && Spendable(db, a)
        invariant forall a :: a in records ==> a in db.limits && records[a] == db.limits[a]
      {
        var a := addresses[i];
        assert addresses[..i + 1] == addresses[..i] + [a];
        if a in db.limits && !db.limits[a].blocked && db.limits[a].transported < db.limits[a].allowedMax {
          records := records[a := db.limits[a]];
        }
      }
      assert addresses[..|addresses|] == addresses;
      return Ok(records);
    }

    // ---------- flags ----------

    /** The flag reads as written from now on, and all others read as before. */
    method SetFlag(name: string, value: bool, available: bool) returns (ok: bool)
      requires Valid()
      modifies this
      ensures Valid() && ok == available && (old(PreminedInv(db)) ==> PreminedInv(db))
      ensures db == old(db).(flags := if ok then AfterWrites(old(db).flags, [(name, value)]) else old(db).flags)
      ensures ok ==> FlagValue(db.flags, name) == value
      ensures forall other :: other != name || !ok ==> FlagValue(db.flags, other) == FlagValue(old(db).flags, other)
    {
      if !available {
        return false;
      }
      var work := db;
      if name in work.flags {
        work := work.(flags := work.flags[name := value]);
      } else {
        work := work.(flags := work.flags + map[name := value]);
      }
      FlagsKeepInv(db, settings.queueSizeLimit, work.flags);
      assert AfterWrites(db.flags, []) == db.flags;
      assert work.flags == AfterWrites(db.flags, [(name, value)]);
      db := work;
      return true;
    }

    method GetFlag(name: string, available: bool) returns (r: Result<bool>)
      ensures r.Ok? <==> available
      ensures r.Ok? ==> r.value == FlagValue(db.flags, name)
      ensures r.Err? ==> r.error == StorageFailure
    {
      if !available {
        return Err(StorageFailure);
      }
      if name in db.flags {
        return Ok(db.flags[name]);
      }
      // A missing flag is no error.
      return Ok(false);
    }
  }
}
