/** What the invariant means for whole runs. */
module Guarantees {
  import opened Results
  import opened Words
  import opened Collections
  import opened Pricing
  import opened Bookings
  import opened Tables
  import opened Transactions
  import opened Stock
  import opened Effects
  import opened Consistency
  import opened Interleaving
  import opened Invariants
  import opened Stability
  import opened Locks
  import opened Reachable
  import Steps

  ghost predicate StepsTo(s: Sys, s': Sys) {
    exists a :: Enabled(s, a) && s' == Next(s, a)
  }

  /** A run: states one action apart, from an initial one. */
  ghost predicate IsRun(run: seq<Sys>) {
    && |run| > 0 && Initial(run[0])
    && forall i {:trigger run[i]} :: 0 < i < |run| ==> StepsTo(run[i - 1], run[i])
  }

  lemma {:induction false} RunInv(run: seq<Sys>, i: nat)
    requires IsRun(run) && i < |run|
    ensures Inv(run[i])
  {
    hide Inv, Enabled, Next;
    if i == 0 {
      InitialInv(run[0]);
    } else {
      RunInv(run, i - 1);
      assert StepsTo(run[i - 1], run[i]);
      var a :| Enabled(run[i - 1], a) && run[i] == Next(run[i - 1], a);
      NextKeeps(run[i - 1], a);
    }
  }

  // Conservation

  /** In every reachable state every counter is the number of confirmed reservations that sleep there, zero where no
      row exists, and stays within its allotment. */
  lemma Conservation(run: seq<Sys>, i: nat, slot: Slot)
    requires IsRun(run) && i < |run|
    ensures var db := run[i].db;
            && |Occupants(db.reservations, slot)| == BookedAt(db.inventory, slot)
            && (slot in db.inventory ==>
                  0 <= db.inventory[slot].booked <= db.inventory[slot].allotment <= MAX_SMALLINT)
  {
    hide Inv;
    RunInv(run, i);
    Agreed(run[i]);
  }

  lemma Agreed(s: Sys)
    requires Inv(s)
    ensures RowsInBounds(s.db.inventory) && CountersAgree(s.db.inventory, s.db.reservations)
    ensures RefsAgree(s.db.reservations, s.db.refs) && RecordsSound(s.db.reservations, s.db.nights)
    ensures KeysAgree(s.db.keys, s.db.reservations) && EventsAgree(s.db.outbox, s.db.reservations)
  {
    hide Consistent;
    Agreements(s.db);
  }

  // The tables only evolve

  lemma NextEvolves(s: Sys, a: Action)
    requires Inv(s) && Enabled(s, a)
    ensures Evolves(s.db, Next(s, a).db)
  {
    hide Consistent, TxOk, Holds, Evolves, Apply, WellFormed, StepTx, Blocked, Exclusive, AllDrawn, History;
    match a
    case Run(t, e) =>
      if s.txs[t].stage == Ending {
        CommitMovesOn(s, t);
      } else {
        Unchanged(s.db);
      }
    case SetRates(plan, inputs) =>
      SetRatesOnlyRates(s.db, plan, inputs);
      RatesMoveOn(s.db, SetRatesTx(s.db, plan, inputs).db);
    case _ => Unchanged(s.db);
  }

  lemma Unchanged(db: Db)
    ensures Evolves(db, db)
  {
  }

  lemma {:induction false} RunEvolves(run: seq<Sys>, i: nat, j: nat)
    requires IsRun(run) && i <= j < |run|
    ensures Evolves(run[i].db, run[j].db)
  {
    hide Inv, Enabled, Next, Evolves, Initial;
    if i == j {
      Unchanged(run[i].db);
    } else {
      RunEvolves(run, i, j - 1);
      RunInv(run, j - 1);
      assert StepsTo(run[j - 1], run[j]);
      var a :| Enabled(run[j - 1], a) && run[j] == Next(run[j - 1], a);
      NextEvolves(run[j - 1], a);
      EvolvesTwice(run[i].db, run[j - 1].db, run[j].db);
    }
  }

  /** Price integrity over runs: a stored reservation can be read at any later time, with the same stay, nights and
      total, whatever rates have been published since; only its status can have changed, to cancelled. */
  lemma StoredPricesPersist(run: seq<Sys>, i: nat, j: nat, id: Uuid)
    requires IsRun(run) && i <= j < |run| && id in run[i].db.reservations
    ensures var before, after := ByID(run[i].db, id), ByID(run[j].db, id);
            && before.Ok? && after.Ok?
            && after.value.(status := before.value.status, cancelledAt := before.value.cancelledAt) == before.value
            && (before.value.status == Cancelled ==> after == before)
            && QuoteError(Quote(after.value.stay, after.value.nights, after.value.total)) == None
  {
    hide Inv, Enabled, Next, Initial, ByID, RecordsSound;
    RunInv(run, i);
    RunInv(run, j);
    Agreed(run[i]);
    Agreed(run[j]);
    RunEvolves(run, i, j);
    assert id in run[j].db.reservations;
    StoredReservationsRead(run[i].db, id);
    StoredReservationsRead(run[j].db, id);
    SameNights(run[i].db, run[j].db, id);
    StoredEvolves(run[i].db.reservations[id], run[j].db.reservations[id], run[i].db.nights[id], id);
    StoredPricesAddUp(run[j].db.reservations[id], run[j].db.nights[id], id);
  }

  lemma SameNights(db: Db, after: Db, id: Uuid)
    requires Evolves(db, after) && id in db.reservations && RecordsSound(db.reservations, db.nights)
    ensures id in db.nights && id in after.reservations && id in after.nights && after.nights[id] == db.nights[id]
    ensures RowEvolves(db.reservations[id], after.reservations[id])
  {
  }

  // Idempotency

  /** A transaction that has ended stays as it is. */
  lemma {:induction false} EndedStays(run: seq<Sys>, i: nat, j: nat, t: TxId)
    requires IsRun(run) && i <= j < |run|
    requires t in run[i].txs && run[i].txs[t].fate != Running
    ensures t in run[j].txs && run[j].txs[t] == run[i].txs[t]
  {
    hide Initial, Enabled, Next;
    if i == j {
    } else {
      EndedStays(run, i, j - 1, t);
      assert StepsTo(run[j - 1], run[j]);
      var a :| Enabled(run[j - 1], a) && run[j] == Next(run[j - 1], a);
      NextKeepsEnded(run[j - 1], a, t);
    }
  }

  lemma NextKeepsEnded(s: Sys, a: Action, t: TxId)
    requires Enabled(s, a) && t in s.txs && s.txs[t].fate != Running
    ensures t in Next(s, a).txs && Next(s, a).txs[t] == s.txs[t]
  {
    hide Blocked, WellFormed, Apply, StepTx;
  }

  /** Two reservations made or replayed under one key, at whatever times of a run, were asked for with the same
      request and answered with the same reservation; and only one of them made it. */
  lemma OneReservationPerKey(run: seq<Sys>, i: nat, j: nat, t: TxId, u: TxId)
    requires IsRun(run) && i <= j < |run| && t in run[i].txs && u in run[j].txs
    requires run[i].txs[t].fate == Done && run[j].txs[u].fate == Done
    requires run[i].txs[t].program.Reserving? && run[j].txs[u].program.Reserving?
    requires run[i].txs[t].program.input.key == run[j].txs[u].program.input.key
    ensures var a, b := run[i].txs[t], run[j].txs[u];
            && a.program.input.hash == b.program.input.hash
            && a.booking.Some? && b.booking.Some? && a.booking.value.id == b.booking.value.id
            && (a.owned && b.owned ==> t == u)
  {
    hide Initial, Consistent, TxsOk, Exclusive, AllDrawn;
    EndedStays(run, i, j, t);
    RunInv(run, j);
    assert Remembered(run[j], t, run[j].txs[t]) && Remembered(run[j], u, run[j].txs[u]);
  }

  /** Each key creates at most one reservation, and each reservation was created under one key. */
  lemma KeysMatchReservations(run: seq<Sys>, i: nat, key: string, other: string)
    requires IsRun(run) && i < |run| && key in run[i].db.keys
    ensures var keys := run[i].db.keys;
            && keys[key].reservation.Some? && keys[key].reservation.value in run[i].db.reservations
            && (other in keys && keys[other].reservation == keys[key].reservation ==> other == key)
  {
    hide Inv, Initial;
    RunInv(run, i);
    Agreed(run[i]);
    assert Records(run[i].db.keys, key, run[i].db.keys[key].reservation.value);
    assert other in run[i].db.keys && run[i].db.keys[other].reservation == run[i].db.keys[key].reservation ==>
        Records(run[i].db.keys, other, run[i].db.keys[key].reservation.value);
  }

  lemma FreedKey(s: Sys, s': Sys, t: TxId, u: TxId)
    requires Inv(s) && IsRunning(s, t) && s.txs[t].program.Reserving? && s.txs[t].owned
    requires Inv(s') && s'.db == s.db && t in s'.txs && s'.txs == s.txs[t := s'.txs[t]] && s'.txs[t].fate.Failed?
    requires u != t && IsRunning(s', u) && s'.txs[u].stage == Claiming
    requires s'.txs[u].program.input.key == s.txs[t].program.input.key
    ensures !Blocked(s', u) && ClaimStep(s'.db, s'.txs[u]).owned
  {
    hide Consistent, AllDrawn, History, Holds;
    var key := s.txs[t].program.input.key;
    OwnedKeyIsFree(s.db, s.txs[t]);
    forall v ensures !WaitsFor(s', u, v) {
      if v in s'.txs && v != t {
        assert Holds(s.txs[t], KeyLock(key)) && s'.txs[v] == s.txs[v];
      } else if v == t {
        HoldsNothing(s'.txs[v], KeyLock(key));
      }
    }
  }

  lemma OwnedKeyIsFree(db: Db, tx: Tx)
    requires TxOk(db, tx) && tx.fate == Running && tx.program.Reserving? && tx.owned
    ensures tx.program.input.key !in db.keys && Holds(tx, KeyLock(tx.program.input.key))
  {
  }

  /** A reservation that owns its key and fails, at any statement or from outside, leaves the key as if it had never
      been claimed: the next claimer does not wait, and owns it. */
  lemma FailedAttemptFreesKey(s: Sys, a: Action, t: TxId, u: TxId)
    requires Inv(s) && Enabled(s, a) && IsRunning(s, t) && s.txs[t].program.Reserving? && s.txs[t].owned
    requires (a.Run? || a.Stop?) && a.t == t && t in Next(s, a).txs && Next(s, a).txs[t].fate.Failed?
    requires u != t && IsRunning(Next(s, a), u) && Next(s, a).txs[u].stage == Claiming
    requires Next(s, a).txs[u].program.input.key == s.txs[t].program.input.key
    ensures var s' := Next(s, a); !Blocked(s', u) && ClaimStep(s'.db, s'.txs[u]).owned
  {
    hide Inv, Apply, WellFormed, StepTx, Blocked, Holds;
    NextKeeps(s, a);
    FreedKey(s, Next(s, a), t, u);
  }

  /** A request is never found in progress, and a claim is never reported fresh without owning its row: the statement
      that reads the key either finds another hash or a reservation to replay. */
  lemma NeverInProgress(s: Sys, t: TxId)
    requires Inv(s) && IsRunning(s, t) && s.txs[t].stage == ReadingKey
    ensures var after := ReadKeyStep(s.db, s.txs[t]);
            after.fate == Failed(KeyReused) || (after.fate == Running && after.stage == Replaying)
    ensures var claim := ReadClaim(s.db, s.txs[t].program.input.key, s.txs[t].program.input.hash);
            !claim.isFresh && claim.reservation.Some?
  {
    hide Consistent, Exclusive, AllDrawn, History;
    Agreed(s);
    Steps.ReadKeyKept(s.db, s.txs[t]);
  }

  /** A reservation that took its claim for fresh without writing a key row, and has not recorded it. */
  predicate Unclaimed(tx: Tx) {
    && tx.program.Reserving? && tx.program.input.key !in tx.writes.keys
    && Order(Quoting) <= Order(tx.stage) <= Order(Recording)
  }

  /** No statement before the recording of the key makes up for the missing row. */
  lemma UnclaimedStays(db: Db, tx: Tx, e: Env, number: int, skip: set<int>)
    requires WellFormed(tx) && Unclaimed(tx) && tx.stage != Recording
    ensures var after := StepTx(db, tx, e, number, skip); after.fate.Failed? || Unclaimed(after)
  {
    hide StepTx, WellFormed, Unclaimed;
    StagesOfUnclaimed(tx);
    if BeforeStock(tx.stage) {
      UnclaimedDrafts(db, tx, e, number, skip);
    } else {
      UnclaimedBooks(db, tx, e, number, skip);
    }
  }

  lemma StagesOfUnclaimed(tx: Tx)
    requires WellFormed(tx) && Unclaimed(tx)
    ensures BeforeStock(tx.stage) || tx.stage in {Scanning, Locking, Moving, Creating, Recording}
  {
  }

  lemma UnclaimedDrafts(db: Db, tx: Tx, e: Env, number: int, skip: set<int>)
    requires WellFormed(tx) && Unclaimed(tx) && BeforeStock(tx.stage)
    ensures var after := StepTx(db, tx, e, number, skip); after.fate.Failed? || Unclaimed(after)
  {
    hide ReadRates, PriceStay, Planned;
  }

  lemma UnclaimedBooks(db: Db, tx: Tx, e: Env, number: int, skip: set<int>)
    requires WellFormed(tx) && Unclaimed(tx)
    requires tx.stage == Scanning || tx.stage == Locking || tx.stage == Moving || tx.stage == Creating
    ensures var after := StepTx(db, tx, e, number, skip); after.fate.Failed? || Unclaimed(after)
  {
    hide MoveError, MovedRows, Create, RowDays, RowOf, NightRows;
  }

  /** The recording rejects such a transaction, and so rolls its booking back, if and only if nobody has committed a row
      under its key; if somebody has, it takes that row over. */
  lemma UnclaimedIsRejectedIff(db: Db, tx: Tx)
    requires WellFormed(tx) && Unclaimed(tx) && tx.stage == Recording && tx.fate == Running
    ensures var key, after := tx.program.input.key, RecordStep(db, tx);
            && (after.fate == Failed(KeyLost) <==> key !in db.keys)
            && (key in db.keys ==>
                  && after.fate == Running && after.stage == Announcing && key in after.writes.keys
                  && after.writes.keys[key] == db.keys[key].(reservation := Some(tx.booking.value.id)))
  {
  }

  /** But it does not happen: in no reachable state is such a transaction running. */
  lemma NobodyIsUnclaimed(run: seq<Sys>, i: nat, t: TxId)
    requires IsRun(run) && i < |run| && IsRunning(run[i], t)
    ensures !Unclaimed(run[i].txs[t])
  {
    hide Consistent, Exclusive, AllDrawn, History, Initial, StepsTo, TxOk;
    RunInv(run, i);
    OwnersHaveWritten(run[i].db, run[i].txs[t]);
  }

  lemma OwnersHaveWritten(db: Db, tx: Tx)
    requires TxOk(db, tx)
    ensures !Unclaimed(tx)
  {
    hide SameBut, Drafted, Priced, Found, Moved, CanCreate, MovedRows, RowOf, NightRows, ConfirmedMessage, GuestFor;
  }

  // Exactly-once cancellation

  /** Of all the cancellations of one reservation, at whatever times of a run, at most one commits. */
  lemma CancelledOnce(run: seq<Sys>, i: nat, j: nat, t: TxId, u: TxId)
    requires IsRun(run) && i <= j < |run| && t in run[i].txs && u in run[j].txs
    requires run[i].txs[t].fate == Done && run[j].txs[u].fate == Done
    requires run[i].txs[t].program.Cancelling? && run[j].txs[u].program.Cancelling?
    requires run[i].txs[t].booking.Some? && run[j].txs[u].booking.Some?
    requires run[i].txs[t].booking.value.id == run[j].txs[u].booking.value.id
    ensures t == u
  {
    hide Initial, Consistent, TxsOk, Exclusive, AllDrawn;
    EndedStays(run, i, j, t);
    RunInv(run, j);
    assert Remembered(run[j], t, run[j].txs[t]) && Remembered(run[j], u, run[j].txs[u]);
  }

  /** Any number of cancellations may have read the reservation as confirmed, but only one at a time gets past the
      guard. */
  lemma OneCancelsAtATime(s: Sys, t: TxId, u: TxId)
    requires Inv(s) && IsRunning(s, t) && IsRunning(s, u) && t != u
    requires s.txs[t].program.Cancelling? && s.txs[t].booking.Some? && Past(s.txs[t], Guarding)
    requires s.txs[u].program.Cancelling? && s.txs[u].booking.Some? && Past(s.txs[u], Guarding)
    ensures s.txs[u].booking.value.id != s.txs[t].booking.value.id
  {
    hide Consistent, TxOk, AllDrawn, History, WellFormed;
    assert Holds(s.txs[t], RowLock(s.txs[t].booking.value.id));
    assert Holds(s.txs[u], RowLock(s.txs[u].booking.value.id));
  }

  /** While it is there the row is still confirmed and every night has a row with something booked, so its `Release`
      never fails. */
  lemma WinnerReleases(s: Sys, t: TxId)
    requires Inv(s) && IsRunning(s, t) && s.txs[t].program.Cancelling? && s.txs[t].stage == Moving
    ensures MoveStep(s.db, s.txs[t]).fate == Running && MoveStep(s.db, s.txs[t]).stage == Announcing
  {
    hide Consistent, AllDrawn, History, Exclusive, MoveStep, RowsInBounds, CountersAgree, RecordsSound, CancelOk, KeysAgree;
    Agreed(s);
    Steps.ReleaseSucceeds(s.db, s.txs[t]);
  }

  /** The others find the row cancelled, and fail. */
  lemma LosersFail(s: Sys, t: TxId, u: TxId)
    requires Inv(s) && t in s.txs && s.txs[t].fate == Done && s.txs[t].program.Cancelling? && s.txs[t].booking.Some?
    requires IsRunning(s, u) && s.txs[u].stage == Guarding && s.txs[u].booking.value.id == s.txs[t].booking.value.id
    ensures GuardStep(s.db, s.txs[u]).fate == Failed(AlreadyCancelled)
  {
    hide Consistent, TxsOk, Exclusive, AllDrawn;
    assert Remembered(s, t, s.txs[t]);
  }

  // The outbox

  /** Two dispatchers never hold the same message, and what one holds has not been published. */
  lemma ClaimsAreDisjoint(s: Sys, t: TxId, u: TxId, m: int)
    requires Inv(s) && IsRunning(s, t) && IsRunning(s, u) && t != u
    requires s.txs[t].program.Dispatching? && s.txs[u].program.Dispatching? && m in s.txs[t].picked
    ensures m !in s.txs[u].picked
    ensures m in s.db.outbox && !s.db.outbox[m].published && s.db.outbox[m].attempts < MAX_ATTEMPTS
  {
    hide Consistent, AllDrawn, History;
    assert Holds(s.txs[t], MessageLock(m));
    assert !Holds(s.txs[u], MessageLock(m));
  }

  /** A message once published stays as it is for the rest of the run, and no dispatcher claims it again. */
  lemma PublishedStays(run: seq<Sys>, i: nat, j: nat, m: int, t: TxId)
    requires IsRun(run) && i <= j < |run| && m in run[i].db.outbox && run[i].db.outbox[m].published
    ensures m in run[j].db.outbox && run[j].db.outbox[m] == run[i].db.outbox[m]
    ensures IsRunning(run[j], t) && run[j].txs[t].program.Dispatching? ==> m !in run[j].txs[t].picked
  {
    hide Consistent, AllDrawn, History, Exclusive, Initial, StepsTo, WellFormed;
    RunInv(run, j);
    RunEvolves(run, i, j);
    assert MessageEvolves(run[i].db.outbox[m], run[j].db.outbox[m]);
  }

  // Events and refunds

  /** In every reachable state a reservation has exactly one confirmed event, and exactly one cancelled event if and
      only if it is cancelled, numbered after the confirmed one. */
  lemma EventsCorrespond(run: seq<Sys>, i: nat, id: Uuid)
    requires IsRun(run) && i < |run| && id in run[i].db.reservations
    ensures exists c :: EventsOf(run[i].db.outbox, id, ConfirmedEvent) == {c}
    ensures run[i].db.reservations[id].status == Confirmed ==> EventsOf(run[i].db.outbox, id, CancelledEvent) == {}
    ensures run[i].db.reservations[id].status == Cancelled ==>
              exists c, x :: EventsOf(run[i].db.outbox, id, ConfirmedEvent) == {c}
                             && EventsOf(run[i].db.outbox, id, CancelledEvent) == {x} && c < x
  {
    hide Inv, Initial, StepsTo;
    RunInv(run, i);
    Agreed(run[i]);
    assert ReservationAnnounced(run[i].db.outbox, id, run[i].db.reservations[id]);
    var confirmed := EventsOf(run[i].db.outbox, id, ConfirmedEvent);
    var c := OnlyElement(confirmed);
    if run[i].db.reservations[id].status == Cancelled {
      var x := OnlyElement(EventsOf(run[i].db.outbox, id, CancelledEvent));
      assert c in confirmed;
    }
  }

  /** And each of them tells the reservation as it is stored, its refund being the whole total or nothing. */
  lemma EventsTell(run: seq<Sys>, i: nat, m: int)
    requires IsRun(run) && i < |run| && m in run[i].db.outbox
    ensures var event := run[i].db.outbox[m];
            && event.aggregate in run[i].db.reservations
            && Tells(event.payload, event.kind, run[i].db.reservations[event.aggregate])
            && RefundsRight(event.payload, event.kind)
  {
    hide Inv, Initial, StepsTo, Tells, RefundsRight;
    RunInv(run, i);
    Agreed(run[i]);
    assert MessageSound(run[i].db.outbox[m], run[i].db.reservations);
  }

  lemma OnlyElement(s: set<int>) returns (x: int)
    requires |s| == 1
    ensures s == {x}
  {
    x := SomeElement(s);
    SubsetSize({x}, s);
  }

  /** In every reachable state the refunds announced stay within the totals booked. */
  lemma RefundsStayWithinTotals(run: seq<Sys>, i: nat)
    requires IsRun(run) && i < |run|
    ensures Sum(run[i].db.outbox.Keys, (e: int) => RefundOf(run[i].db.outbox, e)) <=
            Sum(run[i].db.reservations.Keys, (id: Uuid) => TotalOf(run[i].db.reservations, id))
  {
    hide Initial, StepsTo, Consistent;
    RunInv(run, i);
    RefundsWithinTotals(run[i].db);
  }

  // Prices are as read

  /** The rates a reservation is priced at are those of some earlier state, not necessarily those at its commit. */
  lemma {:induction false} RatesWereRead(run: seq<Sys>, i: nat, t: TxId)
    requires IsRun(run) && i < |run| && t in run[i].txs
    requires run[i].txs[t].program.Reserving? && run[i].txs[t].owned && !run[i].txs[t].fate.Failed?
    requires Past(run[i].txs[t], Quoting)
    ensures exists j :: 0 <= j < i && RatesAreOf(run[j].db, run[i].txs[t])
  {
    hide Initial, Blocked, Apply, Inv;
    assert i > 0 by { hide *; StartsEmpty(run); }
    assert StepsTo(run[i - 1], run[i]);
    var a :| Enabled(run[i - 1], a) && run[i] == Next(run[i - 1], a);
    RunInv(run, i - 1);
    RatesKept(run[i - 1], a, t);
    if !RatesAreOf(run[i - 1].db, run[i].txs[t]) {
      RatesWereRead(run, i - 1, t);
    }
  }

  predicate RatesAreOf(db: Db, tx: Tx) {
    tx.program.Reserving? &&
    tx.rates == ReadRates(db, tx.program.input.plan, tx.program.input.stay.checkIn, tx.program.input.stay.checkOut)
  }

  lemma StartsEmpty(run: seq<Sys>)
    requires IsRun(run)
    ensures run[0].txs == map[]
  {
  }

  /** A step either reads the rates now, or keeps those read before. */
  lemma RatesKept(s: Sys, a: Action, t: TxId)
    requires Inv(s) && Enabled(s, a) && t in Next(s, a).txs
    requires var tx := Next(s, a).txs[t];
             tx.program.Reserving? && tx.owned && !tx.fate.Failed? && Past(tx, Quoting)
    ensures var tx := Next(s, a).txs[t];
            || RatesAreOf(s.db, tx)
            || (t in s.txs && s.txs[t].program == tx.program && s.txs[t].owned && !s.txs[t].fate.Failed?
                && Past(s.txs[t], Quoting) && s.txs[t].rates == tx.rates)
  {
    hide Apply, StepTx, RatesAreOf, Blocked, WellFormed, TxOk, Consistent, Exclusive, AllDrawn, History;
    if a.Run? && a.t == t && s.txs[t].stage != Ending {
      OkIsTidy(s.db, s.txs[t]);
      RatesStep(s.db, s.txs[t], a.env, s.next, LockedMessages(s, t));
    }
  }

  lemma RatesStep(db: Db, tx: Tx, e: Env, number: int, skip: set<int>)
    requires WellFormed(tx) && Tidy(tx) && tx.fate == Running && tx.stage != Ending
    ensures var after := StepTx(db, tx, e, number, skip);
            tx.program.Reserving? && after.owned && !after.fate.Failed? && Past(after, Quoting) ==>
              RatesAreOf(db, after) || (tx.owned && Past(tx, Quoting) && tx.rates == after.rates)
    ensures StepTx(db, tx, e, number, skip).program == tx.program
  {
    hide ReadRates, PriceStay, Planned, ByID, MoveError, MovedRows, Create, Assess, RowOf;
  }
}
