/** The invariant of the whole system, and that every action keeps it. */
module Reachable {
  import opened Results
  import opened Collections
  import opened Bookings
  import opened Tables
  import opened Transactions
  import opened Stock
  import opened Effects
  import opened Consistency
  import opened Interleaving
  import opened Invariants
  import opened Stability
  import opened Commits
  import opened Locks
  import opened Runs

  // The invariant

  ghost predicate TxsOk(s: Sys) {
    forall t :: t in s.txs && s.txs[t].fate == Running ==> TxOk(s.db, s.txs[t])
  }

  /** No row is held by two transactions. */
  ghost predicate Exclusive(s: Sys) {
    forall t, u, lock :: t in s.txs && u in s.txs && t != u && Holds(s.txs[t], lock) ==> !Holds(s.txs[u], lock)
  }

  /** The lock is on a row whose identifier or number has been drawn. */
  predicate Drawn(s: Sys, lock: Lock) {
    match lock
    case RowLock(id) => id in s.ids
    case MessageLock(m) => m < s.next
    case _ => true
  }

  ghost predicate AllDrawn(s: Sys) {
    && (forall id :: id in s.db.reservations ==> id in s.ids)
    && (forall m :: m in s.db.outbox ==> m < s.next)
    && (forall t, lock :: t in s.txs && Holds(s.txs[t], lock) ==> Drawn(s, lock))
  }

  /** What a committed transaction has left behind. */
  ghost predicate Remembered(s: Sys, t: TxId, tx: Tx) {
    match tx.program
    case Reserving(input) =>
      && tx.booking.Some? && input.key in s.db.keys
      && s.db.keys[input.key] == KeyRow(input.hash, Some(tx.booking.value.id))
      && (tx.owned ==> tx.booking.value.id in s.creator && s.creator[tx.booking.value.id] == t)
    case Cancelling(_) =>
      && tx.booking.Some? && tx.booking.value.id in s.canceller && s.canceller[tx.booking.value.id] == t
    case _ => true
  }

  ghost predicate History(s: Sys) {
    && (forall id :: id in s.creator ==> id in s.db.reservations)
    && (forall id :: id in s.canceller ==> id in s.db.reservations && s.db.reservations[id].status == Cancelled)
    && (forall t :: t in s.txs && s.txs[t].fate == Done ==> Remembered(s, t, s.txs[t]))
  }

  ghost predicate Inv(s: Sys) {
    Consistent(s.db) && TxsOk(s) && Exclusive(s) && AllDrawn(s) && History(s)
  }

  ghost predicate Initial(s: Sys) {
    && Consistent(s.db) && s.txs == map[] && s.creator == map[] && s.canceller == map[]
    && (forall id :: id in s.db.reservations ==> id in s.ids)
    && (forall m :: m in s.db.outbox ==> m < s.next)
  }

  lemma InitialInv(s: Sys)
    requires Initial(s)
    ensures Inv(s)
  {
    hide Consistent;
  }

  /** Some identifier has not been drawn. */
  function FreshId(ids: set<Uuid>): (id: Uuid)
    ensures id !in ids
  {
    if ids == {} then NIL else Min(ids) - 1
  }

  // Actions that leave the tables alone

  /** One transaction is replaced; it takes no lock another holds. */
  lemma ReplacedKeeps(s: Sys, s': Sys, t: TxId, tx: Tx)
    requires Inv(s)
    requires s' == s.(txs := s.txs[t := tx], ids := s'.ids, next := s'.next) && s.ids <= s'.ids && s.next <= s'.next
    requires Kept(s.db, tx)
    requires forall u, lock :: u in s.txs && u != t && Holds(tx, lock) ==> !Holds(s.txs[u], lock)
    requires forall lock :: Holds(tx, lock) ==> Drawn(s', lock)
    ensures Inv(s')
  {
    hide Consistent, TxOk, Holds;
    forall u, lock | u in s'.txs && Holds(s'.txs[u], lock) ensures Drawn(s', lock) {
      if u != t {
        assert Drawn(s, lock);
      }
    }
  }

  /** A transaction that has not begun, or has ended, holds nothing. */
  lemma HoldsNothing(tx: Tx, lock: Lock)
    requires tx.fate != Running || exists p :: tx == Begin(p)
    ensures !Holds(tx, lock)
  {
  }

  lemma BeginOk(db: Db, p: Program)
    ensures TxOk(db, Begin(p))
  {
    match p
    case Reserving(_) =>
    case Cancelling(_) =>
    case Stocking(_, _, _, _) =>
    case Dispatching(_) =>
  }

  lemma StartKeeps(s: Sys, t: TxId, p: Program)
    requires Inv(s) && t !in s.txs
    ensures Inv(Next(s, Start(t, p)))
  {
    hide Inv, TxOk, Holds;
    BeginOk(s.db, p);
    forall lock ensures !Holds(Begin(p), lock) {
      HoldsNothing(Begin(p), lock);
    }
    ReplacedKeeps(s, Next(s, Start(t, p)), t, Begin(p));
  }

  lemma StopKeeps(s: Sys, t: TxId)
    requires Inv(s) && IsRunning(s, t)
    ensures Inv(Next(s, Stop(t)))
  {
    hide Inv, TxOk, Holds;
    var tx := Fail(s.txs[t], Aborted);
    forall lock ensures !Holds(tx, lock) {
      HoldsNothing(tx, lock);
    }
    ReplacedKeeps(s, Next(s, Stop(t)), t, tx);
  }

  // A statement

  lemma OkIsTidy(db: Db, tx: Tx)
    requires TxOk(db, tx)
    ensures WellFormed(tx) && Tidy(tx)
  {
    hide FreshOk, ReplayOk;
    match tx.program
    case Reserving(_) =>
      if FreshOk(db, tx) {
        FreshStages(db, tx);
      } else {
        ReplayStages(db, tx);
      }
    case Cancelling(_) =>
    case Stocking(_, _, _, _) =>
    case Dispatching(_) =>
  }

  lemma LocksAreFree(s: Sys, t: TxId, e: Env, u: TxId, lock: Lock)
    requires Inv(s) && Enabled(s, Run(t, e)) && s.txs[t].stage != Ending
    requires u in s.txs && u != t
    requires Holds(StepTx(s.db, s.txs[t], e, s.next, LockedMessages(s, t)), lock)
    ensures !Holds(s.txs[u], lock)
  {
    hide Consistent, TxOk, Holds, WellFormed, StepTx, Wants;
    OkIsTidy(s.db, s.txs[t]);
    NewLocks(s.db, s.txs[t], e, s.next, LockedMessages(s, t), lock);
    assert Holds(s.txs[u], lock) ==> Drawn(s, lock);
    if lock in Wants(s.txs[t]) {
      WantedIsFree(s, t, u, lock);
    }
  }

  lemma WantedIsFree(s: Sys, t: TxId, u: TxId, lock: Lock)
    requires TxsOk(s) && IsRunning(s, t) && !Blocked(s, t) && u in s.txs && u != t
    requires lock in Wants(s.txs[t])
    ensures !Holds(s.txs[u], lock)
  {
    hide TxOk, Holds, WellFormed, Wants;
    if Holds(s.txs[u], lock) {
      HeldByRunning(s.txs[u], lock);
      OkIsTidy(s.db, s.txs[u]);
    }
    assert IsRunning(s, u) && Holds(s.txs[u], lock) ==> WaitsFor(s, t, u);
  }

  lemma HeldByRunning(tx: Tx, lock: Lock)
    requires Holds(tx, lock)
    ensures tx.fate == Running
  {
  }

  lemma LocksAreDrawn(s: Sys, s': Sys, t: TxId, e: Env, lock: Lock)
    requires Inv(s) && Enabled(s, Run(t, e)) && s.txs[t].stage != Ending && s' == Advance(s, t, e)
    requires Holds(s'.txs[t], lock)
    ensures Drawn(s', lock)
  {
    hide Consistent, TxOk, Holds, WellFormed, StepTx, Wants;
    OkIsTidy(s.db, s.txs[t]);
    NewLocks(s.db, s.txs[t], e, s.next, LockedMessages(s, t), lock);
    if Holds(s.txs[t], lock) {
      assert Drawn(s, lock);
    } else {
      WantsAreDrawn(s, t, lock);
    }
  }

  /** The rows a statement waits for have been drawn. */
  lemma WantsAreDrawn(s: Sys, t: TxId, lock: Lock)
    requires Inv(s) && IsRunning(s, t)
    ensures lock in Wants(s.txs[t]) ==> Drawn(s, lock)
  {
    var tx := s.txs[t];
    if tx.stage == Guarding {
      GuardedIsStored(s.db, tx);
    }
  }

  lemma GuardedIsStored(db: Db, tx: Tx)
    requires TxOk(db, tx) && tx.stage == Guarding && WellFormed(tx)
    ensures tx.booking.value.id in db.reservations
  {
  }

  lemma StepKeeps(s: Sys, t: TxId, e: Env)
    requires Inv(s) && Enabled(s, Run(t, e)) && s.txs[t].stage != Ending
    ensures Inv(Next(s, Run(t, e)))
  {
    hide Consistent, TxOk, Holds, WellFormed, StepTx, Blocked, Kept;
    var s' := Next(s, Run(t, e));
    var tx := s'.txs[t];
    StepKept(s.db, s.txs[t], e, s.next, LockedMessages(s, t));
    forall u, lock | u in s.txs && u != t && Holds(tx, lock) ensures !Holds(s.txs[u], lock) {
      LocksAreFree(s, t, e, u, lock);
    }
    forall lock | Holds(tx, lock) ensures Drawn(s', lock) {
      LocksAreDrawn(s, s', t, e, lock);
    }
    ReplacedKeeps(s, s', t, tx);
  }

  // A commit

  /** The tables have moved on, without touching what a running transaction other than `t` holds. */
  ghost predicate MovesOn(s: Sys, after: Db, t: TxId) {
    && Evolves(s.db, after) && Consistent(after)
    && forall u :: u in s.txs && u != t && s.txs[u].fate == Running ==> Untouched(s.db, after, s.txs[u])
  }

  lemma OthersStay(s: Sys, after: Db, t: TxId)
    requires Inv(s) && MovesOn(s, after, t)
    ensures forall u :: u in s.txs && u != t && s.txs[u].fate == Running ==> TxOk(after, s.txs[u])
  {
    hide Consistent, TxOk, Untouched, Evolves;
    forall u | u in s.txs && u != t && s.txs[u].fate == Running ensures TxOk(after, s.txs[u]) {
      TxOkStays(s.db, after, s.txs[u]);
    }
  }

  lemma CommitMovesOn(s: Sys, t: TxId)
    requires Inv(s) && IsRunning(s, t) && s.txs[t].stage == Ending
    ensures AllHeld(s.txs[t]) && MovesOn(s, Apply(s.db, s.txs[t].writes), t)
  {
    hide Consistent, TxOk, Holds, Evolves, AllHeld, Apply;
    var tx := s.txs[t];
    Agreements(s.db);
    EndHeld(s.db, tx);
    EndEvolves(s.db, tx);
    EndConsistent(s.db, tx);
    forall u | u in s.txs && u != t && s.txs[u].fate == Running ensures Untouched(s.db, Apply(s.db, tx.writes), s.txs[u]) {
      forall lock | Holds(s.txs[u], lock) ensures SameAt(s.db, Apply(s.db, tx.writes), lock) {
        OthersUntouched(s.db, tx, lock);
      }
    }
  }

  /** Committed rows were held by the transaction, and so drawn. */
  lemma WrittenAreDrawn(s: Sys, t: TxId)
    requires AllDrawn(s) && t in s.txs && AllHeld(s.txs[t])
    ensures forall id :: id in Apply(s.db, s.txs[t].writes).reservations ==> id in s.ids
    ensures forall m :: m in Apply(s.db, s.txs[t].writes).outbox ==> m < s.next
  {
    hide Holds;
    forall id | id in s.txs[t].writes.reservations ensures id in s.ids {
      assert Drawn(s, RowLock(id));
    }
    forall m | m in s.txs[t].writes.outbox ensures m < s.next {
      assert Drawn(s, MessageLock(m));
    }
  }

  /** What is remembered stays so while the tables evolve and the histories grow. */
  lemma RememberedStays(s: Sys, s': Sys, u: TxId, tx: Tx)
    requires Remembered(s, u, tx) && Evolves(s.db, s'.db)
    requires forall id :: id in s.creator ==> id in s'.creator && s'.creator[id] == s.creator[id]
    requires forall id :: id in s.canceller ==> id in s'.canceller && s'.canceller[id] == s.canceller[id]
    ensures Remembered(s', u, tx)
  {
  }

  lemma CancelledStays(db: Db, after: Db, id: Uuid)
    requires Evolves(db, after) && id in db.reservations
    ensures id in after.reservations
    ensures db.reservations[id].status == Cancelled ==> after.reservations[id] == db.reservations[id]
  {
  }

  // What the committing transaction leaves behind

  lemma FreshRemembered(s: Sys, t: TxId, b: Booking)
    requires IsRunning(s, t) && s.txs[t].stage == Ending && FreshOk(s.db, s.txs[t]) && s.txs[t].booking == Some(b)
    ensures b.id !in s.db.reservations
    ensures var s' := Commit(s, t); b.id in s'.db.reservations && Remembered(s', t, s'.txs[t])
    ensures Commit(s, t).creator == s.creator[b.id := t] && Commit(s, t).canceller == s.canceller
  {
    hide Apply, Planned, MovedRows, CanPlace;
    FreshCommit(s.db, s.txs[t]);
    FreshIsNew(s.db, s.txs[t], b);
  }

  lemma FreshIsNew(db: Db, tx: Tx, b: Booking)
    requires tx.stage == Ending && FreshOk(db, tx) && tx.booking == Some(b)
    ensures b.id !in db.reservations
  {
  }

  lemma ReplayRemembered(s: Sys, t: TxId)
    requires IsRunning(s, t) && s.txs[t].stage == Ending && ReplayOk(s.db, s.txs[t])
    ensures var s' := Commit(s, t);
            && s'.db == s.db && Remembered(s', t, s'.txs[t])
            && s'.creator == s.creator && s'.canceller == s.canceller
  {
    hide Apply;
    ReplayCommit(s.db, s.txs[t]);
  }

  lemma CancelRemembered(s: Sys, t: TxId, b: Booking)
    requires IsRunning(s, t) && s.txs[t].stage == Ending && CancelOk(s.db, s.txs[t]) && s.txs[t].booking == Some(b)
    ensures b.id in s.db.reservations && s.db.reservations[b.id].status == Confirmed
    ensures var s' := Commit(s, t);
            && b.id in s'.db.reservations && s'.db.reservations[b.id].status == Cancelled
            && Remembered(s', t, s'.txs[t])
            && s'.creator == s.creator && s'.canceller == s.canceller[b.id := t]
  {
    hide Apply, MovedRows, ByReference;
    CancelCommit(s.db, s.txs[t], b);
  }

  /** A transaction other than a reservation or a cancellation leaves the histories as they are. */
  lemma OtherRemembered(s: Sys, t: TxId)
    requires IsRunning(s, t) && s.txs[t].stage == Ending && (s.txs[t].program.Stocking? || s.txs[t].program.Dispatching?)
    ensures var s' := Commit(s, t);
            Remembered(s', t, s'.txs[t]) && s'.creator == s.creator && s'.canceller == s.canceller
  {
    hide Apply;
  }

  /** Histories grow by what the commit adds, and stay true. */
  ghost predicate Recalls(s: Sys, s': Sys, t: TxId) {
    && t in s'.txs && Remembered(s', t, s'.txs[t])
    && (forall id :: id in s.creator ==> id in s'.creator && s'.creator[id] == s.creator[id])
    && (forall id :: id in s.canceller ==> id in s'.canceller && s'.canceller[id] == s.canceller[id])
    && (forall id :: id in s'.creator ==> id in s.creator || id in s'.db.reservations)
    && (forall id :: id in s'.canceller ==> id in s.canceller ||
                                            (id in s'.db.reservations && s'.db.reservations[id].status == Cancelled))
  }

  lemma CommitRecalls(s: Sys, t: TxId)
    requires Inv(s) && IsRunning(s, t) && s.txs[t].stage == Ending
    ensures Recalls(s, Commit(s, t), t)
  {
    hide Remembered, Consistent, ReplayOk, FreshOk, CancelOk, Apply, Exclusive, AllDrawn;
    var tx := s.txs[t];
    match tx.program
    case Reserving(_) =>
      if FreshOk(s.db, tx) {
        FreshRemembered(s, t, tx.booking.value);
      } else {
        ReplayRemembered(s, t);
      }
    case Cancelling(_) => CancelRemembered(s, t, tx.booking.value);
    case _ => OtherRemembered(s, t);
  }

  lemma HistoryStays(s: Sys, s': Sys, t: TxId)
    requires History(s) && Recalls(s, s', t) && Evolves(s.db, s'.db)
    requires s'.txs == s.txs[t := s'.txs[t]]
    ensures History(s')
  {
    hide Remembered, Evolves;
    forall id | id in s.db.reservations
      ensures id in s'.db.reservations
      ensures s.db.reservations[id].status == Cancelled ==> s'.db.reservations[id].status == Cancelled
    {
      CancelledStays(s.db, s'.db, id);
    }
    forall u | u in s'.txs && s'.txs[u].fate == Done ensures Remembered(s', u, s'.txs[u]) {
      if u != t {
        RememberedStays(s, s', u, s.txs[u]);
      }
    }
  }

  lemma CommitKeeps(s: Sys, t: TxId)
    requires Inv(s) && IsRunning(s, t) && s.txs[t].stage == Ending
    ensures Inv(Commit(s, t))
  {
    hide Remembered, Consistent, TxOk, Holds, Evolves, AllHeld, Apply, Untouched, History, WellFormed;
    var s' := Commit(s, t);
    CommitMovesOn(s, t);
    CommitRecalls(s, t);
    HistoryStays(s, s', t);
    OthersStay(s, s'.db, t);
    WrittenAreDrawn(s, t);
    CommittedLocks(s, s', t);
  }

  lemma CommittedLocks(s: Sys, s': Sys, t: TxId)
    requires Exclusive(s) && AllDrawn(s) && t in s.txs && t in s'.txs && s'.txs[t].fate == Done
    requires s'.txs == s.txs[t := s'.txs[t]] && s'.ids == s.ids && s'.next == s.next
    ensures Exclusive(s')
    ensures forall u, lock :: u in s'.txs && Holds(s'.txs[u], lock) ==> Drawn(s', lock)
  {
    hide Holds;
    forall lock ensures !Holds(s'.txs[t], lock) {
      HoldsNothing(s'.txs[t], lock);
    }
    forall u, lock | u in s'.txs && Holds(s'.txs[u], lock) ensures Drawn(s', lock) {
      assert Drawn(s, lock);
    }
  }

  // Publishing rates

  lemma RatesMoveOn(db: Db, after: Db)
    requires Consistent(db) && after == db.(rates := after.rates)
    ensures Evolves(db, after) && Consistent(after)
    ensures forall lock :: SameAt(db, after, lock)
  {
    hide RowsInBounds, CountersAgree, RefsAgree, RecordsSound, KeysAgree, EventsAgree, GuestsKnown, PlansKnown;
  }

  lemma RatesKeep(s: Sys, after: Db)
    requires Inv(s) && after == s.db.(rates := after.rates)
    ensures Inv(s.(db := after))
  {
    hide Consistent, TxOk, Holds, Evolves, SameAt;
    var s' := s.(db := after);
    RatesMoveOn(s.db, after);
    forall u | u in s.txs && s.txs[u].fate == Running ensures TxOk(after, s.txs[u]) {
      TxOkStays(s.db, after, s.txs[u]);
    }
    forall u, lock | u in s'.txs && Holds(s'.txs[u], lock) ensures Drawn(s', lock) {
      assert Drawn(s, lock);
    }
    forall u | u in s'.txs && s'.txs[u].fate == Done ensures Remembered(s', u, s'.txs[u]) {
      assert Remembered(s, u, s.txs[u]);
    }
  }

  lemma SetRatesOnlyRates(db: Db, plan: Uuid, inputs: seq<RateInput>)
    ensures var after := SetRatesTx(db, plan, inputs).db; after == db.(rates := after.rates)
  {
  }

  /** Every action keeps the invariant. */
  lemma NextKeeps(s: Sys, a: Action)
    requires Inv(s) && Enabled(s, a)
    ensures Inv(Next(s, a))
  {
    hide Inv, Blocked;
    match a
    case Start(t, p) => StartKeeps(s, t, p);
    case Run(t, e) =>
      if s.txs[t].stage == Ending {
        CommitKeeps(s, t);
      } else {
        StepKeeps(s, t, e);
      }
    case Stop(t) => StopKeeps(s, t);
    case SetRates(plan, inputs) =>
      SetRatesOnlyRates(s.db, plan, inputs);
      RatesKeep(s, SetRatesTx(s.db, plan, inputs).db);
  }
}
