/** Locks: a statement takes only locks it has waited for, or those of rows that exist for nobody else yet. */
module Locks {
  import opened Collections
  import opened Bookings
  import opened Tables
  import opened Transactions
  import opened Effects
  import opened Interleaving

  /** A lock the next statement may take: one it has waited for, a new row under a fresh identifier or number, or a
      message that was not skipped. */
  predicate Takes(db: Db, tx: Tx, e: Env, number: int, skip: set<int>, lock: Lock)
    requires WellFormed(tx)
  {
    || lock in Wants(tx)
    || (tx.stage == Drafting && lock == RowLock(e.id))
    || (tx.stage == Announcing && lock == MessageLock(number))
    || (tx.stage == Picking && lock.MessageLock? && lock.number in db.outbox && lock.number !in skip)
  }

  /** Nothing is locked or claimed before the statement that does so. */
  predicate Tidy(tx: Tx) {
    match tx.stage
    case Claiming | Drafting | Reading => tx.got == 0
    case Replaying => !tx.owned
    case Picking => tx.picked == []
    case _ => true
  }

  lemma NewLocks(db: Db, tx: Tx, e: Env, number: int, skip: set<int>, lock: Lock)
    requires WellFormed(tx) && tx.stage != Ending && Tidy(tx)
    requires Holds(StepTx(db, tx, e, number, skip), lock)
    ensures Holds(tx, lock) || Takes(db, tx, e, number, skip, lock)
  {
    hide Holds, Takes, StepTx, WellFormed;
    match tx.program
    case Reserving(_) => ReservingTakes(db, tx, e, number, skip, lock);
    case Cancelling(_) => CancellingTakes(db, tx, e, number, skip, lock);
    case Stocking(_, _, _, _) => StockingTakes(db, tx, e, number, skip, lock);
    case Dispatching(_) => DispatchingTakes(db, tx, e, number, skip, lock);
  }

  /** A reservation has not yet turned to inventory. */
  predicate BeforeStock(s: Stage) {
    Order(s) <= Order(Drafting)
  }

  lemma ReservingTakes(db: Db, tx: Tx, e: Env, number: int, skip: set<int>, lock: Lock)
    requires WellFormed(tx) && tx.program.Reserving? && tx.stage != Ending && Tidy(tx)
    requires Holds(StepTx(db, tx, e, number, skip), lock)
    ensures Holds(tx, lock) || Takes(db, tx, e, number, skip, lock)
  {
    hide Holds, Takes, StepTx, WellFormed, Tidy;
    if tx.stage == Greeting || tx.stage == Drafting {
      DraftingTakes(db, tx, e, number, skip, lock);
    } else if tx.stage == Claiming {
      ClaimingTakes(db, tx, e, number, skip, lock);
    } else if BeforeStock(tx.stage) {
      EarlyTakes(db, tx, e, number, skip, lock);
    } else if tx.stage == Locking {
      LockingStep(db, tx, e, number, skip, lock);
    } else if tx.stage == Scanning || tx.stage == Moving {
      MovingTakes(db, tx, e, number, skip, lock);
    } else if tx.stage == Creating {
      CreatingTakes(db, tx, e, number, skip, lock);
    } else {
      StageOfReserving(tx);
      LateTakes(db, tx, e, number, skip, lock);
    }
  }

  lemma StageOfReserving(tx: Tx)
    requires WellFormed(tx) && tx.program.Reserving?
    ensures BeforeStock(tx.stage) || tx.stage in {Scanning, Locking, Moving, Creating, Recording, Announcing, Ending}
  {
  }

  lemma ClaimingTakes(db: Db, tx: Tx, e: Env, number: int, skip: set<int>, lock: Lock)
    requires WellFormed(tx) && tx.program.Reserving? && tx.stage == Claiming && Tidy(tx)
    requires Holds(StepTx(db, tx, e, number, skip), lock)
    ensures Holds(tx, lock) || Takes(db, tx, e, number, skip, lock)
  {
  }

  lemma DraftingTakes(db: Db, tx: Tx, e: Env, number: int, skip: set<int>, lock: Lock)
    requires WellFormed(tx) && tx.program.Reserving? && (tx.stage == Greeting || tx.stage == Drafting) && Tidy(tx)
    requires Holds(StepTx(db, tx, e, number, skip), lock)
    ensures Holds(tx, lock) || Takes(db, tx, e, number, skip, lock)
  {
    hide Planned;
  }

  lemma EarlyTakes(db: Db, tx: Tx, e: Env, number: int, skip: set<int>, lock: Lock)
    requires WellFormed(tx) && tx.program.Reserving? && BeforeStock(tx.stage) && Tidy(tx)
    requires tx.stage == ReadingKey || tx.stage == Replaying || tx.stage == Quoting
    requires Holds(StepTx(db, tx, e, number, skip), lock)
    ensures Holds(tx, lock) || Takes(db, tx, e, number, skip, lock)
  {
    hide ReadRates, PriceStay, ByID, Takes;
  }

  lemma MovingTakes(db: Db, tx: Tx, e: Env, number: int, skip: set<int>, lock: Lock)
    requires WellFormed(tx) && tx.program.Reserving? && (tx.stage == Scanning || tx.stage == Moving)
    requires Holds(StepTx(db, tx, e, number, skip), lock)
    ensures Holds(tx, lock) || Takes(db, tx, e, number, skip, lock)
  {
    hide MoveError, MovedRows, RowDays, Takes;
  }

  lemma LateTakes(db: Db, tx: Tx, e: Env, number: int, skip: set<int>, lock: Lock)
    requires WellFormed(tx) && tx.program.Reserving?
    requires tx.stage == Recording || tx.stage == Announcing
    requires Holds(StepTx(db, tx, e, number, skip), lock)
    ensures Holds(tx, lock) || Takes(db, tx, e, number, skip, lock)
  {
    hide Assess;
  }

  lemma CreatingTakes(db: Db, tx: Tx, e: Env, number: int, skip: set<int>, lock: Lock)
    requires WellFormed(tx) && tx.program.Reserving? && tx.stage == Creating
    requires Holds(StepTx(db, tx, e, number, skip), lock)
    ensures Holds(tx, lock) || Takes(db, tx, e, number, skip, lock)
  {
    hide RowOf, RowAccepted, NightsAccepted, NightRows;
  }

  lemma LockingStep(db: Db, tx: Tx, e: Env, number: int, skip: set<int>, lock: Lock)
    requires WellFormed(tx) && tx.stage == Locking
    requires Holds(StepTx(db, tx, e, number, skip), lock)
    ensures Holds(tx, lock) || Takes(db, tx, e, number, skip, lock)
  {
    hide Holds, WellFormed;
    LockingTakes(tx, lock);
  }

  lemma CancellingTakes(db: Db, tx: Tx, e: Env, number: int, skip: set<int>, lock: Lock)
    requires WellFormed(tx) && tx.program.Cancelling? && tx.stage != Ending && Tidy(tx)
    requires Holds(StepTx(db, tx, e, number, skip), lock)
    ensures Holds(tx, lock) || Takes(db, tx, e, number, skip, lock)
  {
    hide Holds, Takes, StepTx, WellFormed, Tidy;
    if tx.stage == Locking {
      LockingStep(db, tx, e, number, skip, lock);
    } else if tx.stage == Reading || tx.stage == Guarding {
      GuardingTakes(db, tx, e, number, skip, lock);
    } else {
      StageOfCancelling(tx);
      ReleasingTakes(db, tx, e, number, skip, lock);
    }
  }

  lemma StageOfCancelling(tx: Tx)
    requires WellFormed(tx) && tx.program.Cancelling?
    ensures tx.stage in {Reading, Guarding, Scanning, Locking, Moving, Announcing, Ending}
  {
  }

  lemma GuardingTakes(db: Db, tx: Tx, e: Env, number: int, skip: set<int>, lock: Lock)
    requires WellFormed(tx) && tx.program.Cancelling? && (tx.stage == Reading || tx.stage == Guarding) && Tidy(tx)
    requires Holds(StepTx(db, tx, e, number, skip), lock)
    ensures Holds(tx, lock) || Takes(db, tx, e, number, skip, lock)
  {
    hide ByReference, Assess, CancelRow, CancelledAt, ByID;
  }

  lemma ReleasingTakes(db: Db, tx: Tx, e: Env, number: int, skip: set<int>, lock: Lock)
    requires WellFormed(tx) && tx.program.Cancelling?
    requires tx.stage == Scanning || tx.stage == Moving || tx.stage == Announcing
    requires Holds(StepTx(db, tx, e, number, skip), lock)
    ensures Holds(tx, lock) || Takes(db, tx, e, number, skip, lock)
  {
  }

  lemma StockingTakes(db: Db, tx: Tx, e: Env, number: int, skip: set<int>, lock: Lock)
    requires WellFormed(tx) && tx.program.Stocking? && tx.stage != Ending
    requires Holds(StepTx(db, tx, e, number, skip), lock)
    ensures Holds(tx, lock) || Takes(db, tx, e, number, skip, lock)
  {
  }

  lemma DispatchingTakes(db: Db, tx: Tx, e: Env, number: int, skip: set<int>, lock: Lock)
    requires WellFormed(tx) && tx.program.Dispatching? && tx.stage != Ending && Tidy(tx)
    requires Holds(StepTx(db, tx, e, number, skip), lock)
    ensures Holds(tx, lock) || Takes(db, tx, e, number, skip, lock)
  {
    if tx.stage == Picking {
      PickingTakes(db, tx, skip, lock);
    }
  }

  lemma LockingTakes(tx: Tx, lock: Lock)
    requires WellFormed(tx) && tx.stage == Locking && Holds(LockStep(tx), lock)
    ensures Holds(tx, lock) || lock in Wants(tx)
  {
    if tx.got < |tx.days| {
      assert tx.days[..tx.got + 1] == tx.days[..tx.got] + [tx.days[tx.got]];
    }
  }

  lemma PickingTakes(db: Db, tx: Tx, skip: set<int>, lock: Lock)
    requires tx.stage == Picking && tx.program.Dispatching?
    requires Holds(PickStep(db, tx, skip), lock)
    ensures lock.MessageLock? && lock.number in db.outbox && lock.number !in skip
  {
    var all := Ascending(EligibleIds(db.outbox) - skip);
    assert forall m :: m in Candidates(db.outbox, tx.program.batch, skip) ==> m in all;
  }
}
