/** Runs of the system, and the invariant of every state they reach. */
module Runs {
  import opened Tables
  import opened Transactions
  import opened Stock
  import opened Effects
  import opened Consistency
  import opened Interleaving
  import opened Invariants
  import opened Stability
  import opened Locks
  import Steps

  // One statement keeps what is true of its own transaction

  /** The transaction has failed, or is still running and in order. */
  ghost predicate Kept(db: Db, after: Tx) {
    after.fate.Failed? || (after.fate == Running && TxOk(db, after))
  }

  lemma ReplaySteps(db: Db, tx: Tx, e: Env, number: int, skip: set<int>)
    requires tx.program.Reserving? && WellFormed(tx) && tx.fate == Running && tx.stage != Ending
    requires Consistent(db) && ReplayOk(db, tx)
    ensures Kept(db, StepTx(db, tx, e, number, skip))
  {
    hide ReplayOk, FreshOk, Consistent, KeysAgree, RecordsSound;
    ReplayStages(db, tx);
    Agreements(db);
    if tx.stage == Claiming {
      Steps.ClaimKept(db, tx);
    } else if tx.stage == ReadingKey {
      Steps.ReadKeyKept(db, tx);
    } else {
      Steps.ReplayKept(db, tx);
    }
  }

  lemma ReplayStages(db: Db, tx: Tx)
    requires ReplayOk(db, tx)
    ensures tx.stage == Claiming || tx.stage == ReadingKey || tx.stage == Replaying || tx.stage == Ending
    ensures tx.program.Reserving? && !tx.owned && tx.writes == NO_WRITES && tx.got == 0
  {
    hide SameBut;
  }

  lemma FreshStages(db: Db, tx: Tx)
    requires FreshOk(db, tx)
    ensures Early(tx.stage) || Middle(tx.stage) || tx.stage == Creating || tx.stage == Recording || tx.stage == Announcing
            || tx.stage == Ending
    ensures tx.program.Reserving? && tx.owned
    ensures Early(tx.stage) ==> tx.got == 0
  {
    hide Drafted, Priced, CanCreate, Moved, Found, KeyWrite, GuestWrite, StockWrite, RowsWrite, RecordWrite, ConfirmWrite;
  }

  lemma EarlySteps(db: Db, tx: Tx, e: Env, number: int, skip: set<int>)
    requires tx.program.Reserving? && WellFormed(tx) && tx.fate == Running && FreshOk(db, tx) && Early(tx.stage)
    requires e.id !in db.reservations
    ensures Kept(db, StepTx(db, tx, e, number, skip))
  {
    hide FreshOk, ReplayOk;
    if tx.stage == Quoting {
      Steps.QuoteKept(db, tx);
    } else if tx.stage == Greeting {
      Steps.GreetKept(db, tx, e);
    } else {
      Steps.DraftKept(db, tx, e);
    }
  }

  lemma MiddleSteps(db: Db, tx: Tx, e: Env, number: int, skip: set<int>)
    requires tx.program.Reserving? && WellFormed(tx) && tx.fate == Running && FreshOk(db, tx) && Middle(tx.stage)
    ensures Kept(db, StepTx(db, tx, e, number, skip))
  {
    hide FreshOk, ReplayOk, MovedRows, RowDays;
    if tx.stage == Scanning {
      Steps.ScanKept(db, tx);
    } else if tx.stage == Locking {
      Steps.LockKept(db, tx);
    } else {
      Steps.MoveKept(db, tx);
    }
  }

  lemma LateSteps(db: Db, tx: Tx, e: Env, number: int, skip: set<int>)
    requires tx.program.Reserving? && WellFormed(tx) && tx.fate == Running && FreshOk(db, tx)
    requires tx.stage == Creating || tx.stage == Recording || tx.stage == Announcing
    requires number !in db.outbox
    ensures Kept(db, StepTx(db, tx, e, number, skip))
  {
    hide FreshOk, ReplayOk;
    if tx.stage == Creating {
      Steps.CreateKept(db, tx);
    } else if tx.stage == Recording {
      Steps.RecordKept(db, tx);
    } else {
      Steps.ConfirmKept(db, tx, number);
    }
  }

  lemma GuardSteps(db: Db, tx: Tx, e: Env, number: int, skip: set<int>)
    requires tx.program.Cancelling? && WellFormed(tx) && tx.fate == Running && (tx.stage == Reading || tx.stage == Guarding)
    requires RefsAgree(db.reservations, db.refs) && RecordsSound(db.reservations, db.nights) && CancelOk(db, tx)
    ensures Kept(db, StepTx(db, tx, e, number, skip))
  {
    hide CancelOk, RefsAgree, RecordsSound, ByReference, Assess, CancelRow;
    if tx.stage == Reading {
      Steps.ReadKept(db, tx, e);
    } else {
      Steps.GuardKept(db, tx);
    }
  }

  lemma ReleaseSteps(db: Db, tx: Tx, e: Env, number: int, skip: set<int>)
    requires tx.program.Cancelling? && WellFormed(tx) && tx.fate == Running && Middle(tx.stage)
    requires RowsInBounds(db.inventory) && CountersAgree(db.inventory, db.reservations)
    requires RecordsSound(db.reservations, db.nights) && CancelOk(db, tx)
    ensures Kept(db, StepTx(db, tx, e, number, skip))
  {
    hide CancelOk, RowsInBounds, CountersAgree, RecordsSound, MovedRows, RowDays;
    if tx.stage == Scanning {
      Steps.CancelScanKept(db, tx);
    } else if tx.stage == Locking {
      Steps.CancelLockKept(db, tx);
    } else {
      Steps.ReleaseSucceeds(db, tx);
      Steps.ReleaseKept(db, tx);
    }
  }

  lemma CancelEventStep(db: Db, tx: Tx, e: Env, number: int, skip: set<int>)
    requires tx.program.Cancelling? && WellFormed(tx) && tx.fate == Running && tx.stage == Announcing
    requires CancelOk(db, tx)
    requires forall m :: m in db.outbox ==> m < number
    ensures Kept(db, StepTx(db, tx, e, number, skip))
  {
    hide CancelOk, Assess;
    Steps.CancelEventKept(db, tx, number);
  }

  lemma CancelSteps(db: Db, tx: Tx, e: Env, number: int, skip: set<int>)
    requires tx.program.Cancelling? && WellFormed(tx) && tx.fate == Running && tx.stage != Ending
    requires Consistent(db) && CancelOk(db, tx)
    requires forall m :: m in db.outbox ==> m < number
    ensures Kept(db, StepTx(db, tx, e, number, skip))
  {
    hide CancelOk, Consistent, KeysAgree, RecordsSound, CountersAgree, RefsAgree, RowsInBounds, EventsAgree, Kept, StepTx, WellFormed;
    StageOfCancelling(tx);
    Agreements(db);
    if Middle(tx.stage) {
      ReleaseSteps(db, tx, e, number, skip);
    } else if tx.stage == Announcing {
      CancelEventStep(db, tx, e, number, skip);
    } else {
      GuardSteps(db, tx, e, number, skip);
    }
  }

  lemma StockSteps(db: Db, tx: Tx, e: Env, number: int, skip: set<int>)
    requires tx.program.Stocking? && WellFormed(tx) && tx.fate == Running && tx.stage != Ending && StockingOk(db, tx)
    ensures Kept(db, StepTx(db, tx, e, number, skip))
  {
    hide StockingOk;
    if tx.stage == Checking {
      Steps.CheckKept(db, tx);
    } else {
      Steps.UpsertKept(db, tx);
    }
  }

  lemma DispatchSteps(db: Db, tx: Tx, e: Env, number: int, skip: set<int>)
    requires tx.program.Dispatching? && WellFormed(tx) && tx.fate == Running && tx.stage != Ending && DispatchOk(db, tx)
    ensures Kept(db, StepTx(db, tx, e, number, skip))
  {
    hide DispatchOk, Candidates, Marked;
    if tx.stage == Picking {
      Steps.PickKept(db, tx, skip);
    } else {
      Steps.SendKept(db, tx, e);
    }
  }

  lemma FreshSteps(db: Db, tx: Tx, e: Env, number: int, skip: set<int>)
    requires tx.program.Reserving? && WellFormed(tx) && tx.fate == Running && tx.stage != Ending && FreshOk(db, tx)
    requires e.id !in db.reservations && number !in db.outbox
    ensures Kept(db, StepTx(db, tx, e, number, skip))
  {
    hide FreshOk, Kept, StepTx, WellFormed;
    FreshStages(db, tx);
    if Early(tx.stage) {
      EarlySteps(db, tx, e, number, skip);
    } else if Middle(tx.stage) {
      MiddleSteps(db, tx, e, number, skip);
    } else {
      LateSteps(db, tx, e, number, skip);
    }
  }

  /** Every statement keeps what is true of its transaction, or ends it in an error. */
  lemma StepKept(db: Db, tx: Tx, e: Env, number: int, skip: set<int>)
    requires WellFormed(tx) && tx.fate == Running && tx.stage != Ending && TxOk(db, tx) && Consistent(db)
    requires e.id !in db.reservations && forall m :: m in db.outbox ==> m < number
    ensures Kept(db, StepTx(db, tx, e, number, skip))
  {
    hide FreshOk, ReplayOk, CancelOk, StockingOk, DispatchOk, Kept, StepTx, WellFormed, Consistent;
    match tx.program
    case Reserving(_) =>
      if FreshOk(db, tx) {
        FreshSteps(db, tx, e, number, skip);
      } else {
        ReplaySteps(db, tx, e, number, skip);
      }
    case Cancelling(_) => CancelSteps(db, tx, e, number, skip);
    case Stocking(_, _, _, _) => StockSteps(db, tx, e, number, skip);
    case Dispatching(_) => DispatchSteps(db, tx, e, number, skip);
  }
}
