/** Every transaction has a bounded number of statements left, so no schedule goes on for ever. */
module Progress {
  import opened Collections
  import opened Stays
  import opened Bookings
  import opened Tables
  import opened Transactions
  import opened Stock
  import opened Effects
  import opened Interleaving
  import opened Locks
  import opened Reachable
  import opened Deadlock
  import opened References
  import Steps

  function NonNegative(n: int): nat {
    if n < 0 then 0 else n
  }

  /** At most this many statements until a running transaction ends. */
  function StepsLeft(tx: Tx): nat
    requires WellFormed(tx)
  {
    match tx.stage
    case Claiming => 50
    case ReadingKey => 49
    case Replaying => 2
    case Quoting => 48
    case Greeting => 47
    case Drafting => 46
    case Reading => 47
    case Guarding => 46
    case Scanning => 45
    case Locking => 6 + NonNegative(|tx.days| - tx.got)
    case Moving => 5
    case Creating => 4
    case Recording => 3
    case Announcing => 2
    case Checking => 3 + NonNegative(tx.program.until - tx.program.from)
    case Upserting => 2 + NonNegative(tx.program.until - tx.program.from - tx.got)
    case Picking => 3 + tx.program.batch
    case Sending => 2 + NonNegative(|tx.picked| - tx.got)
    case Ending => 1
  }

  /** There are no more rows to lock than nights to sleep. */
  lemma FewRows(inventory: Inventory, room: Uuid, stay: Stay)
    ensures |RowDays(inventory, room, stay.checkIn, stay.checkOut)| <= MAX_STAY_NIGHTS
  {
    RowCountIsCoverage(inventory, room, stay);
    var days := RowDays(inventory, room, stay.checkIn, stay.checkOut);
    if !Stock.Covered(inventory, room, stay) {
      var d :| stay.checkIn <= d < stay.checkOut && Slot(room, d) !in inventory;
      MissingDay(days, stay, d);
    }
  }

  /** The transaction has failed, or has fewer statements left. */
  predicate Lowers(tx: Tx, after: Tx)
    requires WellFormed(tx)
  {
    after.fate.Failed? || (after.fate == Running && WellFormed(after) && StepsLeft(after) < StepsLeft(tx))
  }

  lemma EarlyLowers(db: Db, tx: Tx, e: Env, number: int, skip: set<int>)
    requires WellFormed(tx) && tx.fate == Running && tx.program.Reserving? && BeforeStock(tx.stage)
    ensures Lowers(tx, StepTx(db, tx, e, number, skip))
  {
    hide ReadRates, PriceStay, Planned, ByID;
  }

  lemma MovingLowers(db: Db, tx: Tx, e: Env, number: int, skip: set<int>)
    requires WellFormed(tx) && tx.fate == Running && (tx.program.Reserving? || tx.program.Cancelling?)
    requires (tx.stage == Scanning || tx.stage == Locking || tx.stage == Moving)
    ensures Lowers(tx, StepTx(db, tx, e, number, skip))
  {
    hide MoveError, MovedRows, RowDays;
    if tx.stage == Scanning {
      FewRows(db.inventory, tx.booking.value.room, tx.booking.value.stay);
    }
  }

  lemma LateLowers(db: Db, tx: Tx, e: Env, number: int, skip: set<int>)
    requires WellFormed(tx) && tx.fate == Running && (tx.stage == Creating || tx.stage == Recording)
    ensures Lowers(tx, StepTx(db, tx, e, number, skip))
  {
    hide Create, RowOf, NightRows;
  }

  lemma AnnouncingLowers(db: Db, tx: Tx, e: Env, number: int, skip: set<int>)
    requires WellFormed(tx) && tx.fate == Running && tx.stage == Announcing
    ensures Lowers(tx, StepTx(db, tx, e, number, skip))
  {
    hide Assess, ConfirmedMessage, CancelledMessage;
  }

  lemma GuardingLowers(db: Db, tx: Tx, e: Env, number: int, skip: set<int>)
    requires WellFormed(tx) && tx.fate == Running && (tx.stage == Reading || tx.stage == Guarding)
    ensures Lowers(tx, StepTx(db, tx, e, number, skip))
  {
    hide ByReference, Assess, CancelRow;
  }

  lemma OthersLower(db: Db, tx: Tx, e: Env, number: int, skip: set<int>)
    requires WellFormed(tx) && tx.fate == Running && (tx.program.Stocking? || tx.program.Dispatching?) && tx.stage != Ending
    ensures Lowers(tx, StepTx(db, tx, e, number, skip))
  {
    hide Candidates;
    if tx.stage == Picking {
      Steps.CandidatesAre(db.outbox, tx.program.batch, skip);
    }
  }

  /** Every statement leaves fewer. */
  lemma StepLowers(db: Db, tx: Tx, e: Env, number: int, skip: set<int>)
    requires WellFormed(tx) && tx.fate == Running && tx.stage != Ending
    ensures Lowers(tx, StepTx(db, tx, e, number, skip))
  {
    hide Lowers, StepTx;
    if BeforeStock(tx.stage) {
      EarlyLowers(db, tx, e, number, skip);
    } else if tx.stage == Scanning || tx.stage == Locking || tx.stage == Moving {
      MovingLowers(db, tx, e, number, skip);
    } else if tx.stage == Creating || tx.stage == Recording {
      LateLowers(db, tx, e, number, skip);
    } else if tx.stage == Announcing {
      AnnouncingLowers(db, tx, e, number, skip);
    } else if tx.stage == Reading || tx.stage == Guarding {
      GuardingLowers(db, tx, e, number, skip);
    } else {
      OthersLower(db, tx, e, number, skip);
    }
  }

  // The whole system

  ghost function Left(s: Sys, t: TxId): int {
    if IsRunning(s, t) then StepsLeft(s.txs[t]) else 0
  }

  ghost function Work(s: Sys): int {
    Sum(s.txs.Keys, (t: TxId) => Left(s, t))
  }

  /** A statement or an end from outside leaves less work; nobody else's changes. */
  lemma ActionLowers(s: Sys, a: Action)
    requires Enabled(s, a) && (a.Run? || a.Stop?)
    ensures Work(Next(s, a)) < Work(s)
  {
    var s' := Next(s, a);
    OneLess(s, a);
    var f: TxId -> int := t => Left(s, t);
    var g: TxId -> int := t => Left(s', t);
    SumAgree(s.txs.Keys, (t: TxId) => Left(s, t), f);
    SumAgree(s'.txs.Keys, (t: TxId) => Left(s', t), g);
    SumPick(s.txs.Keys, f, a.t);
    SumPick(s.txs.Keys, g, a.t);
    SumAgree(s.txs.Keys - {a.t}, f, g);
  }

  lemma OneLess(s: Sys, a: Action)
    requires Enabled(s, a) && (a.Run? || a.Stop?)
    ensures var s' := Next(s, a);
            && s'.txs.Keys == s.txs.Keys && a.t in s.txs
            && Left(s', a.t) < Left(s, a.t)
            && forall t :: t in s.txs && t != a.t ==> Left(s', t) == Left(s, t)
  {
    hide StepTx, StepsLeft, Apply, Blocked, WellFormed;
    StepsArePositive(s.txs[a.t]);
    if a.Run? && s.txs[a.t].stage != Ending {
      StepLowers(s.db, s.txs[a.t], a.env, s.next, LockedMessages(s, a.t));
    }
  }

  lemma StepsArePositive(tx: Tx)
    requires WellFormed(tx)
    ensures StepsLeft(tx) > 0
  {
  }

  /** A schedule of statements and ends from outside, with no new transaction. */
  ghost predicate Schedule(s: Sys, actions: seq<Action>, s': Sys)
    decreases |actions|
  {
    if actions == [] then s' == s else
      (actions[0].Run? || actions[0].Stop?) && Enabled(s, actions[0]) && Schedule(Next(s, actions[0]), actions[1..], s')
  }

  lemma WorkIsNonNegative(s: Sys)
    ensures 0 <= Work(s)
  {
    var f: TxId -> int := t => Left(s, t);
    SumAgree(s.txs.Keys, (t: TxId) => Left(s, t), f);
    SumNonNegative(s.txs.Keys, f);
  }

  /** No schedule is longer than the work there is. */
  lemma {:induction false} SchedulesEnd(s: Sys, actions: seq<Action>, s': Sys)
    requires Schedule(s, actions, s')
    ensures |actions| <= Work(s)
    decreases |actions|
  {
    hide Enabled, Next, Work;
    if actions == [] {
      WorkIsNonNegative(s);
    } else {
      ActionLowers(s, actions[0]);
      SchedulesEnd(Next(s, actions[0]), actions[1..], s');
    }
  }

  /** It ends nobody from outside. */
  predicate OnlyRuns(actions: seq<Action>) {
    forall a :: a in actions ==> a.Run?
  }

  /** From every reachable state the unfinished transactions can be run, none of them ended from outside, until all have
      ended, or those that have not all wait, some of them in a circle. */
  lemma {:induction false} AllFinishOrCircle(s: Sys) returns (actions: seq<Action>, s': Sys)
    requires Inv(s)
    ensures Schedule(s, actions, s') && OnlyRuns(actions) && Inv(s')
    ensures Stuck(s')
    ensures (forall t :: !IsRunning(s', t)) || exists ts :: Circle(s', ts)
    decreases Work(s)
  {
    hide Inv, Enabled, Next, Work, IsRunning, Circle, Stuck;
    if Stuck(s) {
      actions, s' := [], s;
      if t :| IsRunning(s, t) {
        var ts := StuckMeansCircle(s, t);
      }
    } else {
      var a := NotStuck(s);
      ActionLowers(s, a);
      WorkIsNonNegative(s);
      NextKeeps(s, a);
      var rest;
      rest, s' := AllFinishOrCircle(Next(s, a));
      actions := [a] + rest;
      assert actions[1..] == rest;
    }
  }

  /** The references drawn on the way are distinct members of `free`. */
  ghost predicate DrawnFrom(s: Sys, actions: seq<Action>, free: set<string>)
    decreases |actions|
  {
    actions != [] ==>
      && Enabled(s, actions[0]) && (IsDrawing(s, actions[0]) ==> actions[0].env.reference in free)
      && DrawnFrom(Next(s, actions[0]), actions[1..], FreeAfter(s, actions[0], free))
  }

  /** While pending references are apart, and of those that can be drawn enough are neither stored nor pending, all
      unfinished transactions can be run to their ends by drawing such. */
  lemma {:induction false} AllFinish(s: Sys, free: set<string>) returns (actions: seq<Action>, s': Sys)
    requires Inv(s) && Apart(s) && Enough(s, free)
    ensures Schedule(s, actions, s') && OnlyRuns(actions) && DrawnFrom(s, actions, free)
    ensures forall t :: !IsRunning(s', t)
    decreases Work(s)
  {
    hide Inv, Apart, Enabled, Next, Work, IsRunning, Careful, Enough, IsDrawing, FreeAfter;
    if t :| IsRunning(s, t) {
      var a := CarefulStepExists(s, t, free);
      ActionLowers(s, a);
      WorkIsNonNegative(s);
      NextKeeps(s, a);
      NextKeepsApart(s, a);
      EnoughRemain(s, a, free);
      var rest;
      rest, s' := AllFinish(Next(s, a), FreeAfter(s, a, free));
      actions := [a] + rest;
      assert actions[1..] == rest;
    } else {
      actions, s' := [], s;
    }
  }

  lemma CarefulStepExists(s: Sys, v: TxId, free: set<string>) returns (a: Action)
    requires Inv(s) && Apart(s) && IsRunning(s, v) && Enough(s, free)
    ensures a.Run? && Enabled(s, a) && Careful(s, a) && (IsDrawing(s, a) ==> a.env.reference in free)
  {
    hide Inv, Apart, IsRunning, Circle, Blocked, Fresh, Undrawn, IsReference;
    forall ts ensures !Circle(s, ts) {
      ApartMeansNoCircle(s, ts);
    }
    var next := SomebodyCanStep(s, v);
    a := next;
    if IsDrawing(s, next) {
      DrawersAreUndrawn(s, next);
      var r :| r in free;
      a := Run(next.t, next.env.(reference := r));
    }
  }

  lemma DrawersAreUndrawn(s: Sys, a: Action)
    requires Enabled(s, a) && IsDrawing(s, a)
    ensures a.t in Undrawn(s)
  {
    hide Blocked;
  }
}
