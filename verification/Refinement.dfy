/** Refinement: every step of the interleaved system is one atomic transaction on the committed tables, or none. */
module Refinement {
  import opened Results
  import opened Calendar
  import opened Pricing
  import opened Bookings
  import opened Tables
  import opened Transactions
  import opened Effects
  import opened Consistency
  import opened Interleaving
  import opened Invariants
  import opened Commits
  import opened Reachable
  import opened Guarantees

  /** What a step does to the committed tables. */
  datatype Atomic =
    | Nothing
    | Reserve(input: ReserveInput, rates: Result<seq<RateDay>>, draws: Draws)
    | Cancel(reference: string, now: Instant, event: int)
    | Stock(room: Uuid, from: Day, until: Day, allotment: int)
    | Mark(batch: nat, ids: seq<int>, sent: set<int>)
    | Price(plan: Uuid, inputs: seq<RateInput>)

  /** Marking attempts: distinct eligible messages, at most a batch of them, each published or counted as a failure. */
  ghost predicate Marks(outbox: Outbox, batch: nat, ids: seq<int>, sent: set<int>, after: Outbox) {
    && |ids| <= batch && Distinct(ids)
    && (forall m :: m in ids ==> m in outbox && Eligible(outbox[m]))
    && after == outbox + MarkedRows(outbox, ids, m => m in sent)
  }

  /** From these tables the transaction commits, and leaves those. */
  ghost predicate Performs(db: Db, a: Atomic, after: Db) {
    match a
    case Nothing => after == db
    case Reserve(input, rates, draws) =>
      var o := ReserveTx(db, input, rates, draws); o.result.Ok? && o.db == after
    case Cancel(reference, now, event) =>
      var o := CancelTx(db, reference, now, event); o.result.Ok? && o.db == after
    case Stock(room, from, until, allotment) =>
      SetInventoryTx(db, room, from, until, allotment) == Outcome(Ok(()), after)
    case Mark(batch, ids, sent) => after == db.(outbox := after.outbox) && Marks(db.outbox, batch, ids, sent, after.outbox)
    case Price(plan, inputs) => SetRatesTx(db, plan, inputs).db == after
  }

  function Sent(tx: Tx): set<int> {
    set m | m in tx.writes.outbox && tx.writes.outbox[m].published
  }

  /** A commit counts as its whole transaction; every other step counts as nothing. */
  function CommitOf(tx: Tx): Atomic {
    match tx.program
    case Reserving(input) => Reserve(input, tx.rates, tx.draws)
    case Cancelling(reference) => Cancel(reference, tx.draws.now, tx.draws.event)
    case Stocking(room, from, until, allotment) => Stock(room, from, until, allotment)
    case Dispatching(batch) => Mark(batch, tx.picked, Sent(tx))
  }

  ghost function AtomicOf(s: Sys, a: Action): Atomic
    requires Enabled(s, a)
  {
    match a
    case Start(_, _) => Nothing
    case Stop(_) => Nothing
    case Run(t, _) => if s.txs[t].stage == Ending then CommitOf(s.txs[t]) else Nothing
    case SetRates(plan, inputs) => Price(plan, inputs)
  }

  /** The answer a committed reservation gives is the one the atomic transaction gives: its own booking, or a replay
      of the one stored, read a moment earlier and differing at most in a cancellation since. The answer of a committed
      cancellation, refund included, is what cancelling the reservation it had read comes to. */
  ghost predicate Answers(db: Db, tx: Tx) {
    match tx.program
    case Reserving(input) =>
      var r := ReserveTx(db, input, tx.rates, tx.draws).result;
      && r.Ok? && tx.booking.Some? && r.value.replayed == !tx.owned
      && (tx.owned ==> r.value.booking == tx.booking.value)
      && r.value.booking.(status := tx.booking.value.status, cancelledAt := tx.booking.value.cancelledAt) == tx.booking.value
    case Cancelling(reference) =>
      && tx.booking.Some?
      && var r := Assess(db.catalog, tx.booking.value, tx.draws.now);
      r.Ok? && CancelTx(db, reference, tx.draws.now, tx.draws.event).result == r
    case _ => true
  }

  lemma FreshRefines(db: Db, tx: Tx)
    requires tx.fate == Running && tx.stage == Ending && FreshOk(db, tx)
    ensures Performs(db, CommitOf(tx), Apply(db, tx.writes)) && Answers(db, tx)
  {
    hide Apply, CanBook, BookedDb, ReserveTx, Planned, GuestFor;
    FreshCommit(db, tx);
    ReserveEffect(db, tx.program.input, tx.rates, tx.draws);
    FreshIsOwned(db, tx);
  }

  lemma FreshIsOwned(db: Db, tx: Tx)
    requires FreshOk(db, tx)
    ensures tx.owned
  {
  }

  lemma ReplayRefines(db: Db, tx: Tx)
    requires tx.fate == Running && tx.stage == Ending && ReplayOk(db, tx)
    ensures Performs(db, CommitOf(tx), Apply(db, tx.writes)) && Answers(db, tx)
  {
    hide Apply, ReserveTx, ByID;
    ReplayCommit(db, tx);
    ReplayEffect(db, tx.program.input, tx.rates, tx.draws);
  }

  lemma CancelRefines(db: Db, tx: Tx, b: Booking)
    requires tx.fate == Running && tx.stage == Ending && CancelOk(db, tx) && tx.booking == Some(b)
    ensures Performs(db, CommitOf(tx), Apply(db, tx.writes)) && Answers(db, tx)
  {
    hide Apply, CanCancel, CancelledDb, CancelTx, ByReference;
    CancelCommit(db, tx, b);
    CancelEffect(db, tx.program.reference, tx.draws.now, tx.draws.event);
  }

  lemma StockRefines(db: Db, tx: Tx)
    requires tx.program.Stocking? && tx.fate == Running && tx.stage == Ending && StockingOk(db, tx)
    ensures Performs(db, CommitOf(tx), Apply(db, tx.writes))
  {
    hide Apply, UpsertError, UpsertedRows, Upserted;
    StockingCommit(db, tx);
  }

  lemma MarkRefines(db: Db, tx: Tx)
    requires tx.program.Dispatching? && tx.fate == Running && tx.stage == Ending && DispatchOk(db, tx)
    ensures Performs(db, CommitOf(tx), Apply(db, tx.writes))
  {
    hide Apply;
    DispatchCommit(db, tx);
    assert tx.picked[..tx.got] == tx.picked;
    MarksAre(db.outbox, tx.picked, tx.writes.outbox, Sent(tx));
  }

  /** The written rows are the picked ones, marked with the outcome of their sending. */
  lemma MarksAre(outbox: Outbox, ids: seq<int>, rows: Outbox, sent: set<int>)
    requires Attempted(outbox, rows) && forall m :: m in rows <==> m in ids
    requires sent == set m | m in rows && rows[m].published
    ensures rows == MarkedRows(outbox, ids, m => m in sent)
  {
    var marked := MarkedRows(outbox, ids, m => m in sent);
    forall m | m in rows ensures m in marked && marked[m] == rows[m] {
      assert Eligible(outbox[m]);
    }
    forall m | m in marked ensures m in rows {
      assert m in ids;
    }
  }

  lemma CommitRefines(db: Db, tx: Tx)
    requires tx.fate == Running && tx.stage == Ending && TxOk(db, tx)
    ensures Performs(db, CommitOf(tx), Apply(db, tx.writes)) && Answers(db, tx)
  {
    hide Performs, FreshOk, ReplayOk, CancelOk, StockingOk, DispatchOk, Apply, CommitOf, ReserveTx, CancelTx;
    match tx.program
    case Reserving(_) =>
      if FreshOk(db, tx) {
        FreshRefines(db, tx);
      } else {
        ReplayRefines(db, tx);
      }
    case Cancelling(_) => CancelRefines(db, tx, tx.booking.value);
    case Stocking(_, _, _, _) => StockRefines(db, tx);
    case Dispatching(_) => MarkRefines(db, tx);
  }

  /** In every state that can be reached, every commit is one atomic reserve, replay, cancel, publish or mark on the
      tables as committed at that moment, every other step of a transaction changes nothing, and so does every
      rollback. */
  lemma StepRefines(s: Sys, a: Action)
    requires Inv(s) && Enabled(s, a)
    ensures Performs(s.db, AtomicOf(s, a), Next(s, a).db)
    ensures a.Run? && s.txs[a.t].stage == Ending ==> Answers(s.db, s.txs[a.t])
  {
    hide Consistent, TxOk, Apply, ReserveTx, CancelTx, Answers, Blocked, WellFormed, StepTx, SetInventoryTx, Marks, Exclusive,
         AllDrawn, History, SetRatesTx;
    if a.Run? && s.txs[a.t].stage == Ending {
      CommitRefines(s.db, s.txs[a.t]);
    }
  }

  /** So the committed states of a run are those of a sequence of atomic transactions, in the order of their commits: each
      is that of the action taken, and a commit is answered as its transaction answers. */
  lemma RunRefines(run: seq<Sys>, i: nat) returns (a: Action, atomic: Atomic)
    requires IsRun(run) && 0 < i < |run|
    ensures Enabled(run[i - 1], a) && run[i] == Next(run[i - 1], a) && atomic == AtomicOf(run[i - 1], a)
    ensures Performs(run[i - 1].db, atomic, run[i].db)
    ensures a.Run? && run[i - 1].txs[a.t].stage == Ending ==> Answers(run[i - 1].db, run[i - 1].txs[a.t])
  {
    hide Inv, Enabled, Next, Performs, Initial, AtomicOf, Answers;
    RunInv(run, i - 1);
    assert StepsTo(run[i - 1], run[i]);
    a :| Enabled(run[i - 1], a) && run[i] == Next(run[i - 1], a);
    StepRefines(run[i - 1], a);
    atomic := AtomicOf(run[i - 1], a);
  }
}
