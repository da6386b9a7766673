/** The safe side of deadlock freedom: while every reference drawn is neither stored nor about to be, nobody waits in a
    circle, and all transactions can be run to their ends. */
module References {
  import opened Collections
  import opened Bookings
  import opened Tables
  import opened Transactions
  import opened Effects
  import opened Consistency
  import opened Interleaving
  import opened Invariants
  import opened Commits
  import opened Locks
  import opened Reachable
  import opened Deadlock

  /** The reservation has drawn its reference and has not ended. */
  predicate Pending(s: Sys, t: TxId) {
    && t in s.txs && s.txs[t].fate == Running && s.txs[t].program.Reserving? && s.txs[t].owned
    && Past(s.txs[t], Drafting)
  }

  predicate DrawnBy(s: Sys, t: TxId, reference: string) {
    Pending(s, t) && s.txs[t].draws.reference == reference
  }

  /** Nobody has stored the reference, nor is about to. */
  ghost predicate Fresh(s: Sys, reference: string) {
    reference !in s.db.refs && forall t :: !DrawnBy(s, t, reference)
  }

  /** References drawn are fresh; an action that draws none is free to do what it does. */
  ghost predicate Careful(s: Sys, a: Action) {
    a.Run? && a.t in s.txs && s.txs[a.t].stage == Drafting ==> Fresh(s, a.env.reference)
  }

  /** Pending references are not stored, and each is pending once. */
  ghost predicate Apart(s: Sys) {
    && (forall t :: Pending(s, t) ==> s.txs[t].draws.reference !in s.db.refs)
    && (forall t, u :: Pending(s, t) && Pending(s, u) && s.txs[t].draws.reference == s.txs[u].draws.reference ==> t == u)
  }

  // Careful actions keep references apart

  lemma StepKeepsReference(db: Db, tx: Tx, e: Env, number: int, skip: set<int>)
    requires WellFormed(tx) && tx.stage != Ending && Tidy(tx) && tx.program.Reserving?
    ensures var after := StepTx(db, tx, e, number, skip);
            Past(after, Drafting) && after.owned && after.fate == Running ==>
              && after.program.Reserving?
              && (if tx.stage == Drafting then after.draws.reference == e.reference
                  else tx.owned && Past(tx, Drafting) && after.draws.reference == tx.draws.reference)
  {
    hide ReadRates, PriceStay, Planned, ByID, MoveError, MovedRows, RowDays, RowOf, RowAccepted, NightRows, NightsAccepted;
  }

  lemma StepKeepsProgram(db: Db, tx: Tx, e: Env, number: int, skip: set<int>)
    requires WellFormed(tx) && tx.stage != Ending
    ensures StepTx(db, tx, e, number, skip).program == tx.program
  {
    hide ReadRates, PriceStay, Planned, ByID, ByReference, Assess, MoveError, MovedRows, RowDays, Create, CancelRow, Candidates;
  }

  lemma StepKeepsApart(s: Sys, t: TxId, e: Env)
    requires Inv(s) && Apart(s) && Enabled(s, Run(t, e)) && Careful(s, Run(t, e)) && s.txs[t].stage != Ending
    ensures Apart(Next(s, Run(t, e)))
  {
    hide Consistent, TxOk, Holds, Blocked, StepTx, WellFormed, Tidy, Exclusive, AllDrawn, History;
    var s' := Next(s, Run(t, e));
    OkIsTidy(s.db, s.txs[t]);
    StepKeepsProgram(s.db, s.txs[t], e, s.next, LockedMessages(s, t));
    if s.txs[t].program.Reserving? {
      StepKeepsReference(s.db, s.txs[t], e, s.next, LockedMessages(s, t));
    }
    forall u | u != t ensures Pending(s', u) <==> Pending(s, u) {
    }
    if s.txs[t].stage == Drafting {
      forall u | u != t && Pending(s', u) ensures s'.txs[u].draws.reference != e.reference {
        assert !DrawnBy(s, u, e.reference);
      }
    }
    forall u | Pending(s', u) ensures s'.txs[u].draws.reference !in s'.db.refs {
      if u != t {
        assert Pending(s, u);
      } else if s.txs[t].stage != Drafting {
        assert Pending(s, t);
      }
    }
  }

  /** A commit stores the reference of its own reservation, or none. */
  lemma CommitStores(db: Db, tx: Tx)
    requires tx.fate == Running && tx.stage == Ending && TxOk(db, tx)
    ensures forall r :: r in Apply(db, tx.writes).refs ==>
              r in db.refs || (tx.program.Reserving? && tx.owned && r == tx.draws.reference)
  {
    hide FreshOk, ReplayOk, CancelOk, StockingOk, DispatchOk, Holds;
    EndHeld(db, tx);
    forall r | r in tx.writes.refs ensures r in db.refs || (tx.program.Reserving? && tx.owned && r == tx.draws.reference) {
      assert Holds(tx, RefLock(r));
      RefHolder(db, tx, r);
      HeldReference(db, tx, r);
    }
  }

  lemma HeldReference(db: Db, tx: Tx, reference: string)
    requires TxOk(db, tx) && Holds(tx, RefLock(reference))
    ensures tx.program.Reserving? ==> tx.owned && reference == tx.draws.reference
    ensures tx.program.Cancelling? && tx.stage == Ending ==> reference in db.refs
  {
    hide FreshOk, ReplayOk, SameBut, Guarded, Moved, CancelWrite, ReleaseWrite;
  }

  lemma CommitKeepsApart(s: Sys, t: TxId)
    requires Inv(s) && Apart(s) && IsRunning(s, t) && s.txs[t].stage == Ending
    ensures Apart(Commit(s, t))
  {
    hide Consistent, TxOk, Holds, Apply, Exclusive, AllDrawn, History, WellFormed;
    CommitStores(s.db, s.txs[t]);
    var s' := Commit(s, t);
    forall u | Pending(s', u) ensures Pending(s, u) && u != t {
    }
    forall u | Pending(s', u) ensures s'.txs[u].draws.reference !in s'.db.refs {
      assert Pending(s, u);
    }
  }

  /** Every careful action keeps pending references apart from each other and from those stored. */
  lemma NextKeepsApart(s: Sys, a: Action)
    requires Inv(s) && Apart(s) && Enabled(s, a) && Careful(s, a)
    ensures Apart(Next(s, a))
  {
    hide Inv, Blocked, Careful, WellFormed;
    match a
    case Run(t, e) =>
      if s.txs[t].stage == Ending {
        CommitKeepsApart(s, t);
      } else {
        StepKeepsApart(s, t, e);
      }
    case Start(t, p) => forall u | Pending(Next(s, a), u) ensures Pending(s, u) && u != t {}
    case Stop(t) => forall u | Pending(Next(s, a), u) ensures Pending(s, u) && u != t {}
    case SetRates(plan, inputs) =>
      SetRatesOnlyRates(s.db, plan, inputs);
      forall u ensures Pending(Next(s, a), u) <==> Pending(s, u) {}
  }

  // So there is no clash, and no circle

  lemma ApartMeansNoClash(s: Sys, t: TxId, u: TxId)
    requires Inv(s) && Apart(s)
    ensures !Clash(s, t, u)
  {
    hide Consistent, Exclusive, AllDrawn, History, TxOk, RowAccepted;
    if Clash(s, t, u) {
      CreatorOwns(s.db, s.txs[t]);
      GuardedIsKnown(s.db, s.txs[u]);
    }
    assert Pending(s, t) ==> s.txs[t].draws.reference !in s.db.refs;
  }

  lemma CreatorOwns(db: Db, tx: Tx)
    requires TxOk(db, tx) && tx.program.Reserving? && tx.stage == Creating
    ensures tx.owned
  {
    hide SameBut, Drafted, Moved, StockWrite;
  }

  lemma ApartMeansNoCircle(s: Sys, ts: seq<TxId>)
    requires Inv(s) && Apart(s)
    ensures !Circle(s, ts)
  {
    hide Inv, Apart, Clash, Circle;
    if Circle(s, ts) {
      CirclesClash(s, ts);
      var i :| 0 < i < |ts| && Clash(s, ts[i - 1], ts[i]);
      ApartMeansNoClash(s, ts[i - 1], ts[i]);
    }
  }

  /** A run in which every reference drawn is fresh. */
  ghost predicate IsCarefulRun(run: seq<Sys>) {
    && |run| > 0 && Initial(run[0])
    && forall i {:trigger run[i]} :: 0 < i < |run| ==> CarefulStep(run[i - 1], run[i])
  }

  ghost predicate CarefulStep(s: Sys, s': Sys) {
    exists a :: Enabled(s, a) && Careful(s, a) && s' == Next(s, a)
  }

  lemma {:induction false} CarefulRunsStayApart(run: seq<Sys>, i: nat)
    requires IsCarefulRun(run) && i < |run|
    ensures Inv(run[i]) && Apart(run[i])
  {
    hide Inv, Enabled, Next, Careful, Apart;
    if i == 0 {
      InitialInv(run[0]);
      InitialApart(run[0]);
    } else {
      CarefulRunsStayApart(run, i - 1);
      assert CarefulStep(run[i - 1], run[i]);
      var a :| Enabled(run[i - 1], a) && Careful(run[i - 1], a) && run[i] == Next(run[i - 1], a);
      NextKeeps(run[i - 1], a);
      NextKeepsApart(run[i - 1], a);
    }
  }

  lemma InitialApart(s: Sys)
    requires Initial(s)
    ensures Apart(s)
  {
    hide Consistent;
  }

  /** Deadlock freedom: as long as every reference drawn is neither stored nor pending, transactions never wait for each
      other in a circle. */
  lemma CarefulRunsHaveNoCircle(run: seq<Sys>, i: nat, ts: seq<TxId>)
    requires IsCarefulRun(run) && i < |run|
    ensures !Circle(run[i], ts)
  {
    hide Inv, Apart, Circle, CarefulStep, Initial;
    CarefulRunsStayApart(run, i);
    ApartMeansNoCircle(run[i], ts);
  }

  // References to draw from

  predicate IsDrawing(s: Sys, a: Action) {
    a.Run? && a.t in s.txs && s.txs[a.t].stage == Drafting
  }

  /** Reservations that may yet draw a reference. */
  ghost function Undrawn(s: Sys): set<TxId> {
    set t | t in s.txs && s.txs[t].fate == Running && s.txs[t].program.Reserving? && !Past(s.txs[t], Drafting)
  }

  /** References that can be drawn, nobody has, and are enough for all who may yet draw one. */
  ghost predicate Enough(s: Sys, free: set<string>) {
    && (forall r :: r in free ==> IsReference(r) && Fresh(s, r))
    && |Undrawn(s)| <= |free|
  }

  /** What is left of them after an action. */
  function FreeAfter(s: Sys, a: Action, free: set<string>): set<string> {
    if IsDrawing(s, a) then free - {a.env.reference} else free
  }

  lemma StepKeepsFresh(s: Sys, t: TxId, e: Env, r: string)
    requires Inv(s) && Enabled(s, Run(t, e)) && s.txs[t].stage != Ending && Fresh(s, r)
    requires IsDrawing(s, Run(t, e)) ==> e.reference != r
    ensures Fresh(Next(s, Run(t, e)), r)
  {
    hide Consistent, TxOk, Holds, Blocked, StepTx, WellFormed, Tidy, Exclusive, AllDrawn, History;
    var s' := Next(s, Run(t, e));
    OkIsTidy(s.db, s.txs[t]);
    StepKeepsProgram(s.db, s.txs[t], e, s.next, LockedMessages(s, t));
    if s.txs[t].program.Reserving? {
      StepKeepsReference(s.db, s.txs[t], e, s.next, LockedMessages(s, t));
    }
    forall u ensures !DrawnBy(s', u, r) {
      assert !DrawnBy(s, u, r);
    }
  }

  lemma CommitKeepsFresh(s: Sys, t: TxId, r: string)
    requires Inv(s) && IsRunning(s, t) && s.txs[t].stage == Ending && Fresh(s, r)
    ensures Fresh(Commit(s, t), r)
  {
    hide Consistent, TxOk, Holds, Apply, Exclusive, AllDrawn, History, WellFormed;
    CommitStores(s.db, s.txs[t]);
    assert !DrawnBy(s, t, r);
    forall u ensures !DrawnBy(Commit(s, t), u, r) {
      assert !DrawnBy(s, u, r);
    }
  }

  lemma DraftMovesOn(db: Db, tx: Tx, e: Env)
    requires tx.program.Reserving?
    ensures DraftStep(db, tx, e).fate.Failed? || Past(DraftStep(db, tx, e), Drafting)
  {
    hide Planned;
  }

  lemma MoveMovesOn(db: Db, tx: Tx)
    requires tx.program.Reserving? && tx.booking.Some?
    ensures Past(ScanStep(db, tx), Drafting) && (tx.stage == Locking ==> Past(LockStep(tx), Drafting))
    ensures MoveStep(db, tx).fate.Failed? || Past(MoveStep(db, tx), Drafting)
  {
    hide MoveError, MovedRows, RowDays;
  }

  lemma CreateMovesOn(db: Db, tx: Tx, number: int)
    requires tx.program.Reserving? && tx.booking.Some?
    ensures CreateStep(db, tx).fate.Failed? || Past(CreateStep(db, tx), Drafting)
    ensures RecordStep(db, tx).fate.Failed? || Past(RecordStep(db, tx), Drafting)
    ensures Past(AnnounceStep(db, tx, number), Drafting)
  {
    hide Create, RowOf, NightRows, ConfirmedMessage;
  }

  /** Once it has drawn a reference, or failed to, a reservation draws none again. */
  lemma DrawsOnce(db: Db, tx: Tx, e: Env, number: int, skip: set<int>)
    requires WellFormed(tx) && tx.program.Reserving? && tx.stage != Ending && Order(Drafting) <= Order(tx.stage)
    ensures StepTx(db, tx, e, number, skip).fate.Failed? || Past(StepTx(db, tx, e, number, skip), Drafting)
  {
    hide Past, DraftStep, ScanStep, LockStep, MoveStep, CreateStep, RecordStep, AnnounceStep;
    if tx.stage == Drafting {
      DraftMovesOn(db, tx, e);
    } else {
      MoveMovesOn(db, tx);
      CreateMovesOn(db, tx, number);
    }
  }

  lemma StepShrinksUndrawn(s: Sys, t: TxId, e: Env)
    requires Enabled(s, Run(t, e))
    ensures Undrawn(Next(s, Run(t, e))) <= Undrawn(s)
    ensures IsDrawing(s, Run(t, e)) ==> t in Undrawn(s) && t !in Undrawn(Next(s, Run(t, e)))
  {
    hide Blocked, StepTx, Apply;
    var tx := s.txs[t];
    if tx.stage != Ending {
      StepKeepsProgram(s.db, tx, e, s.next, LockedMessages(s, t));
      if tx.program.Reserving? && Order(Drafting) <= Order(tx.stage) {
        DrawsOnce(s.db, tx, e, s.next, LockedMessages(s, t));
      }
    }
  }

  /** Whoever draws takes one of the references, and there are enough of the others for the others. */
  lemma EnoughRemain(s: Sys, a: Action, free: set<string>)
    requires Inv(s) && Enabled(s, a) && a.Run? && Enough(s, free) && (IsDrawing(s, a) ==> a.env.reference in free)
    ensures Enough(Next(s, a), FreeAfter(s, a, free))
  {
    hide Inv, Fresh, Next, Enabled, Undrawn, IsReference;
    var s', rest := Next(s, a), FreeAfter(s, a, free);
    forall r | r in rest ensures Fresh(s', r) {
      KeepsFresh(s, a, r);
    }
    StepShrinksUndrawn(s, a.t, a.env);
    if IsDrawing(s, a) {
      assert Undrawn(s') <= Undrawn(s) - {a.t};
      SubsetSize(Undrawn(s'), Undrawn(s) - {a.t});
    } else {
      SubsetSize(Undrawn(s'), Undrawn(s));
    }
  }

  lemma KeepsFresh(s: Sys, a: Action, r: string)
    requires Inv(s) && Enabled(s, a) && a.Run? && Fresh(s, r) && (IsDrawing(s, a) ==> a.env.reference != r)
    ensures Fresh(Next(s, a), r)
  {
    hide Inv, Fresh, Blocked, WellFormed, IsDrawing, StepTx;
    if s.txs[a.t].stage == Ending {
      CommitKeepsFresh(s, a.t, r);
    } else {
      StepKeepsFresh(s, a.t, a.env, r);
    }
  }
}
