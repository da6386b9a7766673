/** Lock order: key, then guest or reservation row, then inventory rows by date, then the new reference. Waiting follows
    that order, so transactions cannot wait for each other in a circle, with one exception: a reservation that has
    drawn a reference already in use waits, while it holds inventory, for a cancellation of that reservation. */
module Deadlock {
  import opened Collections
  import opened Calendar
  import opened Stays
  import opened Bookings
  import opened Tables
  import opened Stock
  import opened Effects
  import opened Consistency
  import opened Interleaving
  import opened Invariants
  import opened Runs
  import opened Reachable

  datatype Rank = Rank(level: int, day: Day)

  predicate Below(a: Rank, b: Rank) {
    a.level < b.level || (a.level == b.level && a.day < b.day)
  }

  const UNBLOCKABLE := 4

  /** The place in the order of the lock a transaction is about to take; one that is not about to take any comes last. */
  function RankOf(tx: Tx): Rank
    requires WellFormed(tx)
  {
    match tx.stage
    case Claiming => Rank(0, 0)
    case Greeting | Guarding => Rank(1, 0)
    case Locking => if tx.got < |tx.days| then Rank(2, tx.days[tx.got]) else Rank(UNBLOCKABLE, 0)
    case Upserting =>
      if tx.program.from + tx.got < tx.program.until then Rank(2, tx.program.from + tx.got) else Rank(UNBLOCKABLE, 0)
    case Creating => Rank(3, 0)
    case _ => Rank(UNBLOCKABLE, 0)
  }

  /** A reservation is about to insert, in a row the checks accept, the reference of a reservation that a cancellation
      has under way. */
  predicate Clash(s: Sys, t: TxId, u: TxId) {
    && t in s.txs && s.txs[t].program.Reserving? && s.txs[t].fate == Running && s.txs[t].stage == Creating
    && s.txs[t].booking.Some? && RowAccepted(RowOf(s.txs[t].booking.value))
    && u in s.txs && s.txs[u].program.Cancelling? && s.txs[u].fate == Running && Past(s.txs[u], Guarding)
    && s.txs[u].booking.Some? && s.txs[u].booking.value.reference == s.txs[t].draws.reference
  }

  // Whoever holds a lock is about to take one of a higher rank, if any

  lemma KeyHolder(db: Db, tx: Tx, key: string)
    requires TxOk(db, tx) && WellFormed(tx) && Holds(tx, KeyLock(key))
    ensures Below(Rank(0, 0), RankOf(tx))
  {
    hide ReplayOk, FreshOk, RankOf;
    OwnerIsFresh(db, tx);
    FreshStages(db, tx);
    assert Below(Rank(0, 0), RankOf(tx)) by { OthersRankHigher(tx); }
  }

  lemma OthersRankHigher(tx: Tx)
    requires WellFormed(tx) && tx.stage != Claiming
    ensures Below(Rank(0, 0), RankOf(tx))
  {
  }

  lemma GuestHolder(tx: Tx, email: string)
    requires WellFormed(tx) && Holds(tx, GuestLock(email))
    ensures Below(Rank(1, 0), RankOf(tx))
  {
  }

  /** The row of a stored reservation is only ever held by another cancellation, which has passed the guard. */
  lemma RowHolder(db: Db, tx: Tx, id: Uuid)
    requires TxOk(db, tx) && WellFormed(tx) && Holds(tx, RowLock(id)) && id in db.reservations
    ensures tx.program.Cancelling? && Below(Rank(1, 0), RankOf(tx))
  {
    if tx.program.Reserving? {
      OwnerIsFresh(db, tx);
      DraftIsNew(db, tx);
    }
  }

  lemma OwnerIsFresh(db: Db, tx: Tx)
    requires TxOk(db, tx) && tx.program.Reserving? && tx.owned
    ensures FreshOk(db, tx)
  {
  }

  lemma DraftIsNew(db: Db, tx: Tx)
    requires FreshOk(db, tx) && Past(tx, Drafting)
    ensures tx.draws.id !in db.reservations
  {
  }

  /** The nights of a stay are locked in order. */
  lemma LaterNight(tx: Tx, slot: Slot)
    requires tx.booking.Some? && StrictlyAscending(tx.days) && HoldsSlot(tx, slot) && tx.got < |tx.days|
    ensures slot.day < tx.days[tx.got]
  {
    var i :| 0 <= i < tx.got && tx.days[..tx.got][i] == slot.day;
  }

  lemma NightsInOrder(db: Db, tx: Tx)
    requires TxOk(db, tx) && tx.stage == Locking
    ensures StrictlyAscending(tx.days)
  {
    hide Drafted, GuestWrite, ReadOk, Guarded, GuardWrite;
  }

  lemma NothingLockedEarly(db: Db, tx: Tx)
    requires TxOk(db, tx) && WellFormed(tx) && (tx.program.Reserving? || tx.program.Cancelling?) && tx.got > 0
    ensures tx.stage == Locking || RankOf(tx).level > 2
  {
    hide Drafted, GuestWrite, ReadOk, Guarded, GuardWrite, Priced, Moved, CanCreate, SameBut;
  }

  lemma SlotHolder(db: Db, tx: Tx, slot: Slot)
    requires TxOk(db, tx) && WellFormed(tx) && Holds(tx, SlotLock(slot))
    ensures Below(Rank(2, slot.day), RankOf(tx))
  {
    hide FreshOk, ReplayOk, CancelOk, StockingOk;
    if tx.program.Reserving? || tx.program.Cancelling? {
      NothingLockedEarly(db, tx);
      if tx.stage == Locking && tx.got < |tx.days| {
        NightsInOrder(db, tx);
        LaterNight(tx, slot);
      }
    } else {
      UpsertsInOrder(db, tx, slot);
    }
  }

  lemma UpsertsInOrder(db: Db, tx: Tx, slot: Slot)
    requires TxOk(db, tx) && WellFormed(tx) && tx.program.Stocking? && Holds(tx, SlotLock(slot))
    ensures Below(Rank(2, slot.day), RankOf(tx))
  {
  }

  /** A new reference is held by the reservation that has inserted it, which waits for nothing any more, or by a
      cancellation of the reservation that has it already. */
  lemma RefHolder(db: Db, tx: Tx, reference: string)
    requires TxOk(db, tx) && WellFormed(tx) && Holds(tx, RefLock(reference))
    ensures tx.program.Reserving? ==> Below(Rank(3, 0), RankOf(tx)) && reference !in db.refs
    ensures tx.program.Cancelling? ==> Below(Rank(1, 0), RankOf(tx)) && Past(tx, Guarding)
                                       && tx.booking.Some? && tx.booking.value.reference == reference
    ensures tx.program.Reserving? || tx.program.Cancelling?
  {
    hide FreshOk, ReplayOk, CancelOk, StockingOk;
    if tx.program.Reserving? {
      OwnerIsFresh(db, tx);
      InsertedIsNew(db, tx);
    }
  }

  lemma InsertedIsNew(db: Db, tx: Tx)
    requires FreshOk(db, tx) && Past(tx, Creating)
    ensures tx.program.Reserving? && tx.draws.reference !in db.refs
  {
    if Drafted(db, tx) {
      PlannedFacts(db.catalog, tx.program.input, tx.rates, GuestFor(db, tx.program.input, tx.draws), tx.draws);
    }
  }

  lemma GuardedIsKnown(db: Db, tx: Tx)
    requires TxOk(db, tx) && tx.program.Cancelling? && tx.booking.Some? && (Past(tx, Guarding) || tx.stage == Guarding)
    ensures tx.booking.value.reference in db.refs && tx.booking.value.id in db.reservations
  {
    hide Found, Moved, GuardWrite, ReleaseWrite, CancelWrite, Follows;
  }

  // Every wait goes up in rank

  /** A recorder waits for nobody: it holds its key. */
  lemma RecorderHoldsKey(db: Db, tx: Tx)
    requires TxOk(db, tx) && tx.fate == Running && tx.stage == Recording
    ensures tx.program.Reserving? && Holds(tx, KeyLock(tx.program.input.key))
  {
    hide Drafted, Moved, CanCreate, RowsWrite, SameBut;
  }

  lemma WaitsByKey(s: Sys, t: TxId, u: TxId, lock: Lock)
    requires Inv(s) && IsRunning(s, t) && IsRunning(s, u) && t != u
    requires lock in Wants(s.txs[t]) && Holds(s.txs[u], lock) && lock.KeyLock?
    ensures Below(RankOf(s.txs[t]), RankOf(s.txs[u]))
  {
    hide Consistent, AllDrawn, History, TxOk, Holds;
    KeyHolder(s.db, s.txs[u], lock.key);
    if s.txs[t].stage == Recording {
      RecorderHoldsKey(s.db, s.txs[t]);
    }
  }

  lemma WaitsByRow(s: Sys, t: TxId, u: TxId, lock: Lock)
    requires Inv(s) && IsRunning(s, t) && IsRunning(s, u) && !Clash(s, t, u)
    requires lock in Wants(s.txs[t]) && Holds(s.txs[u], lock) && (lock.RowLock? || lock.RefLock?)
    ensures Below(RankOf(s.txs[t]), RankOf(s.txs[u]))
  {
    hide Consistent, AllDrawn, History, Exclusive, TxOk, Holds;
    if s.txs[t].stage == Guarding {
      GuardedIsKnown(s.db, s.txs[t]);
    }
    match lock
    case RowLock(id) => RowHolder(s.db, s.txs[u], id);
    case RefLock(reference) => RefHolder(s.db, s.txs[u], reference);
  }

  lemma WaitsBySlot(s: Sys, t: TxId, u: TxId, lock: Lock)
    requires Inv(s) && IsRunning(s, t) && IsRunning(s, u)
    requires lock in Wants(s.txs[t]) && Holds(s.txs[u], lock) && (lock.SlotLock? || lock.GuestLock?)
    ensures Below(RankOf(s.txs[t]), RankOf(s.txs[u]))
  {
    hide Consistent, AllDrawn, History, Exclusive, TxOk, Holds;
    match lock
    case SlotLock(slot) => SlotHolder(s.db, s.txs[u], slot);
    case GuestLock(email) => GuestHolder(s.txs[u], email);
  }

  lemma MessagesAreSkipped(tx: Tx, lock: Lock)
    requires WellFormed(tx) && lock in Wants(tx)
    ensures !lock.MessageLock?
  {
  }

  lemma WaitingGoesUp(s: Sys, t: TxId, u: TxId)
    requires Inv(s) && WaitsFor(s, t, u) && !Clash(s, t, u)
    ensures Below(RankOf(s.txs[t]), RankOf(s.txs[u]))
  {
    hide Inv, Holds, Wants, RankOf, Below, Clash, WellFormed;
    var lock :| lock in Wants(s.txs[t]) && Holds(s.txs[u], lock);
    MessagesAreSkipped(s.txs[t], lock);
    if lock.KeyLock? {
      WaitsByKey(s, t, u, lock);
    } else if lock.RowLock? || lock.RefLock? {
      WaitsByRow(s, t, u, lock);
    } else {
      WaitsBySlot(s, t, u, lock);
    }
  }

  /** Each waits for the next. */
  ghost predicate Chain(s: Sys, ts: seq<TxId>) {
    |ts| > 0 && forall i {:trigger ts[i]} :: 0 < i < |ts| ==> WaitsFor(s, ts[i - 1], ts[i])
  }

  lemma {:induction false} ChainsGoUp(s: Sys, ts: seq<TxId>)
    requires Inv(s) && Chain(s, ts) && |ts| > 1
    requires forall i {:trigger ts[i]} :: 0 < i < |ts| ==> !Clash(s, ts[i - 1], ts[i])
    ensures IsRunning(s, ts[0]) && IsRunning(s, ts[|ts| - 1])
    ensures Below(RankOf(s.txs[ts[0]]), RankOf(s.txs[ts[|ts| - 1]]))
  {
    hide Inv, Holds, Wants, RankOf, Clash, WellFormed;
    var n := |ts| - 1;
    assert WaitsFor(s, ts[n - 1], ts[n]);
    WaitingGoesUp(s, ts[n - 1], ts[n]);
    if n == 1 {
    } else {
      var init := ts[..n];
      assert Chain(s, init);
      ChainsGoUp(s, init);
    }
  }

  /** They wait for each other in a circle. */
  ghost predicate Circle(s: Sys, ts: seq<TxId>) {
    Chain(s, ts) && |ts| > 1 && ts[0] == ts[|ts| - 1]
  }

  /** In a circle of transactions waiting for each other, a reservation waits for the cancellation of a reservation
      whose reference it has drawn. */
  lemma CirclesClash(s: Sys, ts: seq<TxId>)
    requires Inv(s) && Circle(s, ts)
    ensures exists i {:trigger ts[i]} :: 0 < i < |ts| && Clash(s, ts[i - 1], ts[i])
  {
    hide Inv, Holds, Wants, RankOf, Clash, WellFormed, Chain;
    if forall i {:trigger ts[i]} :: 0 < i < |ts| ==> !Clash(s, ts[i - 1], ts[i]) {
      ChainsGoUp(s, ts);
    }
  }

  // Somebody can always step, or there is a circle

  ghost predicate Stuck(s: Sys) {
    forall t :: IsRunning(s, t) ==> Blocked(s, t)
  }

  /** When nobody can step, waiting can be followed as far as one likes. */
  lemma {:induction false} WaitingGoesOn(s: Sys, v: TxId, n: nat) returns (ts: seq<TxId>)
    requires IsRunning(s, v) && Stuck(s)
    ensures |ts| == n + 1 && Chain(s, ts) && forall t :: t in ts ==> IsRunning(s, t)
  {
    hide IsRunning, Holds, Wants;
    if n == 0 {
      ts := [v];
    } else {
      var init := WaitingGoesOn(s, v, n - 1);
      var last := init[n - 1];
      assert last in init && Blocked(s, last);
      var u :| WaitsFor(s, last, u);
      WaitersRun(s, last, u);
      ts := init + [u];
      forall i {:trigger ts[i]} | 0 < i < |ts| ensures WaitsFor(s, ts[i - 1], ts[i]) {
        if i < n {
          assert WaitsFor(s, init[i - 1], init[i]);
        }
      }
    }
  }

  lemma WaitersRun(s: Sys, t: TxId, u: TxId)
    requires WaitsFor(s, t, u)
    ensures IsRunning(s, t) && IsRunning(s, u) && u in s.txs
  {
  }

  /** More numbers than there are to choose from, so one comes twice. */
  lemma {:induction false} SomethingTwice(ts: seq<int>, all: set<int>) returns (i: nat, j: nat)
    requires |all| < |ts| && forall k :: 0 <= k < |ts| ==> ts[k] in all
    ensures i < j < |ts| && ts[i] == ts[j]
    decreases |ts|
  {
    var n := |ts| - 1;
    if k :| 0 <= k < n && ts[k] == ts[n] {
      i, j := k, n;
    } else {
      var rest := all - {ts[n]};
      assert all == rest + {ts[n]};
      i, j := SomethingTwice(ts[..n], rest);
    }
  }

  /** If somebody is running and nobody can step, there is a circle. */
  lemma StuckMeansCircle(s: Sys, v: TxId) returns (ts: seq<TxId>)
    requires IsRunning(s, v) && Stuck(s)
    ensures Circle(s, ts)
  {
    hide IsRunning, WaitsFor, Stuck;
    var long := WaitingGoesOn(s, v, |s.txs.Keys|);
    forall k | 0 <= k < |long| ensures long[k] in s.txs.Keys {
      assert long[k] in long;
      RunningIsThere(s, long[k]);
    }
    var i, j := SomethingTwice(long, s.txs.Keys);
    ts := long[i..j + 1];
    forall k {:trigger ts[k]} | 0 < k < |ts| ensures WaitsFor(s, ts[k - 1], ts[k]) {
      assert WaitsFor(s, long[i + k - 1], long[i + k]);
    }
  }

  lemma RunningIsThere(s: Sys, t: TxId)
    requires IsRunning(s, t)
    ensures t in s.txs
  {
  }

  lemma NotStuck(s: Sys) returns (a: Action)
    requires !Stuck(s)
    ensures a.Run? && Enabled(s, a)
  {
    hide IsRunning, Blocked;
    var t :| IsRunning(s, t) && !Blocked(s, t);
    a := Run(t, Env(0, NIL, FreshId(s.ids), "", true));
  }

  /** As long as nobody waits in a circle, some unfinished transaction can execute its next statement. */
  lemma SomebodyCanStep(s: Sys, v: TxId) returns (a: Action)
    requires IsRunning(s, v) && forall ts :: !Circle(s, ts)
    ensures a.Run? && Enabled(s, a)
  {
    hide IsRunning, Circle, Stuck;
    if Stuck(s) {
      var ts := StuckMeansCircle(s, v);
    }
    a := NotStuck(s);
  }

  // When two wait for each other

  /** Where a transaction books or cancels a stay, the slots it holds and waits for are those of that stay. */
  lemma SlotsAreOfStay(db: Db, tx: Tx, slot: Slot)
    requires TxOk(db, tx) && WellFormed(tx) && (tx.program.Reserving? || tx.program.Cancelling?)
    requires Holds(tx, SlotLock(slot)) || SlotLock(slot) in Wants(tx)
    ensures tx.booking.Some? && slot.room == tx.booking.value.room && Contains(tx.booking.value.stay, slot.day)
  {
    hide Drafted, GuestWrite, ReadOk, Guarded, GuardWrite, Priced, CanCreate, SameBut, CanMove;
  }

  lemma ReleasersWantSlots(tx: Tx, lock: Lock)
    requires WellFormed(tx) && tx.program.Cancelling? && Past(tx, Guarding) && lock in Wants(tx)
    ensures lock.SlotLock?
  {
  }

  /** Of two transactions waiting for each other one books and the other cancels. */
  lemma PairsClash(s: Sys, t: TxId, u: TxId)
    requires Inv(s) && WaitsFor(s, t, u) && WaitsFor(s, u, t)
    ensures Clash(s, t, u) || Clash(s, u, t)
  {
    hide Inv, WaitsFor;
    var ts := [t, u, t];
    assert Circle(s, ts);
    CirclesClash(s, ts);
    var i :| 0 < i < |ts| && Clash(s, ts[i - 1], ts[i]);
  }

  /** Two transactions wait for each other only when one books a stay under a reference it has drawn, and the other
      cancels the reservation that has that reference, of the same room type and for an overlapping stay. */
  lemma PairsOverlap(s: Sys, t: TxId, u: TxId)
    requires Inv(s) && WaitsFor(s, t, u) && WaitsFor(s, u, t) && s.txs[t].program.Reserving?
    ensures Clash(s, t, u)
    ensures var b, c := s.txs[t].booking.value, s.txs[u].booking.value; b.room == c.room && Overlaps(b.stay, c.stay)
  {
    hide Consistent, Exclusive, AllDrawn, History, TxOk, Wants, RankOf, WellFormed, Chain, Holds, HoldsSlot;
    PairsClash(s, t, u);
    var lock :| lock in Wants(s.txs[u]) && Holds(s.txs[t], lock);
    ReleasersWantSlots(s.txs[u], lock);
    SlotsAreOfStay(s.db, s.txs[t], lock.slot);
    SlotsAreOfStay(s.db, s.txs[u], lock.slot);
  }
}
