/** What a circle of waiting transactions comes to: each cancellation in it that a reservation waits for, and the next
    reservation round the circle that waits for a cancellation, share a room type, and the stay cancelled begins before
    the stay booked ends. For one reservation and one cancellation this is also enough for a circle to arise, if need be
    through a third transaction that publishes inventory. */
module Circles {
  import opened Words
  import opened Calendar
  import opened Stays
  import opened Bookings
  import opened Tables
  import opened Transactions
  import opened Stock
  import opened Effects
  import opened Consistency
  import opened Interleaving
  import opened Invariants
  import opened Reachable
  import opened Guarantees
  import opened Deadlock
  import opened Clashes

  // Round a circle

  ghost predicate NoClash(s: Sys, ts: seq<TxId>) {
    forall i {:trigger ts[i]} :: 0 < i < |ts| ==> !Clash(s, ts[i - 1], ts[i])
  }

  /** Whoever holds a slot and waits for a slot waits for a later one of the same room type. */
  lemma LaterSlot(db: Db, tx: Tx, slot: Slot, lock: Lock)
    requires TxOk(db, tx) && WellFormed(tx) && Holds(tx, SlotLock(slot))
    requires lock in Wants(tx) && RankOf(tx).level <= 2
    ensures lock.SlotLock? && lock.slot.room == slot.room && slot.day < lock.slot.day
  {
    hide TxOk, Holds, HoldsSlot;
    SlotHolder(db, tx, slot);
    if tx.program.Reserving? || tx.program.Cancelling? {
      SlotsAreOfStay(db, tx, slot);
      SlotsAreOfStay(db, tx, lock.slot);
    } else {
      PublisherOfRoom(tx, slot);
    }
  }

  lemma PublisherOfRoom(tx: Tx, slot: Slot)
    requires Holds(tx, SlotLock(slot)) && !tx.program.Reserving? && !tx.program.Cancelling?
    ensures tx.program.Stocking? && slot.room == tx.program.room
  {
  }

  /** A reservation about to insert its row. */
  predicate Inserting(s: Sys, t: TxId) {
    IsRunning(s, t) && s.txs[t].program.Reserving? && s.txs[t].stage == Creating && s.txs[t].booking.Some?
  }

  lemma BelowInserting(s: Sys, t: TxId, rank: Rank)
    requires Inserting(s, t) && Below(rank, RankOf(s.txs[t]))
    ensures rank.level <= 2 || rank.day < 0
  {
  }

  lemma RanksAreNatural(tx: Tx)
    requires WellFormed(tx) && RankOf(tx).level > 2
    ensures RankOf(tx).day == 0
  {
  }

  /** From the holder of a slot, through any waiting but that for a cancelled reference, to a reservation about to
      insert its row: it is of the same room type and stays beyond that slot. */
  lemma {:induction false} WalkToRequest(s: Sys, ts: seq<TxId>, slot: Slot)
    requires Inv(s) && Chain(s, ts) && NoClash(s, ts) && Inserting(s, ts[|ts| - 1])
    requires IsRunning(s, ts[0]) && Holds(s.txs[ts[0]], SlotLock(slot))
    ensures var b := s.txs[ts[|ts| - 1]].booking.value; b.room == slot.room && slot.day < b.stay.checkOut
    decreases |ts|
  {
    hide Consistent, Exclusive, AllDrawn, History, TxOk, Wants, RankOf, Below, WellFormed, Holds, Clash, Contains;
    if |ts| == 1 {
      SlotsAreOfStay(s.db, s.txs[ts[0]], slot);
      ContainedEnds(s.txs[ts[0]].booking.value.stay, slot.day);
    } else {
      assert WaitsFor(s, ts[0], ts[1]);
      var lock :| lock in Wants(s.txs[ts[0]]) && Holds(s.txs[ts[1]], lock);
      BelowRequest(s, ts);
      LaterSlot(s.db, s.txs[ts[0]], slot, lock);
      RestOfChain(s, ts);
      WalkToRequest(s, ts[1..], lock.slot);
    }
  }

  lemma ContainedEnds(stay: Stay, d: Day)
    requires Contains(stay, d)
    ensures stay.checkIn <= d < stay.checkOut
  {
  }

  lemma BelowRequest(s: Sys, ts: seq<TxId>)
    requires Inv(s) && Chain(s, ts) && NoClash(s, ts) && |ts| > 1 && Inserting(s, ts[|ts| - 1])
    ensures IsRunning(s, ts[0]) && RankOf(s.txs[ts[0]]).level <= 2
  {
    hide Inv, Chain, Clash, WellFormed, RankOf;
    ChainsGoUp(s, ts);
    BelowInserting(s, ts[|ts| - 1], RankOf(s.txs[ts[0]]));
    if RankOf(s.txs[ts[0]]).level > 2 {
      RanksAreNatural(s.txs[ts[0]]);
    }
  }

  lemma RestOfChain(s: Sys, ts: seq<TxId>)
    requires Chain(s, ts) && NoClash(s, ts) && |ts| > 1
    ensures Chain(s, ts[1..]) && NoClash(s, ts[1..])
  {
    hide WaitsFor, Clash;
    var rest := ts[1..];
    forall i {:trigger rest[i]} | 0 < i < |rest|
      ensures WaitsFor(s, rest[i - 1], rest[i]) && !Clash(s, rest[i - 1], rest[i])
    {
      assert WaitsFor(s, ts[i], ts[i + 1]) && !Clash(s, ts[i], ts[i + 1]);
    }
  }

  /** A cancellation past its guard. */
  predicate Releasing(s: Sys, t: TxId) {
    IsRunning(s, t) && s.txs[t].program.Cancelling? && Past(s.txs[t], Guarding) && s.txs[t].booking.Some?
  }

  /** The stay cancelled and the stay booked are of one room type, and the first begins before the second ends. */
  predicate Reaches(s: Sys, u: TxId, t: TxId)
    requires u in s.txs && t in s.txs && s.txs[u].booking.Some? && s.txs[t].booking.Some?
  {
    var c, b := s.txs[u].booking.value, s.txs[t].booking.value;
    c.room == b.room && c.stay.checkIn < b.stay.checkOut
  }

  /** From a cancellation past its guard to the next request about to insert its row. */
  lemma FromReleaseToRequest(s: Sys, ts: seq<TxId>)
    requires Inv(s) && Chain(s, ts) && NoClash(s, ts) && |ts| > 1
    requires Releasing(s, ts[0]) && Inserting(s, ts[|ts| - 1])
    ensures Reaches(s, ts[0], ts[|ts| - 1])
  {
    hide Consistent, Exclusive, AllDrawn, History, TxOk, Wants, WellFormed, Holds, Clash, Contains, Past;
    var first := s.txs[ts[0]];
    assert WaitsFor(s, ts[0], ts[1]);
    var lock :| lock in Wants(first) && Holds(s.txs[ts[1]], lock);
    ReleasersWantSlots(first, lock);
    SlotsAreOfStay(s.db, first, lock.slot);
    ContainedEnds(first.booking.value.stay, lock.slot.day);
    RestOfChain(s, ts);
    WalkToRequest(s, ts[1..], lock.slot);
  }

  /** The first clash of a chain, or none. */
  lemma {:induction false} FirstClash(s: Sys, ts: seq<TxId>) returns (n: nat)
    requires |ts| > 0
    ensures 0 < n <= |ts| && NoClash(s, ts[..n]) && (n < |ts| ==> Clash(s, ts[n - 1], ts[n]))
    decreases |ts|
  {
    hide Clash;
    var last := |ts| - 1;
    if last == 0 {
      n := 1;
    } else {
      n := FirstClash(s, ts[..last]);
      assert ts[..last][..n] == ts[..n];
      if n == last && !Clash(s, ts[last - 1], ts[last]) {
        n := |ts|;
        forall i {:trigger ts[i]} | 0 < i < |ts| ensures !Clash(s, ts[i - 1], ts[i]) {
          assert i < last ==> ts[..last][i - 1] == ts[i - 1] && ts[..last][i] == ts[i];
        }
        assert ts[..n] == ts;
      }
    }
  }

  /** The circle, started at another of its members. */
  function Turned(ts: seq<TxId>, i: nat): seq<TxId>
    requires 0 < i < |ts|
  {
    ts[i..] + ts[1..i + 1]
  }

  lemma TurnedIsCircle(s: Sys, ts: seq<TxId>, i: nat)
    requires Circle(s, ts) && 0 < i < |ts|
    ensures |Turned(ts, i)| == |ts| && Circle(s, Turned(ts, i))
    ensures forall m {:trigger Turned(ts, i)[m]} :: 0 < m < |ts| ==>
              exists k {:trigger ts[k]} ::
                0 < k < |ts| && Turned(ts, i)[m - 1] == ts[k - 1] && Turned(ts, i)[m] == ts[k]
    ensures Turned(ts, i)[|ts| - 2] == ts[i - 1] && Turned(ts, i)[|ts| - 1] == ts[i] && Turned(ts, i)[0] == ts[i]
  {
    hide WaitsFor;
    var n, turned := |ts|, Turned(ts, i);
    forall m {:trigger turned[m]} | 0 < m < n
      ensures exists k {:trigger ts[k]} :: 0 < k < n && turned[m - 1] == ts[k - 1] && turned[m] == ts[k]
      ensures WaitsFor(s, turned[m - 1], turned[m])
    {
      var k := if i + m < n then i + m else i + m + 1 - n;
      assert WaitsFor(s, ts[k - 1], ts[k]) && turned[m - 1] == ts[k - 1] && turned[m] == ts[k];
    }
  }

  lemma ClashIs(s: Sys, t: TxId, u: TxId)
    requires Clash(s, t, u) && IsRunning(s, t) && IsRunning(s, u)
    ensures Inserting(s, t) && Releasing(s, u)
  {
  }

  lemma CircleRuns(s: Sys, ts: seq<TxId>, i: nat)
    requires Circle(s, ts) && 0 < i < |ts|
    ensures IsRunning(s, ts[i - 1]) && IsRunning(s, ts[i]) && ts[i - 1] != ts[i]
  {
    assert WaitsFor(s, ts[i - 1], ts[i]);
  }

  lemma ShorterChain(s: Sys, ts: seq<TxId>, n: nat)
    requires Chain(s, ts) && 0 < n <= |ts|
    ensures Chain(s, ts[..n])
  {
    hide WaitsFor;
    forall i {:trigger ts[..n][i]} | 0 < i < n ensures WaitsFor(s, ts[..n][i - 1], ts[..n][i]) {
      assert WaitsFor(s, ts[i - 1], ts[i]);
    }
  }

  /** In a circle that comes back to a cancellation from a reservation waiting for it under its reference, that
      cancellation and the next reservation round the circle that waits in this way have a room type in common, and the
      stay cancelled begins before the stay booked ends. */
  lemma NextRequest(s: Sys, ts: seq<TxId>) returns (n: nat)
    requires Inv(s) && Circle(s, ts) && Clash(s, ts[|ts| - 2], ts[|ts| - 1])
    ensures 0 < n < |ts| && NoClash(s, ts[..n]) && Clash(s, ts[n - 1], ts[n])
    ensures ts[0] in s.txs && s.txs[ts[0]].booking.Some? && Reaches(s, ts[0], ts[n - 1])
  {
    hide Inv, Chain, Clash, WaitsFor, WellFormed, Past;
    var last := |ts| - 1;
    n := FirstClash(s, ts);
    assert ts[..|ts|] == ts;
    CircleRuns(s, ts, last);
    ClashIs(s, ts[last - 1], ts[last]);
    CircleRuns(s, ts, n);
    ClashIs(s, ts[n - 1], ts[n]);
    ShorterChain(s, ts, n);
    FromReleaseToRequest(s, ts[..n]);
  }

  /** So it is with every clash of every circle: turned so that it starts there, the circle comes to such a reservation
      before any other clash. */
  lemma CirclesReach(s: Sys, ts: seq<TxId>, i: nat) returns (n: nat)
    requires Inv(s) && Circle(s, ts) && 0 < i < |ts| && Clash(s, ts[i - 1], ts[i])
    ensures |Turned(ts, i)| == |ts| && Circle(s, Turned(ts, i)) && 0 < n < |ts| && NoClash(s, Turned(ts, i)[..n])
    ensures Clash(s, Turned(ts, i)[n - 1], Turned(ts, i)[n])
    ensures ts[i] in s.txs && s.txs[ts[i]].booking.Some? && Reaches(s, ts[i], Turned(ts, i)[n - 1])
  {
    hide Inv, Circle, Clash, NoClash, Turned, Reaches;
    TurnedIsCircle(s, ts, i);
    n := NextRequest(s, Turned(ts, i));
  }

  /** In the circle nobody but `t` waits for a cancellation under its reference, and `t` only for `u`. */
  ghost predicate LoneClash(s: Sys, ts: seq<TxId>, t: TxId, u: TxId) {
    forall i {:trigger ts[i]} :: 0 < i < |ts| && Clash(s, ts[i - 1], ts[i]) ==> ts[i - 1] == t && ts[i] == u
  }

  /** A circle with a single clash takes a reservation and a cancellation under one reference and of one room type, the
      stay cancelled beginning before the stay booked ends. */
  lemma LoneClashReaches(s: Sys, ts: seq<TxId>, t: TxId, u: TxId)
    requires Inv(s) && Circle(s, ts) && LoneClash(s, ts, t, u)
    ensures Clash(s, t, u) && Reaches(s, u, t)
  {
    hide Inv, Circle, Clash, Turned, Reaches;
    CirclesClash(s, ts);
    var i :| 0 < i < |ts| && Clash(s, ts[i - 1], ts[i]);
    TurnedIsCircle(s, ts, i);
    var n := CirclesReach(s, ts, i);
    assert Turned(ts, i)[n] == Turned(ts, i)[n];
  }

  // A third transaction, which publishes inventory

  ghost function Three(s: Sys, r: Tx, c: Tx, x: Tx, ids: set<Uuid>): Sys {
    s.(txs := map[0 := r, 1 := c, 2 := x], ids := ids)
  }

  /** The publishing of as many units as there can be, from the first night cancelled through the first night booked. */
  function Publishing(b: Booking, c: Booking): Program {
    Stocking(b.room, c.stay.checkIn, b.stay.checkIn + 1, MAX_SMALLINT)
  }

  predicate IsPublishing(x: Tx, b: Booking, c: Booking, got: nat) {
    x.program == Publishing(b, c) && x.fate == Running && x.stage == Upserting && x.got == got
  }

  lemma StepThird(run: seq<Sys>, s: Sys, r: Tx, c: Tx, x: Tx, ids: set<Uuid>) returns (longer: seq<Sys>)
    requires Ends(run, Three(s, r, c, x, ids)) && x.fate == Running && x.program.Stocking?
    requires x.stage == Checking || x.stage == Upserting
    requires forall lock :: lock in Wants(x) ==> !Holds(r, lock) && !Holds(c, lock)
    ensures Ends(longer, Three(s, r, c, if x.stage == Checking then CheckStep(s.db, x) else UpsertStep(s.db, x), ids))
    ensures |longer| > 0 && longer[0] == run[0]
  {
    hide Ends, Holds, Wants, CheckStep, UpsertStep;
    var now, e := Three(s, r, c, x, ids), Env(0, NIL, FreshId(ids), "", true);
    var after := if x.stage == Checking then CheckStep(s.db, x) else UpsertStep(s.db, x);
    assert forall u :: !WaitsFor(now, 2, u);
    longer := Extend(run, now, Run(2, e));
    assert now.txs[2 := after] == map[0 := r, 1 := c, 2 := after];
  }

  /** The units booked never exceed those that can be published. */
  lemma Publishes(db: Db, x: Tx, b: Booking, c: Booking, got: nat)
    requires Consistent(db) && IsPublishing(x, b, c, got) && c.stay.checkIn + got <= b.stay.checkIn
    ensures IsPublishing(UpsertStep(db, x), b, c, got + 1)
  {
    hide CountersAgree, RefsAgree, RecordsSound, KeysAgree, EventsAgree, GuestsKnown, PlansKnown;
    Agreements(db);
  }

  lemma PublishingStarts(db: Db, input: ReserveInput, e: Env, b: Booking, c: Booking)
    requires Bookable(db, input, e, b) && c.stay.checkIn <= b.stay.checkIn
    ensures IsPublishing(CheckStep(db, Begin(Publishing(b, c))), b, c, 0)
  {
    hide CanMove, RowAccepted;
    PlannedFacts(db.catalog, input, RatesNow(db, input), GuestFor(db, input, DrawsOf(e)), DrawsOf(e));
  }

  /** The nights before the first one booked are held neither by the reservation nor by the cancellation. */
  lemma NightsAreFree(db: Db, input: ReserveInput, e: Env, b: Booking, now: Instant, c: Booking, x: Tx, got: nat)
    requires c.id in db.reservations && IsPublishing(x, b, c, got) && c.stay.checkIn + got < b.stay.checkIn
    ensures forall lock :: lock in Wants(x) ==>
              !Holds(AtCreate(db, input, e, b), lock) && !Holds(AtRelease(db, e.reference, now, c, 0), lock)
  {
    hide RatesNow, StockWrite, GuestWrite, GuardWrite;
    assert DaysOf(b.stay)[..|DaysOf(b.stay)|] == DaysOf(b.stay);
  }

  /** Publishing locks every night from the first one cancelled to the last before those booked. */
  lemma RunsToPublish(start: seq<Sys>, s: Sys, input: ReserveInput, e: Env, b: Booking, now: Instant, c: Booking,
                      ids: set<Uuid>)
    returns (run: seq<Sys>, x: Tx)
    requires Consistent(s.db) && Bookable(s.db, input, e, b) && c.id in s.db.reservations
    requires c.stay.checkOut <= b.stay.checkIn
    requires Ends(start, Both(s, AtCreate(s.db, input, e, b), AtRelease(s.db, e.reference, now, c, 0), ids))
    requires |start| > 0 && start[0] == s
    ensures IsPublishing(x, b, c, b.stay.checkIn - c.stay.checkIn)
    ensures Ends(run, Three(s, AtCreate(s.db, input, e, b), AtRelease(s.db, e.reference, now, c, 0), x, ids))
    ensures |run| > 0 && run[0] == s
  {
    hide Ends, AtCreate, AtRelease, Consistent, Bookable, Holds, CheckStep, UpsertStep, IsPublishing;
    var r, k := AtCreate(s.db, input, e, b), AtRelease(s.db, e.reference, now, c, 0);
    x := Begin(Publishing(b, c));
    run := Extend(start, Both(s, r, k, ids), Start(2, Publishing(b, c)));
    assert Next(Both(s, r, k, ids), Start(2, Publishing(b, c))) == Three(s, r, k, x, ids);
    run := StepThird(run, s, r, k, x, ids);
    x := CheckStep(s.db, x);
    PublishingStarts(s.db, input, e, b, c);
    var got := 0;
    while got < b.stay.checkIn - c.stay.checkIn
      invariant got <= b.stay.checkIn - c.stay.checkIn && |run| > 0 && run[0] == s
      invariant IsPublishing(x, b, c, got) && Ends(run, Three(s, r, k, x, ids))
    {
      NightsAreFree(s.db, input, e, b, now, c, x, got);
      run, x := PublishesOn(run, s, r, k, x, ids, b, c, got);
      got := got + 1;
    }
  }

  lemma PublishesOn(run: seq<Sys>, s: Sys, r: Tx, k: Tx, x: Tx, ids: set<Uuid>, b: Booking, c: Booking, got: nat)
    returns (longer: seq<Sys>, after: Tx)
    requires Consistent(s.db) && IsPublishing(x, b, c, got) && c.stay.checkIn + got <= b.stay.checkIn
    requires Ends(run, Three(s, r, k, x, ids)) && forall lock :: lock in Wants(x) ==> !Holds(r, lock) && !Holds(k, lock)
    ensures IsPublishing(after, b, c, got + 1) && Ends(longer, Three(s, r, k, after, ids))
    ensures |longer| > 0 && longer[0] == run[0]
  {
    hide Ends, Consistent, Holds, Wants, UpsertStep;
    longer := StepThird(run, s, r, k, x, ids);
    after := UpsertStep(s.db, x);
    Publishes(s.db, x, b, c, got);
  }

  /** Then the reservation waits for the cancellation, the cancellation for the publishing, the publishing for the
      reservation. */
  lemma MeetRound(s: Sys, input: ReserveInput, e: Env, b: Booking, now: Instant, c: Booking, x: Tx, ids: set<Uuid>)
    requires c.id in s.db.reservations && c.reference == e.reference && RowAccepted(RowOf(b))
    requires c.room == b.room && c.stay.checkOut <= b.stay.checkIn
    requires IsPublishing(x, b, c, b.stay.checkIn - c.stay.checkIn)
    ensures var three := Three(s, AtCreate(s.db, input, e, b), AtRelease(s.db, e.reference, now, c, 0), x, ids);
            WaitsFor(three, 0, 1) && WaitsFor(three, 1, 2) && WaitsFor(three, 2, 0)
  {
    hide RatesNow, StockWrite, GuestWrite, GuardWrite, RowAccepted;
    var r, k := AtCreate(s.db, input, e, b), AtRelease(s.db, e.reference, now, c, 0);
    assert DaysOf(b.stay)[..|DaysOf(b.stay)|] == DaysOf(b.stay);
    assert RefLock(e.reference) in Wants(r) && Holds(k, RefLock(e.reference));
    var first, last := SlotLock(Slot(c.room, c.stay.checkIn)), SlotLock(Slot(b.room, b.stay.checkIn));
    assert first in Wants(k) && Holds(x, first);
    assert last in Wants(x) && Holds(r, last);
  }

  // When a circle can arise

  /** Some wait in a circle, in which only a reservation of `b` waits for the cancellation of its reference, that of
      `c`. */
  ghost predicate Deadlocked(s: Sys, b: Booking, c: Booking) {
    exists ts, t, u :: Circle(s, ts) && LoneClash(s, ts, t, u) && Books(s, t, b) && Cancels(s, u, c)
  }

  lemma PairIsCircle(s: Sys, b: Booking, c: Booking)
    requires WaitingPair(s, b, c)
    ensures Deadlocked(s, b, c)
  {
    hide WaitsFor;
    var t, u :| WaitsFor(s, t, u) && WaitsFor(s, u, t) && Books(s, t, b) && Cancels(s, u, c);
    var ts := [t, u, t];
    assert Circle(s, ts) && LoneClash(s, ts, t, u);
  }

  lemma RoundIsCircle(s: Sys, input: ReserveInput, e: Env, b: Booking, now: Instant, c: Booking, x: Tx, ids: set<Uuid>)
    requires c.id in s.db.reservations && x.program.Stocking?
    requires var three := Three(s, AtCreate(s.db, input, e, b), AtRelease(s.db, e.reference, now, c, 0), x, ids);
             WaitsFor(three, 0, 1) && WaitsFor(three, 1, 2) && WaitsFor(three, 2, 0)
    ensures Deadlocked(Three(s, AtCreate(s.db, input, e, b), AtRelease(s.db, e.reference, now, c, 0), x, ids), b, c)
  {
    hide WaitsFor, RatesNow, StockWrite, GuestWrite, GuardWrite;
    var three := Three(s, AtCreate(s.db, input, e, b), AtRelease(s.db, e.reference, now, c, 0), x, ids);
    var ts := [0, 1, 2, 0];
    assert Circle(three, ts) && LoneClash(three, ts, 0, 1);
    assert Books(three, 0, b) && Cancels(three, 1, c);
  }

  /** The reservation is about to insert its row, the cancellation past its guard. */
  lemma RunsToBoth(s: Sys, input: ReserveInput, e: Env, b: Booking, now: Instant, c: Booking, ids: set<Uuid>)
    returns (run: seq<Sys>)
    requires Initial(s) && Bookable(s.db, input, e, b) && e.id !in s.ids && CancellableNow(s.db, e.reference, now, c)
    requires ids == s.ids + {e.id}
    ensures Consistent(s.db) && c.id in s.db.reservations && c.reference == e.reference && RowAccepted(RowOf(b))
    ensures Ends(run, Both(s, AtCreate(s.db, input, e, b), AtRelease(s.db, e.reference, now, c, 0), ids))
    ensures |run| > 0 && run[0] == s
  {
    hide Bookable, CancellableNow, IsRun, AtCreate, AtRelease, Consistent, RowAccepted;
    run := RunsToCreate(s, input, e, b, ids);
    NotEmpty(run);
    ReadIsStored(s.db, e.reference, now, c);
    run := RunsToGuard(run, s, input, e, b, now, c, ids);
    BookableRow(s.db, input, e, b);
  }

  /** Where the stay cancelled is over before the stay booked begins, a third transaction closes the circle. */
  lemma RunsRound(s: Sys, input: ReserveInput, e: Env, b: Booking, now: Instant, c: Booking)
    returns (run: seq<Sys>, round: Sys)
    requires Initial(s) && Bookable(s.db, input, e, b) && e.id !in s.ids && CancellableNow(s.db, e.reference, now, c)
    requires c.room == b.room && c.stay.checkOut <= b.stay.checkIn
    ensures Ends(run, round) && |run| > 0 && run[0] == s && Deadlocked(round, b, c)
  {
    hide Ends, Initial, Bookable, CancellableNow, WaitsFor, AtCreate, AtRelease, Consistent, Deadlocked, RowAccepted;
    var ids, x := s.ids + {e.id}, Begin(Publishing(b, c));
    run := RunsToBoth(s, input, e, b, now, c, ids);
    run, x := RunsToPublish(run, s, input, e, b, now, c, ids);
    round := Three(s, AtCreate(s.db, input, e, b), AtRelease(s.db, e.reference, now, c, 0), x, ids);
    MeetRound(s, input, e, b, now, c, x, ids);
    RoundIsCircle(s, input, e, b, now, c, x, ids);
  }

  /** So a run ends with that circle. */
  lemma CircleThroughThird(s: Sys, input: ReserveInput, e: Env, b: Booking, now: Instant, c: Booking)
    returns (run: seq<Sys>)
    requires Initial(s) && Bookable(s.db, input, e, b) && e.id !in s.ids && CancellableNow(s.db, e.reference, now, c)
    requires c.room == b.room && c.stay.checkOut <= b.stay.checkIn
    ensures IsRun(run) && run[0] == s && Deadlocked(run[|run| - 1], b, c)
  {
    hide Initial, Bookable, CancellableNow, Deadlocked, StepsTo;
    var round;
    run, round := RunsRound(s, input, e, b, now, c);
  }

  lemma DeadlockedMeans(run: seq<Sys>, b: Booking, c: Booking)
    requires IsRun(run) && |run| > 0 && Deadlocked(run[|run| - 1], b, c)
    ensures c.room == b.room && c.stay.checkIn < b.stay.checkOut
  {
    hide IsRun, Inv, Circle, LoneClash, Clash;
    var last := run[|run| - 1];
    RunInv(run, |run| - 1);
    var ts, t, u :| Circle(last, ts) && LoneClash(last, ts, t, u) && Books(last, t, b) && Cancels(last, u, c);
    LoneClashReaches(last, ts, t, u);
  }

  /** So, for a request that could be booked and a reservation that can be cancelled whose reference it draws, a run can
      end with a circle of waiting transactions, closed by that request waiting for that cancellation and by no other
      such clash, if and only if they are of the same room type and the stay cancelled begins before the stay booked
      ends. */
  lemma CircleIff(s: Sys, input: ReserveInput, e: Env, b: Booking, now: Instant, c: Booking)
    requires Initial(s) && Bookable(s.db, input, e, b) && e.id !in s.ids && CancellableNow(s.db, e.reference, now, c)
    ensures (exists run :: IsRun(run) && run[0] == s && Deadlocked(run[|run| - 1], b, c)) <==>
            c.room == b.room && c.stay.checkIn < b.stay.checkOut
  {
    hide Initial, Bookable, CancellableNow, StepsTo, Deadlocked, WaitingPair;
    if c.room == b.room && Overlaps(b.stay, c.stay) {
      var run := DeadlockHappens(s, input, e, b, now, c);
      PairIsCircle(run[|run| - 1], b, c);
    } else if c.room == b.room && c.stay.checkOut <= b.stay.checkIn {
      var run := CircleThroughThird(s, input, e, b, now, c);
    }
    if run :| IsRun(run) && run[0] == s && Deadlocked(run[|run| - 1], b, c) {
      DeadlockedMeans(run, b, c);
    }
  }
}
