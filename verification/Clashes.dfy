/** The exception to deadlock freedom does occur: a run in which a reservation and a cancellation wait for each other. */
module Clashes {
  import opened Results
  import opened Stays
  import opened Pricing
  import opened Bookings
  import opened Tables
  import opened Transactions
  import opened Stock
  import opened Effects
  import opened Consistency
  import opened Interleaving
  import opened Invariants
  import opened Reachable
  import opened Guarantees
  import opened Deadlock

  ghost predicate Ends(run: seq<Sys>, s: Sys) {
    IsRun(run) && run[|run| - 1] == s
  }

  lemma Extend(run: seq<Sys>, s: Sys, a: Action) returns (longer: seq<Sys>)
    requires Ends(run, s) && Enabled(s, a)
    ensures Ends(longer, Next(s, a)) && |longer| > 0 && longer[0] == run[0]
  {
    hide Initial, Enabled, Next;
    longer := run + [Next(s, a)];
    forall i | 0 < i < |longer| ensures StepsTo(longer[i - 1], longer[i]) {
      if i < |run| {
        assert StepsTo(run[i - 1], run[i]);
      }
    }
  }

  // One transaction on its own

  ghost function Alone(s: Sys, tx: Tx, ids: set<Uuid>): Sys {
    s.(txs := map[0 := tx], ids := ids)
  }

  lemma StepAlone(run: seq<Sys>, s: Sys, tx: Tx, ids: set<Uuid>, e: Env) returns (longer: seq<Sys>)
    requires Ends(run, Alone(s, tx, ids)) && tx.fate == Running && WellFormed(tx)
    requires tx.stage != Ending && tx.stage != Announcing && e.id !in ids
    ensures Ends(longer, Alone(s, StepTx(s.db, tx, e, s.next, {}), if tx.stage == Drafting then ids + {e.id} else ids))
    ensures |longer| > 0 && longer[0] == run[0]
  {
    hide Ends, StepTx, WellFormed, Holds, Wants;
    var now := Alone(s, tx, ids);
    assert forall u :: !WaitsFor(now, 0, u);
    assert LockedMessages(now, 0) == {};
    longer := Extend(run, now, Run(0, e));
    assert now.txs[0 := StepTx(s.db, tx, e, s.next, {})] == map[0 := StepTx(s.db, tx, e, s.next, {})];
  }

  // The reservation, as far as its last statement but two

  function DrawsOf(e: Env): Draws {
    Draws(e.guest, e.id, e.reference, e.now, 0)
  }

  function RatesNow(db: Db, input: ReserveInput): Result<seq<RateDay>> {
    ReadRates(db, input.plan, input.stay.checkIn, input.stay.checkOut)
  }

  /** A request that can be booked in these tables as `b`, as far as inventory and the checks on its row go. */
  ghost predicate Bookable(db: Db, input: ReserveInput, e: Env, b: Booking) {
    && input.key !in db.keys && input.guestAccepted
    && Planned(db.catalog, input, RatesNow(db, input), GuestFor(db, input, DrawsOf(e)), DrawsOf(e)) == Ok(b)
    && CanMove(db.inventory, b.room, b.stay, 1) && RowAccepted(RowOf(b))
  }

  ghost function AtQuote(input: ReserveInput): Tx {
    Begin(Reserving(input)).(stage := Quoting, owned := true, writes := KeyWrite(input))
  }

  ghost function AtGreet(db: Db, input: ReserveInput): Tx {
    AtQuote(input).(stage := Greeting, rates := RatesNow(db, input))
  }

  ghost function AtDraft(db: Db, input: ReserveInput, e: Env): Tx {
    AtGreet(db, input).(stage := Drafting, draws := Draws(e.guest, NIL, "", 0, 0), writes := GuestWrite(db, input, DrawsOf(e)))
  }

  ghost function AtScan(db: Db, input: ReserveInput, e: Env, b: Booking): Tx {
    AtDraft(db, input, e).(stage := Scanning, draws := DrawsOf(e), booking := Some(b))
  }

  ghost function AtLock(db: Db, input: ReserveInput, e: Env, b: Booking, got: nat): Tx {
    AtScan(db, input, e, b).(stage := Locking, days := DaysOf(b.stay), got := got)
  }

  ghost function AtMove(db: Db, input: ReserveInput, e: Env, b: Booking): Tx {
    AtLock(db, input, e, b, |DaysOf(b.stay)|).(stage := Moving)
  }

  ghost function AtCreate(db: Db, input: ReserveInput, e: Env, b: Booking): Tx {
    AtMove(db, input, e, b).(stage := Creating, writes := StockWrite(db, input, DrawsOf(e), b))
  }

  lemma Claims(db: Db, input: ReserveInput)
    requires input.key !in db.keys
    ensures ClaimStep(db, Begin(Reserving(input))) == AtQuote(input)
  {
  }

  lemma Quotes(db: Db, input: ReserveInput, e: Env, b: Booking)
    requires Bookable(db, input, e, b)
    ensures QuoteStep(db, AtQuote(input)) == AtGreet(db, input)
  {
  }

  lemma Greets(db: Db, input: ReserveInput, e: Env)
    ensures GreetStep(db, AtGreet(db, input), e) == AtDraft(db, input, e)
  {
  }

  lemma Drafts(db: Db, input: ReserveInput, e: Env, b: Booking)
    requires Bookable(db, input, e, b)
    ensures DraftStep(db, AtDraft(db, input, e), e) == AtScan(db, input, e, b)
  {
    hide Planned, RatesNow, CanMove;
  }

  lemma Scans(db: Db, input: ReserveInput, e: Env, b: Booking)
    requires Bookable(db, input, e, b)
    ensures ScanStep(db, AtScan(db, input, e, b)) == AtLock(db, input, e, b, 0)
  {
    hide Planned, RatesNow, GuestWrite, CanMove;
    CanMoveIff(db.inventory, b.room, b.stay, 1);
    RowCountIsCoverage(db.inventory, b.room, b.stay);
  }

  lemma Moves(db: Db, input: ReserveInput, e: Env, b: Booking)
    requires Bookable(db, input, e, b)
    ensures MoveStep(db, AtMove(db, input, e, b)) == AtCreate(db, input, e, b)
  {
    hide Planned, RatesNow, CanMove, MovedRows;
    CanMoveIff(db.inventory, b.room, b.stay, 1);
    RowCountIsCoverage(db.inventory, b.room, b.stay);
  }

  lemma NotEmpty(run: seq<Sys>)
    requires IsRun(run)
    ensures |run| > 0
  {
  }

  lemma StartsARun(s: Sys)
    requires Initial(s)
    ensures Ends([s], s) && s.txs == map[]
  {
  }

  lemma RunsToScan(s: Sys, input: ReserveInput, e: Env, b: Booking) returns (run: seq<Sys>)
    requires Initial(s) && Bookable(s.db, input, e, b) && e.id !in s.ids
    ensures Ends(run, Alone(s, AtScan(s.db, input, e, b), s.ids + {e.id})) && run[0] == s
  {
    hide Initial, Planned, CanMove, ClaimStep, QuoteStep, GreetStep, DraftStep, IsRun, RatesNow, GuestWrite,
         KeyWrite, DrawsOf;
    StartsARun(s);
    run := Extend([s], s, Start(0, Reserving(input)));
    assert Next(s, Start(0, Reserving(input))) == Alone(s, Begin(Reserving(input)), s.ids);
    run := StepAlone(run, s, Begin(Reserving(input)), s.ids, e);
    Claims(s.db, input);
    run := StepAlone(run, s, AtQuote(input), s.ids, e);
    Quotes(s.db, input, e, b);
    run := StepAlone(run, s, AtGreet(s.db, input), s.ids, e);
    Greets(s.db, input, e);
    run := StepAlone(run, s, AtDraft(s.db, input, e), s.ids, e);
    Drafts(s.db, input, e, b);
  }

  /** The reservation has moved its inventory and is about to insert its row. */
  lemma RunsToCreate(s: Sys, input: ReserveInput, e: Env, b: Booking, ids: set<Uuid>) returns (run: seq<Sys>)
    requires Initial(s) && Bookable(s.db, input, e, b) && e.id !in s.ids && ids == s.ids + {e.id}
    ensures Ends(run, Alone(s, AtCreate(s.db, input, e, b), ids)) && run[0] == s
  {
    hide Initial, Bookable, ScanStep, MoveStep, IsRun, StockWrite, GuestWrite, KeyWrite, RatesNow, DrawsOf;
    run := RunsToScan(s, input, e, b);
    NotEmpty(run);
    var other := e.(id := FreshId(ids));
    run := StepAlone(run, s, AtScan(s.db, input, e, b), ids, other);
    Scans(s.db, input, e, b);
    run := LocksNights(run, s, input, e, b, ids, other);
    run := StepAlone(run, s, AtMove(s.db, input, e, b), ids, other);
    Moves(s.db, input, e, b);
  }

  lemma LocksNights(start: seq<Sys>, s: Sys, input: ReserveInput, e: Env, b: Booking, ids: set<Uuid>, other: Env)
    returns (run: seq<Sys>)
    requires Ends(start, Alone(s, AtLock(s.db, input, e, b, 0), ids)) && |start| > 0 && start[0] == s
    requires other.id !in ids
    ensures Ends(run, Alone(s, AtMove(s.db, input, e, b), ids)) && |run| > 0 && run[0] == s
  {
    hide Ends, DaysOf, GuestWrite, KeyWrite, RatesNow, DrawsOf;
    run := start;
    var got := 0;
    while got < |DaysOf(b.stay)|
      invariant 0 <= got <= |DaysOf(b.stay)|
      invariant Ends(run, Alone(s, AtLock(s.db, input, e, b, got), ids)) && |run| > 0 && run[0] == s
    {
      run := StepAlone(run, s, AtLock(s.db, input, e, b, got), ids, other);
      got := got + 1;
    }
    run := StepAlone(run, s, AtLock(s.db, input, e, b, got), ids, other);
  }

  // A cancellation beside it

  ghost function Both(s: Sys, r: Tx, c: Tx, ids: set<Uuid>): Sys {
    s.(txs := map[0 := r, 1 := c], ids := ids)
  }

  lemma StepBeside(run: seq<Sys>, s: Sys, r: Tx, c: Tx, ids: set<Uuid>, e: Env) returns (longer: seq<Sys>)
    requires Ends(run, Both(s, r, c, ids)) && c.fate == Running && WellFormed(c) && c.program.Cancelling?
    requires c.stage == Reading || c.stage == Guarding || c.stage == Scanning || c.stage == Locking
    requires e.id !in ids && forall lock :: lock in Wants(c) ==> !Holds(r, lock)
    ensures Ends(longer, Both(s, r, StepTx(s.db, c, e, s.next, {}), ids))
    ensures |longer| > 0 && longer[0] == run[0]
  {
    hide Ends, WellFormed, Holds, Wants, ReadStep, GuardStep, ScanStep, LockStep;
    var now := Both(s, r, c, ids);
    assert forall u :: !WaitsFor(now, 1, u);
    longer := Extend(run, now, Run(1, e));
    assert now.txs[1 := StepTx(s.db, c, e, s.next, {})] == map[0 := r, 1 := StepTx(s.db, c, e, s.next, {})];
  }

  /** A reservation that can be cancelled now, known by this reference. */
  ghost predicate CancellableNow(db: Db, reference: string, now: Instant, c: Booking) {
    ByReference(db, reference) == Ok(c) && Assess(db.catalog, c, now).Ok?
  }

  ghost function AtGuard(reference: string, now: Instant, c: Booking): Tx {
    Begin(Cancelling(reference)).(stage := Guarding, draws := Draws(NIL, NIL, "", now, 0), booking := Some(c))
  }

  ghost function PastGuard(db: Db, reference: string, now: Instant, c: Booking): Tx
    requires c.id in db.reservations
  {
    AtGuard(reference, now, c).(stage := Scanning, writes := GuardWrite(db, c, now))
  }

  ghost function AtRelease(db: Db, reference: string, now: Instant, c: Booking, got: nat): Tx
    requires c.id in db.reservations
  {
    PastGuard(db, reference, now, c).(stage := Locking, days := DaysOf(c.stay), got := got)
  }

  lemma Reads(db: Db, reference: string, e: Env, c: Booking)
    requires CancellableNow(db, reference, e.now, c)
    ensures ReadStep(db, Begin(Cancelling(reference)), e) == AtGuard(reference, e.now, c)
  {
  }

  /** What has been read is stored, confirmed, and has a row for every night. */
  lemma ReadIsStored(db: Db, reference: string, now: Instant, c: Booking)
    requires Consistent(db) && CancellableNow(db, reference, now, c)
    ensures c.reference == reference && c.id in db.reservations && db.reservations[c.id].status == Confirmed
    ensures RowAccepted(db.reservations[c.id])
    ensures RowDays(db.inventory, c.room, c.stay.checkIn, c.stay.checkOut) == DaysOf(c.stay)
  {
    hide Consistent, RefsAgree, RecordsSound, CountersAgree, RowsInBounds, RowDays, DaysOf, RowAccepted;
    Agreements(db);
    ReferencesRead(db, reference);
    StoredReservationsRead(db, c.id);
    ReleaseNeverFails(db.inventory, db.reservations, c.id, c.stay);
    CanMoveIff(db.inventory, c.room, c.stay, -1);
    RowCountIsCoverage(db.inventory, c.room, c.stay);
  }

  /** Past the guard the row is held, by its identifier and by its reference. */
  lemma Guards(db: Db, reference: string, now: Instant, c: Booking)
    requires c.id in db.reservations && db.reservations[c.id].status == Confirmed && RowAccepted(db.reservations[c.id])
    ensures GuardStep(db, AtGuard(reference, now, c)) == PastGuard(db, reference, now, c)
  {
  }

  lemma FindsRows(db: Db, reference: string, now: Instant, c: Booking)
    requires c.id in db.reservations
    requires RowDays(db.inventory, c.room, c.stay.checkIn, c.stay.checkOut) == DaysOf(c.stay)
    ensures ScanStep(db, PastGuard(db, reference, now, c)) == AtRelease(db, reference, now, c, 0)
  {
    hide DaysOf, RowDays, GuardWrite;
  }

  /** The guarded row and its reference are not held by the reservation about to insert its own row. */
  lemma GuardIsFree(db: Db, input: ReserveInput, e: Env, b: Booking, now: Instant, c: Booking, lock: Lock)
    requires c.id != e.id && lock in Wants(AtGuard(e.reference, now, c))
    ensures !Holds(AtCreate(db, input, e, b), lock)
  {
    hide RatesNow, StockWrite, GuestWrite;
  }

  /** Nor are the nights before those it has moved. */
  lemma EarlierIsFree(db: Db, input: ReserveInput, e: Env, b: Booking, now: Instant, c: Booking, got: nat, lock: Lock)
    requires c.id in db.reservations && c.stay.checkIn + got < b.stay.checkIn
    requires lock in Wants(AtRelease(db, e.reference, now, c, got))
    ensures !Holds(AtCreate(db, input, e, b), lock)
  {
    hide RatesNow, StockWrite, GuestWrite, GuardWrite;
    if got < |DaysOf(c.stay)| {
      assert DaysOf(b.stay)[..|DaysOf(b.stay)|] == DaysOf(b.stay);
      assert lock == SlotLock(Slot(c.room, c.stay.checkIn + got));
    }
  }

  // One waits for the other

  /** The nights the cancellation locks before it meets one of the reservation. */
  function NightsBefore(b: Booking, c: Booking): nat {
    if c.stay.checkIn < b.stay.checkIn then b.stay.checkIn - c.stay.checkIn else 0
  }

  lemma Meet(s: Sys, input: ReserveInput, e: Env, b: Booking, now: Instant, c: Booking, ids: set<Uuid>)
    requires c.id in s.db.reservations && c.reference == e.reference && RowAccepted(RowOf(b))
    requires c.room == b.room && Overlaps(b.stay, c.stay)
    ensures var both := Both(s, AtCreate(s.db, input, e, b), AtRelease(s.db, e.reference, now, c, NightsBefore(b, c)), ids);
            WaitsFor(both, 0, 1) && WaitsFor(both, 1, 0)
  {
    hide RatesNow, StockWrite, GuestWrite, GuardWrite, RowAccepted;
    var r, x := AtCreate(s.db, input, e, b), AtRelease(s.db, e.reference, now, c, NightsBefore(b, c));
    var night := SlotLock(Slot(c.room, c.stay.checkIn + NightsBefore(b, c)));
    assert DaysOf(b.stay)[..|DaysOf(b.stay)|] == DaysOf(b.stay);
    assert Holds(x, RefLock(e.reference)) && Holds(r, night);
    assert RefLock(e.reference) in Wants(r) && night in Wants(x);
  }

  /** Whenever a request could be booked, draws the reference of a reservation of the same room type that can be
      cancelled, and the two stays overlap, there is a run in which the request and a cancellation of that reservation
      wait for each other: only from outside can either be ended. */
  lemma DeadlockHappens(s: Sys, input: ReserveInput, e: Env, b: Booking, now: Instant, c: Booking)
    returns (run: seq<Sys>)
    requires Initial(s) && Bookable(s.db, input, e, b) && e.id !in s.ids && CancellableNow(s.db, e.reference, now, c)
    requires c.room == b.room && Overlaps(b.stay, c.stay)
    ensures IsRun(run) && run[0] == s && WaitingPair(run[|run| - 1], b, c)
  {
    hide Bookable, CancellableNow, WaitsFor, IsRun, AtCreate, AtRelease, Consistent, NightsBefore;
    var ids := s.ids + {e.id};
    run := RunsToCreate(s, input, e, b, ids);
    NotEmpty(run);
    ReadIsStored(s.db, e.reference, now, c);
    run := RunsToGuard(run, s, input, e, b, now, c, ids);
    run := RunsToMeet(run, s, input, e, b, now, c, ids, NightsBefore(b, c));
    BookableRow(s.db, input, e, b);
    Meet(s, input, e, b, now, c, ids);
    PairIs(s, input, e, b, now, c, ids, NightsBefore(b, c));
  }

  lemma BookableRow(db: Db, input: ReserveInput, e: Env, b: Booking)
    requires Bookable(db, input, e, b)
    ensures RowAccepted(RowOf(b))
  {
  }

  /** A reservation of `b` and a cancellation of `c` wait for each other. */
  ghost predicate WaitingPair(s: Sys, b: Booking, c: Booking) {
    exists t, u :: WaitsFor(s, t, u) && WaitsFor(s, u, t) && Books(s, t, b) && Cancels(s, u, c)
  }

  predicate Books(s: Sys, t: TxId, b: Booking) {
    t in s.txs && s.txs[t].program.Reserving? && s.txs[t].booking == Some(b)
  }

  predicate Cancels(s: Sys, t: TxId, c: Booking) {
    t in s.txs && s.txs[t].program.Cancelling? && s.txs[t].booking == Some(c)
  }

  lemma PairIs(s: Sys, input: ReserveInput, e: Env, b: Booking, now: Instant, c: Booking, ids: set<Uuid>, got: nat)
    requires c.id in s.db.reservations
    ensures var both := Both(s, AtCreate(s.db, input, e, b), AtRelease(s.db, e.reference, now, c, got), ids);
            Books(both, 0, b) && Cancels(both, 1, c)
  {
    hide RatesNow, StockWrite, GuestWrite, GuardWrite;
  }

  /** The cancellation reads the reservation. */
  lemma RunsToRead(start: seq<Sys>, s: Sys, r: Tx, reference: string, now: Instant, c: Booking, ids: set<Uuid>)
    returns (run: seq<Sys>)
    requires Ends(start, Alone(s, r, ids)) && |start| > 0 && start[0] == s && CancellableNow(s.db, reference, now, c)
    ensures Ends(run, Both(s, r, AtGuard(reference, now, c), ids)) && |run| > 0 && run[0] == s
  {
    hide CancellableNow, ReadStep, Ends, Holds;
    var first, other := Begin(Cancelling(reference)), Env(now, NIL, FreshId(ids), "", true);
    run := Extend(start, Alone(s, r, ids), Start(1, Cancelling(reference)));
    assert Next(Alone(s, r, ids), Start(1, Cancelling(reference))) == Both(s, r, first, ids);
    run := StepBeside(run, s, r, first, ids, other);
    Reads(s.db, reference, other, c);
  }

  /** The cancellation passes the guard and finds its inventory rows. */
  lemma RunsToGuard(start: seq<Sys>, s: Sys, input: ReserveInput, e: Env, b: Booking, now: Instant, c: Booking,
                    ids: set<Uuid>)
    returns (run: seq<Sys>)
    requires Ends(start, Alone(s, AtCreate(s.db, input, e, b), ids)) && |start| > 0 && start[0] == s
    requires Consistent(s.db) && CancellableNow(s.db, e.reference, now, c) && c.id != e.id && c.id in s.db.reservations
    ensures Ends(run, Both(s, AtCreate(s.db, input, e, b), AtRelease(s.db, e.reference, now, c, 0), ids))
    ensures |run| > 0 && run[0] == s
  {
    hide CancellableNow, GuardStep, ScanStep, Ends, AtCreate, Consistent, GuardWrite, DaysOf;
    var r, other := AtCreate(s.db, input, e, b), Env(now, NIL, FreshId(ids), "", true);
    run := RunsToRead(start, s, r, e.reference, now, c, ids);
    ReadIsStored(s.db, e.reference, now, c);
    forall lock | lock in Wants(AtGuard(e.reference, now, c)) ensures !Holds(r, lock) {
      GuardIsFree(s.db, input, e, b, now, c, lock);
    }
    run := StepBeside(run, s, r, AtGuard(e.reference, now, c), ids, other);
    Guards(s.db, e.reference, now, c);
    run := StepBeside(run, s, r, PastGuard(s.db, e.reference, now, c), ids, other);
    FindsRows(s.db, e.reference, now, c);
  }

  /** It locks the nights before the reservation's, one after the other. */
  lemma RunsToMeet(start: seq<Sys>, s: Sys, input: ReserveInput, e: Env, b: Booking, now: Instant, c: Booking,
                   ids: set<Uuid>, nights: nat)
    returns (run: seq<Sys>)
    requires c.id in s.db.reservations && Overlaps(b.stay, c.stay) && nights == NightsBefore(b, c)
    requires Ends(start, Both(s, AtCreate(s.db, input, e, b), AtRelease(s.db, e.reference, now, c, 0), ids))
    requires |start| > 0 && start[0] == s
    ensures Ends(run, Both(s, AtCreate(s.db, input, e, b), AtRelease(s.db, e.reference, now, c, nights), ids))
    ensures |run| > 0 && run[0] == s
  {
    hide Ends, AtCreate, GuardWrite, DaysOf, Holds;
    var r, other := AtCreate(s.db, input, e, b), Env(now, NIL, FreshId(ids), "", true);
    run := start;
    var got := 0;
    while got < nights
      invariant got <= nights && |run| > 0 && run[0] == s
      invariant Ends(run, Both(s, r, AtRelease(s.db, e.reference, now, c, got), ids))
    {
      forall lock | lock in Wants(AtRelease(s.db, e.reference, now, c, got)) ensures !Holds(r, lock) {
        EarlierIsFree(s.db, input, e, b, now, c, got, lock);
      }
      run := StepBeside(run, s, r, AtRelease(s.db, e.reference, now, c, got), ids, other);
      got := got + 1;
    }
  }

  /** So, for a request that could be booked and a reservation that can be cancelled whose reference it draws, a run can
      end with a reservation and a cancellation of them waiting directly for each other if and only if they are of the same
      room type and their stays overlap. Longer circles need less: `Circles.CircleIff`. */
  lemma PairIff(s: Sys, input: ReserveInput, e: Env, b: Booking, now: Instant, c: Booking)
    requires Initial(s) && Bookable(s.db, input, e, b) && e.id !in s.ids && CancellableNow(s.db, e.reference, now, c)
    ensures (exists run :: IsRun(run) && run[0] == s && WaitingPair(run[|run| - 1], b, c)) <==>
            c.room == b.room && Overlaps(b.stay, c.stay)
  {
    hide Initial, Bookable, CancellableNow, StepsTo, WaitingPair, Overlaps;
    if c.room == b.room && Overlaps(b.stay, c.stay) {
      var run := DeadlockHappens(s, input, e, b, now, c);
    }
    if run :| IsRun(run) && run[0] == s && WaitingPair(run[|run| - 1], b, c) {
      PairMeans(run, b, c);
    }
  }

  lemma PairMeans(run: seq<Sys>, b: Booking, c: Booking)
    requires IsRun(run) && |run| > 0 && WaitingPair(run[|run| - 1], b, c)
    ensures c.room == b.room && Overlaps(b.stay, c.stay)
  {
    hide IsRun, Inv, WaitsFor;
    var last := run[|run| - 1];
    RunInv(run, |run| - 1);
    var t, u :| WaitsFor(last, t, u) && WaitsFor(last, u, t) && Books(last, t, b) && Cancels(last, u, c);
    PairsOverlap(last, t, u);
  }
}
