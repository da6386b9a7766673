/** Any number of transactions, interleaved statement by statement at READ COMMITTED.

    A transaction sees the committed tables and its own uncommitted writes. Plain reads take no lock and see whatever
    is committed at that moment; a statement that writes a row waits while another transaction holds it and then sees
    the row as committed. Locks are held until the end, so what a transaction holds follows from how far it has got. */
module Interleaving {
  import opened Results
  import opened Words
  import opened Calendar
  import opened Stays
  import opened Pricing
  import opened Bookings
  import opened Tables
  import opened Transactions
  import opened Effects

  datatype Program =
    | Reserving(input: ReserveInput)
    | Cancelling(reference: string)
    | Stocking(room: Uuid, from: Day, until: Day, allotment: int)
    | Dispatching(batch: nat)

  /** The statement a transaction is about to execute. */
  datatype Stage =
    // a reservation
    | Claiming      // INSERT the key, ON CONFLICT DO NOTHING
    | ReadingKey    // SELECT the key row that was in the way
    | Replaying     // SELECT the reservation of the key
    | Quoting       // SELECT the rates, and quote
    | Greeting      // upsert the guest
    | Drafting      // draw identifier, reference and time; no statement
    // a cancellation
    | Reading       // SELECT the reservation
    | Guarding      // UPDATE its status if still confirmed
    // both
    | Scanning      // find the inventory rows of the stay
    | Locking       // SELECT ... FOR UPDATE, one row at a time by date
    | Moving        // UPDATE the locked rows, and count them
    | Creating      // INSERT the reservation and its nights
    | Recording     // UPDATE the key row
    | Announcing    // INSERT the event
    // publishing inventory
    | Checking
    | Upserting     // INSERT ... ON CONFLICT DO UPDATE, one row at a time by date
    // the dispatcher
    | Picking       // SELECT ... FOR UPDATE SKIP LOCKED
    | Sending       // send, and mark the row
    // all
    | Ending        // COMMIT

  function Order(s: Stage): nat {
    match s
    case Claiming => 0 case ReadingKey => 1 case Replaying => 2 case Quoting => 3 case Greeting => 4 case Drafting => 5
    case Reading => 6 case Guarding => 7 case Scanning => 8 case Locking => 9 case Moving => 10 case Creating => 11
    case Recording => 12 case Announcing => 13 case Checking => 14 case Upserting => 15 case Picking => 16
    case Sending => 17 case Ending => 18
  }

  /** The stage lies behind. */
  predicate Past(tx: Tx, s: Stage) {
    Order(s) < Order(tx.stage)
  }

  datatype Writes = Writes(
    keys: map<string, KeyRow>,
    guests: map<string, Uuid>,
    inventory: map<Slot, InventoryRow>,
    reservations: map<Uuid, ReservationRow>,
    refs: map<string, Uuid>,
    nights: map<Uuid, map<Day, Words.Int64>>,
    outbox: map<int, Message>)

  const NO_WRITES := Writes(map[], map[], map[], map[], map[], map[], map[])

  function Apply(db: Db, w: Writes): Db {
    db.(keys := db.keys + w.keys,
        guests := db.guests + w.guests,
        inventory := db.inventory + w.inventory,
        reservations := db.reservations + w.reservations,
        refs := db.refs + w.refs,
        nights := db.nights + w.nights,
        outbox := db.outbox + w.outbox)
  }

  datatype Fate = Running | Done | Failed(error: Error)

  datatype Tx = Tx(
    program: Program,
    stage: Stage,
    fate: Fate,
    writes: Writes,
    owned: bool,                      // the key row is this transaction's own
    target: Uuid,                     // the reservation to replay
    rates: Result<seq<RateDay>>,      // as read
    draws: Draws,
    booking: Option<Booking>,         // drafted, read or replayed
    days: seq<Day>,                   // inventory rows found for the stay
    got: nat,                         // rows locked, upserted or sent so far
    picked: seq<int>)                 // messages claimed

  /** What the outside supplies to a step: the clock, fresh identifiers, a reference, the outcome of a send. */
  datatype Env = Env(now: Instant, guest: Uuid, id: Uuid, reference: string, sent: bool)

  function Begin(p: Program): Tx {
    var first := match p
      case Reserving(_) => Claiming
      case Cancelling(_) => Reading
      case Stocking(_, _, _, _) => Checking
      case Dispatching(_) => Picking;
    Tx(p, first, Running, NO_WRITES, false, NIL, Ok([]), Draws(NIL, NIL, "", 0, 0), None, [], 0, [])
  }

  function Fail(tx: Tx, e: Error): Tx {
    tx.(fate := Failed(e), writes := NO_WRITES)
  }

  // One statement

  function ClaimStep(db: Db, tx: Tx): Tx
    requires tx.program.Reserving?
  {
    var input := tx.program.input;
    if input.key in db.keys then tx.(stage := ReadingKey)
    else tx.(stage := Quoting, owned := true, writes := tx.writes.(keys := map[input.key := KeyRow(input.hash, None)]))
  }

  function ReadKeyStep(db: Db, tx: Tx): Tx
    requires tx.program.Reserving?
  {
    var claim := ReadClaim(db, tx.program.input.key, tx.program.input.hash);
    if claim.isFresh then tx.(stage := Quoting)
    else if claim.hash != tx.program.input.hash then Fail(tx, KeyReused)
    else match claim.reservation
      case None => Fail(tx, RequestInProgress)
      case Some(id) => tx.(stage := Replaying, target := id)
  }

  function ReplayStep(db: Db, tx: Tx): Tx {
    match ByID(db, tx.target)
    case Err(e) => Fail(tx, e)
    case Ok(b) => tx.(stage := Ending, booking := Some(b))
  }

  function QuoteStep(db: Db, tx: Tx): Tx
    requires tx.program.Reserving?
  {
    var input := tx.program.input;
    var rates := ReadRates(db, input.plan, input.stay.checkIn, input.stay.checkOut);
    match PriceStay(db.catalog, input, rates)
    case Err(e) => Fail(tx, e)
    case Ok(_) => if input.guestAccepted then tx.(stage := Greeting, rates := rates) else Fail(tx, InvalidGuest)
  }

  function GreetStep(db: Db, tx: Tx, e: Env): Tx
    requires tx.program.Reserving?
  {
    var email := tx.program.input.email;
    var guest := if email in db.guests then db.guests[email] else e.guest;
    tx.(stage := Drafting, draws := tx.draws.(guest := e.guest), writes := tx.writes.(guests := map[email := guest]))
  }

  function DraftStep(db: Db, tx: Tx, e: Env): Tx
    requires tx.program.Reserving?
  {
    var input, d := tx.program.input, tx.draws.(id := e.id, reference := e.reference, now := e.now);
    var guest := if input.email in tx.writes.guests then tx.writes.guests[input.email] else NIL;
    match Planned(db.catalog, input, tx.rates, guest, d)
    case Err(e) => Fail(tx, e)
    case Ok(b) => tx.(stage := Scanning, draws := d, booking := Some(b))
  }

  function ReadStep(db: Db, tx: Tx, e: Env): Tx
    requires tx.program.Cancelling?
  {
    match ByReference(db, tx.program.reference)
    case Err(e) => Fail(tx, e)
    case Ok(b) =>
      match Assess(db.catalog, b, e.now)
      case Err(e) => Fail(tx, e)
      case Ok(_) => tx.(stage := Guarding, draws := tx.draws.(now := e.now), booking := Some(b))
  }

  function GuardStep(db: Db, tx: Tx): Tx
    requires tx.booking.Some?
  {
    var b := CancelledAt(tx.booking.value, tx.draws.now);
    match CancelRow(db, b).result
    case Err(e) => Fail(tx, e)
    case Ok(_) =>
      tx.(stage := Scanning, writes := tx.writes.(reservations := map[b.id := CancelRow(db, b).db.reservations[b.id]]))
  }

  function Delta(p: Program): int {
    if p.Reserving? then UNITS_PER_RESERVATION else -UNITS_PER_RESERVATION
  }

  function ScanStep(db: Db, tx: Tx): Tx
    requires tx.booking.Some?
  {
    var b := tx.booking.value;
    tx.(stage := Locking, days := RowDays(db.inventory, b.room, b.stay.checkIn, b.stay.checkOut), got := 0)
  }

  function LockStep(tx: Tx): Tx {
    if tx.got < |tx.days| then tx.(got := tx.got + 1) else tx.(stage := Moving)
  }

  function MoveStep(db: Db, tx: Tx): Tx
    requires tx.booking.Some?
  {
    var b, delta := tx.booking.value, Int16(Delta(tx.program));
    match MoveError(db.inventory, b.room, tx.days, delta)
    case Some(e) => Fail(tx, e)
    case None =>
      if |tx.days| != Nights(b.stay) then Fail(tx, NoInventory)
      else tx.(stage := if tx.program.Reserving? then Creating else Announcing,
               writes := tx.writes.(inventory := MovedRows(db.inventory, b.room, tx.days, delta)))
  }

  function CreateStep(db: Db, tx: Tx): Tx
    requires tx.booking.Some?
  {
    var b := tx.booking.value;
    match Create(db, b).result
    case Err(e) => Fail(tx, e)
    case Ok(_) =>
      tx.(stage := Recording,
          writes := tx.writes.(reservations := map[b.id := RowOf(b)], refs := map[b.reference := b.id],
                               nights := map[b.id := NightRows(b.nights)]))
  }

  function RecordStep(db: Db, tx: Tx): Tx
    requires tx.program.Reserving? && tx.booking.Some?
  {
    var key, seen := tx.program.input.key, db.keys + tx.writes.keys;
    if key !in seen then Fail(tx, KeyLost)
    else tx.(stage := Announcing,
             writes := tx.writes.(keys := tx.writes.keys[key := seen[key].(reservation := Some(tx.booking.value.id))]))
  }

  /** The event of a transaction, numbered by the outbox sequence. */
  function AnnounceStep(db: Db, tx: Tx, number: int): Tx
    requires tx.booking.Some?
  {
    var b, after := tx.booking.value, tx.(stage := Ending, draws := tx.draws.(event := number));
    if tx.program.Reserving? then
      after.(writes := tx.writes.(outbox := map[number := ConfirmedMessage(b)]))
    else
      match Assess(db.catalog, b, tx.draws.now)
      case Err(e) => Fail(tx, e)
      case Ok(r) =>
        if b.guest !in (db.guests + tx.writes.guests).Values then Fail(tx, RecordNotFound)
        else after.(writes := tx.writes.(outbox := map[number := CancelledMessage(r.booking, r.cancellation)]))
  }

  function CheckStep(db: Db, tx: Tx): Tx
    requires tx.program.Stocking?
  {
    if tx.program.allotment < 0 then Fail(tx, InvalidAllotment)
    else if !(tx.program.from < tx.program.until) then Fail(tx, InvalidRange)
    else match FindRoom(db.catalog.rooms, tx.program.room)
      case Err(e) => Fail(tx, e)
      case Ok(_) => tx.(stage := Upserting, got := 0)
  }

  function UpsertStep(db: Db, tx: Tx): Tx
    requires tx.program.Stocking?
  {
    var day, allotment := tx.program.from + tx.got, Int16(tx.program.allotment);
    if day >= tx.program.until then tx.(stage := Ending)
    else
      var slot := Slot(tx.program.room, day);
      var row := UpsertedRow(db.inventory, slot, allotment);
      if allotment < 0 then Fail(tx, DatabaseError)
      else if !NotOversold(row) then Fail(tx, SoldOut)
      else tx.(got := tx.got + 1, writes := tx.writes.(inventory := tx.writes.inventory[slot := row]))
  }

  function PickStep(db: Db, tx: Tx, skip: set<int>): Tx
    requires tx.program.Dispatching?
  {
    tx.(stage := Sending, picked := Candidates(db.outbox, tx.program.batch, skip), got := 0)
  }

  function SendStep(db: Db, tx: Tx, e: Env): Tx {
    if tx.got >= |tx.picked| then tx.(stage := Ending)
    else
      var m := tx.picked[tx.got];
      if m !in db.outbox then tx.(got := tx.got + 1)
      else tx.(got := tx.got + 1, writes := tx.writes.(outbox := tx.writes.outbox[m := Marked(db.outbox[m], e.sent)]))
  }

  /** A transaction is at a stage of its own program, with what that stage works on at hand. */
  predicate WellFormed(tx: Tx) {
    match tx.stage
    case Claiming | ReadingKey | Replaying | Quoting | Greeting | Drafting => tx.program.Reserving?
    case Creating | Recording => tx.program.Reserving? && tx.booking.Some?
    case Reading => tx.program.Cancelling?
    case Guarding => tx.program.Cancelling? && tx.booking.Some?
    case Scanning | Locking | Moving | Announcing => (tx.program.Reserving? || tx.program.Cancelling?) && tx.booking.Some?
    case Checking | Upserting => tx.program.Stocking?
    case Picking | Sending => tx.program.Dispatching?
    case Ending => tx.program.Reserving? || tx.program.Cancelling? ==> tx.booking.Some?
  }

  /** Execute the next statement against the committed tables; `skip` are the messages others have locked. */
  function StepTx(db: Db, tx: Tx, e: Env, number: int, skip: set<int>): Tx
    requires WellFormed(tx) && tx.stage != Ending
  {
    match tx.stage
    case Claiming => ClaimStep(db, tx)
    case ReadingKey => ReadKeyStep(db, tx)
    case Replaying => ReplayStep(db, tx)
    case Quoting => QuoteStep(db, tx)
    case Greeting => GreetStep(db, tx, e)
    case Drafting => DraftStep(db, tx, e)
    case Reading => ReadStep(db, tx, e)
    case Guarding => GuardStep(db, tx)
    case Scanning => ScanStep(db, tx)
    case Locking => LockStep(tx)
    case Moving => MoveStep(db, tx)
    case Creating => CreateStep(db, tx)
    case Recording => RecordStep(db, tx)
    case Announcing => AnnounceStep(db, tx, number)
    case Checking => CheckStep(db, tx)
    case Upserting => UpsertStep(db, tx)
    case Picking => PickStep(db, tx, skip)
    case Sending => SendStep(db, tx, e)
  }

  // Locks

  datatype Lock =
    | KeyLock(key: string)
    | GuestLock(email: string)
    | RowLock(id: Uuid)          // a reservation row, by identifier
    | RefLock(reference: string) // its entry in the unique index
    | SlotLock(slot: Slot)
    | MessageLock(number: int)

  /** The rows a transaction has written or locked so far. A reservation row, inserted or updated, is held both by
      its identifier and by its reference: the unique check on a new reference waits for either kind of writer. A
      reservation that does not own its key only reads. */
  predicate Holds(tx: Tx, lock: Lock) {
    tx.fate == Running &&
    match tx.program
    case Reserving(input) =>
      tx.owned &&
      (match lock
       case KeyLock(k) => k == input.key
       case GuestLock(e) => Past(tx, Greeting) && e == input.email
       case RowLock(id) => Past(tx, Drafting) && id == tx.draws.id
       case SlotLock(slot) => HoldsSlot(tx, slot)
       case RefLock(r) => Past(tx, Creating) && r == tx.draws.reference
       case MessageLock(m) => Past(tx, Announcing) && m == tx.draws.event)
    case Cancelling(_) =>
      tx.booking.Some? &&
      (match lock
       case RowLock(id) => Past(tx, Guarding) && id == tx.booking.value.id
       case RefLock(r) => Past(tx, Guarding) && r == tx.booking.value.reference
       case SlotLock(slot) => HoldsSlot(tx, slot)
       case MessageLock(m) => Past(tx, Announcing) && m == tx.draws.event
       case _ => false)
    case Stocking(room, from, until, _) => lock.SlotLock? && lock.slot.room == room && from <= lock.slot.day < from + tx.got
    case Dispatching(_) => lock.MessageLock? && lock.number in tx.picked
  }

  predicate HoldsSlot(tx: Tx, slot: Slot) {
    tx.booking.Some? && slot.room == tx.booking.value.room && tx.got <= |tx.days| && slot.day in tx.days[..tx.got]
  }

  /** The rows the next statement has to wait for. A new reservation row that breaks a check is rejected before its
      reference is looked up, so it waits for nobody. */
  function Wants(tx: Tx): set<Lock>
    requires WellFormed(tx)
  {
    match tx.stage
    case Claiming | Recording => {KeyLock(tx.program.input.key)}
    case Greeting => {GuestLock(tx.program.input.email)}
    case Guarding => {RowLock(tx.booking.value.id), RefLock(tx.booking.value.reference)}
    case Locking => if tx.got < |tx.days| then {SlotLock(Slot(tx.booking.value.room, tx.days[tx.got]))} else {}
    case Creating => if RowAccepted(RowOf(tx.booking.value)) then {RefLock(tx.draws.reference)} else {}
    case Upserting =>
      if tx.program.from + tx.got < tx.program.until
      then {SlotLock(Slot(tx.program.room, tx.program.from + tx.got))} else {}
    case _ => {}
  }

  // The system

  type TxId = int

  /** `ids` are the identifiers drawn so far and `next` the outbox sequence, which neither commits nor rolls back.
      `creator` and `canceller` remember which transaction created or cancelled a reservation. */
  datatype Sys = Sys(
    db: Db,
    txs: map<TxId, Tx>,
    ids: set<Uuid>,
    next: int,
    creator: map<Uuid, TxId>,
    canceller: map<Uuid, TxId>)

  predicate IsRunning(s: Sys, t: TxId) {
    t in s.txs && s.txs[t].fate == Running && WellFormed(s.txs[t])
  }

  /** `t` waits for a row that `u` holds. */
  ghost predicate WaitsFor(s: Sys, t: TxId, u: TxId) {
    && IsRunning(s, t) && IsRunning(s, u) && t != u
    && exists lock :: lock in Wants(s.txs[t]) && Holds(s.txs[u], lock)
  }

  ghost predicate Blocked(s: Sys, t: TxId) {
    exists u :: WaitsFor(s, t, u)
  }

  /** The messages locked by others. */
  function LockedMessages(s: Sys, t: TxId): set<int> {
    set u, m | u in s.txs && m in s.db.outbox && u != t && Holds(s.txs[u], MessageLock(m)) :: m
  }

  function Commit(s: Sys, t: TxId): Sys
    requires IsRunning(s, t) && s.txs[t].stage == Ending
  {
    var tx := s.txs[t];
    var after := s.(db := Apply(s.db, tx.writes), txs := s.txs[t := tx.(fate := Done)]);
    match tx.program
    case Reserving(_) => if tx.owned then after.(creator := s.creator[tx.booking.value.id := t]) else after
    case Cancelling(_) => after.(canceller := s.canceller[tx.booking.value.id := t])
    case _ => after
  }

  function Advance(s: Sys, t: TxId, e: Env): Sys
    requires IsRunning(s, t)
  {
    var tx := s.txs[t];
    if tx.stage == Ending then Commit(s, t)
    else
      s.(txs := s.txs[t := StepTx(s.db, tx, e, s.next, LockedMessages(s, t))],
         ids := if tx.stage == Drafting then s.ids + {e.id} else s.ids,
         next := if tx.stage == Announcing then s.next + 1 else s.next)
  }

  /** The driver, the network or a deadlock check may end a transaction at any time. */
  function Abort(s: Sys, t: TxId): Sys
    requires IsRunning(s, t)
  {
    s.(txs := s.txs[t := Fail(s.txs[t], Aborted)])
  }

  datatype Action =
    | Start(t: TxId, program: Program)
    | Run(t: TxId, env: Env)
    | Stop(t: TxId)
    | SetRates(plan: Uuid, inputs: seq<RateInput>)

  ghost predicate Enabled(s: Sys, a: Action) {
    match a
    case Start(t, _) => t !in s.txs
    case Run(t, e) => IsRunning(s, t) && !Blocked(s, t) && e.id !in s.ids
    case Stop(t) => IsRunning(s, t)
    case SetRates(_, _) => true
  }

  ghost function Next(s: Sys, a: Action): Sys
    requires Enabled(s, a)
  {
    match a
    case Start(t, p) => s.(txs := s.txs[t := Begin(p)])
    case Run(t, e) => Advance(s, t, e)
    case Stop(t) => Abort(s, t)
    case SetRates(plan, inputs) => s.(db := SetRatesTx(s.db, plan, inputs).db)
  }
}
