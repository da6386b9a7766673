/** What is true of a running transaction: its uncommitted writes are exactly what its statements so far would write
    if they were executed now, on the tables as currently committed. */
module Invariants {
  import opened Results
  import opened Words
  import opened Collections
  import opened Calendar
  import opened Stays
  import opened Pricing
  import opened Bookings
  import opened Tables
  import opened Transactions
  import opened Stock
  import opened Effects
  import opened Consistency
  import opened Interleaving

  /** No inventory row has been looked for yet. */
  ghost predicate Idle(tx: Tx) {
    tx.days == [] && tx.got == 0
  }

  /** The rows found are rows of the stay. */
  ghost predicate Found(inventory: Inventory, b: Booking, days: seq<Day>, got: nat) {
    && got <= |days|
    && StrictlyAscending(days)
    && (forall d :: d in days ==> b.stay.checkIn <= d < b.stay.checkOut && Slot(b.room, d) in inventory)
  }

  /** Every night is locked, and can be moved. */
  ghost predicate Moved(inventory: Inventory, b: Booking, days: seq<Day>, got: nat, delta: int) {
    && days == DaysOf(b.stay) && got == |days|
    && CanMove(inventory, b.room, b.stay, delta)
  }

  // A reservation that owns its key

  ghost predicate Priced(catalog: Catalog, input: ReserveInput, rates: Result<seq<RateDay>>) {
    PriceStay(catalog, input, rates).Ok? && input.guestAccepted && (rates.Ok? ==> RatesSound(rates.value))
  }

  ghost predicate Drafted(db: Db, tx: Tx)
    requires tx.program.Reserving?
  {
    && tx.booking.Some?
    && Planned(db.catalog, tx.program.input, tx.rates, GuestFor(db, tx.program.input, tx.draws), tx.draws) == Ok(tx.booking.value)
    && (tx.rates.Ok? ==> RatesSound(tx.rates.value))
    && tx.draws.id !in db.reservations
  }

  // What its statements write on these tables, one after the other

  ghost function KeyWrite(input: ReserveInput): Writes {
    NO_WRITES.(keys := map[input.key := KeyRow(input.hash, None)])
  }

  ghost function GuestWrite(db: Db, input: ReserveInput, d: Draws): Writes {
    KeyWrite(input).(guests := map[input.email := GuestFor(db, input, d)])
  }

  ghost function StockWrite(db: Db, input: ReserveInput, d: Draws, b: Booking): Writes {
    GuestWrite(db, input, d).(inventory := MovedRows(db.inventory, b.room, DaysOf(b.stay), 1))
  }

  ghost function RowsWrite(db: Db, input: ReserveInput, d: Draws, b: Booking): Writes {
    StockWrite(db, input, d, b).(reservations := map[b.id := RowOf(b)], refs := map[b.reference := b.id],
                                 nights := map[b.id := NightRows(b.nights)])
  }

  ghost function RecordWrite(db: Db, input: ReserveInput, d: Draws, b: Booking): Writes {
    RowsWrite(db, input, d, b).(keys := map[input.key := KeyRow(input.hash, Some(b.id))])
  }

  ghost function ConfirmWrite(db: Db, input: ReserveInput, d: Draws, b: Booking): Writes {
    RecordWrite(db, input, d, b).(outbox := map[d.event := ConfirmedMessage(b)])
  }

  ghost predicate FreshOk(db: Db, tx: Tx) {
    match tx.program
    case Reserving(input) =>
      && tx.owned && input.key !in db.keys
      && (match tx.stage
          case Quoting => Idle(tx) && tx.writes == KeyWrite(input)
          case Greeting => Idle(tx) && tx.writes == KeyWrite(input) && Priced(db.catalog, input, tx.rates)
          case Drafting => Idle(tx) && tx.writes == GuestWrite(db, input, tx.draws) && Priced(db.catalog, input, tx.rates)
          case Scanning => Idle(tx) && tx.writes == GuestWrite(db, input, tx.draws) && Drafted(db, tx)
          case Locking =>
            && Drafted(db, tx) && tx.writes == GuestWrite(db, input, tx.draws)
            && Found(db.inventory, tx.booking.value, tx.days, tx.got)
          case Moving =>
            && Drafted(db, tx) && tx.writes == GuestWrite(db, input, tx.draws)
            && Found(db.inventory, tx.booking.value, tx.days, tx.got) && tx.got == |tx.days|
          case Creating =>
            && Drafted(db, tx) && tx.writes == StockWrite(db, input, tx.draws, tx.booking.value)
            && Moved(db.inventory, tx.booking.value, tx.days, tx.got, 1)
          case Recording =>
            && Drafted(db, tx) && tx.writes == RowsWrite(db, input, tx.draws, tx.booking.value)
            && Moved(db.inventory, tx.booking.value, tx.days, tx.got, 1) && CanCreate(db, tx.booking.value)
          case Announcing =>
            && Drafted(db, tx) && tx.writes == RecordWrite(db, input, tx.draws, tx.booking.value)
            && Moved(db.inventory, tx.booking.value, tx.days, tx.got, 1) && CanCreate(db, tx.booking.value)
          case Ending =>
            && Drafted(db, tx) && tx.writes == ConfirmWrite(db, input, tx.draws, tx.booking.value)
            && Moved(db.inventory, tx.booking.value, tx.days, tx.got, 1) && CanCreate(db, tx.booking.value)
            && tx.draws.event !in db.outbox
          case _ => false)
    case _ => false
  }

  // A reservation whose key is taken

  ghost predicate ReplayOk(db: Db, tx: Tx)
  {
    match tx.program
    case Reserving(input) =>
      && !tx.owned && tx.writes == NO_WRITES && Idle(tx)
      && (match tx.stage
          case Claiming => true
          case ReadingKey => input.key in db.keys
          case Replaying => input.key in db.keys && db.keys[input.key] == KeyRow(input.hash, Some(tx.target))
          case Ending =>
            && input.key in db.keys && db.keys[input.key] == KeyRow(input.hash, Some(tx.target))
            && tx.booking.Some? && SameBut(db, tx.target, tx.booking.value)
          case _ => false)
    case _ => false
  }

  /** What is stored under `id` is `b`, but for its status, which can only have gone from confirmed to cancelled. */
  ghost predicate SameBut(db: Db, id: Uuid, b: Booking) {
    && ByID(db, id).Ok? && b.id == id
    && ByID(db, id).value.(status := b.status, cancelledAt := b.cancelledAt) == b
    && (b.status == Cancelled ==> ByID(db, id).value == b)
  }

  // A cancellation

  ghost predicate ReadOk(db: Db, tx: Tx)
    requires tx.program.Cancelling?
  {
    && tx.booking.Some?
    && var b := tx.booking.value;
    && b.status == Confirmed && b.cancelledAt == None && b.reference == tx.program.reference
    && b.reference in db.refs && db.refs[b.reference] == b.id
    && SameBut(db, b.id, b)
    && Assess(db.catalog, b, tx.draws.now).Ok?
  }

  ghost predicate Guarded(db: Db, b: Booking, now: Instant) {
    && b.id in db.reservations && db.reservations[b.id].status == Confirmed && db.reservations[b.id].cancelledAt == None
    && RowAccepted(CancelledRow(db, CancelledAt(b, now)))
  }

  ghost function GuardWrite(db: Db, b: Booking, now: Instant): Writes
    requires b.id in db.reservations
  {
    NO_WRITES.(reservations := map[b.id := CancelledRow(db, CancelledAt(b, now))])
  }

  ghost function ReleaseWrite(db: Db, b: Booking, now: Instant): Writes
    requires b.id in db.reservations
  {
    GuardWrite(db, b, now).(inventory := MovedRows(db.inventory, b.room, DaysOf(b.stay), -1))
  }

  ghost function CancelWrite(db: Db, b: Booking, now: Instant, event: int): Writes
    requires b.id in db.reservations && Assess(db.catalog, b, now).Ok?
  {
    var r := Assess(db.catalog, b, now).value;
    ReleaseWrite(db, b, now).(outbox := map[event := CancelledMessage(r.booking, r.cancellation)])
  }

  ghost predicate CancelOk(db: Db, tx: Tx) {
    match tx.program
    case Cancelling(_) =>
      (match tx.stage
       case Reading => Idle(tx) && tx.writes == NO_WRITES
       case Guarding => Idle(tx) && tx.writes == NO_WRITES && ReadOk(db, tx)
       case Scanning =>
         && Idle(tx) && ReadOk(db, tx) && Guarded(db, tx.booking.value, tx.draws.now)
         && tx.writes == GuardWrite(db, tx.booking.value, tx.draws.now)
       case Locking =>
         && ReadOk(db, tx) && Guarded(db, tx.booking.value, tx.draws.now)
         && tx.writes == GuardWrite(db, tx.booking.value, tx.draws.now)
         && Found(db.inventory, tx.booking.value, tx.days, tx.got) && tx.days == DaysOf(tx.booking.value.stay)
       case Moving =>
         && ReadOk(db, tx) && Guarded(db, tx.booking.value, tx.draws.now)
         && tx.writes == GuardWrite(db, tx.booking.value, tx.draws.now)
         && Found(db.inventory, tx.booking.value, tx.days, tx.got) && tx.days == DaysOf(tx.booking.value.stay)
         && tx.got == |tx.days|
       case Announcing =>
         && ReadOk(db, tx) && Guarded(db, tx.booking.value, tx.draws.now)
         && tx.writes == ReleaseWrite(db, tx.booking.value, tx.draws.now)
         && Moved(db.inventory, tx.booking.value, tx.days, tx.got, -1)
       case Ending =>
         && ReadOk(db, tx) && Guarded(db, tx.booking.value, tx.draws.now)
         && tx.writes == CancelWrite(db, tx.booking.value, tx.draws.now, tx.draws.event)
         && Moved(db.inventory, tx.booking.value, tx.days, tx.got, -1)
         && tx.booking.value.guest in db.guests.Values
         && tx.draws.event !in db.outbox && Follows(db.outbox, tx.booking.value.id, tx.draws.event)
       case _ => false)
    case _ => false
  }

  // Publishing inventory

  /** The rows from `from` to `reached` as an upsert would write them, all accepted. */
  ghost predicate Upserted(inventory: Inventory, room: Uuid, from: Day, reached: Day, allotment: int, rows: Inventory) {
    && (forall s :: s in rows <==> s.room == room && from <= s.day < reached)
    && (forall s :: s in rows ==> rows[s] == UpsertedRow(inventory, s, allotment) && NotOversold(rows[s]))
    && (from < reached ==> 0 <= allotment)
  }

  ghost predicate StockingOk(db: Db, tx: Tx) {
    match tx.program
    case Stocking(room, from, until, allotment) =>
      (match tx.stage
       case Checking => tx.got == 0 && tx.writes == NO_WRITES
       case Upserting =>
         && 0 <= allotment && from < until && FindRoom(db.catalog.rooms, room).Ok? && from + tx.got <= until
         && Upserted(db.inventory, room, from, from + tx.got, Int16(allotment), tx.writes.inventory)
         && tx.writes == NO_WRITES.(inventory := tx.writes.inventory)
       case Ending =>
         && 0 <= allotment && from < until && FindRoom(db.catalog.rooms, room).Ok? && from + tx.got == until
         && Upserted(db.inventory, room, from, until, Int16(allotment), tx.writes.inventory)
         && tx.writes == NO_WRITES.(inventory := tx.writes.inventory)
       case _ => false)
    case _ => false
  }

  // Dispatching

  ghost predicate Distinct(s: seq<int>) {
    forall i, j :: 0 <= i < j < |s| ==> s[i] != s[j]
  }

  ghost predicate DispatchOk(db: Db, tx: Tx)
  {
    match tx.program
    case Dispatching(batch) =>
      && tx.writes == NO_WRITES.(outbox := tx.writes.outbox)
      && Distinct(tx.picked) && tx.got <= |tx.picked| <= batch
      && (tx.stage == Ending ==> tx.got == |tx.picked|) && (tx.stage == Picking ==> tx.picked == [])
      && (forall m :: m in tx.picked ==> m in db.outbox && Eligible(db.outbox[m]))
      && (forall m :: m in tx.writes.outbox <==> m in tx.picked[..tx.got])
      && Attempted(db.outbox, tx.writes.outbox)
    case _ => false
  }

  ghost predicate TxOk(db: Db, tx: Tx) {
    match tx.program
    case Reserving(_) => WellFormed(tx) && (ReplayOk(db, tx) || FreshOk(db, tx))
    case Cancelling(_) => WellFormed(tx) && CancelOk(db, tx)
    case Stocking(_, _, _, _) => WellFormed(tx) && StockingOk(db, tx)
    case Dispatching(_) => WellFormed(tx) && DispatchOk(db, tx)
  }
}
