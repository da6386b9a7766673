/** The transactions of the application, each run from start to end on one state of the tables.

    Whatever a transaction draws from outside (clock, identifiers, reference, outbox sequence) is a parameter. The
    rates are a parameter too: they are read without a lock, so a booking is priced at the rates it has read, which
    need not be those in force when it commits. */
module Transactions {
  import opened Results
  import opened Words
  import opened Calendar
  import opened Stays
  import opened Moneys
  import opened Pricing
  import opened Bookings
  import opened Tables

  const UNITS_PER_RESERVATION := 1

  /** `guestAccepted` says whether the guest's address and name pass `NewGuest`; `email` is the normalised address. */
  datatype ReserveInput = ReserveInput(key: string, hash: string, property: Uuid, room: Uuid, plan: Uuid, stay: Stay,
                                       guests: int, email: string, guestAccepted: bool)

  datatype Draws = Draws(guest: Uuid, id: Uuid, reference: string, now: Instant, event: int)

  datatype ReserveResult = ReserveResult(booking: Booking, replayed: bool)

  datatype CancelResult = CancelResult(booking: Booking, cancellation: Cancellation)

  /** Commit on success, roll back to the state before on any error. */
  function WithinTx<T>(before: Db, o: Outcome<T>): Outcome<T> {
    if o.result.Ok? then o else Outcome(o.result, before)
  }

  /** The catalogue checks of `book`, and the quote. */
  function PriceStay(catalog: Catalog, input: ReserveInput, rates: Result<seq<RateDay>>): Result<Quote> {
    var room :- FindRoom(catalog.rooms, input.room);
    if room.property != input.property then Err(RoomTypeNotFound) else
      var plan :- FindPlan(catalog.plans, input.plan);
      if plan.room != input.room then Err(RatePlanMismatch) else
        var days :- rates;
        QuoteFor(input.stay, days)
  }

  function Draft(catalog: Catalog, input: ReserveInput, quote: Quote, guest: Uuid, d: Draws): Result<Booking> {
    var room :- FindRoom(catalog.rooms, input.room);
    New(NewInput(room.property, input.room, input.plan, guest, quote, input.guests, room.maxOccupancy, d.now),
        d.id, d.reference)
  }

  function EventOf(b: Booking): Payload {
    Payload(b.reference, b.status, b.stay, b.guestCount, b.total, 0, false)
  }

  function ConfirmedMessage(b: Booking): Message {
    Message(b.id, ConfirmedEvent, EventOf(b), false, 0)
  }

  function CancelledMessage(b: Booking, c: Cancellation): Message {
    Message(b.id, CancelledEvent, EventOf(b).(refundCents := c.refund.cents, refundable := c.refundable), false, 0)
  }

  /** The two statements that place a drafted reservation: inventory first, then the rows of the reservation. */
  function Place(db: Db, b: Booking): Outcome<Booking> {
    var moved := Move(db, b.room, b.stay, UNITS_PER_RESERVATION);
    if moved.result.Err? then Outcome(Err(moved.result.error), moved.db) else
      var created := Create(moved.db, b);
      if created.result.Err? then Outcome(Err(created.result.error), created.db)
      else Outcome(Ok(b), created.db)
  }

  function BookQuoted(db: Db, input: ReserveInput, quote: Quote, d: Draws): Outcome<Booking> {
    if !input.guestAccepted then Outcome(Err(InvalidGuest), db) else
      var (guest, db1) := UpsertGuest(db, input.email, d.guest);
      match Draft(db.catalog, input, quote, guest, d)
      case Err(e) => Outcome(Err(e), db1)
      case Ok(b) => Place(db1, b)
  }

  function Book(db: Db, input: ReserveInput, rates: Result<seq<RateDay>>, d: Draws): Outcome<Booking> {
    match PriceStay(db.catalog, input, rates)
    case Err(e) => Outcome(Err(e), db)
    case Ok(quote) => BookQuoted(db, input, quote, d)
  }

  /** Recording the key and publishing the event, the last two statements of a reservation. */
  function Conclude(db: Db, key: string, b: Booking, event: int): Outcome<ReserveResult> {
    var recorded := RecordKey(db, key, b.id);
    if recorded.result.Err? then Outcome(Err(recorded.result.error), recorded.db) else
      var published := Publish(recorded.db, event, ConfirmedMessage(b));
      if published.result.Err? then Outcome(Err(published.result.error), published.db)
      else Outcome(Ok(ReserveResult(b, false)), published.db)
  }

  /** The answer to a request whose key is already taken. */
  function Replay(db: Db, claim: Claim, hash: string): Result<ReserveResult> {
    if claim.hash != hash then Err(KeyReused)
    else match claim.reservation
      case None => Err(RequestInProgress)
      case Some(id) =>
        var b :- ByID(db, id);
        Ok(ReserveResult(b, true))
  }

  function ReserveBody(db: Db, input: ReserveInput, rates: Result<seq<RateDay>>, d: Draws): Outcome<ReserveResult> {
    var (claim, db0) := ClaimKey(db, input.key, input.hash);
    if !claim.isFresh then Outcome(Replay(db0, claim, input.hash), db0) else
      var booked := Book(db0, input, rates, d);
      match booked.result
      case Err(e) => Outcome(Err(e), booked.db)
      case Ok(b) => Conclude(booked.db, input.key, b, d.event)
  }

  function ReserveTx(db: Db, input: ReserveInput, rates: Result<seq<RateDay>>, d: Draws): Outcome<ReserveResult> {
    WithinTx(db, ReserveBody(db, input, rates, d))
  }

  function ReleaseAndPublish(db: Db, cancelled: Booking, c: Cancellation, event: int): Outcome<CancelResult> {
    var released := Move(db, cancelled.room, cancelled.stay, -UNITS_PER_RESERVATION);
    if released.result.Err? then Outcome(Err(released.result.error), released.db)
    else if cancelled.guest !in released.db.guests.Values then Outcome(Err(RecordNotFound), released.db)
    else
      var published := Publish(released.db, event, CancelledMessage(cancelled, c));
      if published.result.Err? then Outcome(Err(published.result.error), published.db)
      else Outcome(Ok(CancelResult(cancelled, c)), published.db)
  }

  /** The statements of a cancellation that write: the guarded update, the release, and the event. */
  function Withdraw(db: Db, cancelled: Booking, c: Cancellation, event: int): Outcome<CancelResult> {
    var updated := CancelRow(db, cancelled);
    if updated.result.Err? then Outcome(Err(updated.result.error), updated.db)
    else ReleaseAndPublish(updated.db, cancelled, c, event)
  }

  /** What cancelling the reservation read would give: the changed reservation and its refund. */
  function Assess(catalog: Catalog, b: Booking, now: Instant): Result<CancelResult> {
    var plan :- FindPlan(catalog.plans, b.plan);
    match CancellationError(b, now)
    case Some(e) => Err(e)
    case None => Ok(CancelResult(CancelledAt(b, now), CancellationAt(b, now, plan.refundableUntilHours)))
  }

  function CancelBody(db: Db, reference: string, now: Instant, event: int): Outcome<CancelResult> {
    match ByReference(db, reference)
    case Err(e) => Outcome(Err(e), db)
    case Ok(b) =>
      match Assess(db.catalog, b, now)
      case Err(e) => Outcome(Err(e), db)
      case Ok(r) => Withdraw(db, r.booking, r.cancellation, event)
  }

  function CancelTx(db: Db, reference: string, now: Instant, event: int): Outcome<CancelResult> {
    WithinTx(db, CancelBody(db, reference, now, event))
  }

  function SetInventoryTx(db: Db, room: Uuid, from: Day, until: Day, allotment: int): Outcome<()> {
    if allotment < 0 then Outcome(Err(InvalidAllotment), db)
    else if !(from < until) then Outcome(Err(InvalidRange), db)
    else match FindRoom(db.catalog.rooms, room)
      case Err(e) => Outcome(Err(e), db)
      case Ok(_) => UpsertAllotment(db, room, from, until, allotment)
  }

  datatype RateInput = RateInput(date: Option<Day>, cents: Int64, minStay: int, closedToArrival: bool, closedToDeparture: bool)

  /** The checks `SetRates` makes on each entry before anything is written; an entry without a date has the zero date. */
  function RateDaysOf(inputs: seq<RateInput>, currency: string): Result<seq<RateDay>> {
    if inputs == [] then Ok([])
    else if inputs[0].date == None || inputs[0].minStay < 1 then Err(InvalidRateInput)
    else
      var price :- NewMoney(inputs[0].cents, currency);
      var rest :- RateDaysOf(inputs[1..], currency);
      Ok([RateDay(inputs[0].date.value, price, inputs[0].minStay, inputs[0].closedToArrival, inputs[0].closedToDeparture)]
         + rest)
  }

  function SetRatesTx(db: Db, plan: Uuid, inputs: seq<RateInput>): Outcome<()> {
    if inputs == [] then Outcome(Err(NoRates), db)
    else match FindPlan(db.catalog.plans, plan)
      case Err(e) => Outcome(Err(e), db)
      case Ok(rp) =>
        match FindRoom(db.catalog.rooms, rp.room)
        case Err(e) => Outcome(Err(e), db)
        case Ok(room) =>
          match RateDaysOf(inputs, room.currency)
          case Err(e) => Outcome(Err(e), db)
          case Ok(days) => UpsertRates(db, plan, days)
  }

  /** One dispatcher transaction: the claimed messages, each marked with the answer of its send. */
  function MarkedRows(outbox: map<int, Message>, ids: seq<int>, ok: int -> bool): map<int, Message>
  {
    map m | m in ids && m in outbox :: Marked(outbox[m], ok(m))
  }

  function DispatchTx(db: Db, batch: nat, ok: int -> bool): Db {
    db.(outbox := db.outbox + MarkedRows(db.outbox, Candidates(db.outbox, batch, {}), ok))
  }
}
