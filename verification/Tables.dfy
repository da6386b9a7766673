/** The stored tables, and every SQL statement of the repositories as a function on them.

    A statement either returns an error and leaves the tables alone, or returns a value and the new tables. The
    constraints of the schema decide which. */
module Tables {
  import opened Results
  import opened Words
  import opened Collections
  import opened Calendar
  import opened Stays
  import opened Moneys
  import opened Pricing
  import opened Bookings
  import Inventories

  datatype RoomType = RoomType(id: Uuid, property: Uuid, maxOccupancy: int, currency: string)
  datatype RatePlan = RatePlan(id: Uuid, property: Uuid, room: Uuid, refundableUntilHours: int)

  /** Properties (by currency), room types and rate plans, the latter two in the order of their codes. */
  datatype Catalog = Catalog(currencies: map<Uuid, string>, rooms: seq<RoomType>, plans: seq<RatePlan>)

  datatype RateKey = RateKey(plan: Uuid, day: Day)
  datatype RateRow = RateRow(cents: Int64, minStay: int, closedToArrival: bool, closedToDeparture: bool)

  datatype Slot = Slot(room: Uuid, day: Day)
  datatype InventoryRow = InventoryRow(allotment: int, booked: int)

  datatype ReservationRow = ReservationRow(
    reference: string,
    property: Uuid,
    room: Uuid,
    plan: Uuid,
    guest: Uuid,
    checkIn: Day,
    checkOut: Day,
    guestCount: int,
    status: Status,
    totalCents: Int64,
    currency: string,
    createdAt: Instant,
    cancelledAt: Option<Instant>)

  datatype KeyRow = KeyRow(hash: string, reservation: Option<Uuid>)

  datatype EventKind = ConfirmedEvent | CancelledEvent

  /** The fields of an event that say what happened; guest name and address are left out. */
  datatype Payload = Payload(reference: string, status: Status, stay: Stay, guestCount: int, total: Money,
                             refundCents: int, refundable: bool)

  datatype Message = Message(aggregate: Uuid, kind: EventKind, payload: Payload, published: bool, attempts: int)

  datatype Db = Db(
    catalog: Catalog,
    rates: map<RateKey, RateRow>,
    inventory: map<Slot, InventoryRow>,
    guests: map<string, Uuid>,
    reservations: map<Uuid, ReservationRow>,
    refs: map<string, Uuid>,
    nights: map<Uuid, map<Day, Int64>>,
    keys: map<string, KeyRow>,
    outbox: map<int, Message>)

  datatype Outcome<+T> = Outcome(result: Result<T>, db: Db)

  // Catalog

  function FindRoom(rooms: seq<RoomType>, id: Uuid): Result<RoomType> {
    if rooms == [] then Err(RecordNotFound)
    else if rooms[0].id == id then Ok(rooms[0])
    else FindRoom(rooms[1..], id)
  }

  function FindPlan(plans: seq<RatePlan>, id: Uuid): Result<RatePlan> {
    if plans == [] then Err(RecordNotFound)
    else if plans[0].id == id then Ok(plans[0])
    else FindPlan(plans[1..], id)
  }

  // Rates

  /** The rows of the query, turned into rate days; a row that is no money makes the whole read fail. */
  function RateDays(rates: map<RateKey, RateRow>, plan: Uuid, currency: string, days: seq<Day>): Result<seq<RateDay>>
    requires forall d :: d in days ==> RateKey(plan, d) in rates
  {
    if days == [] then Ok([]) else
      var row := rates[RateKey(plan, days[0])];
      match NewMoney(row.cents, currency)
      case Err(_) => Err(CorruptRate)
      case Ok(price) =>
        var rest :- RateDays(rates, plan, currency, days[1..]);
        Ok([RateDay(days[0], price, row.minStay, row.closedToArrival, row.closedToDeparture)] + rest)
  }

  function RateWindow(rates: map<RateKey, RateRow>, plan: Uuid, from: Day, to: Day): set<Day> {
    set k | k in rates && k.plan == plan && from <= k.day <= to :: k.day
  }

  /** Both ends of the window are read; without the plan or its property the join is empty. */
  function ReadRates(db: Db, plan: Uuid, from: Day, to: Day): Result<seq<RateDay>> {
    match FindPlan(db.catalog.plans, plan)
    case Err(_) => Ok([])
    case Ok(rp) =>
      if rp.property !in db.catalog.currencies then Ok([])
      else RateDays(db.rates, plan, db.catalog.currencies[rp.property], Ascending(RateWindow(db.rates, plan, from, to)))
  }

  function RateRows(plan: Uuid, days: seq<RateDay>): map<RateKey, RateRow> {
    if days == [] then map[] else
      var d := days[|days| - 1];
      var row := RateRow(d.price.cents, Int16(d.minStay), d.closedToArrival, d.closedToDeparture);
      RateRows(plan, days[..|days| - 1])[RateKey(plan, d.date) := row]
  }

  /** One upsert statement may not touch a row twice, and every row must pass the checks. */
  function UpsertRates(db: Db, plan: Uuid, days: seq<RateDay>): Outcome<()> {
    if (exists i, j :: 0 <= i < j < |days| && days[i].date == days[j].date)
       || (exists i :: 0 <= i < |days| && (days[i].price.cents < 0 || Int16(days[i].minStay) < 1))
    then Outcome(Err(DatabaseError), db)
    else Outcome(Ok(()), db.(rates := db.rates + RateRows(plan, days)))
  }

  // Inventory

  function RoomWindow(inventory: map<Slot, InventoryRow>, room: Uuid, from: Day, to: Day): set<Day> {
    set s | s in inventory && s.room == room && from <= s.day < to :: s.day
  }

  /** The days of the window that have a row, in order. */
  function RowDays(inventory: map<Slot, InventoryRow>, room: Uuid, from: Day, to: Day): (days: seq<Day>)
    ensures StrictlyAscending(days)
    ensures forall d :: d in days <==> Slot(room, d) in inventory && from <= d < to
  {
    var w := RoomWindow(inventory, room, from, to);
    assert forall d :: d in w <==> Slot(room, d) in inventory && from <= d < to by {
      forall d | Slot(room, d) in inventory && from <= d < to ensures d in w {
        assert Slot(room, d).day == d;
      }
    }
    Ascending(w)
  }

  function AllotmentOf(inventory: map<Slot, InventoryRow>, room: Uuid, d: Day): Inventories.Allotment
    requires Slot(room, d) in inventory
  {
    Inventories.Allotment(d, inventory[Slot(room, d)].allotment, inventory[Slot(room, d)].booked)
  }

  function Allotments(inventory: map<Slot, InventoryRow>, room: Uuid, days: seq<Day>): (r: seq<Inventories.Allotment>)
    requires forall d :: d in days ==> Slot(room, d) in inventory
    ensures |r| == |days|
    ensures forall i :: 0 <= i < |days| ==> r[i] == AllotmentOf(inventory, room, days[i])
  {
    seq(|days|, i requires 0 <= i < |days| => AllotmentOf(inventory, room, days[i]))
  }

  function ReadAllotments(db: Db, room: Uuid, from: Day, to: Day): seq<Inventories.Allotment> {
    Allotments(db.inventory, room, RowDays(db.inventory, room, from, to))
  }

  predicate NotOversold(row: InventoryRow) {
    0 <= row.booked <= row.allotment
  }

  /** The complaint of the first row, in order of date, that cannot take `delta`: a smallint overflow or the check.
      A day without a row joins nothing. */
  function MoveError(inventory: map<Slot, InventoryRow>, room: Uuid, days: seq<Day>, delta: int): Option<Error> {
    if days == [] then None
    else if Slot(room, days[0]) !in inventory then MoveError(inventory, room, days[1..], delta)
    else
      var row := inventory[Slot(room, days[0])];
      if !IsSmallint(row.booked + delta) then Some(DatabaseError)
      else if !NotOversold(row.(booked := row.booked + delta)) then Some(SoldOut)
      else MoveError(inventory, room, days[1..], delta)
  }

  /** The updated rows. */
  function MovedRows(inventory: map<Slot, InventoryRow>, room: Uuid, days: seq<Day>, delta: int): map<Slot,
                     InventoryRow> {
    map s | s in inventory && s.room == room && s.day in days :: inventory[s].(booked := inventory[s].booked + delta)
  }

  /** `move`: rows are updated first, and only then is their number compared with the nights of the stay. */
  function Move(db: Db, room: Uuid, stay: Stay, delta: int): Outcome<()> {
    var days := RowDays(db.inventory, room, stay.checkIn, stay.checkOut);
    match MoveError(db.inventory, room, days, Int16(delta))
    case Some(e) => Outcome(Err(e), db)
    case None =>
      var moved := db.(inventory := db.inventory + MovedRows(db.inventory, room, days, Int16(delta)));
      if |days| != Nights(stay) then Outcome(Err(NoInventory), moved) else Outcome(Ok(()), moved)
  }

  /** The row an upsert writes: a new one starts with nothing booked. */
  function UpsertedRow(inventory: map<Slot, InventoryRow>, slot: Slot, allotment: int): InventoryRow {
    InventoryRow(allotment, if slot in inventory then inventory[slot].booked else 0)
  }

  function UpsertError(inventory: map<Slot, InventoryRow>, room: Uuid, from: Day, until: Day,
                       allotment: int): Option<Error>
    decreases until - from
  {
    if from >= until then None
    else if allotment < 0 then Some(DatabaseError)
    else if !NotOversold(UpsertedRow(inventory, Slot(room, from), allotment)) then Some(SoldOut)
    else UpsertError(inventory, room, from + 1, until, allotment)
  }

  function UpsertedRows(inventory: map<Slot, InventoryRow>, room: Uuid, from: Day, until: Day, allotment: int)
    : (rows: map<Slot, InventoryRow>)
    ensures forall s :: s in rows <==> s.room == room && from <= s.day < until
    ensures forall s :: s in rows ==> rows[s] == UpsertedRow(inventory, s, allotment)
    decreases until - from
  {
    if from >= until then map[] else
      var rest := UpsertedRows(inventory, room, from + 1, until, allotment);
      rest[Slot(room, from) := UpsertedRow(inventory, Slot(room, from), allotment)]
  }

  function UpsertAllotment(db: Db, room: Uuid, from: Day, until: Day, allotment: int): Outcome<()> {
    match UpsertError(db.inventory, room, from, until, Int16(allotment))
    case Some(e) => Outcome(Err(e), db)
    case None =>
      Outcome(Ok(()), db.(inventory := db.inventory + UpsertedRows(db.inventory, room, from, until, Int16(allotment))))
  }

  // Guests

  function UpsertGuest(db: Db, email: string, id: Uuid): (Uuid, Db) {
    var stored: Uuid := if email in db.guests then db.guests[email] else id;
    (stored, db.(guests := db.guests[email := stored]))
  }

  // Idempotency keys

  datatype Claim = Claim(isFresh: bool, hash: string, reservation: Option<Uuid>)

  function ReadClaim(db: Db, key: string, hash: string): Claim {
    if key in db.keys then Claim(false, db.keys[key].hash, db.keys[key].reservation) else Claim(true, hash, None)
  }

  function ClaimKey(db: Db, key: string, hash: string): (Claim, Db) {
    if key !in db.keys then (Claim(true, hash, None), db.(keys := db.keys[key := KeyRow(hash, None)]))
    else (ReadClaim(db, key, hash), db)
  }

  function RecordKey(db: Db, key: string, id: Uuid): Outcome<()> {
    if key !in db.keys then Outcome(Err(KeyLost), db)
    else Outcome(Ok(()), db.(keys := db.keys[key := db.keys[key].(reservation := Some(id))]))
  }

  // Reservations

  function RowOf(b: Booking): ReservationRow {
    ReservationRow(b.reference, b.property, b.room, b.plan, b.guest, b.stay.checkIn, b.stay.checkOut,
                   Int16(b.guestCount), b.status, b.total.cents, b.total.currency, b.createdAt, b.cancelledAt)
  }

  /** The checks on a reservation row. */
  predicate RowAccepted(row: ReservationRow) {
    && 1 <= row.guestCount
    && 0 <= row.totalCents
    && row.checkIn < row.checkOut
    && (row.status == Cancelled <==> row.cancelledAt != None)
  }

  /** Night rows need distinct dates and prices that are not negative. */
  predicate NightsAccepted(nights: seq<Night>) {
    && (forall i, j :: 0 <= i < j < |nights| ==> nights[i].date != nights[j].date)
    && (forall i :: 0 <= i < |nights| ==> 0 <= nights[i].price.cents)
  }

  function NightRows(nights: seq<Night>): map<Day, Int64> {
    if nights == [] then map[] else
      var n := nights[|nights| - 1];
      NightRows(nights[..|nights| - 1])[n.date := n.price.cents]
  }

  function Create(db: Db, b: Booking): Outcome<()> {
    if !RowAccepted(RowOf(b)) || b.id in db.reservations then Outcome(Err(DatabaseError), db)
    else if b.reference in db.refs then Outcome(Err(DuplicateReference), db)
    else
      var inserted := db.(reservations := db.reservations[b.id := RowOf(b)], refs := db.refs[b.reference := b.id]);
      if !NightsAccepted(b.nights) then Outcome(Err(DatabaseError), inserted)
      else Outcome(Ok(()), inserted.(nights := db.nights[b.id := NightRows(b.nights)]))
  }

  function ReadNights(rows: map<Day, Int64>, currency: string, days: seq<Day>): Result<seq<Night>>
    requires forall i :: 0 <= i < |days| ==> days[i] in rows
  {
    if days == [] then Ok([]) else
      match NewMoney(rows[days[0]], currency)
      case Err(_) => Err(CorruptReservation)
      case Ok(price) =>
        var rest :- ReadNights(rows, currency, days[1..]);
        Ok([Night(days[0], price)] + rest)
  }

  function NightsRead(db: Db, id: Uuid, currency: string): Result<seq<Night>> {
    var rows := if id in db.nights then db.nights[id] else map[];
    ReadNights(rows, currency, Ascending(rows.Keys))
  }

  /** `ByID`: the row, its stay and total checked again, then its nights in order of date. */
  function ByID(db: Db, id: Uuid): Result<Booking> {
    if id !in db.reservations then Err(RecordNotFound) else
      var row := db.reservations[id];
      match StayOfDays(row.checkIn, row.checkOut)
      case Err(_) => Err(CorruptReservation)
      case Ok(stay) =>
        match NewMoney(row.totalCents, row.currency)
        case Err(_) => Err(CorruptReservation)
        case Ok(total) =>
          var nights :- NightsRead(db, id, row.currency);
          Ok(Booking(id, row.reference, row.property, row.room, row.plan, row.guest, stay, row.guestCount,
                     row.status, nights, total, row.createdAt, row.cancelledAt))
  }

  function ByReference(db: Db, reference: string): Result<Booking> {
    if reference !in db.refs then Err(RecordNotFound) else ByID(db, db.refs[reference])
  }

  /** The guarded status update: no row qualifies unless the stored status is still confirmed. */
  function CancelRow(db: Db, b: Booking): Outcome<()> {
    if b.id !in db.reservations || db.reservations[b.id].status != Confirmed then Outcome(Err(AlreadyCancelled), db)
    else
      var row := db.reservations[b.id].(status := b.status, cancelledAt := b.cancelledAt);
      if !RowAccepted(row) then Outcome(Err(DatabaseError), db)
      else Outcome(Ok(()), db.(reservations := db.reservations[b.id := row]))
  }

  // Outbox

  const MAX_ATTEMPTS := 5

  function Publish(db: Db, event: int, m: Message): Outcome<()> {
    if event in db.outbox then Outcome(Err(DatabaseError), db)
    else Outcome(Ok(()), db.(outbox := db.outbox[event := m]))
  }

  predicate Eligible(m: Message) {
    !m.published && m.attempts < MAX_ATTEMPTS
  }

  function EligibleIds(outbox: map<int, Message>): set<int> {
    set m | m in outbox && Eligible(outbox[m])
  }

  /** The first `batch` eligible messages in order of id, rows locked by others skipped. */
  function Candidates(outbox: map<int, Message>, batch: nat, skip: set<int>): seq<int> {
    var all := Ascending(EligibleIds(outbox) - skip);
    if |all| <= batch then all else all[..batch]
  }

  /** The row after an attempt to send it. */
  function Marked(m: Message, sent: bool): Message {
    if sent then m.(published := true) else m.(attempts := m.attempts + 1)
  }
}
