/** Search: what is on offer for a stay, and how many units of it are left. */
module Availability {
  import opened Results
  import opened Stays
  import opened Pricing
  import opened Bookings
  import opened Tables
  import opened Transactions
  import opened Stock
  import opened Effects
  import opened Consistency

  datatype Offer = Offer(room: RoomType, plan: RatePlan, quote: Quote, unitsLeft: int)

  // Units left

  function Least(rows: seq<Inventories.Allotment>): int
    requires rows != []
  {
    var last := Inventories.Available(rows[|rows| - 1]);
    if |rows| == 1 then last else
      var before := Least(rows[..|rows| - 1]);
      if last < before then last else before
  }

  function UnitsLeft(db: Db, room: Uuid, stay: Stay): int {
    var rows := ReadAllotments(db, room, stay.checkIn, stay.checkOut);
    if |rows| != Nights(stay) then 0 else Least(rows)
  }

  method CountUnitsLeft(db: Db, room: Uuid, stay: Stay) returns (left: int)
    ensures left == UnitsLeft(db, room, stay)
  {
    hide ReadAllotments, Inventories.Available;
    var rows := ReadAllotments(db, room, stay.checkIn, stay.checkOut);
    if |rows| != Nights(stay) {
      return 0;
    }
    left := Inventories.Available(rows[0]);
    for i := 1 to |rows|
      invariant left == Least(rows[..i])
    {
      assert rows[..i + 1][..i] == rows[..i];
      if Inventories.Available(rows[i]) < left {
        left := Inventories.Available(rows[i]);
      }
    }
    assert rows[..|rows|] == rows;
  }

  lemma {:induction false} LeastIff(rows: seq<Inventories.Allotment>, k: int)
    requires rows != []
    ensures k <= Least(rows) <==> forall i :: 0 <= i < |rows| ==> k <= Inventories.Available(rows[i])
  {
    if |rows| == 1 {
    } else {
      LeastIff(rows[..|rows| - 1], k);
    }
  }

  /** At least `k` units are left exactly when `k` units can be taken of every night. */
  lemma UnitsLeftIff(db: Db, room: Uuid, stay: Stay, k: int)
    requires RowsInBounds(db.inventory) && 1 <= k
    ensures k <= UnitsLeft(db, room, stay) <==> CanMove(db.inventory, room, stay, k)
  {
    hide CanTake, CanMove, Inventories.Available, NotOversold, Nights;
    var days := RowDays(db.inventory, room, stay.checkIn, stay.checkOut);
    var rows := ReadAllotments(db, room, stay.checkIn, stay.checkOut);
    RowCountIsCoverage(db.inventory, room, stay);
    CanMoveIff(db.inventory, room, stay, k);
    if |days| == Nights(stay) {
      StayHasNights(stay);
      LeastIff(rows, k);
      MoveErrorIff(db.inventory, room, days, k);
      forall i | 0 <= i < |rows|
        ensures k <= Inventories.Available(rows[i]) <==> CanTake(db.inventory, Slot(room, days[i]), k)
      {
        assert days[i] in days;
        AvailableIff(db.inventory, Slot(room, days[i]), k);
      }
      if forall i :: 0 <= i < |rows| ==> k <= Inventories.Available(rows[i]) {
        forall d | d in days ensures CanTake(db.inventory, Slot(room, d), k) {
          var i :| 0 <= i < |days| && days[i] == d;
          assert k <= Inventories.Available(rows[i]);
        }
      } else {
        var i :| 0 <= i < |rows| && Inventories.Available(rows[i]) < k;
        assert days[i] in days;
      }
    }
  }

  lemma StayHasNights(stay: Stay)
    ensures Nights(stay) >= 1
  {
  }

  lemma UnitsLeftBounds(db: Db, room: Uuid, stay: Stay)
    requires RowsInBounds(db.inventory)
    ensures 0 <= UnitsLeft(db, room, stay)
  {
    var days := RowDays(db.inventory, room, stay.checkIn, stay.checkOut);
    var rows := ReadAllotments(db, room, stay.checkIn, stay.checkOut);
    if |rows| == Nights(stay) {
      LeastIff(rows, 0);
      assert forall i :: 0 <= i < |rows| ==> days[i] in days;
    }
  }

  lemma TakeOneMore(inventory: Inventory, room: Uuid, stay: Stay, k: int)
    requires RowsInBounds(inventory) && CanMove(inventory, room, stay, 1) && 1 <= k
    ensures CanMove(inventory + MovedRows(inventory, room, DaysOf(stay), 1), room, stay, k) <==>
            CanMove(inventory, room, stay, k + 1)
  {
    var after := inventory + MovedRows(inventory, room, DaysOf(stay), 1);
    forall d | stay.checkIn <= d < stay.checkOut
      ensures CanTake(after, Slot(room, d), k) <==> CanTake(inventory, Slot(room, d), k + 1)
    {
      assert CanTake(inventory, Slot(room, d), 1);
    }
  }

  /** Taking a unit leaves exactly one fewer. */
  lemma UnitsLeftDrops(db: Db, after: Db, room: Uuid, stay: Stay)
    requires RowsInBounds(db.inventory) && CanMove(db.inventory, room, stay, 1)
    requires after.inventory == db.inventory + MovedRows(db.inventory, room, DaysOf(stay), 1)
    ensures RowsInBounds(after.inventory)
    ensures UnitsLeft(after, room, stay) == UnitsLeft(db, room, stay) - 1
  {
    hide CanMove, UnitsLeft, RowsInBounds, MovedRows;
    var left, now := UnitsLeft(db, room, stay), UnitsLeft(after, room, stay);
    MoveKeepsBounds(db.inventory, room, stay, 1);
    UnitsLeftBounds(db, room, stay);
    UnitsLeftBounds(after, room, stay);
    UnitsLeftIff(db, room, stay, 1);
    UnitsLeftIff(db, room, stay, now + 1);
    UnitsLeftIff(after, room, stay, left);
    TakeOneMore(db.inventory, room, stay, left);
    UnitsLeftIff(db, room, stay, left + 1);
    if now >= 1 {
      UnitsLeftIff(after, room, stay, now);
      TakeOneMore(db.inventory, room, stay, now);
    }
    if left > 1 {
      UnitsLeftIff(after, room, stay, left - 1);
      TakeOneMore(db.inventory, room, stay, left - 1);
      UnitsLeftIff(db, room, stay, left);
    }
  }

  // Units left is exact

  datatype Request = Request(input: ReserveInput, rates: Result<seq<RateDay>>, draws: Draws)

  /** The drafted reservation is one the tables accept, were its key, identifier and reference unused. */
  predicate Acceptable(plan: Result<Booking>) {
    plan.Ok? && RowAccepted(RowOf(plan.value)) && NightsAccepted(plan.value.nights)
  }

  /** A valid request for this stay: apart from inventory nothing speaks against it, whatever identifier the guest
      already has. */
  ghost predicate Willing(catalog: Catalog, room: Uuid, stay: Stay, q: Request) {
    && q.input.room == room && q.input.stay == stay && q.draws.guest != NIL
    && forall guest: Uuid {:trigger Planned(catalog, q.input, q.rates, guest, q.draws)} ::
         guest != NIL ==> Acceptable(Planned(catalog, q.input, q.rates, guest, q.draws))
  }

  predicate Unused(db: Db, q: Request) {
    && q.input.key !in db.keys && q.draws.id !in db.reservations && q.draws.reference !in db.refs
    && q.draws.event !in db.outbox
  }

  predicate Apart(q: Request, p: Request) {
    && q.input.key != p.input.key && q.draws.id != p.draws.id && q.draws.reference != p.draws.reference
    && q.draws.event != p.draws.event
  }

  predicate GuestsNamed(db: Db) {
    forall e :: e in db.guests ==> db.guests[e] != NIL
  }

  ghost predicate Queue(db: Db, room: Uuid, stay: Stay, qs: seq<Request>) {
    && (forall i :: 0 <= i < |qs| ==> Willing(db.catalog, room, stay, qs[i]) && Unused(db, qs[i]))
    && (forall i, j :: 0 <= i < j < |qs| ==> Apart(qs[i], qs[j]))
  }

  /** The answers, when the requests are served one after the other and nothing else runs. */
  function Serve(db: Db, qs: seq<Request>): (rs: seq<Result<ReserveResult>>)
    ensures |rs| == |qs|
    decreases |qs|
  {
    if qs == [] then [] else
      var o := ReserveTx(db, qs[0].input, qs[0].rates, qs[0].draws);
      [o.result] + Serve(o.db, qs[1..])
  }

  lemma ServedIff(db: Db, room: Uuid, stay: Stay, q: Request)
    requires RowsInBounds(db.inventory) && GuestsNamed(db) && Willing(db.catalog, room, stay, q) && Unused(db, q)
    ensures ReserveTx(db, q.input, q.rates, q.draws).result.Ok? <==> 1 <= UnitsLeft(db, room, stay)
  {
    hide RowsInBounds, UnitsLeft, ReserveTx, Planned, RowAccepted, NightsAccepted, RowOf, CanMove, BookedDb;
    var guest := GuestFor(db, q.input, q.draws);
    var plan := Planned(db.catalog, q.input, q.rates, guest, q.draws);
    assert Acceptable(plan);
    PlannedFacts(db.catalog, q.input, q.rates, guest, q.draws);
    ReserveEffect(db, q.input, q.rates, q.draws);
    UnitsLeftIff(db, room, stay, 1);
  }

  /** What serving a request leaves: one unit fewer if it succeeded, and everything the others need. */
  lemma AfterServing(db: Db, room: Uuid, stay: Stay, q: Request, after: Db)
    requires RowsInBounds(db.inventory) && GuestsNamed(db) && Willing(db.catalog, room, stay, q) && Unused(db, q)
    requires 1 <= UnitsLeft(db, room, stay) && after == ReserveTx(db, q.input, q.rates, q.draws).db
    ensures RowsInBounds(after.inventory) && GuestsNamed(after) && after.catalog == db.catalog
    ensures UnitsLeft(after, room, stay) == UnitsLeft(db, room, stay) - 1
    ensures forall p :: Unused(db, p) && Apart(q, p) ==> Unused(after, p)
  {
    hide RowsInBounds, UnitsLeft, ReserveTx, Planned, RowAccepted, NightsAccepted, RowOf, CanBook, MovedRows,
         Acceptable, NightRows;
    var guest := GuestFor(db, q.input, q.draws);
    assert Acceptable(Planned(db.catalog, q.input, q.rates, guest, q.draws));
    PlansAccepted(db.catalog, q, guest);
    ServedIff(db, room, stay, q);
    ReserveEffect(db, q.input, q.rates, q.draws);
    UnitsLeftIff(db, room, stay, 1);
    UnitsLeftDrops(db, after, room, stay);
  }

  lemma PlansAccepted(catalog: Catalog, q: Request, guest: Uuid)
    requires Acceptable(Planned(catalog, q.input, q.rates, guest, q.draws))
    ensures Planned(catalog, q.input, q.rates, guest, q.draws).Ok?
    ensures var b := Planned(catalog, q.input, q.rates, guest, q.draws).value;
            b.id == q.draws.id && b.reference == q.draws.reference && b.guest == guest
            && b.room == q.input.room && b.stay == q.input.stay
  {
    hide Planned, RowAccepted, NightsAccepted, RowOf;
    PlannedFacts(catalog, q.input, q.rates, guest, q.draws);
  }

  /** If `k` units are reported left and nothing else runs, then of any number of further valid requests exactly the
      first `k` succeed, and every one after them is refused. */
  lemma {:induction false} UnitsLeftIsExact(db: Db, room: Uuid, stay: Stay, qs: seq<Request>)
    requires RowsInBounds(db.inventory) && GuestsNamed(db) && Queue(db, room, stay, qs)
    ensures forall i :: 0 <= i < |qs| ==> (Serve(db, qs)[i].Ok? <==> i < UnitsLeft(db, room, stay))
    decreases |qs|
  {
    hide RowsInBounds, UnitsLeft, ReserveTx, GuestsNamed, Willing, Unused, Apart;
    if qs == [] {
    } else {
      var q, rest := qs[0], qs[1..];
      var o := ReserveTx(db, q.input, q.rates, q.draws);
      ServedIff(db, room, stay, q);
      UnitsLeftBounds(db, room, stay);
      if o.result.Ok? {
        AfterServing(db, room, stay, q, o.db);
        assert Queue(o.db, room, stay, rest);
      } else {
        RefusedChangesNothing(db, q);
        assert Queue(db, room, stay, rest);
      }
      UnitsLeftIsExact(o.db, room, stay, rest);
    }
  }

  lemma RefusedChangesNothing(db: Db, q: Request)
    requires ReserveTx(db, q.input, q.rates, q.draws).result.Err?
    ensures ReserveTx(db, q.input, q.rates, q.draws).db == db
  {
    hide ReserveBody;
  }
}
