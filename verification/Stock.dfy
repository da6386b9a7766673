/** The inventory statements, characterised: a reservation of units succeeds exactly when every night can bear it. */
module Stock {
  import opened Results
  import opened Words
  import opened Collections
  import opened Calendar
  import opened Stays
  import opened Bookings
  import opened Tables

  type Inventory = map<Slot, InventoryRow>

  /** What the table's checks and its smallint columns guarantee of every row. */
  predicate RowsInBounds(inventory: Inventory) {
    forall s :: s in inventory ==> NotOversold(inventory[s]) && inventory[s].allotment <= MAX_SMALLINT
  }

  predicate Covered(inventory: Inventory, room: Uuid, stay: Stay) {
    forall d | stay.checkIn <= d < stay.checkOut :: Slot(room, d) in inventory
  }

  predicate CanTake(inventory: Inventory, slot: Slot, delta: int) {
    && slot in inventory
    && IsSmallint(inventory[slot].booked + delta)
    && 0 <= inventory[slot].booked + delta <= inventory[slot].allotment
  }

  predicate CanMove(inventory: Inventory, room: Uuid, stay: Stay, delta: int) {
    forall d | stay.checkIn <= d < stay.checkOut :: CanTake(inventory, Slot(room, d), delta)
  }

  /** Row counting is coverage: as many rows as nights means a row for every night. */
  lemma RowCountIsCoverage(inventory: Inventory, room: Uuid, stay: Stay)
    ensures var days := RowDays(inventory, room, stay.checkIn, stay.checkOut);
            && (|days| == Nights(stay) <==> Covered(inventory, room, stay))
            && (|days| == Nights(stay) ==> days == DaysOf(stay))
  {
    var days := RowDays(inventory, room, stay.checkIn, stay.checkOut);
    hide RowDays, DaysOf;
    if Covered(inventory, room, stay) {
      AscendingUnique(days, DaysOf(stay));
    } else {
      var d :| stay.checkIn <= d < stay.checkOut && Slot(room, d) !in inventory;
      MissingDay(days, stay, d);
    }
  }

  /** Days of the stay, in order, that leave one out are fewer than its nights. */
  lemma MissingDay(days: seq<Day>, stay: Stay, d: Day)
    requires StrictlyAscending(days) && forall x :: x in days ==> stay.checkIn <= x < stay.checkOut
    requires stay.checkIn <= d < stay.checkOut && d !in days
    ensures |days| < Nights(stay)
  {
    var w := set x | x in days;
    assert w <= Window(stay.checkIn, stay.checkOut);
    CountingIsCoverage(w, stay.checkIn, stay.checkOut);
    AscendingUnique(days, Ascending(w));
  }

  lemma {:induction false} MoveErrorIff(inventory: Inventory, room: Uuid, days: seq<Day>, delta: int)
    requires forall d :: d in days ==> Slot(room, d) in inventory
    ensures MoveError(inventory, room, days, delta) == None <==>
            forall d :: d in days ==> CanTake(inventory, Slot(room, d), delta)
  {
    if days == [] {
    } else {
      assert forall d :: d in days <==> d == days[0] || d in days[1..];
      MoveErrorIff(inventory, room, days[1..], delta);
    }
  }

  lemma CanMoveIff(inventory: Inventory, room: Uuid, stay: Stay, delta: int)
    ensures var days := RowDays(inventory, room, stay.checkIn, stay.checkOut);
            CanMove(inventory, room, stay, delta) <==>
            |days| == Nights(stay) && MoveError(inventory, room, days, delta) == None
  {
    hide MoveError, RowDays, Nights, DaysOf;
    var days := RowDays(inventory, room, stay.checkIn, stay.checkOut);
    RowCountIsCoverage(inventory, room, stay);
    MoveErrorIff(inventory, room, days, delta);
    if CanMove(inventory, room, stay, delta) {
      forall d | stay.checkIn <= d < stay.checkOut ensures Slot(room, d) in inventory {
        assert CanTake(inventory, Slot(room, d), delta);
      }
    }
  }

  lemma MoveUnfolds(db: Db, room: Uuid, stay: Stay, delta: int, days: seq<Day>)
    requires IsSmallint(delta) && days == RowDays(db.inventory, room, stay.checkIn, stay.checkOut)
    ensures var e := MoveError(db.inventory, room, days, delta);
            Move(db, room, stay, delta) ==
            if e != None then Outcome(Err(e.value), db) else
              var moved := db.(inventory := db.inventory + MovedRows(db.inventory, room, days, delta));
              Outcome(if |days| != Nights(stay) then Err(NoInventory) else Ok(()), moved)
  {
    assert Int16(delta) == delta;
  }

  /** `move` succeeds exactly when every night has a row that can take the change; it then changes those rows only. */
  lemma MoveSucceedsIff(db: Db, room: Uuid, stay: Stay, delta: int)
    requires IsSmallint(delta)
    ensures Move(db, room, stay, delta).result.Ok? <==> CanMove(db.inventory, room, stay, delta)
    ensures CanMove(db.inventory, room, stay, delta) ==>
              Move(db, room, stay, delta) ==
              Outcome(Ok(()), db.(inventory := db.inventory + MovedRows(db.inventory, room, DaysOf(stay), delta)))
  {
    var days := RowDays(db.inventory, room, stay.checkIn, stay.checkOut);
    MoveUnfolds(db, room, stay, delta, days);
    CanMoveIff(db.inventory, room, stay, delta);
    RowCountIsCoverage(db.inventory, room, stay);
  }

  lemma {:induction false} AllotmentsByDate(inventory: Inventory, room: Uuid, days: seq<Day>)
    requires forall d :: d in days ==> Slot(room, d) in inventory
    ensures var m := Inventories.ByDate(Allotments(inventory, room, days));
            && (forall d :: d in m <==> d in days)
            && (forall d :: d in m ==> m[d] == AllotmentOf(inventory, room, d))
  {
    if days == [] {
    } else {
      var init := days[..|days| - 1];
      assert days == init + [days[|days| - 1]];
      AllotmentsByDate(inventory, room, init);
      var all := Allotments(inventory, room, days);
      assert all[..|all| - 1] == Allotments(inventory, room, init);
    }
  }

  lemma AvailableIff(inventory: Inventory, slot: Slot, units: int)
    requires slot in inventory && NotOversold(inventory[slot]) && inventory[slot].allotment <= MAX_SMALLINT
    requires 0 <= units
    ensures units <= Inventories.Available(AllotmentOf(inventory, slot.room, slot.day)) <==> CanTake(inventory, slot, units)
  {
  }

  lemma CheckIff(inventory: Inventory, room: Uuid, stay: Stay, units: int)
    requires RowsInBounds(inventory) && 1 <= units
    ensures var rows := Allotments(inventory, room, RowDays(inventory, room, stay.checkIn, stay.checkOut));
            Inventories.CheckError(stay, rows, units) == None <==> CanMove(inventory, room, stay, units)
  {
    var days := RowDays(inventory, room, stay.checkIn, stay.checkOut);
    var m := Inventories.ByDate(Allotments(inventory, room, days));
    hide CanTake, Inventories.Available, Inventories.ByDate, Inventories.FirstLack, Allotments, RowDays, AllotmentOf, NotOversold;
    Inventories.FirstLackIff(m, stay.checkIn, stay.checkOut, units);
    forall d | stay.checkIn <= d < stay.checkOut
      ensures d in m && units <= Inventories.Available(m[d]) <==> CanTake(inventory, Slot(room, d), units)
    {
      NightAvailableIff(inventory, room, stay, days, d, units);
    }
  }

  lemma NightAvailableIff(inventory: Inventory, room: Uuid, stay: Stay, days: seq<Day>, d: Day, units: int)
    requires RowsInBounds(inventory) && 1 <= units && stay.checkIn <= d < stay.checkOut
    requires days == RowDays(inventory, room, stay.checkIn, stay.checkOut)
    ensures var m := Inventories.ByDate(Allotments(inventory, room, days));
            d in m && units <= Inventories.Available(m[d]) <==> CanTake(inventory, Slot(room, d), units)
  {
    hide Inventories.Available, Inventories.ByDate, Allotments, NotOversold;
    AllotmentsByDate(inventory, room, days);
    assert d in days <==> Slot(room, d) in inventory;
    if d in days {
      AvailableIff(inventory, Slot(room, d), units);
    }
  }

  /** For any number of units in range, the statement succeeds exactly when the domain's `Check` has no complaint
      about the rows it would read. */
  lemma CheckAgreesWithMove(db: Db, room: Uuid, stay: Stay, units: int)
    requires RowsInBounds(db.inventory)
    requires 1 <= units <= MAX_SMALLINT
    ensures Inventories.CheckError(stay, ReadAllotments(db, room, stay.checkIn, stay.checkOut), units) == None <==>
            Move(db, room, stay, units).result.Ok?
  {
    CheckIff(db.inventory, room, stay, units);
    MoveSucceedsIff(db, room, stay, units);
  }

  /** But when both fail they may complain of different things: with the first night missing and the second sold out,
      the check reports the missing night, and the statement the one it could not update. */
  lemma FailuresDiffer(db: Db, room: Uuid)
    requires db.inventory == map[Slot(room, 2) := InventoryRow(1, 1)]
    ensures Inventories.CheckError(Span(1, 3), ReadAllotments(db, room, 1, 3), 1) == Some(NoInventory)
    ensures Move(db, room, Span(1, 3), 1).result == Err(SoldOut)
  {
    var days := RowDays(db.inventory, room, 1, 3);
    OnlySecondNight(db.inventory, room);
    AllotmentsByDate(db.inventory, room, days);
    MoveUnfolds(db, room, Span(1, 3), 1, days);
    assert MoveError(db.inventory, room, [2], 1) == Some(SoldOut);
  }

  /** The statement on its own is not all or nothing: the rows there are stay updated when one is missing. Only the
      transaction around it undoes that. */
  lemma MoveAloneIsPartial(db: Db, room: Uuid)
    requires db.inventory == map[Slot(room, 2) := InventoryRow(1, 0)]
    ensures var o := Move(db, room, Span(1, 3), 1);
            o.result == Err(NoInventory) && o.db.inventory == map[Slot(room, 2) := InventoryRow(1, 1)]
  {
    hide Move, MovedRows, MoveError, RowDays;
    OnlySecondNight(db.inventory, room);
    SecondNightMoves(db.inventory, room);
    MoveUnfolds(db, room, Span(1, 3), 1, [2]);
  }

  lemma OnlySecondNight(inventory: Inventory, room: Uuid)
    requires inventory.Keys == {Slot(room, 2)}
    ensures RowDays(inventory, room, 1, 3) == [2]
  {
    AscendingUnique(RowDays(inventory, room, 1, 3), [2]);
  }

  lemma SecondNightMoves(inventory: Inventory, room: Uuid)
    requires inventory == map[Slot(room, 2) := InventoryRow(1, 0)]
    ensures MoveError(inventory, room, [2], 1) == None
    ensures inventory + MovedRows(inventory, room, [2], 1) == map[Slot(room, 2) := InventoryRow(1, 1)]
  {
  }

  lemma {:induction false} UpsertErrorIff(inventory: Inventory, room: Uuid, from: Day, until: Day, allotment: int)
    requires from < until
    ensures UpsertError(inventory, room, from, until, allotment) == None <==>
            && 0 <= allotment
            && forall d | from <= d < until :: NotOversold(UpsertedRow(inventory, Slot(room, d), allotment))
    decreases until - from
  {
    if from + 1 == until {
    } else {
      UpsertErrorIff(inventory, room, from + 1, until, allotment);
    }
  }
}
