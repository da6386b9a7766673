/** What publishing inventory comes to, in terms of the stored rows alone. */
module StockOutcome {
  import opened Results
  import opened Words
  import opened Calendar
  import opened Bookings
  import opened Tables
  import opened Transactions
  import opened Stock
  import opened Rows

  predicate InRange(slot: Slot, room: Uuid, from: Day, until: Day) {
    slot.room == room && from <= slot.day < until
  }

  /** Everything booked on these days fits the units published. */
  predicate BookedFits(inventory: Inventory, room: Uuid, from: Day, until: Day, units: int) {
    forall slot :: slot in inventory && InRange(slot, room, from, until) ==> inventory[slot].booked <= units
  }

  lemma UpsertAccepted(inventory: Inventory, room: Uuid, from: Day, until: Day, units: int)
    requires RowsInBounds(inventory) && from < until
    ensures UpsertError(inventory, room, from, until, units) == None <==>
            0 <= units && BookedFits(inventory, room, from, until, units)
  {
    hide UpsertError;
    UpsertErrorIff(inventory, room, from, until, units);
    if 0 <= units && BookedFits(inventory, room, from, until, units) {
      forall x | from <= x < until ensures NotOversold(UpsertedRow(inventory, Slot(room, x), units)) {
        assert InRange(Slot(room, x), room, from, until);
      }
    }
    if UpsertError(inventory, room, from, until, units) == None {
      forall slot | slot in inventory && InRange(slot, room, from, until) ensures inventory[slot].booked <= units {
        assert NotOversold(UpsertedRow(inventory, Slot(room, slot.day), units));
      }
    }
  }

  lemma {:induction false} UpsertComplaint(inventory: Inventory, room: Uuid, from: Day, until: Day, units: int)
    requires RowsInBounds(inventory) && from < until && UpsertError(inventory, room, from, until, units) != None
    ensures UpsertError(inventory, room, from, until, units) == Some(if units < 0 then DatabaseError else SoldOut)
    decreases until - from
  {
    if units < 0 || !NotOversold(UpsertedRow(inventory, Slot(room, from), units)) {
    } else {
      UpsertComplaint(inventory, room, from + 1, until, units);
    }
  }

  /** Publishing succeeds exactly for a number of units that is not negative, in sixteen bits either, on at least one
      day, of a known room type, when everything booked fits. Otherwise the first of these that fails gives the answer,
      and the tables stay as they were. */
  lemma SetInventoryIff(db: Db, room: Uuid, from: Day, until: Day, allotment: int)
    requires RowsInBounds(db.inventory)
    ensures var o := SetInventoryTx(db, room, from, until, allotment);
            && (o.result.Ok? <==>
                  && 0 <= allotment && from < until && (exists r :: r in db.catalog.rooms && r.id == room)
                  && 0 <= Int16(allotment) && BookedFits(db.inventory, room, from, until, Int16(allotment)))
            && (o.result.Err? ==>
                  && o.db == db
                  && o.result.error ==
                     (if allotment < 0 then InvalidAllotment
                      else if until <= from then InvalidRange
                      else if forall r :: r in db.catalog.rooms ==> r.id != room then RecordNotFound
                      else if Int16(allotment) < 0 then DatabaseError
                      else SoldOut))
  {
    hide RowsInBounds, FindRoom, UpsertError, UpsertedRows, BookedFits;
    RoomFound(db.catalog, room);
    if from < until {
      UpsertAccepted(db.inventory, room, from, until, Int16(allotment));
      if UpsertError(db.inventory, room, from, until, Int16(allotment)) != None {
        UpsertComplaint(db.inventory, room, from, until, Int16(allotment));
      }
    }
  }

  lemma Upserts(db: Db, room: Uuid, from: Day, until: Day, allotment: int)
    requires SetInventoryTx(db, room, from, until, allotment).result.Ok?
    ensures SetInventoryTx(db, room, from, until, allotment).db ==
            db.(inventory := db.inventory + UpsertedRows(db.inventory, room, from, until, Int16(allotment)))
  {
    hide FindRoom, UpsertError, UpsertedRows;
  }

  /** The units stand on every day of the range and no other slot has changed; what is booked is kept, nothing where
      there was no row. */
  predicate UnitsStand(inventory: Inventory, room: Uuid, from: Day, until: Day, units: int, after: Inventory, slot: Slot) {
    && (slot in after <==> slot in inventory || InRange(slot, room, from, until))
    && (InRange(slot, room, from, until) ==>
          slot in after
          && after[slot] == InventoryRow(units, if slot in inventory then inventory[slot].booked else 0))
    && (slot in inventory && !InRange(slot, room, from, until) ==> slot in after && after[slot] == inventory[slot])
  }

  lemma RowsUpserted(inventory: Inventory, room: Uuid, from: Day, until: Day, units: int, slot: Slot)
    ensures UnitsStand(inventory, room, from, until, units,
                       inventory + UpsertedRows(inventory, room, from, until, units), slot)
  {
    var rows := UpsertedRows(inventory, room, from, until, units);
    assert slot in rows <==> InRange(slot, room, from, until);
  }

  /** A publishing that succeeds stores the units, in sixteen bits, on every day of the range and in no other slot, and
      touches no other table. */
  lemma SetInventoryWrites(db: Db, room: Uuid, from: Day, until: Day, allotment: int)
    requires SetInventoryTx(db, room, from, until, allotment).result.Ok?
    ensures var after := SetInventoryTx(db, room, from, until, allotment).db;
            && after == db.(inventory := after.inventory)
            && forall slot :: UnitsStand(db.inventory, room, from, until, Int16(allotment), after.inventory, slot)
  {
    hide SetInventoryTx, UnitsStand, UpsertedRows;
    Upserts(db, room, from, until, allotment);
    forall slot ensures UnitsStand(db.inventory, room, from, until, Int16(allotment),
                                   db.inventory + UpsertedRows(db.inventory, room, from, until, Int16(allotment)), slot)
    {
      RowsUpserted(db.inventory, room, from, until, Int16(allotment), slot);
    }
  }
}
