/** Stored rows by identifier, and what is read of them. */
module Rows {
  import opened Results
  import opened Stays
  import opened Moneys
  import opened Pricing
  import opened Bookings
  import opened Tables
  import opened Stock
  import opened Consistency

  /** `room` is the row with this identifier, the first should there be several. */
  ghost predicate RoomIs(catalog: Catalog, id: Uuid, room: RoomType) {
    exists i :: 0 <= i < |catalog.rooms| && catalog.rooms[i] == room && room.id == id
                && forall j :: 0 <= j < i ==> catalog.rooms[j].id != id
  }

  ghost predicate PlanIs(catalog: Catalog, id: Uuid, plan: RatePlan) {
    exists i :: 0 <= i < |catalog.plans| && catalog.plans[i] == plan && plan.id == id
                && forall j :: 0 <= j < i ==> catalog.plans[j].id != id
  }

  lemma {:induction false} RoomFoundAt(rooms: seq<RoomType>, id: Uuid) returns (i: nat)
    ensures i <= |rooms| && forall j :: 0 <= j < i ==> rooms[j].id != id
    ensures if i == |rooms| then FindRoom(rooms, id) == Err(RecordNotFound)
            else rooms[i].id == id && FindRoom(rooms, id) == Ok(rooms[i])
    decreases |rooms|
  {
    if rooms == [] || rooms[0].id == id {
      i := 0;
    } else {
      var k := RoomFoundAt(rooms[1..], id);
      i := k + 1;
      assert forall j :: 0 < j < i ==> rooms[j] == rooms[1..][j - 1];
    }
  }

  lemma {:induction false} PlanFoundAt(plans: seq<RatePlan>, id: Uuid) returns (i: nat)
    ensures i <= |plans| && forall j :: 0 <= j < i ==> plans[j].id != id
    ensures if i == |plans| then FindPlan(plans, id) == Err(RecordNotFound)
            else plans[i].id == id && FindPlan(plans, id) == Ok(plans[i])
    decreases |plans|
  {
    if plans == [] || plans[0].id == id {
      i := 0;
    } else {
      var k := PlanFoundAt(plans[1..], id);
      i := k + 1;
      assert forall j :: 0 < j < i ==> plans[j] == plans[1..][j - 1];
    }
  }

  /** The lookup finds the row if there is one, and complains otherwise. */
  lemma RoomFound(catalog: Catalog, id: Uuid)
    ensures forall room :: FindRoom(catalog.rooms, id) == Ok(room) <==> RoomIs(catalog, id, room)
    ensures FindRoom(catalog.rooms, id).Err? ==> FindRoom(catalog.rooms, id) == Err(RecordNotFound)
    ensures FindRoom(catalog.rooms, id).Err? <==> forall room :: room in catalog.rooms ==> room.id != id
  {
    var i := RoomFoundAt(catalog.rooms, id);
    forall room ensures FindRoom(catalog.rooms, id) == Ok(room) <==> RoomIs(catalog, id, room) {
      if k :| 0 <= k < |catalog.rooms| && catalog.rooms[k] == room && room.id == id
              && forall j :: 0 <= j < k ==> catalog.rooms[j].id != id {
        assert k == i;
      }
    }
  }

  lemma PlanFound(catalog: Catalog, id: Uuid)
    ensures forall plan :: FindPlan(catalog.plans, id) == Ok(plan) <==> PlanIs(catalog, id, plan)
    ensures FindPlan(catalog.plans, id).Err? ==> FindPlan(catalog.plans, id) == Err(RecordNotFound)
    ensures FindPlan(catalog.plans, id).Err? <==> forall plan :: plan in catalog.plans ==> plan.id != id
  {
    var i := PlanFoundAt(catalog.plans, id);
    forall plan ensures FindPlan(catalog.plans, id) == Ok(plan) <==> PlanIs(catalog, id, plan) {
      if k :| 0 <= k < |catalog.plans| && catalog.plans[k] == plan && plan.id == id
              && forall j :: 0 <= j < k ==> catalog.plans[j].id != id {
        assert k == i;
      }
    }
  }

  /** The reservation stored under `id`, its nights in order of date. */
  predicate IsRow(db: Db, id: Uuid, b: Booking) {
    && id in db.reservations && id in db.nights
    && var row := db.reservations[id];
    && b.id == id && b.reference == row.reference && b.property == row.property && b.room == row.room && b.plan == row.plan
    && b.guest == row.guest && b.guestCount == row.guestCount && b.stay == Span(row.checkIn, row.checkOut)
    && b.status == row.status && b.cancelledAt == row.cancelledAt && b.createdAt == row.createdAt
    && b.total == Money(row.totalCents, row.currency)
    && |b.nights| == row.checkOut - row.checkIn
    && forall i :: 0 <= i < |b.nights| ==>
         && row.checkIn + i in db.nights[id]
         && b.nights[i] == Night(row.checkIn + i, Money(db.nights[id][row.checkIn + i], row.currency))
  }

  /** By identifier or by reference, what is read is what is stored, and it is found exactly when it is. */
  lemma RowsRead(db: Db)
    requires Consistent(db)
    ensures forall id {:trigger ByID(db, id)} ::
              (id in db.reservations ==> ByID(db, id).Ok? && IsRow(db, id, ByID(db, id).value))
              && (id !in db.reservations ==> ByID(db, id) == Err(RecordNotFound))
    ensures forall r {:trigger ByReference(db, r)} ::
              (r in db.refs ==> db.refs[r] in db.reservations && db.reservations[db.refs[r]].reference == r
                                && ByReference(db, r).Ok? && IsRow(db, db.refs[r], ByReference(db, r).value))
              && (r !in db.refs ==> ByReference(db, r) == Err(RecordNotFound))
  {
    hide Consistent, CountersAgree, RowsInBounds, EventsAgree, KeysAgree, ByID, ByReference, IsRow;
    Agreements(db);
    forall id ensures (id in db.reservations ==> ByID(db, id).Ok? && IsRow(db, id, ByID(db, id).value))
                      && (id !in db.reservations ==> ByID(db, id) == Err(RecordNotFound))
    {
      RowRead(db, id);
    }
    forall r ensures (r in db.refs ==> db.refs[r] in db.reservations && db.reservations[db.refs[r]].reference == r
                                       && ByReference(db, r).Ok? && IsRow(db, db.refs[r], ByReference(db, r).value))
                     && (r !in db.refs ==> ByReference(db, r) == Err(RecordNotFound))
    {
      RowUnderReference(db, r);
    }
  }

  lemma RowRead(db: Db, id: Uuid)
    requires RecordsSound(db.reservations, db.nights)
    ensures id in db.reservations ==> ByID(db, id).Ok? && IsRow(db, id, ByID(db, id).value)
    ensures id !in db.reservations ==> ByID(db, id) == Err(RecordNotFound)
  {
    if id in db.reservations {
      StoredReservationsRead(db, id);
    }
  }

  lemma RowUnderReference(db: Db, r: string)
    requires RefsAgree(db.reservations, db.refs) && RecordsSound(db.reservations, db.nights)
    ensures r in db.refs ==> db.refs[r] in db.reservations && db.reservations[db.refs[r]].reference == r
                             && ByReference(db, r).Ok? && IsRow(db, db.refs[r], ByReference(db, r).value)
    ensures r !in db.refs ==> ByReference(db, r) == Err(RecordNotFound)
  {
    hide ByID, IsRow, RecordsSound;
    if r in db.refs {
      RowRead(db, db.refs[r]);
    }
  }
}
