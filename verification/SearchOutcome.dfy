/** What a search offers, in terms of the stored rows alone. */
module SearchOutcome {
  import opened Results
  import opened Words
  import opened Stays
  import opened Moneys
  import opened Pricing
  import opened Bookings
  import opened Tables
  import opened Stock
  import opened Consistency
  import opened Availability
  import opened Search
  import opened Rows
  import opened Rates
  import opened ReserveOutcome

  /** A plan and a room type of the property that belong together and sleep the party. */
  predicate Considered(db: Db, property: Uuid, guests: int, room: RoomType, rp: RatePlan) {
    && rp in db.catalog.plans && rp.property == property
    && room in db.catalog.rooms && room.property == property && room.id == rp.room && guests <= room.maxOccupancy
  }

  predicate OnSale(db: Db, property: Uuid, stay: Stay, guests: int, room: RoomType, rp: RatePlan) {
    && Considered(db, property, guests, room, rp)
    && PlanOpen(db, property, rp.id, stay)
    && UnitsFree(db.inventory, room.id, stay)
  }

  lemma PlanInCatalogue(catalog: Catalog, rp: RatePlan)
    requires CatalogSound(catalog) && rp in catalog.plans
    ensures PlanIs(catalog, rp.id, rp)
  {
    hide CatalogSound, PlanIs;
    PlanIsFound(catalog, rp);
    PlanFound(catalog, rp.id);
  }

  /** A search that succeeds offers a room type on a plan exactly when they are on sale. */
  lemma OfferedIffOnSale(db: Db, property: Uuid, stay: Stay, guests: int, room: RoomType, rp: RatePlan)
    requires CatalogSound(db.catalog) && RowsInBounds(db.inventory) && Offers(db, property, stay, guests).Ok?
    ensures (exists o :: o in Offers(db, property, stay, guests).value && o.room == room && o.plan == rp) <==>
            OnSale(db, property, stay, guests, room, rp)
  {
    hide CatalogSound, RowsInBounds, Offers, ReadRates, QuoteFor, UnitsLeft, PlanOpen, UnitsFree, PlanIs;
    var offers := Offers(db, property, stay, guests).value;
    if rp in db.catalog.plans {
      PlanInCatalogue(db.catalog, rp);
      PlanQuoted(db, rp.id, stay, rp);
    }
    UnitsLeftIff(db, room.id, stay, 1);
    UnitsFreeIff(db.inventory, room.id, stay);
    if o :| o in offers && o.room == room && o.plan == rp {
      OfferedIff(db, property, stay, guests, o);
    }
    if OnSale(db, property, stay, guests, room, rp) {
      var o := Offer(room, rp, QuoteFor(stay, ReadRates(db, rp.id, stay.checkIn, stay.checkOut).value).value,
                     UnitsLeft(db, room.id, stay));
      OfferedIff(db, property, stay, guests, o);
    }
  }

  /** As many units as this are left on every night, and on some night no more. */
  predicate LeastLeft(inventory: Inventory, room: Uuid, stay: Stay, left: int) {
    && (forall x | stay.checkIn <= x < stay.checkOut ::
          Slot(room, x) in inventory && left <= inventory[Slot(room, x)].allotment - inventory[Slot(room, x)].booked)
    && (exists x | stay.checkIn <= x < stay.checkOut ::
          Slot(room, x) in inventory && left == inventory[Slot(room, x)].allotment - inventory[Slot(room, x)].booked)
  }

  lemma LeftIsLeast(db: Db, room: Uuid, stay: Stay)
    requires RowsInBounds(db.inventory) && 1 <= UnitsLeft(db, room, stay)
    ensures LeastLeft(db.inventory, room, stay, UnitsLeft(db, room, stay))
  {
    hide UnitsLeft, NotOversold;
    var left := UnitsLeft(db, room, stay);
    UnitsLeftIff(db, room, stay, left);
    UnitsLeftIff(db, room, stay, left + 1);
    forall x | stay.checkIn <= x < stay.checkOut
      ensures Slot(room, x) in db.inventory
      ensures left <= db.inventory[Slot(room, x)].allotment - db.inventory[Slot(room, x)].booked
    {
      assert CanTake(db.inventory, Slot(room, x), left);
    }
    var x :| stay.checkIn <= x < stay.checkOut && !CanTake(db.inventory, Slot(room, x), left + 1);
    RowInBounds(db.inventory, Slot(room, x));
    assert left == db.inventory[Slot(room, x)].allotment - db.inventory[Slot(room, x)].booked;
  }

  lemma RowInBounds(inventory: Inventory, slot: Slot)
    requires RowsInBounds(inventory) && slot in inventory
    ensures 0 <= inventory[slot].booked <= inventory[slot].allotment <= MAX_SMALLINT
  {
  }

  /** What an offer says: each night at its stored price, their sum as int64 arithmetic gives it, and as many units as
      are left on every night. */
  lemma OfferSays(db: Db, property: Uuid, stay: Stay, guests: int, o: Offer)
    requires CatalogSound(db.catalog) && RowsInBounds(db.inventory) && Offers(db, property, stay, guests).Ok?
    requires o in Offers(db, property, stay, guests).value
    ensures OnSale(db, property, stay, guests, o.room, o.plan)
    ensures var currency := db.catalog.currencies[property];
            && o.quote.stay == stay && |o.quote.nights| == stay.checkOut - stay.checkIn
            && (forall i :: 0 <= i < |o.quote.nights| ==>
                  o.quote.nights[i] ==
                  Night(stay.checkIn + i, Money(db.rates[RateKey(o.plan.id, stay.checkIn + i)].cents, currency)))
            && o.quote.total == Money(Wrap64(SumStored(db.rates, o.plan.id, stay.checkIn, stay.checkOut)), currency)
    ensures LeastLeft(db.inventory, o.room.id, stay, o.unitsLeft)
  {
    hide CatalogSound, RowsInBounds, Offers, ReadRates, QuoteFor, UnitsLeft, UnitsFree, PlanIs, ValidCurrency, SumStored,
         LeastLeft;
    OfferedIff(db, property, stay, guests, o);
    OfferedIffOnSale(db, property, stay, guests, o.room, o.plan);
    PlanInCatalogue(db.catalog, o.plan);
    QuotedIff(db, o.plan.id, stay, o.plan);
    LeftIsLeast(db, o.room.id, stay);
  }

  // When a search fails

  lemma PlanUnread(db: Db, rp: RatePlan, stay: Stay)
    requires CatalogSound(db.catalog) && rp in db.catalog.plans
    ensures var r := ReadRates(db, rp.id, stay.checkIn, stay.checkOut);
            && (r.Err? <==> PlanCorrupt(db, rp.property, rp.id, stay))
            && (r.Err? ==> r.error == CorruptRate)
            && (r.Ok? && QuoteFor(stay, r.value).Err? ==> KindOf(QuoteFor(stay, r.value).error) != Internal)
  {
    hide CatalogSound, PlanIs, ReadRates, QuoteFor, ValidCurrency, KindOf;
    PlanInCatalogue(db.catalog, rp);
    PlanFound(db.catalog, rp.id);
    ReadRatesSound(db, rp.id, stay.checkIn, stay.checkOut);
    if rp.property in db.catalog.currencies {
      RatesReadAre(db, rp.id, stay.checkIn, stay.checkOut, rp);
    } else {
      NothingRead(db, rp.id, stay.checkIn, stay.checkOut);
    }
    if ReadRates(db, rp.id, stay.checkIn, stay.checkOut).Ok? {
      QuoteNotInternal(stay, ReadRates(db, rp.id, stay.checkIn, stay.checkOut).value);
    }
  }

  lemma OfferFails(db: Db, property: Uuid, rp: RatePlan, stay: Stay, guests: int)
    requires CatalogSound(db.catalog) && rp in db.catalog.plans && rp.property == property
    ensures var r := OfferFor(db, ById(RoomsOf(db.catalog.rooms, property)), rp, stay, guests);
            && (r.Err? <==> PlanCorrupt(db, property, rp.id, stay)
                            && exists room :: Considered(db, property, guests, room, rp))
            && (r.Err? ==> r.error == CorruptRate)
  {
    hide CatalogSound, ReadRates, QuoteFor, UnitsLeft, RoomsOf, ById, KindOf, PlanCorrupt;
    var rooms := ById(RoomsOf(db.catalog.rooms, property));
    PlanUnread(db, rp, stay);
    if rp.room in rooms {
      PropertyRooms(db.catalog, property, rp.room, rooms[rp.room]);
      assert Considered(db, property, guests, rooms[rp.room], rp) <==> guests <= rooms[rp.room].maxOccupancy;
    }
    forall room | Considered(db, property, guests, room, rp) ensures rp.room in rooms && rooms[rp.room] == room {
      PropertyRooms(db.catalog, property, rp.room, room);
    }
  }

  lemma {:induction false} OffersFail(db: Db, rooms: map<Uuid, RoomType>, plans: seq<RatePlan>, stay: Stay, guests: int)
    ensures OffersFor(db, rooms, plans, stay, guests).Err? <==>
            exists i :: 0 <= i < |plans| && OfferFor(db, rooms, plans[i], stay, guests).Err?
    ensures OffersFor(db, rooms, plans, stay, guests).Err? ==>
              exists i :: 0 <= i < |plans| && OfferFor(db, rooms, plans[i], stay, guests) ==
                                              Err(OffersFor(db, rooms, plans, stay, guests).error)
    decreases |plans|
  {
    hide OfferFor;
    if plans == [] {
    } else {
      OffersFail(db, rooms, plans[1..], stay, guests);
      assert forall i :: 0 < i < |plans| ==> plans[i] == plans[1..][i - 1];
      assert forall i :: 0 <= i < |plans| - 1 ==> plans[1..][i] == plans[i + 1];
    }
  }

  /** A search fails for a party of nobody, for a property without room types, and otherwise exactly when a plan it
      considers has, in the days of the stay, a rate that is no money. */
  lemma SearchFails(db: Db, property: Uuid, stay: Stay, guests: int)
    requires CatalogSound(db.catalog)
    ensures var r := Offers(db, property, stay, guests);
            if guests < 1 then r == Err(InvalidGuestCount)
            else if forall room :: room in db.catalog.rooms ==> room.property != property then r == Err(PropertyNotFound)
            else
              && (r.Err? <==> exists room, rp :: Considered(db, property, guests, room, rp)
                                                && PlanCorrupt(db, property, rp.id, stay))
              && (r.Err? ==> r.error == CorruptRate)
  {
    hide CatalogSound, OfferFor, RoomsOf, PlansOf, ById, OffersFor, PlanCorrupt;
    var mine, plans := RoomsOf(db.catalog.rooms, property), PlansOf(db.catalog.plans, property);
    RoomsAre(db.catalog.rooms, property);
    OffersFail(db, ById(mine), plans, stay, guests);
    forall i | 0 <= i < |plans|
      ensures plans[i] in db.catalog.plans && plans[i].property == property
      ensures var r := OfferFor(db, ById(mine), plans[i], stay, guests);
              && (r.Err? <==> PlanCorrupt(db, property, plans[i].id, stay)
                              && exists room :: Considered(db, property, guests, room, plans[i]))
              && (r.Err? ==> r.error == CorruptRate)
    {
      PlansOfAre(db.catalog.plans, property, plans[i]);
      OfferFails(db, property, plans[i], stay, guests);
    }
    forall room, rp | Considered(db, property, guests, room, rp) && PlanCorrupt(db, property, rp.id, stay)
      ensures exists i :: 0 <= i < |plans| && OfferFor(db, ById(mine), plans[i], stay, guests).Err?
    {
      PlansOfAre(db.catalog.plans, property, rp);
      var i :| 0 <= i < |plans| && plans[i] == rp;
      assert OfferFor(db, ById(mine), plans[i], stay, guests).Err?;
    }
  }

  lemma RoomsAre(rooms: seq<RoomType>, property: Uuid)
    ensures RoomsOf(rooms, property) == [] <==> forall room :: room in rooms ==> room.property != property
  {
    hide RoomsOf;
    var mine := RoomsOf(rooms, property);
    forall room ensures room in mine <==> room in rooms && room.property == property {
      RoomsOfAre(rooms, property, room);
    }
    if mine != [] {
      assert mine[0] in mine;
    }
  }

  // Offers come in the order of their plans

  /** The plans of the offers, in their order, are some of these. */
  predicate InOrder(offers: seq<Offer>, plans: seq<RatePlan>)
    decreases |plans|
  {
    if plans == [] then offers == []
    else InOrder(offers, plans[1..]) || (offers != [] && offers[0].plan == plans[0] && InOrder(offers[1..], plans[1..]))
  }

  lemma {:induction false} OffersInOrder(db: Db, rooms: map<Uuid, RoomType>, plans: seq<RatePlan>, stay: Stay, guests: int)
    ensures var r := OffersFor(db, rooms, plans, stay, guests); r.Ok? ==> InOrder(r.value, plans)
    decreases |plans|
  {
    hide ReadRates, QuoteFor, UnitsLeft, KindOf;
    if plans == [] {
    } else {
      OffersInOrder(db, rooms, plans[1..], stay, guests);
      var first, rest := OfferFor(db, rooms, plans[0], stay, guests), OffersFor(db, rooms, plans[1..], stay, guests);
      if first.Ok? && rest.Ok? && first.value.Some? {
        assert ([first.value.value] + rest.value)[1..] == rest.value;
      } else if first.Ok? && rest.Ok? {
        assert [] + rest.value == rest.value;
      }
    }
  }

  lemma {:induction false} OrderOfAll(offers: seq<Offer>, plans: seq<RatePlan>, property: Uuid)
    requires InOrder(offers, PlansOf(plans, property))
    ensures InOrder(offers, plans)
    decreases |plans|
  {
    if plans == [] {
    } else {
      var mine, rest := PlansOf(plans, property), PlansOf(plans[1..], property);
      if plans[0].property == property {
        assert mine == [plans[0]] + rest && mine[1..] == rest;
        if InOrder(offers, rest) {
          OrderOfAll(offers, plans[1..], property);
        } else {
          OrderOfAll(offers[1..], plans[1..], property);
        }
      } else {
        assert mine == [] + rest == rest;
        OrderOfAll(offers, plans[1..], property);
      }
    }
  }

  /** The offers of a search come in the order of their plans in the catalogue, each plan at most once. */
  lemma OfferedInOrder(db: Db, property: Uuid, stay: Stay, guests: int)
    ensures var r := Offers(db, property, stay, guests); r.Ok? ==> InOrder(r.value, db.catalog.plans)
  {
    hide OffersFor, PlansOf, RoomsOf, ById, InOrder;
    OffersInOrder(db, ById(RoomsOf(db.catalog.rooms, property)), PlansOf(db.catalog.plans, property), stay, guests);
    if Offers(db, property, stay, guests).Ok? {
      OrderOfAll(Offers(db, property, stay, guests).value, db.catalog.plans, property);
    }
  }
}
