/** Searching a property, and the agreement between what is offered and what can be booked. */
module Search {
  import opened Results
  import opened Words
  import opened Collections
  import opened Calendar
  import opened Stays
  import opened Moneys
  import opened Pricing
  import opened Bookings
  import opened Tables
  import opened Transactions
  import opened Stock
  import opened Effects
  import opened Consistency
  import opened Availability

  function RoomsOf(rooms: seq<RoomType>, property: Uuid): seq<RoomType> {
    if rooms == [] then [] else
      (if rooms[0].property == property then [rooms[0]] else []) + RoomsOf(rooms[1..], property)
  }

  function PlansOf(plans: seq<RatePlan>, property: Uuid): seq<RatePlan> {
    if plans == [] then [] else
      (if plans[0].property == property then [plans[0]] else []) + PlansOf(plans[1..], property)
  }

  function ById(rooms: seq<RoomType>): map<Uuid, RoomType> {
    if rooms == [] then map[] else
      var last := rooms[|rooms| - 1];
      ById(rooms[..|rooms| - 1])[last.id := last]
  }

  /** The offer made for a rate plan, if any; an internal error fails the whole search. */
  function OfferFor(db: Db, rooms: map<Uuid, RoomType>, plan: RatePlan, stay: Stay,
                    guests: int): Result<Option<Offer>> {
    if plan.room !in rooms || rooms[plan.room].maxOccupancy < guests then Ok(None) else
      var room := rooms[plan.room];
      var rates :- ReadRates(db, plan.id, stay.checkIn, stay.checkOut);
      match QuoteFor(stay, rates)
      case Err(e) => if KindOf(e) == Internal then Err(e) else Ok(None)
      case Ok(quote) =>
        var left := UnitsLeft(db, room.id, stay);
        if left < 1 then Ok(None) else Ok(Some(Offer(room, plan, quote, left)))
  }

  function OffersFor(db: Db, rooms: map<Uuid, RoomType>, plans: seq<RatePlan>, stay: Stay,
                     guests: int): Result<seq<Offer>>
    decreases |plans|
  {
    if plans == [] then Ok([]) else
      var first :- OfferFor(db, rooms, plans[0], stay, guests);
      var rest :- OffersFor(db, rooms, plans[1..], stay, guests);
      Ok((if first.Some? then [first.value] else []) + rest)
  }

  function Offers(db: Db, property: Uuid, stay: Stay, guests: int): Result<seq<Offer>> {
    if guests < 1 then Err(InvalidGuestCount) else
      var rooms := RoomsOf(db.catalog.rooms, property);
      if rooms == [] then Err(PropertyNotFound)
      else OffersFor(db, ById(rooms), PlansOf(db.catalog.plans, property), stay, guests)
  }

  /** What has been found so far, followed by the rest. */
  function Followed(found: seq<Offer>, rest: Result<seq<Offer>>): Result<seq<Offer>> {
    match rest
    case Err(e) => Err(e)
    case Ok(more) => Ok(found + more)
  }

  lemma OneMoreOffer(found: seq<Offer>, first: Option<Offer>, rest: Result<seq<Offer>>)
    ensures Followed(if first.Some? then found + [first.value] else found, rest) ==
            Followed(found, match rest
                            case Err(e) => Err(e)
                            case Ok(more) => Ok((if first.Some? then [first.value] else []) + more))
  {
    if rest.Ok? {
      var more := if first.Some? then [first.value] else [];
      assert found + more + rest.value == found + (more + rest.value);
      assert found + [] == found && [] + rest.value == rest.value;
    }
  }

  lemma NothingFirst(r: Result<seq<Offer>>)
    ensures Followed([], r) == r
  {
    if r.Ok? {
      assert [] + r.value == r.value;
    }
  }

  method SearchOffers(db: Db, property: Uuid, stay: Stay, guests: int) returns (r: Result<seq<Offer>>)
    ensures r == Offers(db, property, stay, guests)
  {
    hide ReadRates, QuoteFor, UnitsLeft, KindOf, RoomsOf, PlansOf;
    if guests < 1 {
      return Err(InvalidGuestCount);
    }
    var roomTypes := RoomsOf(db.catalog.rooms, property);
    if |roomTypes| == 0 {
      return Err(PropertyNotFound);
    }
    var ratePlans := PlansOf(db.catalog.plans, property);
    var byRoomType: map<Uuid, RoomType> := map[];
    for i := 0 to |roomTypes|
      invariant byRoomType == ById(roomTypes[..i])
    {
      assert roomTypes[..i + 1][..i] == roomTypes[..i];
      byRoomType := byRoomType[roomTypes[i].id := roomTypes[i]];
    }
    assert roomTypes[..|roomTypes|] == roomTypes;
    r := CollectOffers(db, byRoomType, ratePlans, stay, guests);
  }

  method CollectOffers(db: Db, rooms: map<Uuid, RoomType>, plans: seq<RatePlan>, stay: Stay, guests: int)
    returns (r: Result<seq<Offer>>)
    ensures r == OffersFor(db, rooms, plans, stay, guests)
  {
    hide ReadRates, QuoteFor, UnitsLeft, KindOf;
    var offers := [];
    ghost var goal := OffersFor(db, rooms, plans, stay, guests);
    assert plans[0..] == plans;
    NothingFirst(goal);
    for i := 0 to |plans|
      invariant Followed(offers, OffersFor(db, rooms, plans[i..], stay, guests)) == goal
    {
      var plan := plans[i];
      assert plans[i..][1..] == plans[i + 1..];
      ghost var found := offers;
      ghost var rest := OffersFor(db, rooms, plans[i + 1..], stay, guests);
      if plan.room in rooms && rooms[plan.room].maxOccupancy >= guests {
        var room := rooms[plan.room];
        var rates := ReadRates(db, plan.id, stay.checkIn, stay.checkOut);
        if rates.Err? {
          return Err(rates.error);
        }
        var quote := Calculate(stay, rates.value);
        if quote.Err? && KindOf(quote.error) == Internal {
          return Err(quote.error);
        }
        if quote.Ok? {
          var left := CountUnitsLeft(db, room.id, stay);
          if left >= 1 {
            offers := offers + [Offer(room, plan, quote.value, left)];
          }
        }
      }
      OneMoreOffer(found, OfferFor(db, rooms, plan, stay, guests).value, rest);
    }
    assert offers + [] == offers;
    return Ok(offers);
  }

  // What the primary keys and checks of the catalogue guarantee

  predicate CatalogSound(catalog: Catalog) {
    && (forall i, j :: 0 <= i < j < |catalog.rooms| ==> catalog.rooms[i].id != catalog.rooms[j].id)
    && (forall i, j :: 0 <= i < j < |catalog.plans| ==> catalog.plans[i].id != catalog.plans[j].id)
    && (forall i :: 0 <= i < |catalog.rooms| ==>
          NIL !in {catalog.rooms[i].id, catalog.rooms[i].property} && 1 <= catalog.rooms[i].maxOccupancy <= 10)
    && (forall i :: 0 <= i < |catalog.plans| ==> catalog.plans[i].id != NIL)
  }

  lemma {:induction false} FoundRoom(rooms: seq<RoomType>, id: Uuid)
    ensures FindRoom(rooms, id).Ok? ==> FindRoom(rooms, id).value in rooms && FindRoom(rooms, id).value.id == id
    ensures FindRoom(rooms, id).Ok? <==> exists i :: 0 <= i < |rooms| && rooms[i].id == id
  {
    if rooms == [] {
    } else {
      FoundRoom(rooms[1..], id);
      assert forall i :: 0 < i < |rooms| ==> rooms[i] == rooms[1..][i - 1];
    }
  }

  lemma {:induction false} FoundPlan(plans: seq<RatePlan>, id: Uuid)
    ensures FindPlan(plans, id).Ok? ==> FindPlan(plans, id).value in plans && FindPlan(plans, id).value.id == id
    ensures FindPlan(plans, id).Ok? <==> exists i :: 0 <= i < |plans| && plans[i].id == id
  {
    if plans == [] {
    } else {
      FoundPlan(plans[1..], id);
      assert forall i :: 0 < i < |plans| ==> plans[i] == plans[1..][i - 1];
    }
  }

  lemma {:induction false} RoomsOfAre(rooms: seq<RoomType>, property: Uuid, room: RoomType)
    ensures room in RoomsOf(rooms, property) <==> room in rooms && room.property == property
  {
    if rooms == [] {
    } else {
      RoomsOfAre(rooms[1..], property, room);
    }
  }

  lemma {:induction false} PlansOfAre(plans: seq<RatePlan>, property: Uuid, plan: RatePlan)
    ensures plan in PlansOf(plans, property) <==> plan in plans && plan.property == property
  {
    if plans == [] {
    } else {
      PlansOfAre(plans[1..], property, plan);
    }
  }

  lemma {:induction false} ByIdAre(rooms: seq<RoomType>, id: Uuid)
    ensures id in ById(rooms) ==> ById(rooms)[id] in rooms && ById(rooms)[id].id == id
    ensures forall room :: room in rooms && room.id == id ==> id in ById(rooms)
  {
    if rooms == [] {
    } else {
      var init := rooms[..|rooms| - 1];
      ByIdAre(init, id);
      assert rooms == init + [rooms[|rooms| - 1]];
    }
  }

  lemma {:induction false} OffersAre(db: Db, rooms: map<Uuid, RoomType>, plans: seq<RatePlan>, stay: Stay,
                                     guests: int, o: Offer)
    requires OffersFor(db, rooms, plans, stay, guests).Ok?
    ensures o in OffersFor(db, rooms, plans, stay, guests).value <==>
            exists i :: 0 <= i < |plans| && OfferFor(db, rooms, plans[i], stay, guests) == Ok(Some(o))
    decreases |plans|
  {
    hide OfferFor;
    if plans == [] {
    } else {
      OffersAre(db, rooms, plans[1..], stay, guests, o);
      assert forall i :: 0 < i < |plans| ==> plans[i] == plans[1..][i - 1];
    }
  }

  lemma RoomIsFound(catalog: Catalog, room: RoomType)
    requires CatalogSound(catalog) && room in catalog.rooms
    ensures FindRoom(catalog.rooms, room.id) == Ok(room)
    ensures NIL !in {room.id, room.property} && 1 <= room.maxOccupancy <= 10
  {
    FoundRoom(catalog.rooms, room.id);
    var i :| 0 <= i < |catalog.rooms| && catalog.rooms[i] == room;
    var j :| 0 <= j < |catalog.rooms| && catalog.rooms[j] == FindRoom(catalog.rooms, room.id).value;
  }

  lemma PlanIsFound(catalog: Catalog, plan: RatePlan)
    requires CatalogSound(catalog) && plan in catalog.plans
    ensures FindPlan(catalog.plans, plan.id) == Ok(plan) && plan.id != NIL
  {
    FoundPlan(catalog.plans, plan.id);
    var i :| 0 <= i < |catalog.plans| && catalog.plans[i] == plan;
    var j :| 0 <= j < |catalog.plans| && catalog.plans[j] == FindPlan(catalog.plans, plan.id).value;
  }

  lemma PropertyRooms(catalog: Catalog, property: Uuid, id: Uuid, room: RoomType)
    requires CatalogSound(catalog)
    ensures var rooms := ById(RoomsOf(catalog.rooms, property));
            id in rooms && rooms[id] == room <==> room in catalog.rooms && room.property == property && room.id == id
  {
    hide CatalogSound;
    var mine := RoomsOf(catalog.rooms, property);
    ByIdAre(mine, id);
    RoomsOfAre(catalog.rooms, property, room);
    if id in ById(mine) {
      RoomsOfAre(catalog.rooms, property, ById(mine)[id]);
      RoomIsFound(catalog, ById(mine)[id]);
    }
    if room in catalog.rooms {
      RoomIsFound(catalog, room);
    }
  }

  /** What makes an offer: a plan and a room type of the property that belong together and sleep the party, a quote, and
      at least one unit. */
  predicate Sold(db: Db, property: Uuid, stay: Stay, guests: int, o: Offer) {
    && o.plan in db.catalog.plans && o.plan.property == property
    && o.room in db.catalog.rooms && o.room.property == property && o.room.id == o.plan.room
    && guests <= o.room.maxOccupancy
    && ReadRates(db, o.plan.id, stay.checkIn, stay.checkOut).Ok?
    && QuoteFor(stay, ReadRates(db, o.plan.id, stay.checkIn, stay.checkOut).value) == Ok(o.quote)
    && o.unitsLeft == UnitsLeft(db, o.room.id, stay) && 1 <= o.unitsLeft
  }

  lemma OfferMeans(db: Db, property: Uuid, stay: Stay, guests: int, plan: RatePlan, o: Offer)
    requires CatalogSound(db.catalog) && plan in db.catalog.plans && plan.property == property
    ensures OfferFor(db, ById(RoomsOf(db.catalog.rooms, property)), plan, stay, guests) == Ok(Some(o)) <==>
            o.plan == plan && Sold(db, property, stay, guests, o)
  {
    hide CatalogSound, ReadRates, QuoteFor, UnitsLeft, RoomsOf, ById, KindOf;
    PropertyRooms(db.catalog, property, plan.room, o.room);
  }

  /** The offers of a search are exactly what is sold. */
  lemma OfferedIff(db: Db, property: Uuid, stay: Stay, guests: int, o: Offer)
    requires CatalogSound(db.catalog) && Offers(db, property, stay, guests).Ok?
    ensures o in Offers(db, property, stay, guests).value <==> Sold(db, property, stay, guests, o)
  {
    hide CatalogSound, Sold, OfferFor, RoomsOf, ById, OffersFor;
    var rooms, plans := ById(RoomsOf(db.catalog.rooms, property)), PlansOf(db.catalog.plans, property);
    OffersAre(db, rooms, plans, stay, guests, o);
    forall i | 0 <= i < |plans|
      ensures OfferFor(db, rooms, plans[i], stay, guests) == Ok(Some(o)) <==>
              o.plan == plans[i] && Sold(db, property, stay, guests, o)
    {
      PlansOfAre(db.catalog.plans, property, plans[i]);
      OfferMeans(db, property, stay, guests, plans[i], o);
    }
    PlansOfAre(db.catalog.plans, property, o.plan);
    SoldPlan(db, property, stay, guests, o);
  }

  lemma SoldPlan(db: Db, property: Uuid, stay: Stay, guests: int, o: Offer)
    ensures Sold(db, property, stay, guests, o) ==> o.plan in db.catalog.plans && o.plan.property == property
  {
  }

  // Offers and bookings agree

  /** A request for what is offered, with a valid guest and nothing used before. */
  predicate Requests(db: Db, property: Uuid, stay: Stay, guests: int, o: Offer, input: ReserveInput, d: Draws) {
    && input.property == property && input.room == o.room.id && input.plan == o.plan.id && input.stay == stay
    && input.guests == guests && input.guestAccepted && GuestFor(db, input, d) != NIL
    && input.key !in db.keys && d.id !in db.reservations && d.reference !in db.refs && d.event !in db.outbox
  }

  lemma SoldIsPlanned(db: Db, property: Uuid, stay: Stay, guests: int, o: Offer, input: ReserveInput, d: Draws)
    requires CatalogSound(db.catalog) && Sold(db, property, stay, guests, o) && 1 <= guests
    requires Requests(db, property, stay, guests, o, input, d)
    ensures var plan := Planned(db.catalog, input, ReadRates(db, input.plan, stay.checkIn, stay.checkOut),
                                GuestFor(db, input, d), d);
            && plan.Ok? && plan.value.total == o.quote.total && plan.value.nights == o.quote.nights
            && plan.value.guestCount == guests <= 10
  {
    hide CatalogSound, ReadRates, QuoteFor, UnitsLeft;
    var rates := ReadRates(db, input.plan, stay.checkIn, stay.checkOut);
    RoomIsFound(db.catalog, o.room);
    PlanIsFound(db.catalog, o.plan);
    assert PriceStay(db.catalog, input, rates) == Ok(o.quote);
    NewAcceptsQuotes(NewInput(o.room.property, input.room, input.plan, GuestFor(db, input, d), o.quote, guests,
                              o.room.maxOccupancy, d.now), rates.value, stay, d.id, d.reference);
  }

  lemma PlanIsAcceptable(db: Db, input: ReserveInput, d: Draws, guest: Uuid)
    requires var rates := ReadRates(db, input.plan, input.stay.checkIn, input.stay.checkOut);
             var plan := Planned(db.catalog, input, rates, guest, d);
             plan.Ok? && 1 <= plan.value.guestCount <= MAX_SMALLINT
    ensures var rates := ReadRates(db, input.plan, input.stay.checkIn, input.stay.checkOut);
            var plan := Planned(db.catalog, input, rates, guest, d);
            Acceptable(plan) <==> 0 <= plan.value.total.cents
  {
    hide Planned, ReadRates, QuoteFor, NightsAccepted, RecordSound;
    var rates := ReadRates(db, input.plan, input.stay.checkIn, input.stay.checkOut);
    PlannedFacts(db.catalog, input, rates, guest, d);
    ReadRatesSound(db, input.plan, input.stay.checkIn, input.stay.checkOut);
    PlannedIsSound(db.catalog, input, rates, guest, d);
  }

  /** Every offer can be booked at the offered price, with valid guest details and an unused key and reference, exactly
      when its total has not wrapped below zero. */
  lemma OfferCanBeBooked(db: Db, property: Uuid, stay: Stay, guests: int, o: Offer, input: ReserveInput, d: Draws)
    requires CatalogSound(db.catalog) && RowsInBounds(db.inventory)
    requires Offers(db, property, stay, guests).Ok? && o in Offers(db, property, stay, guests).value
    requires Requests(db, property, stay, guests, o, input, d)
    ensures var r := ReserveTx(db, input, ReadRates(db, input.plan, stay.checkIn, stay.checkOut), d).result;
            && (r.Ok? <==> 0 <= o.quote.total.cents)
            && (r.Ok? ==> !r.value.replayed && r.value.booking.total == o.quote.total && r.value.booking.nights == o.quote.nights)
  {
    hide CatalogSound, RowsInBounds, ReadRates, QuoteFor, UnitsLeft, Offers, Planned, RowAccepted, NightsAccepted, CanMove,
         ReserveTx, RowOf, BookedDb;
    var rates, guest := ReadRates(db, input.plan, stay.checkIn, stay.checkOut), GuestFor(db, input, d);
    OfferedIff(db, property, stay, guests, o);
    SearchedParty(db, property, stay, guests);
    SoldIsPlanned(db, property, stay, guests, o, input, d);
    PlanIsAcceptable(db, input, d, guest);
    PlannedFacts(db.catalog, input, rates, guest, d);
    UnitsLeftIff(db, o.room.id, stay, 1);
    ReserveEffect(db, input, rates, d);
  }

  lemma SearchedParty(db: Db, property: Uuid, stay: Stay, guests: int)
    requires Offers(db, property, stay, guests).Ok?
    ensures 1 <= guests
  {
  }

  predicate PricesInBound(rates: map<RateKey, RateRow>) {
    forall k :: k in rates ==> 0 <= rates[k].cents <= MAX_EXACT_PRICE
  }

  lemma {:induction false} RateDaysInBound(rates: map<RateKey, RateRow>, plan: Uuid, currency: string, days: seq<Day>)
    requires PricesInBound(rates) && forall d :: d in days ==> RateKey(plan, d) in rates
    ensures var r := RateDays(rates, plan, currency, days);
            r.Ok? ==> forall i :: 0 <= i < |r.value| ==> 0 <= r.value[i].price.cents <= MAX_EXACT_PRICE
  {
    if days == [] {
    } else {
      RateDaysInBound(rates, plan, currency, days[1..]);
    }
  }

  lemma {:induction false} ByDateInBound(days: seq<RateDay>)
    requires forall i :: 0 <= i < |days| ==> 0 <= days[i].price.cents <= MAX_EXACT_PRICE
    ensures forall d | d in Pricing.ByDate(days) :: 0 <= Pricing.ByDate(days)[d].price.cents <= MAX_EXACT_PRICE
  {
    if days == [] {
    } else {
      ByDateInBound(days[..|days| - 1]);
    }
  }

  /** With published prices in bound no total has wrapped: every offer can be booked. */
  lemma OffersInBound(db: Db, property: Uuid, stay: Stay, guests: int, o: Offer)
    requires CatalogSound(db.catalog) && PricesInBound(db.rates)
    requires Offers(db, property, stay, guests).Ok? && o in Offers(db, property, stay, guests).value
    ensures 0 <= o.quote.total.cents
  {
    hide CatalogSound, PricesInBound, QuoteFor, UnitsLeft, Offers, RateDays, Sellable;
    OfferedIff(db, property, stay, guests, o);
    var plan := FindPlan(db.catalog.plans, o.plan.id);
    var days := ReadRates(db, o.plan.id, stay.checkIn, stay.checkOut).value;
    if plan.Ok? && plan.value.property in db.catalog.currencies {
      RateDaysInBound(db.rates, o.plan.id, db.catalog.currencies[plan.value.property],
                      Ascending(RateWindow(db.rates, o.plan.id, stay.checkIn, stay.checkOut)));
    }
    ByDateInBound(days);
    TotalIsExact(stay, days);
    SellableNights(stay, Pricing.ByDate(days));
    SumWithinBound(Pricing.ByDate(days), stay.checkIn, stay.checkOut);
  }

  lemma SellableNights(stay: Stay, m: map<Day, RateDay>)
    requires Sellable(stay, m)
    ensures forall d | stay.checkIn <= d < stay.checkOut :: d in m
  {
  }

  // A search of a property that can be priced succeeds

  /** The check on published prices. */
  predicate RatesAccepted(rates: map<RateKey, RateRow>) {
    forall k :: k in rates ==> 0 <= rates[k].cents
  }

  lemma {:induction false} RateDaysRead(rates: map<RateKey, RateRow>, plan: Uuid, currency: string, days: seq<Day>)
    requires RatesAccepted(rates) && forall d :: d in days ==> RateKey(plan, d) in rates
    ensures var r := RateDays(rates, plan, currency, days);
            && (ValidCurrency(currency) ==> r.Ok?)
            && (r.Ok? && days != [] ==> ValidCurrency(currency))
            && (r.Ok? ==> |r.value| == |days|)
  {
    hide ValidCurrency;
    if days == [] {
    } else {
      assert RateKey(plan, days[0]) in rates;
      RateDaysRead(rates, plan, currency, days[1..]);
    }
  }

  lemma WindowDays(rates: map<RateKey, RateRow>, plan: Uuid, from: Day, until: Day)
    ensures forall d :: d in Ascending(RateWindow(rates, plan, from, until)) ==> RateKey(plan, d) in rates
  {
    forall d | d in RateWindow(rates, plan, from, until) ensures RateKey(plan, d) in rates {
      var k :| k in rates && k.plan == plan && k.day == d;
      assert k == RateKey(plan, d);
    }
  }

  predicate PropertyPriced(catalog: Catalog, property: Uuid) {
    property in catalog.currencies ==> ValidCurrency(catalog.currencies[property])
  }

  lemma RatesRead(db: Db, plan: RatePlan, stay: Stay)
    requires CatalogSound(db.catalog) && RatesAccepted(db.rates) && plan in db.catalog.plans
    ensures var r := ReadRates(db, plan.id, stay.checkIn, stay.checkOut);
            && (PropertyPriced(db.catalog, plan.property) ==> r.Ok?)
            && (r.Ok? && r.value != [] ==> PropertyPriced(db.catalog, plan.property))
            && (r.Ok? ==> RatesSound(r.value))
  {
    hide CatalogSound, RatesAccepted, RateWindow, RateDays, ValidCurrency, RatesSound;
    PlanIsFound(db.catalog, plan);
    ReadRatesSound(db, plan.id, stay.checkIn, stay.checkOut);
    if plan.property in db.catalog.currencies {
      WindowDays(db.rates, plan.id, stay.checkIn, stay.checkOut);
      RateDaysRead(db.rates, plan.id, db.catalog.currencies[plan.property],
                   Ascending(RateWindow(db.rates, plan.id, stay.checkIn, stay.checkOut)));
    }
  }

  lemma {:induction false} PricingNotInternal(m: map<Day, RateDay>, d: Day, checkOut: Day, total: Money, nights: seq<Night>)
    requires d <= checkOut && forall e :: e in m ==> m[e].price.currency != ""
    ensures var r := PriceNights(m, d, checkOut, total, nights); r.Err? ==> KindOf(r.error) != Internal
    decreases checkOut - d
  {
    if d == checkOut {
    } else if d in m && Add(total, m[d].price).Ok? {
      PricingNotInternal(m, d + 1, checkOut, Add(total, m[d].price).value, nights + [Night(d, m[d].price)]);
    }
  }

  /** On rates that are money a quote is refused only for reasons that are the guest's to know. */
  lemma QuoteNotInternal(stay: Stay, rates: seq<RateDay>)
    requires RatesSound(rates)
    ensures QuoteFor(stay, rates).Err? ==> KindOf(QuoteFor(stay, rates).error) != Internal
  {
    ByDateSound(rates);
    PricingNotInternal(Pricing.ByDate(rates), stay.checkIn, stay.checkOut, NOTHING, []);
  }

  lemma OfferSucceeds(db: Db, rooms: map<Uuid, RoomType>, plan: RatePlan, stay: Stay, guests: int)
    requires CatalogSound(db.catalog) && RatesAccepted(db.rates) && plan in db.catalog.plans
    requires PropertyPriced(db.catalog, plan.property)
    ensures OfferFor(db, rooms, plan, stay, guests).Ok?
  {
    hide CatalogSound, RatesAccepted, ReadRates, QuoteFor, UnitsLeft, KindOf, PropertyPriced, RatesSound;
    RatesRead(db, plan, stay);
    QuoteNotInternal(stay, ReadRates(db, plan.id, stay.checkIn, stay.checkOut).value);
  }

  lemma {:induction false} OffersSucceed(db: Db, rooms: map<Uuid, RoomType>, plans: seq<RatePlan>, stay: Stay, guests: int)
    requires forall i :: 0 <= i < |plans| ==> OfferFor(db, rooms, plans[i], stay, guests).Ok?
    ensures OffersFor(db, rooms, plans, stay, guests).Ok?
    decreases |plans|
  {
    hide OfferFor;
    if plans == [] {
    } else {
      assert OfferFor(db, rooms, plans[0], stay, guests).Ok?;
      forall i | 0 <= i < |plans| - 1 ensures OfferFor(db, rooms, plans[1..][i], stay, guests).Ok? {
        assert plans[1..][i] == plans[i + 1];
      }
      OffersSucceed(db, rooms, plans[1..], stay, guests);
    }
  }

  /** Over the schema's tables the search of a property with a room type and a proper currency always succeeds. */
  lemma SearchSucceeds(db: Db, property: Uuid, stay: Stay, guests: int, room: RoomType)
    requires CatalogSound(db.catalog) && RatesAccepted(db.rates) && PropertyPriced(db.catalog, property)
    requires room in db.catalog.rooms && room.property == property && 1 <= guests
    ensures Offers(db, property, stay, guests).Ok?
  {
    hide CatalogSound, RatesAccepted, PropertyPriced, OfferFor, RoomsOf, PlansOf, ById, OffersFor;
    RoomsOfAre(db.catalog.rooms, property, room);
    var rooms, plans := ById(RoomsOf(db.catalog.rooms, property)), PlansOf(db.catalog.plans, property);
    forall i | 0 <= i < |plans| ensures OfferFor(db, rooms, plans[i], stay, guests).Ok? {
      PlansOfAre(db.catalog.plans, property, plans[i]);
      OfferSucceeds(db, rooms, plans[i], stay, guests);
    }
    OffersSucceed(db, rooms, plans, stay, guests);
  }

  // What is booked was on offer

  /** The search succeeds and offers this pair at this price. */
  ghost predicate OnOffer(db: Db, input: ReserveInput, b: Booking) {
    var r := Offers(db, input.property, input.stay, input.guests);
    r.Ok? && exists o :: o in r.value && OfferOf(o, input, b)
  }

  predicate OfferOf(o: Offer, input: ReserveInput, b: Booking) {
    o.room.id == input.room && o.plan.id == input.plan && o.quote.total == b.total && o.quote.nights == b.nights
  }

  /** Conversely, whatever is booked was on offer at that price if and only if its rate plan belongs to the property:
      booking does not check that. */
  lemma BookedIsOfferedIff(db: Db, input: ReserveInput, d: Draws)
    requires CatalogSound(db.catalog) && RowsInBounds(db.inventory) && RatesAccepted(db.rates)
    requires input.key !in db.keys
    requires ReserveTx(db, input, ReadRates(db, input.plan, input.stay.checkIn, input.stay.checkOut), d).result.Ok?
    ensures var booking := ReserveTx(db, input, ReadRates(db, input.plan, input.stay.checkIn, input.stay.checkOut), d)
                           .result.value.booking;
            FindPlan(db.catalog.plans, input.plan).Ok? &&
            (FindPlan(db.catalog.plans, input.plan).value.property == input.property <==> OnOffer(db, input, booking))
  {
    hide CatalogSound, RowsInBounds, RatesAccepted, ReadRates, QuoteFor, UnitsLeft, Offers, Planned, CanMove, ReserveTx,
         BookedDb, CanCreate;
    var rates, guest := ReadRates(db, input.plan, input.stay.checkIn, input.stay.checkOut), GuestFor(db, input, d);
    ReserveEffect(db, input, rates, d);
    var b := Planned(db.catalog, input, rates, guest, d).value;
    PlannedFacts(db.catalog, input, rates, guest, d);
    var o := PlanOf(db, input, rates, guest, d);
    UnitsLeftIff(db, input.room, input.stay, 1);
    if o.plan.property == input.property {
      PlannedIsSearched(db, input, rates, guest, d, o);
    }
    OfferedOnlyIf(db, input, b, o);
  }

  /** A search that succeeds offers what is sold, and only plans of the property. */
  lemma OfferedOnlyIf(db: Db, input: ReserveInput, b: Booking, o: Offer)
    requires CatalogSound(db.catalog) && FindPlan(db.catalog.plans, input.plan) == Ok(o.plan) && OfferOf(o, input, b)
    ensures Offers(db, input.property, input.stay, input.guests).Ok? && Sold(db, input.property, input.stay, input.guests, o)
            ==> OnOffer(db, input, b)
    ensures OnOffer(db, input, b) ==> o.plan.property == input.property
  {
    hide CatalogSound, Offers, ReadRates, QuoteFor, UnitsLeft;
    var r := Offers(db, input.property, input.stay, input.guests);
    if r.Ok? {
      OfferedIff(db, input.property, input.stay, input.guests, o);
      forall x | x in r.value && OfferOf(x, input, b) ensures x.plan == o.plan && x.plan.property == input.property {
        OfferedIff(db, input.property, input.stay, input.guests, x);
        PlanIsFound(db.catalog, x.plan);
      }
    }
  }

  /** A booked plan has been priced, so the search of its property succeeds. */
  lemma PlannedIsSearched(db: Db, input: ReserveInput, rates: Result<seq<RateDay>>, guest: Uuid, d: Draws, o: Offer)
    requires CatalogSound(db.catalog) && RatesAccepted(db.rates)
    requires rates == ReadRates(db, input.plan, input.stay.checkIn, input.stay.checkOut)
    requires Planned(db.catalog, input, rates, guest, d).Ok?
    requires FindPlan(db.catalog.plans, input.plan) == Ok(o.plan) && o.plan.property == input.property
    ensures Offers(db, input.property, input.stay, input.guests).Ok?
  {
    hide CatalogSound, RatesAccepted, ReadRates, QuoteFor, Offers, PropertyPriced, QuoteError;
    var room := FindRoom(db.catalog.rooms, input.room).value;
    FoundRoom(db.catalog.rooms, input.room);
    FoundPlan(db.catalog.plans, input.plan);
    PlannedFacts(db.catalog, input, rates, guest, d);
    QuotedFromSomething(input.stay, rates.value);
    RatesRead(db, o.plan, input.stay);
    SearchSucceeds(db, input.property, input.stay, input.guests, room);
  }

  lemma QuotedFromSomething(stay: Stay, rates: seq<RateDay>)
    requires QuoteFor(stay, rates).Ok?
    ensures rates != []
  {
    CalculateSucceedsIff(stay, rates);
  }

  /** The offer a planned booking would have been. */
  lemma PlanOf(db: Db, input: ReserveInput, rates: Result<seq<RateDay>>, guest: Uuid, d: Draws) returns (o: Offer)
    requires CatalogSound(db.catalog)
    requires rates == ReadRates(db, input.plan, input.stay.checkIn, input.stay.checkOut)
    requires Planned(db.catalog, input, rates, guest, d).Ok?
    ensures var b := Planned(db.catalog, input, rates, guest, d).value;
            o.quote.total == b.total && o.quote.nights == b.nights
    ensures o.room.id == input.room && o.plan.id == input.plan
    ensures FindPlan(db.catalog.plans, input.plan) == Ok(o.plan)
    ensures Sold(db, input.property, input.stay, input.guests, o) <==>
            o.plan.property == input.property && 1 <= UnitsLeft(db, input.room, input.stay)
  {
    hide ReadRates, QuoteFor, UnitsLeft, QuoteError, CatalogSound;
    var room := FindRoom(db.catalog.rooms, input.room).value;
    var plan := FindPlan(db.catalog.plans, input.plan).value;
    FoundRoom(db.catalog.rooms, input.room);
    FoundPlan(db.catalog.plans, input.plan);
    RoomIsFound(db.catalog, room);
    o := Offer(room, plan, QuoteFor(input.stay, rates.value).value, UnitsLeft(db, input.room, input.stay));
    PlannedFacts(db.catalog, input, rates, guest, d);
  }
}
