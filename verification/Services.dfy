/** The use cases as they run: one transaction each over the database object, alone, against the transaction functions
    that specify them. */
module Services {
  import opened Results
  import opened Calendar
  import opened Moneys
  import opened Pricing
  import opened Bookings
  import opened Tables
  import opened Transactions
  import opened Store
  import opened Delivery

  class ReservationService {
    const db: Database

    constructor (db: Database)
      ensures this.db == db
    {
      this.db := db;
    }

    /** `Reserve`: everything in one transaction, which commits on success and otherwise leaves the tables as they were.
        Inside a transaction already open it joins that one, and rolling back is left to whoever opened it. */
    method Reserve(input: ReserveInput, d: Draws) returns (r: Result<ReserveResult>)
      modifies db
      ensures db.begun == old(db.begun)
      ensures Outcome(r, db.Value()) ==
              if old(db.begun).None? then ReserveTx(old(db.Value()), input, RatesFor(old(db.Value()), input), d)
              else ReserveBody(old(db.Value()), input, RatesFor(old(db.Value()), input), d)
    {
      hide ReserveBody;
      var joined := db.Begin();
      r := ReserveJoined(input, d);
      db.End(joined, r.Ok?);
    }

    method ReserveJoined(input: ReserveInput, d: Draws) returns (r: Result<ReserveResult>)
      modifies db
      ensures db.begun == old(db.begun)
      ensures Outcome(r, db.Value()) == ReserveBody(old(db.Value()), input, RatesFor(old(db.Value()), input), d)
    {
      hide Book, Conclude, ByID;
      var claim := db.Claim(input.key, input.hash);
      if !claim.isFresh {
        if claim.hash != input.hash {
          return Err(KeyReused);
        }
        if claim.reservation == None {
          return Err(RequestInProgress);
        }
        var stored := db.ByID(claim.reservation.value);
        if stored.Err? {
          return Err(stored.error);
        }
        return Ok(ReserveResult(stored.value, true));
      }
      var booked := MakeBooking(input, d);
      if booked.Err? {
        return Err(booked.error);
      }
      r := Finish(input.key, booked.value, d.event);
    }

    method Finish(key: string, b: Booking, event: int) returns (r: Result<ReserveResult>)
      modifies db
      ensures db.begun == old(db.begun)
      ensures Outcome(r, db.Value()) == Conclude(old(db.Value()), key, b, event)
    {
      var recorded := db.Record(key, b.id);
      if recorded.Err? {
        return Err(recorded.error);
      }
      var published := db.Publish(event, ConfirmedMessage(b));
      if published.Err? {
        return Err(published.error);
      }
      return Ok(ReserveResult(b, false));
    }

    method MakeBooking(input: ReserveInput, d: Draws) returns (r: Result<Booking>)
      modifies db
      ensures db.begun == old(db.begun)
      ensures Outcome(r, db.Value()) == Book(old(db.Value()), input, RatesFor(old(db.Value()), input), d)
    {
      hide New, ReadRates, QuoteFor, Place;
      var room := FindRoom(db.catalog.rooms, input.room);
      if room.Err? {
        return Err(room.error);
      }
      if room.value.property != input.property {
        return Err(RoomTypeNotFound);
      }
      var plan := FindPlan(db.catalog.plans, input.plan);
      if plan.Err? {
        return Err(plan.error);
      }
      if plan.value.room != input.room {
        return Err(RatePlanMismatch);
      }
      var rates := db.Rates(input.plan, input.stay.checkIn, input.stay.checkOut);
      if rates.Err? {
        return Err(rates.error);
      }
      var quote := Calculate(input.stay, rates.value);
      if quote.Err? {
        return Err(quote.error);
      }
      if !input.guestAccepted {
        return Err(InvalidGuest);
      }
      var guest := db.Greet(input.email, d.guest);
      var b := New(NewInput(room.value.property, input.room, input.plan, guest, quote.value, input.guests,
                            room.value.maxOccupancy, d.now), d.id, d.reference);
      if b.Err? {
        return Err(b.error);
      }
      r := PlaceBooking(b.value);
    }

    method PlaceBooking(b: Booking) returns (r: Result<Booking>)
      modifies db
      ensures db.begun == old(db.begun)
      ensures Outcome(r, db.Value()) == Place(old(db.Value()), b)
    {
      hide Tables.Move, Tables.Create;
      var moved := db.Move(b.room, b.stay, UNITS_PER_RESERVATION);
      if moved.Err? {
        return Err(moved.error);
      }
      var created := db.Create(b);
      if created.Err? {
        return Err(created.error);
      }
      return Ok(b);
    }

    /** `Cancel`, likewise. */
    method Cancel(reference: string, now: Instant, event: int) returns (r: Result<CancelResult>)
      modifies db
      ensures db.begun == old(db.begun)
      ensures Outcome(r, db.Value()) ==
              if old(db.begun).None? then CancelTx(old(db.Value()), reference, now, event)
              else CancelBody(old(db.Value()), reference, now, event)
    {
      hide CancelBody;
      var joined := db.Begin();
      r := CancelJoined(reference, now, event);
      db.End(joined, r.Ok?);
    }

    /** The reservation object is changed in memory first, then its row; the event tells of the changed object. */
    method CancelJoined(reference: string, now: Instant, event: int) returns (r: Result<CancelResult>)
      modifies db
      ensures db.begun == old(db.begun)
      ensures Outcome(r, db.Value()) == CancelBody(old(db.Value()), reference, now, event)
    {
      hide ByReference, Withdraw, CancelledAt, CancellationAt, CancellationError;
      var stored := db.ByReference(reference);
      if stored.Err? {
        return Err(stored.error);
      }
      var res := new Reservation(stored.value);
      var plan := FindPlan(db.catalog.plans, stored.value.plan);
      if plan.Err? {
        return Err(plan.error);
      }
      var cancellation := res.Cancel(now, plan.value.refundableUntilHours);
      if cancellation.Err? {
        return Err(cancellation.error);
      }
      r := WithdrawBooking(res.Value(), cancellation.value, event);
    }

    method WithdrawBooking(cancelled: Booking, c: Cancellation, event: int) returns (r: Result<CancelResult>)
      modifies db
      ensures db.begun == old(db.begun)
      ensures Outcome(r, db.Value()) == Withdraw(old(db.Value()), cancelled, c, event)
    {
      hide Tables.Move, CancelRow;
      var updated := db.Cancel(cancelled);
      if updated.Err? {
        return Err(updated.error);
      }
      var released := db.Move(cancelled.room, cancelled.stay, -UNITS_PER_RESERVATION);
      if released.Err? {
        return Err(released.error);
      }
      if cancelled.guest !in db.guests.Values {
        return Err(RecordNotFound);
      }
      var published := db.Publish(event, CancelledMessage(cancelled, c));
      if published.Err? {
        return Err(published.error);
      }
      return Ok(CancelResult(cancelled, c));
    }
  }

  function RatesFor(db: Db, input: ReserveInput): Result<seq<RateDay>> {
    ReadRates(db, input.plan, input.stay.checkIn, input.stay.checkOut)
  }

  class StaffService {
    const db: Database

    constructor (db: Database)
      ensures this.db == db
    {
      this.db := db;
    }

    method SetInventory(room: Uuid, from: Day, until: Day, allotment: int) returns (r: Result<()>)
      modifies db
      ensures Outcome(r, db.Value()) == SetInventoryTx(old(db.Value()), room, from, until, allotment)
    {
      hide Tables.UpsertAllotment;
      if allotment < 0 {
        return Err(InvalidAllotment);
      }
      if !(from < until) {
        return Err(InvalidRange);
      }
      var found := FindRoom(db.catalog.rooms, room);
      if found.Err? {
        return Err(found.error);
      }
      r := db.UpsertAllotment(room, from, until, allotment);
    }

    method SetRates(plan: Uuid, inputs: seq<RateInput>) returns (r: Result<()>)
      modifies db
      ensures Outcome(r, db.Value()) == SetRatesTx(old(db.Value()), plan, inputs)
    {
      hide Tables.UpsertRates, RateDaysOf;
      if |inputs| == 0 {
        return Err(NoRates);
      }
      var ratePlan := FindPlan(db.catalog.plans, plan);
      if ratePlan.Err? {
        return Err(ratePlan.error);
      }
      var roomType := FindRoom(db.catalog.rooms, ratePlan.value.room);
      if roomType.Err? {
        return Err(roomType.error);
      }
      var days := CheckRates(inputs, roomType.value.currency);
      if days.Err? {
        return Err(days.error);
      }
      r := db.UpsertRates(plan, days.value);
    }
  }

  /** The entries are checked one by one, and the first bad one ends it. */
  method CheckRates(inputs: seq<RateInput>, currency: string) returns (r: Result<seq<RateDay>>)
    ensures r == RateDaysOf(inputs, currency)
  {
    var days := [];
    assert inputs[0..] == inputs;
    ghost var goal := RateDaysOf(inputs, currency);
    NoRatesYet(goal);
    for i := 0 to |inputs|
      invariant RatesAfter(days, RateDaysOf(inputs[i..], currency)) == goal
    {
      assert inputs[i..][1..] == inputs[i + 1..];
      var entry := inputs[i];
      if entry.date == None || entry.minStay < 1 {
        return Err(InvalidRateInput);
      }
      var price := NewMoney(entry.cents, currency);
      if price.Err? {
        return Err(price.error);
      }
      var day := RateDay(entry.date.value, price.value, entry.minStay, entry.closedToArrival, entry.closedToDeparture);
      OneMoreRate(days, day, RateDaysOf(inputs[i + 1..], currency));
      days := days + [day];
    }
    assert days + [] == days;
    return Ok(days);
  }

  class Dispatcher {
    const db: Database
    const batch: nat

    constructor (db: Database, batch: nat)
      ensures this.db == db && this.batch == batch
    {
      this.db, this.batch := db, batch;
    }

    /** The immediate retries of `Run`, until a batch does not go out in full. They come to an end, because every
        message claimed uses up an attempt. `answers` tells how the sends of each round end. */
    method Drain(answers: nat -> int -> bool) returns (rounds: nat)
      requires batch >= 1
      modifies db
      ensures rounds >= 1 && db.Value() == Rounds(old(db.Value()), batch, First(answers, rounds))
      ensures forall i: nat | i < rounds - 1 :: SentIn(old(db.Value()), batch, answers, i) == batch
      ensures SentIn(old(db.Value()), batch, answers, rounds - 1) != batch
      ensures db.begun == old(db.begun)
    {
      hide Candidates, MarkedRows, Potential, DispatchTx, Rounds;
      StartOfRounds(db.Value(), batch, answers);
      var full := true;
      rounds := 0;
      while full
        invariant rounds == 0 ==> full
        invariant forall i: nat | i < rounds - 1 :: SentIn(old(db.Value()), batch, answers, i) == batch
        invariant rounds > 0 ==> (full <==> SentIn(old(db.Value()), batch, answers, rounds - 1) == batch)
        invariant db.Value() == Rounds(old(db.Value()), batch, First(answers, rounds)) && db.begun == old(db.begun)
        decreases full, Potential(db.outbox)
      {
        RoundLowers(db.Value(), batch, answers(rounds));
        OneMoreRound(old(db.Value()), batch, First(answers, rounds), answers(rounds));
        assert First(answers, rounds + 1) == First(answers, rounds) + [answers(rounds)];
        var sent := db.Dispatch(batch, answers(rounds));
        PotentialIsNonNegative(db.outbox);
        rounds, full := rounds + 1, sent == batch;
      }
    }
  }

  /** How many messages the dispatch of round `i` publishes, the rounds before having been made. */
  function SentIn(db: Db, batch: nat, answers: nat -> int -> bool, i: nat): nat {
    Successes(Candidates(Rounds(db, batch, First(answers, i)).outbox, batch, {}), answers(i))
  }

  lemma StartOfRounds(db: Db, batch: nat, answers: nat -> int -> bool)
    ensures Rounds(db, batch, First(answers, 0)) == db
  {
  }

  function First(answers: nat -> int -> bool, rounds: nat): seq<int -> bool> {
    seq(rounds, i requires 0 <= i < rounds => answers(i))
  }
}
