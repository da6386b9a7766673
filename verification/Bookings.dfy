/** Reservations: creation from a quote, and one-way cancellation with its refund. */
module Bookings {
  import opened Results
  import opened Words
  import opened Calendar
  import opened Stays
  import opened Moneys
  import opened Pricing

  /** A UUID as an opaque number; 0 is the nil UUID. */
  type Uuid = int

  const NIL: Uuid := 0

  /** Nanoseconds since the zero time. */
  type Instant = int

  const NANOS_PER_HOUR := 3_600_000_000_000

  /** Beyond this many hours the deadline's duration no longer fits an int64. */
  const MAX_EXACT_HOURS := 2562047

  datatype Status = Confirmed | Cancelled

  datatype Booking = Booking(
    id: Uuid,
    reference: string,
    property: Uuid,
    room: Uuid,
    plan: Uuid,
    guest: Uuid,
    stay: Stay,
    guestCount: int,
    status: Status,
    nights: seq<Night>,
    total: Money,
    createdAt: Instant,
    cancelledAt: Option<Instant>)

  datatype NewInput = NewInput(
    property: Uuid,
    room: Uuid,
    plan: Uuid,
    guest: Uuid,
    quote: Quote,
    guestCount: int,
    maxOccupancy: int,
    now: Instant)

  // References

  const PREFIX := "ALB-"

  const ALPHABET := "ABCDEFGHJKLMNPQRSTUVWXYZ23456789"

  const LETTERS := 6

  /** One of the references that can be drawn. */
  predicate IsReference(reference: string) {
    && |reference| == |PREFIX| + LETTERS && reference[..|PREFIX|] == PREFIX
    && forall i :: |PREFIX| <= i < |reference| ==> reference[i] in ALPHABET
  }

  predicate AreBytes(random: seq<int>) {
    forall i :: 0 <= i < |random| ==> 0 <= random[i] < 256
  }

  function Letter(byte: int): char {
    ALPHABET[byte % |ALPHABET|]
  }

  /** The loop over the random bytes. */
  method NewReference(random: seq<int>) returns (reference: string)
    requires |random| == LETTERS && AreBytes(random)
    ensures IsReference(reference)
    ensures forall i :: 0 <= i < LETTERS ==> reference[|PREFIX| + i] == Letter(random[i])
  {
    var b := "";
    for i := 0 to |random|
      invariant |b| == i && forall k :: 0 <= k < i ==> b[k] == Letter(random[k])
    {
      b := b + [Letter(random[i])];
    }
    reference := PREFIX + b;
  }

  lemma PositionOf(letters: string, c: char) returns (i: nat)
    requires c in letters
    ensures i < |letters| && letters[i] == c
  {
    i :| i < |letters| && letters[i] == c;
  }

  lemma LetterIsDrawn(c: char) returns (byte: int)
    requires c in ALPHABET
    ensures 0 <= byte < 256 && Letter(byte) == c
  {
    byte := PositionOf(ALPHABET, c);
    assert |ALPHABET| == 32;
    assert byte % 32 == byte;
  }

  /** Every such reference is drawn from some bytes. */
  lemma EveryReferenceIsDrawn(reference: string) returns (random: seq<int>)
    requires IsReference(reference)
    ensures |random| == LETTERS && AreBytes(random)
    ensures forall i :: 0 <= i < LETTERS ==> reference[|PREFIX| + i] == Letter(random[i])
  {
    hide Letter;
    random := [];
    for i := 0 to LETTERS
      invariant |random| == i && AreBytes(random)
      invariant forall k :: 0 <= k < i ==> reference[|PREFIX| + k] == Letter(random[k])
    {
      var byte := LetterIsDrawn(reference[|PREFIX| + i]);
      random := random + [byte];
    }
  }

  /** `New`, with the identifier and the reference it draws at random passed in. */
  function New(input: NewInput, id: Uuid, reference: string): (r: Result<Booking>) {
    if input.property == NIL || input.room == NIL || input.plan == NIL || input.guest == NIL then Err(MissingIdentifier)
    else if input.guestCount < 1 then Err(InvalidGuestCount)
    else if input.maxOccupancy > 0 && input.guestCount > input.maxOccupancy then Err(OccupancyExceeded)
    else match QuoteError(input.quote)
      case Some(e) => Err(e)
      case None =>
        Ok(Booking(id, reference, input.property, input.room, input.plan, input.guest, input.quote.stay,
                   input.guestCount, Confirmed, input.quote.nights, input.quote.total, input.now, None))
  }

  /** On a quote `Calculate` returned, `New` only ever objects to the identifiers or the head count. */
  lemma NewAcceptsQuotes(input: NewInput, rates: seq<RateDay>, stay: Stay, id: Uuid, reference: string)
    requires QuoteFor(stay, rates) == Ok(input.quote)
    ensures New(input, id, reference).Ok? <==>
            && NIL !in {input.property, input.room, input.plan, input.guest}
            && 1 <= input.guestCount
            && (input.maxOccupancy > 0 ==> input.guestCount <= input.maxOccupancy)
  {
    QuotesValidate(stay, rates);
  }

  function CheckInInstant(stay: Stay): Instant {
    stay.checkIn * NANOS_PER_DAY
  }

  /** `checkIn.Add(-time.Duration(h) * time.Hour)`: negation and product are int64. */
  function Deadline(stay: Stay, hours: int): Instant {
    CheckInInstant(stay) + Wrap64(Wrap64(-hours) * NANOS_PER_HOUR)
  }

  datatype Cancellation = Cancellation(at: Instant, refund: Money, refundable: bool)

  function CancellationError(b: Booking, now: Instant): Option<Error> {
    if b.status == Cancelled then Some(AlreadyCancelled)
    else if !(now < CheckInInstant(b.stay)) then Some(StayStarted)
    else None
  }

  /** What cancelling at `now` refunds. */
  function CancellationAt(b: Booking, now: Instant, hours: int): Cancellation {
    var refundable := now < Deadline(b.stay, hours);
    Cancellation(now, if refundable then b.total else Zero(b.total.currency), refundable)
  }

  function CancelledAt(b: Booking, now: Instant): Booking {
    b.(status := Cancelled, cancelledAt := Some(now))
  }

  /** The reservation object, whose `Cancel` changes its status in place. */
  class Reservation {
    const booked: Booking
    var status: Status
    var cancelledAt: Option<Instant>

    function Value(): Booking
      reads this
    {
      booked.(status := status, cancelledAt := cancelledAt)
    }

    constructor (b: Booking)
      ensures Value() == b
    {
      booked, status, cancelledAt := b, b.status, b.cancelledAt;
    }

    method Cancel(now: Instant, refundableUntilHours: int) returns (r: Result<Cancellation>)
      modifies this
      ensures match CancellationError(old(Value()), now)
              case Some(e) => r == Err(e) && Value() == old(Value())
              case None => r == Ok(CancellationAt(old(Value()), now, refundableUntilHours))
                           && Value() == CancelledAt(old(Value()), now)
      ensures r.Ok? <==> old(status) == Confirmed && now < booked.stay.checkIn * NANOS_PER_DAY
      ensures r.Ok? ==> status == Cancelled && cancelledAt == Some(now)
      ensures r.Err? ==> r.error == (if old(status) == Cancelled then AlreadyCancelled else StayStarted)
    {
      if status == Cancelled {
        return Err(AlreadyCancelled);
      }
      var checkIn := CheckInInstant(booked.stay);
      if !(now < checkIn) {
        return Err(StayStarted);
      }
      var deadline := checkIn + Wrap64(Wrap64(-refundableUntilHours) * NANOS_PER_HOUR);
      var refundable := now < deadline;
      var refund := Zero(booked.total.currency);
      if refundable {
        refund := booked.total;
      }
      status, cancelledAt := Cancelled, Some(now);
      return Ok(Cancellation(now, refund, refundable));
    }
  }

  /** The deadline is the stated number of hours before check-in exactly when that many hours fit a duration.
      Hours come from a 32-bit column that only excludes negatives. */
  lemma DeadlineIsExactIff(stay: Stay, hours: int)
    requires 0 <= hours < 0x8000_0000
    ensures Deadline(stay, hours) == stay.checkIn * NANOS_PER_DAY - hours * NANOS_PER_HOUR <==> hours <= MAX_EXACT_HOURS
  {
    assert Wrap64(-hours) == -hours;
  }

  /** Within exact hours a refund is full if and only if the cancellation comes before the deadline. */
  lemma RefundIff(b: Booking, now: Instant, hours: int)
    requires 0 <= hours <= MAX_EXACT_HOURS
    ensures CancellationAt(b, now, hours).refundable <==> now < b.stay.checkIn * NANOS_PER_DAY - hours * NANOS_PER_HOUR
    ensures CancellationAt(b, now, hours).refundable ==> CancellationAt(b, now, hours).refund == b.total
    ensures !CancellationAt(b, now, hours).refundable ==> CancellationAt(b, now, hours).refund.cents == 0
  {
    DeadlineIsExactIff(b.stay, hours);
  }

  /** Cancelling earlier never refunds less, whatever the hours; and with no notice asked for, every cancellation
      that is allowed at all is fully refunded. */
  lemma EarlierRefundsNoLess(b: Booking, now: Instant, later: Instant, hours: int)
    requires now <= later && 0 <= b.total.cents
    ensures CancellationAt(b, later, hours).refund.cents <= CancellationAt(b, now, hours).refund.cents
    ensures hours == 0 && CancellationError(b, now) == None ==> CancellationAt(b, now, hours).refund == b.total
  {
    assert Wrap64(Wrap64(-0) * NANOS_PER_HOUR) == 0;
  }

  /** One hour too many and the deadline wraps to centuries after check-in: a cancellation one nanosecond before
      check-in is refunded in full although far more notice was asked for. */
  lemma DeadlineWraps(b: Booking)
    requires b.status == Confirmed
    ensures var now := b.stay.checkIn * NANOS_PER_DAY - 1;
            && CancellationError(b, now) == None
            && CancellationAt(b, now, MAX_EXACT_HOURS + 1).refund == b.total
            && !(now < b.stay.checkIn * NANOS_PER_DAY - (MAX_EXACT_HOURS + 1) * NANOS_PER_HOUR)
  {
    var hours := MAX_EXACT_HOURS + 1;
    assert Wrap64(-hours) == -hours;
    assert Wrap64(-hours * NANOS_PER_HOUR) == -hours * NANOS_PER_HOUR + TWO_64;
  }
}
