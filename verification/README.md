# Albergo's booking engine, verified

Albergo sells hotel nights. This project models its transactional core in Dafny and proves what the core keeps true:
making, replaying and cancelling reservations, publishing inventory and rates, searching, and delivering the events of
the outbox, over the tables, constraints and transactions of its PostgreSQL schema.

The model has three layers.

1. **The domain.** `Calendar`, `Stays`, `Moneys`, `Pricing`, `Inventories` and `Bookings` hold the calculations: dates
   and their day numbers, stays of one to thirty nights, int64 cents that wrap, quotes, availability, and the one-way
   cancellation with its refund. Loops are methods, proved against a function whose properties are proved beside them.
2. **The database, one transaction at a time.** `Tables` gives every SQL statement as a function on the stored tables,
   constraints included, and `Transactions` puts them together into `Reserve`, `Cancel`, `SetInventory`, `SetRates` and
   `Dispatch`. `Store` and `Services` are the same in the source's own form: an object whose repository methods change
   its tables in place, row by row, and use cases that begin, commit and roll back. Each method is proved to do what the
   function says. `Stock`, `Effects` and `Consistency` say exactly when a transaction commits, what it then does all at
   once, and that this keeps the agreements between the tables. `Rows`, `Rates`, `ReserveOutcome`, `CancelOutcome`,
   `StockOutcome` and `SearchOutcome` say the same of each operation in terms of the stored rows alone: what is read,
   exactly when it succeeds, every row it writes and leaves alone, and which refusal answers which obstacle.
   `Availability`, `Search`, `Delivery` and `Ledger` compare offers with bookings, and follow the outbox until it is
   drained, message by message.
3. **Any number of transactions, interleaved statement by statement.** `Interleaving` makes each transaction a small
   program with a stage, uncommitted writes and row locks, at READ COMMITTED: plain reads see the latest committed
   tables and take no lock; a statement that writes or locks a row waits for whoever holds it, and then sees the row as
   committed; the dispatcher skips locked rows. Any transaction can be ended from outside at any moment. `Invariants`
   says what is true of a transaction at each stage, `Steps`, `Locks` and `Runs` that its own statements keep that,
   `Stability` that the commits of others do, `Commits` that a commit is one atomic transaction, and `Reachable` that
   every state a run can reach satisfies the invariant of the whole system. `Refinement`, `Guarantees`, `Prices`,
   `Deadlock`, `References` and `Progress` draw the conclusions; `Clashes`, `Circles` and `Example` show how deadlock
   freedom fails, and exactly when; `RateLocks` is the same question for publishing rates; and `Surprises` holds other
   inputs at which the code does not do what one might expect.

Conventions: from `Stays` on, a date is its day number (`Calendar` proves that the two determine each other); a UUID is
a number with 0 for nil; an instant is a number of nanoseconds since the zero time. What a transaction draws from
outside (clock, identifiers, reference, outbox sequence, answers of the sender) is a parameter. Proofs often begin with
`hide`, which only keeps definitions they do not need out of the verifier's sight.

Where code and expectation differ, the code is modelled:

- **Deadlock.** Key, guest or reservation row, inventory by date, new reference is the order in which locks are taken,
  with one exception. PostgreSQL's unique check on a new reference waits for a transaction that is updating the row with
  that reference, so a reservation that has drawn a used reference waits, holding inventory, for a cancellation of that
  reservation, which may be waiting for the same inventory. Every circle of waiting transactions contains such a clash
  (`Deadlock.CirclesClash`), and from each clash in it to the next, the stay cancelled and the stay then booked are of
  one room type and the first begins before the second ends (`Circles.CirclesReach`). For a request that could be booked
  and a reservation that can be cancelled whose reference it draws, that is the exact condition: a run can end with a
  circle that this clash alone closes if and only if the two are of one room type and the stay cancelled begins before
  the stay booked ends (`Circles.CircleIff`). They need not share a night, because a publishing of inventory that runs
  from the one stay into the other closes the circle as well (`Circles.CircleThroughThird`); only for the two to wait
  directly for each other must their stays overlap (`Clashes.PairIff`; `Example.ClashInTheHotel` is a concrete case). On
  the safe side, as long as every reference drawn is neither stored nor pending, nobody ever waits in a circle
  (`References.CarefulRunsHaveNoCircle`), and with enough such references left all unfinished transactions can be run to
  their ends (`Progress.AllFinish`). Publishing rates locks rows that nothing else locks, in the order of the request:
  two such requests can come to wait for each other if and only if the first row each shares with the other is not the
  same (`RateLocks.RatesPairIff`), and requests by ascending date, however many, never wait in a circle
  (`RateLocks.ByDateHasNoCircle`).
- **Refund deadline.** The duration of the notice wraps beyond 2562047 hours (`Bookings.DeadlineIsExactIff`,
  `Bookings.DeadlineWraps`); the schema bounds the hours only from below.
- **Totals.** Money is added without an overflow check. A total is the true sum if and only if that sum fits an int64
  (`Pricing.TotalIsExactIff`, `Consistency.StoredTotalIsExactIff`), and an offer can be booked if and only if its total
  has not wrapped below zero (`Search.OfferCanBeBooked`): two nights at 4611686018427387904 cents are offered and
  refused (`Surprises.NegativeOffer`), four are offered and booked for nothing (`Surprises.FreeOffer`). Prices up to
  307445734561825860 cents keep totals exact, over whole runs (`Search.OffersInBound`, `Prices.TotalsStayExact`).
- **Rate plans.** Booking checks the plan's room type but not its property, so a booking was on offer if and only if the
  plan belongs to the property (`Search.BookedIsOfferedIff`, `Surprises.ForeignPlanBooked`).
- **Sixteen bits.** Allotments and minimum stays are cut to sixteen bits without a check: what is stored is what was
  asked for if and only if it is at most 32767 (`Effects.PublishedAllotmentIff`, `Effects.PublishedRateIff`), and asking
  for 65541 units publishes five (`Effects.AllotmentWraps`).
- **Recording a key.** `Record` does not ask whose row it updates. A reservation that took its claim for fresh without a
  row would be rejected if and only if nobody has committed a row under its key
  (`Guarantees.UnclaimedIsRejectedIff`), but no reachable state holds one (`Guarantees.NobodyIsUnclaimed`).

## Model

| member | source | states |
|---|---|---|
| Calendar.NumberOfDate | internal/domain/shared/date.go:15-18 | Every day number is that of a valid proleptic Gregorian date |
| Calendar.DateOfNumber | internal/domain/shared/date.go:11-18 | Normalising the instant of a valid date gives that date back, so dates and day numbers determine each other |
| Calendar.ComparesAsCalendar | internal/domain/shared/date.go:46-49 | Comparing instants orders valid dates by year, then month, then day |
| Calendar.AddDaysIsAddition | internal/domain/shared/date.go:44 | Adding days, by overflowing the day of the month, moves the day number by exactly that many, for any date and any number |
| Calendar.AddDaysComposes | internal/domain/shared/date.go:44 | Steps of days compose |
| Calendar.DaysBetweenSaturates | internal/domain/shared/date.go:52-54 | Counting days through a saturating duration is the true distance within 106751 days and sticks at that bound outside |
| Calendar.DaysUntilAddDays | internal/domain/shared/date.go:44-54 | Counting the days to a date n days away gives n if and only if n is within 106751 either way |
| Stays.NewStay | internal/domain/shared/stay.go:12-23 | Two dates make a stay if and only if neither is the zero date and their true distance is 1 to 30 days; the too-long error is given exactly beyond 30, even where the subtraction saturates |
| Stays.StayOfDaysIsNewStay | internal/domain/shared/stay.go:12-23 | On dates read from the database the check on day numbers is the same one |
| Stays.NightsIsDayCount | internal/domain/shared/stay.go:27 | The number of nights is the saturating day count between the ends |
| Stays.Dates | internal/domain/shared/stay.go:29-35 | The loop over dates stops and yields exactly the dates of the nights, consecutive and in order |
| Stays.DaysOf | internal/domain/shared/stay.go:29-39 | The nights are as many as counted, and precisely the days the stay contains |
| Stays.OverlapIsSharedNight | internal/domain/shared/stay.go:41-43 | Two stays overlap if and only if some night is slept in both |
| Pricing.Calculate | internal/domain/pricing/pricing.go:27-71 | The loops compute the quote function, error for error |
| Pricing.CalculateSucceedsIff | internal/domain/pricing/pricing.go:27-71 | A stay is quoted if and only if arrival and departure are open, every night has a rate, all in one non-empty currency, and the minimum stay is met; the quote lists each night's price in order and the wrapped sum |
| Pricing.TotalIsExactIff | internal/domain/shared/money.go:50-61 | The total of a quote is the true sum of its nights if and only if that sum fits an int64 |
| Pricing.TotalIsExact | internal/domain/pricing/pricing.go:43-63 | With prices up to 307445734561825860 the total is the true sum |
| Pricing.WindowIsEnough | internal/domain/pricing/pricing.go:27-71 | Of any list of rates only the entries from check-in to check-out, both included, matter to a quote (that these are the rows read is `Rates.RatesReadAre`) |
| Pricing.RefusalsAre | internal/domain/pricing/pricing.go:33-68 | Which refusal answers which obstacle, the first that applies: arrival closed, departure closed, the first night without a rate, without a currency or in another one, too few nights |
| Pricing.Validate | internal/domain/pricing/pricing.go:73-94 | The loop recomputes the total, error for error |
| Pricing.ValidatesIff | internal/domain/pricing/pricing.go:73-94 | A quote passes if and only if it has as many nights as its stay, all in one currency, and for its total their sum in int64 arithmetic |
| Pricing.QuotesValidate | internal/domain/pricing/pricing.go:27-94 | Every quote calculated passes validation, whatever the rates and even when the sum wraps |
| Inventories.Check | internal/domain/inventory/inventory.go:18-38 | The loops find the first night that lacks units, error for error |
| Inventories.FirstLackIff | internal/domain/inventory/inventory.go:28-37 | There is no complaint if and only if every night has a row with enough units |
| Inventories.LackIs | internal/domain/inventory/inventory.go:28-37 | The first night that lacks units gives the complaint: a missing row, or too few units |
| Bookings.NewAcceptsQuotes | internal/domain/booking/reservation.go:46-76 | On a calculated quote creation objects only to a missing identifier or the head count, never to the quote |
| Bookings.NewReference | internal/domain/booking/reservation.go:111-121 | The loop turns six random bytes into a prefix and six letters of the alphabet |
| Bookings.EveryReferenceIsDrawn | internal/domain/booking/reservation.go:111-121 | Every such reference is drawn from some bytes |
| Bookings.Reservation.Cancel | internal/domain/booking/reservation.go:84-107 | Cancelling in place changes status and time exactly when the reservation is confirmed and check-in has not begun, and otherwise changes nothing |
| Bookings.DeadlineIsExactIff | internal/domain/booking/reservation.go:94 | The refund deadline is the stated hours before check-in if and only if these are at most 2562047 |
| Bookings.DeadlineWraps | internal/domain/booking/reservation.go:94-100 | One hour more, and a cancellation one nanosecond before check-in is refunded in full |
| Bookings.RefundIff | internal/domain/booking/reservation.go:94-100 | Within that bound the refund is the whole total if and only if the cancellation comes before the deadline, and nothing otherwise |
| Bookings.EarlierRefundsNoLess | internal/domain/booking/reservation.go:89-100 | Cancelling earlier never refunds less, and with no notice asked for every allowed cancellation is refunded in full |
| Stock.RowCountIsCoverage | internal/adapter/postgres/inventory.go:91-93 | As many rows as nights if and only if every night has a row |
| Stock.MoveSucceedsIff | internal/adapter/postgres/inventory.go:62-95 | Moving counters succeeds if and only if every night has a row that can take the change, and then changes just those rows |
| Stock.CheckAgreesWithMove | internal/domain/inventory/inventory.go:18-38 | For any smallint number of units the statement succeeds if and only if the domain check has no complaint about the rows it reads |
| Stock.FailuresDiffer | internal/adapter/postgres/inventory.go:83-95 | When both fail they may complain of different things: a stay with one night missing and one sold out |
| Stock.MoveAloneIsPartial | internal/adapter/postgres/inventory.go:83-95 | On its own the statement is not all or nothing: with one night missing the other is updated although it fails |
| Stock.UpsertErrorIff | internal/adapter/postgres/inventory.go:51-60 | Publishing an allotment succeeds if and only if it is not negative and covers what is booked on every day |
| Store.Database.Begin | internal/adapter/postgres/db.go:40-51 | Beginning remembers the tables, or joins the transaction already open |
| Store.Database.End | internal/adapter/postgres/db.go:51-60 | Only the transaction that began commits or restores the tables as they were |
| Store.Database.Claim | internal/adapter/postgres/idempotency.go:22-46 | Claiming inserts the key row if it is free and reports it otherwise |
| Store.Database.Record | internal/adapter/postgres/idempotency.go:48-59 | Recording writes the reservation into the key row, and fails without one |
| Store.Database.Greet | internal/adapter/postgres/guests.go:18-30 | There is one guest row per address, which keeps its identifier |
| Store.Database.Allotments | internal/adapter/postgres/inventory.go:20-49 | The row loop returns the rows of the stay in order of date |
| Store.Database.Move | internal/adapter/postgres/inventory.go:62-95 | The row loop updates first and counts afterwards: a broken constraint undoes the statement, a wrong count leaves the updates to the rollback |
| Store.Database.UpsertAllotment | internal/adapter/postgres/inventory.go:51-60 | The day loop writes the allotment of every day, keeping what is booked, or changes nothing |
| Store.Database.Rates | internal/adapter/postgres/rates.go:20-62 | The row loop returns the window in order of date, or fails on a row that is no money |
| Store.Database.UpsertRates | internal/adapter/postgres/rates.go:64-95 | The loop turns the entries into rows; a date given twice or a rejected row changes nothing |
| Store.Database.Create | internal/adapter/postgres/reservations.go:22-52 | The reservation, its reference and its nights are inserted, or the constraint that forbids it is reported |
| Store.Database.ByID | internal/adapter/postgres/reservations.go:58-145 | The row is checked again and its nights are read in order of date |
| Store.Database.ByReference | internal/adapter/postgres/reservations.go:63-81 | Reading by reference is reading the reservation the unique index points at |
| Store.Database.Cancel | internal/adapter/postgres/reservations.go:147-161 | The guarded update changes a row that is still confirmed, and reports any other as already cancelled |
| Store.Database.Publish | internal/adapter/postgres/outbox.go:22-32 | The event is inserted under its own number |
| Store.Database.Dispatch | internal/adapter/postgres/outbox.go:34-93 | The send loop marks exactly the claimed messages, each with the outcome of its send, and counts the successes |
| Store.SuccessesCount | internal/adapter/postgres/outbox.go:75-87 | The number it returns is that of the claimed messages sent with success |
| Services.ReservationService.Reserve | internal/app/reserve.go:45-94 | The use case, statement by statement, is the reserve transaction: committed as a whole, or the tables as before; inside an open transaction it joins |
| Services.ReservationService.MakeBooking | internal/app/reserve.go:96-156 | The booking steps run in order, with the errors of each |
| Services.ReservationService.Cancel | internal/app/reserve.go:167-217 | The use case is the cancel transaction, committed as a whole or not at all |
| Services.StaffService.SetInventory | internal/app/staff.go:28-39 | The checks and the upsert are the publishing transaction |
| Services.StaffService.SetRates | internal/app/staff.go:41-79 | The checking loop and the upsert are the rate transaction |
| Services.Dispatcher.Drain | internal/worker/dispatcher.go:28-41 | The immediate retries end, for any answers of the sender: every round but the last sent a full batch, and the last did not |
| Effects.PlaceEffect | internal/app/reserve.go:149-155 | Inventory and reservation are written if and only if every night can take a unit and the new rows are acceptable and unused |
| Effects.ReserveEffect | internal/app/reserve.go:45-94 | Under an unused key a reservation commits if and only if it can be booked, and then writes key, guest, counters, reservation, reference, nights and event at once; otherwise the tables stay as they were |
| Effects.ReplayEffect | internal/app/reserve.go:54-69 | Under a used key nothing changes; the stored reservation is returned if and only if the hash matches, and another hash is refused |
| Effects.CancelEffect | internal/app/reserve.go:167-217 | A cancellation commits if and only if it can be made, and then writes status, counters and event at once; otherwise the tables stay as they were |
| Effects.PublishedAllotmentIff | internal/adapter/postgres/inventory.go:51-60 | A publishing that succeeds stores the units asked for if and only if they are at most 32767, and their low sixteen bits otherwise |
| Effects.AllotmentWraps | internal/adapter/postgres/inventory.go:58 | Asking for 65541 units succeeds and publishes five |
| Effects.PublishedRateIff | internal/adapter/postgres/rates.go:64-95 | Rates published are stored as asked for, the minimum stay if and only if it is at most 32767 |
| Rows.RowsRead | internal/adapter/postgres/reservations.go:58-145 | By identifier and by reference, what is read is the stored row, field by field, with its stored nights in order; it is found if and only if it is stored |
| Rates.RatesReadAre | internal/adapter/postgres/rates.go:20-62 | The rates read are exactly the stored rows of the plan from the first day to the last, both included, by ascending date and as stored; the reading fails if and only if one of them is no money |
| Rates.QuotedIff | internal/domain/pricing/pricing.go:27-71 | From the rows read a stay is quoted if and only if every night has a row, the first can be arrived on and asks for no more nights, and the day of departure, if it has a row, can be left on; each night at its stored price |
| Rates.RefusedQuote | internal/domain/pricing/pricing.go:33-68 | Otherwise the refusal is that of the first obstacle among the stored rows |
| Rates.WiderWindowQuotesTheSame | internal/adapter/postgres/rates.go:26 | Reading a wider window gives the same quote |
| Rates.SetRatesIff | internal/app/staff.go:41-79 | Publishing rates succeeds if and only if there are entries, plan and room type are known, every entry has a date, a minimum stay and a price that is money, no date comes twice and no minimum stay wraps below one |
| Rates.RefusedRates | internal/app/staff.go:41-79 | Which refusal answers which request, the first entry that is not accepted giving the complaint |
| Rates.PublishedRates | internal/adapter/postgres/rates.go:84-91 | A publishing stores what was asked for on the dates asked for, and leaves every other rate of this and every other plan as it is; one that fails changes nothing |
| StockOutcome.SetInventoryIff | internal/app/staff.go:28-39 | Publishing inventory succeeds if and only if the number is not negative, in sixteen bits either, the range is not empty, the room type is known and everything booked fits; otherwise the first of these that fails gives the answer |
| StockOutcome.SetInventoryWrites | internal/adapter/postgres/inventory.go:51-60 | It stores the units on every day of the range, keeps what is booked, and touches no other slot and no other table |
| ReserveOutcome.ReserveIff | internal/app/reserve.go:45-156 | A request under an unused key succeeds if and only if room type and plan are known and belong together, the stored rates are open for the stay, the party fits, the total has not wrapped below zero, a unit is left on every night, and nothing drawn is in use; otherwise nothing changes |
| ReserveOutcome.ReserveWrites | internal/app/reserve.go:63-156 | It then records the key, the guest, the reservation as asked for at the total of the stored prices, its reference, and one event waiting to be sent that says so |
| ReserveOutcome.ReserveStoresNights | internal/adapter/postgres/reservations.go:36-52 | It stores exactly the nights of the stay, each at its stored price |
| ReserveOutcome.ReserveTakesUnits | internal/adapter/postgres/inventory.go:79-95 | It takes one unit of each night of the stay, and changes no other slot and no allotment |
| ReserveOutcome.ReserveReplays | internal/app/reserve.go:48-62 | Under a used key nothing is written: the same request gets the stored reservation, another one is refused |
| ReserveOutcome.RefusedByCatalogue | internal/app/reserve.go:96-114 | Which refusal answers an unknown or mismatched room type or plan |
| ReserveOutcome.RefusedByRates | internal/app/reserve.go:116-124 | Which refusal answers the stored rates |
| ReserveOutcome.RefusedParty | internal/domain/booking/reservation.go:46-56 | Which refusal answers the party |
| ReserveOutcome.RefusedRows | internal/adapter/postgres/inventory.go:79-95 | Which refusal answers a night that is full or has no row, a head count or total the row does not take, and what is in use already |
| CancelOutcome.CancelIff | internal/app/reserve.go:167-217 | In agreeing tables a cancellation succeeds if and only if the reference is stored, its row is confirmed, now is before midnight of its check-in day, and the number of the event is unused; otherwise the first of these that fails gives the answer, and nothing changes |
| CancelOutcome.CancelWrites | internal/app/reserve.go:180-212 | It then marks that row cancelled now and no other, gives back one unit of each night and of no other slot, and inserts one event, waiting to be sent, that says so |
| CancelOutcome.CancelRefunds | internal/domain/booking/reservation.go:94-106 | Where the hours of the reservation's own plan fit a duration, the whole stored total is refunded if and only if now is that many hours before midnight of check-in day, and nothing otherwise |
| Ledger.ClaimedAre | internal/adapter/postgres/outbox.go:41-51 | A dispatch claims unpublished messages tried fewer than five times that nobody else holds, by number, as many as there are up to the batch, and none it leaves out comes before one it claims |
| Ledger.DispatchOutcome | internal/adapter/postgres/outbox.go:72-87 | A claimed message whose send succeeds is published with its attempts as they were; one whose send fails stays unpublished with one attempt more; nothing else changes |
| Ledger.RoundsOutcome | internal/adapter/postgres/outbox.go:72-87 | Over any rounds a message becomes published if and only if one of its sends succeeds, and its attempts grow by the number of its failed sends |
| Ledger.EveryMessageIsTried | internal/worker/dispatcher.go:28-47 | After as many rounds as attempts are left every message has been sent with success or has failed five times |
| Ledger.ReservedEvent | internal/adapter/postgres/outbox.go:28 | The event of a reservation that commits is inserted unpublished, with no attempts, and no other message changes |
| Ledger.CancelledEventInserted | internal/adapter/postgres/outbox.go:28 | So is that of a cancellation |
| Consistency.FreshlyMigrated | migrations/00001_init.sql:42-109 | The tables agree when they are created |
| Consistency.BookingKeepsConsistency | internal/app/reserve.go:71-88 | A committed reservation keeps all agreements: counters with reservations, references, records, keys, events, guests |
| Consistency.CancellingKeepsConsistency | internal/app/reserve.go:170-212 | So does a committed cancellation whose event is numbered after the confirmation |
| Consistency.UpsertKeepsConsistency | internal/adapter/postgres/inventory.go:51-60 | So does publishing an allotment |
| Consistency.MarkKeepsEvents | internal/adapter/postgres/outbox.go:72-87 | So does marking messages as sent or failed |
| Consistency.ReleaseNeverFails | internal/adapter/postgres/inventory.go:79-95 | Every night of a confirmed reservation has a row with something booked, so releasing it cannot fail |
| Consistency.CanCancelIff | internal/app/reserve.go:170-208 | In agreeing tables the writes of a cancellation can be made if and only if the reference is stored and its row is confirmed and begins, at midnight of its check-in day, after now |
| Consistency.StoredReservationsRead | internal/adapter/postgres/reservations.go:68-145 | Every stored reservation can be read back |
| Consistency.StoredPricesAddUp | internal/adapter/postgres/reservations.go:120-145 | A stored reservation has exactly the days of its stay as nights, in order, and a total its nights add up to in int64 arithmetic |
| Consistency.StoredTotalIsExactIff | internal/domain/shared/money.go:50-61 | A stored total is the true sum of its nights if and only if that sum fits an int64 |
| Consistency.StoredTotalIsExact | internal/domain/pricing/pricing.go:43-63 | It is when every stored night is at most 307445734561825860 |
| Consistency.CreateThenRead | internal/adapter/postgres/reservations.go:22-66 | A reservation just created is read by identifier and by reference as it was drafted, whatever rates are published later |
| Consistency.RefundsWithinTotals | internal/app/reserve.go:198-208 | The refunds announced never exceed the totals booked |
| Availability.CountUnitsLeft | internal/app/availability.go:88-104 | The loop finds the least availability over the nights, or zero when a row is missing |
| Availability.UnitsLeftIff | internal/app/availability.go:88-104 | At least k units are left if and only if k units can be taken of every night |
| Availability.UnitsLeftDrops | internal/adapter/postgres/inventory.go:83-95 | Taking a unit leaves exactly one fewer |
| Availability.UnitsLeftIsExact | internal/app/availability.go:88-104 | When k units are left and nothing else runs, of any number of further valid reservations exactly the first k succeed and all after them are refused |
| Search.SearchOffers | internal/app/availability.go:32-86 | The loops compute the offers, plan by plan, error for error |
| Search.OfferedIff | internal/app/availability.go:50-85 | The offers are exactly the plans of the property with a fitting room type, a quote and a unit left |
| Search.OfferCanBeBooked | internal/app/reserve.go:96-156 | Every offer can be booked at the offered price, with a valid guest and nothing reused, if and only if its total has not wrapped below zero |
| Search.OffersInBound | internal/domain/shared/money.go:50-61 | With published prices in bound no offered total has wrapped |
| Search.SearchSucceeds | internal/app/availability.go:32-86 | Over the schema's tables the search of a property with a room type and a proper currency always succeeds |
| Search.BookedIsOfferedIff | internal/app/reserve.go:96-156 | Whatever is booked was on offer at that price, in a search that succeeds, if and only if its plan belongs to the property |
| SearchOutcome.OfferedIffOnSale | internal/app/availability.go:32-86 | A search that succeeds offers a plan with a room type if and only if both are of the property, belong together and sleep the party, the stored rates are open for the stay, and a unit is left on every night |
| SearchOutcome.OfferSays | internal/app/availability.go:62-104 | An offer lists each night at its stored price, and as many units as are left on every night |
| SearchOutcome.SearchFails | internal/app/availability.go:33-73 | When a search fails, and how: for nobody, for no room types, and for a rate of the stay, of a plan it considers, that is no money |
| SearchOutcome.OfferedInOrder | internal/app/availability.go:55-85 | Offers come in the order of their plans, each plan at most once |
| Surprises.NegativeOffer | internal/domain/shared/money.go:60 | Two nights at 4611686018427387904 cents are offered at a negative total, and booking them is refused |
| Surprises.FreeOffer | internal/domain/shared/money.go:60 | Four such nights are offered and booked for nothing |
| Surprises.ForeignPlanBooked | internal/app/reserve.go:107-114 | A night is booked on the rate plan of another property, under which it is not on offer |
| Delivery.MarkingLowers | internal/adapter/postgres/outbox.go:34-93 | Every committed dispatch lowers the attempts left over all messages by at least the number it claimed, beside any other dispatcher |
| Delivery.EverythingSettles | internal/worker/dispatcher.go:28-47 | Without new events, after as many dispatches as attempts were left every message is published or has failed exactly five times |
| Delivery.PotentialIsBounded | internal/adapter/postgres/outbox.go:14 | There are at most five attempts left for each message |
| Delivery.DispatchersSpend | internal/adapter/postgres/outbox.go:34-93 | Along any run without new events, from any reachable state, the dispatches that commit claim no more messages than there were attempts left, interleaved in any way |
| Delivery.InterleavedDispatchesEnd | internal/worker/dispatcher.go:28-47 | So no more dispatches than that commit a claim, and when as many messages have been claimed none is left to claim |
| Steps.ReleaseSucceeds | internal/app/reserve.go:186-191 | A cancellation past its guard never fails to release |
| Locks.NewLocks | internal/adapter/postgres/inventory.go:62-73 | A statement takes no lock but those it has waited for, those of rows it has just drawn, and messages nobody else holds |
| Runs.StepKept | internal/app/reserve.go:45-217 | Every statement of every transaction keeps its uncommitted writes what its statements so far would write on the tables as now committed, or ends it |
| Stability.TxOkStays | internal/adapter/postgres/db.go:46 | The commits of others leave that true, because they cannot write the rows a transaction holds |
| Reachable.NextKeeps | internal/adapter/postgres/db.go:40-61 | Every action of the interleaved system keeps its invariant |
| Refinement.StepRefines | internal/app/reserve.go:45-217 | In every reachable state a commit is one atomic reserve, replay, cancel, publish or mark on the tables as committed at that moment, answered as that transaction answers, refund included; every other step and every rollback changes nothing |
| Refinement.RunRefines | internal/adapter/postgres/db.go:40-61 | The committed states of a run are those of a sequence of atomic transactions, each that of the action taken and answered as it answers |
| Ledger.CommitWrites | internal/adapter/postgres/outbox.go:72-91 | Beside any other transactions, a dispatch that commits writes each message it claimed as published, or as tried once more, and no other message and no other table |
| Ledger.SendDecides | internal/adapter/postgres/outbox.go:75-89 | In any run, a dispatch that commits has sent every message it claimed, and the answer to that send alone decides whether the message is published or has one attempt more |
| Ledger.RunAccounts | internal/adapter/postgres/outbox.go:28-89 | Along any run a message becomes published if and only if a dispatch commits whose send of it succeeded, and its attempts grow by the number of those whose send failed; a new one starts unpublished with none |
| Ledger.WasClaimed | internal/adapter/postgres/outbox.go:41-89 | A message inserted in a run that is published or has attempts was claimed by a dispatch that committed since |
| Guarantees.RunInv | internal/adapter/postgres/db.go:40-61 | The invariant holds in every state of every run |
| Guarantees.Conservation | migrations/00001_init.sql:42-49 | In every reachable state every counter is the number of confirmed reservations that sleep there that night, zero without a row, and lies between zero and its allotment |
| Guarantees.RunEvolves | migrations/00001_init.sql:62-109 | Over a run no row is lost; keys, guests, references and nights never change, a reservation only goes from confirmed to cancelled, a published message never changes |
| Guarantees.StoredPricesPersist | internal/adapter/postgres/reservations.go:45-52 | A stored reservation can be read at any later time with the same stay, nights and total, whatever rates are published in between |
| Guarantees.OneReservationPerKey | internal/app/reserve.go:48-89 | All successes under one key, at any times of a run, had the same request and return the same reservation, and only one of them made it |
| Guarantees.KeysMatchReservations | internal/adapter/postgres/idempotency.go:48-59 | Every committed key points at a stored reservation, and no two at the same |
| Guarantees.FailedAttemptFreesKey | internal/app/reserve.go:48-74 | An attempt that fails, at any statement or from outside, leaves its key free: the next claimer does not wait and owns it |
| Guarantees.NeverInProgress | internal/app/reserve.go:54-61 | A key is never found in progress, and never reported fresh without its row |
| Guarantees.UnclaimedStays | internal/adapter/postgres/idempotency.go:40-46 | A reservation that took its claim for fresh without a row gets none before it records its key |
| Guarantees.UnclaimedIsRejectedIff | internal/adapter/postgres/idempotency.go:48-59 | The recording rejects it if and only if nobody has committed a row under its key; otherwise it takes that row over |
| Guarantees.NobodyIsUnclaimed | internal/adapter/postgres/idempotency.go:40-42 | No reachable state holds such a reservation |
| Guarantees.CancelledOnce | internal/adapter/postgres/reservations.go:147-161 | Of all cancellations of a reservation, at any times of a run, at most one commits |
| Guarantees.OneCancelsAtATime | internal/adapter/postgres/reservations.go:148-151 | However many have read it as confirmed, only one cancellation at a time gets past the guard |
| Guarantees.WinnerReleases | internal/app/reserve.go:186-191 | The one that does never fails to release its units |
| Guarantees.LosersFail | internal/adapter/postgres/reservations.go:157-159 | The others find the reservation already cancelled |
| Guarantees.ClaimsAreDisjoint | internal/adapter/postgres/outbox.go:41-51 | Concurrent dispatchers claim disjoint messages, none of them published |
| Guarantees.PublishedStays | internal/adapter/postgres/outbox.go:72-87 | A published message stays as it is and is never claimed again |
| Guarantees.EventsCorrespond | internal/app/reserve.go:79-85 | In every reachable state a reservation has exactly one confirmed event, and exactly one cancelled event, with a larger number, if and only if it is cancelled |
| Guarantees.EventsTell | internal/app/events.go:28-41 | In every reachable state an event tells the reservation as stored (reference, stay, head count, total), with the status it announces, and refunds the whole total if it says so and nothing otherwise |
| Guarantees.RefundsStayWithinTotals | internal/app/reserve.go:198-208 | In every reachable state the refunds announced stay within the totals booked |
| Prices.TotalsStayExact | internal/domain/pricing/pricing.go:43-63 | In a run whose published prices stay within 307445734561825860, every stored total is the true sum of its nights |
| Guarantees.RatesWereRead | internal/app/reserve.go:116-119 | A reservation is priced at the rates of some earlier state of the run |
| Deadlock.WaitingGoesUp | internal/app/reserve.go:48-156 | Waiting follows the lock order, but for a reservation that waits for the cancellation of a reservation whose reference it has drawn |
| Deadlock.CirclesClash | internal/adapter/postgres/inventory.go:62-73 | Transactions waiting in a circle contain such a clash |
| Deadlock.StuckMeansCircle | internal/adapter/postgres/inventory.go:62-73 | If somebody is running and nobody can step, some wait for each other in a circle |
| Deadlock.SomebodyCanStep | internal/app/reserve.go:48-217 | As long as nobody waits in a circle, some unfinished transaction can execute its next statement |
| Deadlock.PairsOverlap | internal/app/reserve.go:149-191 | Two transactions wait for each other only when one books and one cancels, under one reference, in the same room type and for overlapping stays |
| References.NextKeepsApart | internal/domain/booking/reservation.go:62-64 | Every action that draws only references neither stored nor pending keeps pending references apart from each other and from those stored |
| References.CarefulRunsHaveNoCircle | internal/app/reserve.go:48-217 | In a run of such actions nobody ever waits in a circle |
| Progress.StepLowers | internal/app/reserve.go:45-217 | Every statement leaves a transaction fewer statements to go |
| Progress.SchedulesEnd | internal/app/reserve.go:45-217 | Without new transactions no schedule goes on for ever |
| Progress.AllFinishOrCircle | internal/app/reserve.go:45-217 | From every reachable state the unfinished transactions can be run, none ended from outside, until all have ended or all that are left wait, some of them in a circle |
| Progress.AllFinish | internal/app/reserve.go:45-217 | While pending references are apart, and as many references as there are reservations yet to draw one can be drawn and are neither stored nor pending, all transactions can be run to their ends with distinct ones of these drawn |
| Clashes.DeadlockHappens | internal/adapter/postgres/reservations.go:29-36 | Whenever a bookable request draws the reference of a cancellable reservation of the same room type for an overlapping stay, a run leads the two into waiting directly for each other |
| Clashes.PairIff | internal/adapter/postgres/reservations.go:29-36 | Of a bookable request and a cancellable reservation whose reference it draws, a run can end with the two waiting directly for each other if and only if they share a room type and a night; a longer circle needs less |
| Circles.WalkToRequest | internal/adapter/postgres/inventory.go:62-73 | Who holds a slot waits, through any others but a clash, only for a reservation of that room type that stays beyond it |
| Circles.CirclesReach | internal/app/reserve.go:149-191 | In every circle each cancellation that a reservation waits for under its reference, and the next reservation round the circle that waits so, share a room type, and the stay cancelled begins before the stay booked ends |
| Circles.LoneClashReaches | internal/app/reserve.go:149-191 | A circle with a single clash takes a reservation and a cancellation under one reference, of one room type, the stay cancelled beginning before the stay booked ends |
| Circles.CircleThroughThird | internal/app/staff.go:28-39 | Where the stay cancelled is over before the stay booked begins, a publishing of inventory across both closes a circle of three |
| Circles.CircleIff | internal/adapter/postgres/reservations.go:29-36 | Of a bookable request and a cancellable reservation whose reference it draws, a run can end with a circle that their clash alone closes if and only if they share a room type and the stay cancelled begins before the stay booked ends |
| Example.ClashInTheHotel | internal/app/reserve.go:152-189 | A concrete hotel in which this happens |
| RateLocks.ByDateHasNoCircle | internal/adapter/postgres/rates.go:83-93 | Any number of requests to publish rates, each by ascending date, never wait for each other in a circle |
| RateLocks.RatesPairIff | internal/adapter/postgres/rates.go:83-93 | Two requests to publish rates can come to wait for each other if and only if the first row each shares with the other is not the same |

## Left out

- REST handlers, JSON, authentication, problem documents, logging, configuration, the migrations runner and deployment:
  plumbing around the core.
- Failures of PostgreSQL, the network and the driver, deadlock detection included: any of them is a transaction ended
  from outside at an arbitrary moment.
- Identifiers are assumed never to be drawn twice; references may be. How either is drawn at random is not modelled.
- SHA-256 of the request body, parsing of addresses, and text forms of dates: opaque values, or the outcome of the check
  as a parameter.
- `ListByProperty`; the texts of errors; time stamps below the nanosecond.
- Store.Database.Greet: keeps one row per address with its identifier, but not the name and telephone number that the
  upsert overwrites; nothing in the core depends on them.
- The order in which one UPDATE or upsert meets the constraints of several rows is taken to be the order of dates; which
  of two complaints is reported first may differ in PostgreSQL, success and failure do not.
- The reservation row and its nights are two statements in the source and one step of the interleaved model; only the
  first can wait.
- Reads of what never changes once committed are one step of the interleaved model together with the read they
  accompany: the catalogue with the rates, a reservation with its nights and its plan.
- The catalogue (properties, room types, rate plans) does not change, and deleting rows is not modelled: the source has
  no statement for either.
- In the interleaved model `SetRates` is one step, without its locks. Only another `SetRates` locks the same rows, so
  these locks are followed on their own, in `RateLocks`.
- The interval between rounds of the dispatcher, the order of delivery, and exactly-once sending: a failed send is passed
  over and a rolled-back batch is sent again.
- Deadlock.SomebodyCanStep: is about the lock waits of the modelled statements; a real clash is resolved by PostgreSQL
  ending one of the two, which the model allows at any moment but does not force.
