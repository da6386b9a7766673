/** Exact totals over runs: while the prices published stay in bound, every stored total is the true sum of its nights. */
module Prices {
  import opened Results
  import opened Words
  import opened Calendar
  import opened Pricing
  import opened Bookings
  import opened Tables
  import opened Transactions
  import opened Effects
  import opened Consistency
  import opened Interleaving
  import opened Invariants
  import opened Commits
  import opened Reachable
  import opened Guarantees
  import Search

  ghost predicate AllInBound(nights: map<Uuid, map<Day, Int64>>) {
    forall id :: id in nights ==> NightsInBound(nights[id])
  }

  lemma ReadRatesInBound(db: Db, plan: Uuid, from: Day, until: Day)
    requires Search.PricesInBound(db.rates) && ReadRates(db, plan, from, until).Ok?
    ensures var m := Pricing.ByDate(ReadRates(db, plan, from, until).value);
            forall d | d in m :: 0 <= m[d].price.cents <= MAX_EXACT_PRICE
  {
    hide Search.PricesInBound, RateWindow, RateDays;
    var found := FindPlan(db.catalog.plans, plan);
    if found.Ok? && found.value.property in db.catalog.currencies {
      Search.WindowDays(db.rates, plan, from, until);
      Search.RateDaysInBound(db.rates, plan, db.catalog.currencies[found.value.property],
                             Collections.Ascending(RateWindow(db.rates, plan, from, until)));
    }
    Search.ByDateInBound(ReadRates(db, plan, from, until).value);
  }

  /** The nights of a reservation priced at rates in bound are in bound. */
  lemma PlannedInBound(catalog: Catalog, input: ReserveInput, rates: seq<RateDay>, guest: Uuid, d: Draws)
    requires Planned(catalog, input, Ok(rates), guest, d).Ok?
    requires forall day | day in Pricing.ByDate(rates) :: Pricing.ByDate(rates)[day].price.cents <= MAX_EXACT_PRICE
    ensures NightsInBound(NightRows(Planned(catalog, input, Ok(rates), guest, d).value.nights))
  {
    hide Planned, QuoteFor, Sellable;
    PlannedFacts(catalog, input, Ok(rates), guest, d);
    CalculateSucceedsIff(input.stay, rates);
    Search.SellableNights(input.stay, Pricing.ByDate(rates));
    NightRowsOf(Pricing.ByDate(rates), input.stay.checkIn, input.stay.checkOut);
  }

  /** A commit adds at most the nights of its own reservation. */
  lemma CommitAddsNights(s: Sys, t: TxId)
    requires Inv(s) && IsRunning(s, t) && s.txs[t].stage == Ending && AllInBound(s.db.nights)
    requires s.txs[t].program.Reserving? && s.txs[t].owned && s.txs[t].rates.Ok? ==>
               forall d | d in Pricing.ByDate(s.txs[t].rates.value) ::
                 Pricing.ByDate(s.txs[t].rates.value)[d].price.cents <= MAX_EXACT_PRICE
    ensures AllInBound(Commit(s, t).db.nights)
  {
    hide Consistent, Exclusive, AllDrawn, History, Apply, NightsInBound, FreshOk, ReplayOk, CancelOk, StockingOk, DispatchOk;
    var tx := s.txs[t];
    match tx.program
    case Reserving(input) =>
      if FreshOk(s.db, tx) {
        FreshAddsNights(s.db, tx);
      } else {
        ReplayCommit(s.db, tx);
      }
    case Cancelling(_) => CancelCommit(s.db, tx, tx.booking.value);
    case Stocking(_, _, _, _) => StockingCommit(s.db, tx);
    case Dispatching(_) => DispatchCommit(s.db, tx);
  }

  lemma FreshAddsNights(db: Db, tx: Tx)
    requires tx.fate == Running && tx.stage == Ending && FreshOk(db, tx) && AllInBound(db.nights)
    requires tx.program.Reserving? && tx.owned && tx.rates.Ok? ==>
               forall d | d in Pricing.ByDate(tx.rates.value) ::
                 Pricing.ByDate(tx.rates.value)[d].price.cents <= MAX_EXACT_PRICE
    ensures AllInBound(Apply(db, tx.writes).nights)
  {
    hide Apply, NightsInBound, Planned, CanBook, MovedRows, NightRows;
    FreshCommit(db, tx);
    var input := tx.program.input;
    FreshIsOwner(db, tx);
    PlannedFacts(db.catalog, input, tx.rates, GuestFor(db, input, tx.draws), tx.draws);
    PlannedInBound(db.catalog, input, tx.rates.value, GuestFor(db, input, tx.draws), tx.draws);
  }

  lemma FreshIsOwner(db: Db, tx: Tx)
    requires FreshOk(db, tx)
    ensures tx.owned
  {
  }

  ghost predicate PublishedInBound(run: seq<Sys>, n: nat) {
    forall j :: 0 <= j < n && j < |run| ==> Search.PricesInBound(run[j].db.rates)
  }

  lemma RatesOfRun(run: seq<Sys>, i: nat, t: TxId)
    requires IsRun(run) && i < |run| && IsRunning(run[i], t) && run[i].txs[t].stage == Ending
    requires run[i].txs[t].program.Reserving? && run[i].txs[t].owned && run[i].txs[t].rates.Ok?
    requires PublishedInBound(run, i)
    ensures var m := Pricing.ByDate(run[i].txs[t].rates.value); forall d | d in m :: m[d].price.cents <= MAX_EXACT_PRICE
  {
    hide Initial, StepsTo, Search.PricesInBound, ReadRates, WellFormed;
    RatesWereRead(run, i, t);
    var j :| 0 <= j < i && RatesAreOf(run[j].db, run[i].txs[t]);
    var input := run[i].txs[t].program.input;
    assert Search.PricesInBound(run[j].db.rates);
    ReadRatesInBound(run[j].db, input.plan, input.stay.checkIn, input.stay.checkOut);
  }

  lemma StepAddsNights(run: seq<Sys>, i: nat, a: Action)
    requires IsRun(run) && i + 1 < |run| && Enabled(run[i], a) && run[i + 1] == Next(run[i], a)
    requires AllInBound(run[i].db.nights) && PublishedInBound(run, i)
    ensures AllInBound(run[i + 1].db.nights)
  {
    hide Inv, Initial, StepsTo, AllInBound, PublishedInBound, Blocked, StepTx, Commit;
    RunInv(run, i);
    match a
    case Run(t, _) =>
      if run[i].txs[t].stage == Ending {
        if run[i].txs[t].program.Reserving? && run[i].txs[t].owned && run[i].txs[t].rates.Ok? {
          RatesOfRun(run, i, t);
        }
        CommitAddsNights(run[i], t);
      }
    case SetRates(plan, inputs) => SetRatesOnlyRates(run[i].db, plan, inputs);
    case _ =>
  }

  lemma {:induction false} NightsStayInBound(run: seq<Sys>, i: nat)
    requires IsRun(run) && i < |run| && AllInBound(run[0].db.nights) && PublishedInBound(run, i)
    ensures AllInBound(run[i].db.nights)
  {
    hide Initial, AllInBound, Enabled, Next, Search.PricesInBound;
    if i == 0 {
    } else {
      NightsStayInBound(run, i - 1);
      assert StepsTo(run[i - 1], run[i]);
      var a :| Enabled(run[i - 1], a) && run[i] == Next(run[i - 1], a);
      StepAddsNights(run, i - 1, a);
    }
  }

  /** In a run whose stored nights and published prices are in bound until now, the total of every stored reservation is
      the true sum of its nights. */
  lemma TotalsStayExact(run: seq<Sys>, i: nat, id: Uuid)
    requires IsRun(run) && i < |run| && AllInBound(run[0].db.nights) && PublishedInBound(run, i)
    requires id in run[i].db.reservations
    ensures var row := run[i].db.reservations[id];
            && id in run[i].db.nights
            && row.totalCents == SumNights(run[i].db.nights[id], row.checkIn, row.checkOut)
  {
    hide Inv, Initial, StepsTo, PublishedInBound, NightsInBound, RecordSound;
    NightsStayInBound(run, i);
    RunInv(run, i);
    Agreed(run[i]);
    StoredTotalIsExact(run[i].db.reservations[id], run[i].db.nights[id]);
  }
}
