/** The account of every message: it starts unsent, and only the sends of committed dispatches change it. */
module Ledger {
  import opened Results
  import opened Collections
  import opened Pricing
  import opened Bookings
  import opened Tables
  import opened Transactions
  import opened Effects
  import opened Consistency
  import opened Interleaving
  import opened Invariants
  import opened Commits
  import opened Stability
  import opened Reachable
  import opened Guarantees
  import opened Refinement
  import opened Delivery
  import opened References
  import opened StockOutcome

  // What a dispatch claims

  /** A message that may be claimed: not published, tried fewer than five times, locked by nobody else. */
  predicate Free(outbox: Outbox, skip: set<int>, m: int) {
    m in outbox && !outbox[m].published && outbox[m].attempts < 5 && m !in skip
  }

  function FreeIds(outbox: Outbox, skip: set<int>): set<int> {
    set m | m in outbox && Free(outbox, skip, m)
  }

  lemma FreeAreEligible(outbox: Outbox, skip: set<int>)
    ensures EligibleIds(outbox) - skip == FreeIds(outbox, skip)
  {
  }

  /** The first of an ascending list come before the others. */
  lemma FirstOnes(all: seq<int>, n: nat, m: int, c: int)
    requires StrictlyAscending(all) && n <= |all| && m in all && m !in all[..n] && c in all[..n]
    ensures c < m
  {
    var i :| 0 <= i < |all| && all[i] == m;
    var j :| 0 <= j < n && all[..n][j] == c;
    assert forall k :: 0 <= k < n ==> all[k] == all[..n][k] && all[..n][k] in all[..n];
  }

  /** A dispatch claims free messages in order of their numbers, none twice, as many as there are up to the size of the
      batch, and none it leaves out comes before one it claims. */
  lemma ClaimedAre(outbox: Outbox, batch: nat, skip: set<int>)
    ensures var ids, free := Candidates(outbox, batch, skip), FreeIds(outbox, skip);
            && StrictlyAscending(ids)
            && (forall m :: m in ids ==> m in free)
            && |ids| == (if |free| <= batch then |free| else batch)
            && (forall m, c :: m in free && m !in ids && c in ids ==> c < m)
  {
    hide EligibleIds, FreeIds;
    FreeAreEligible(outbox, skip);
    var free, ids := FreeIds(outbox, skip), Candidates(outbox, batch, skip);
    var all := Ascending(free);
    var n := if |all| <= batch then |all| else batch;
    assert ids == all[..n];
    forall m, c | m in free && m !in ids && c in ids ensures c < m {
      FirstOnes(all, n, m, c);
    }
  }

  /** One dispatch: a claimed message whose send succeeds is published, its attempts as they were; one whose send fails
      stays unpublished with exactly one attempt more; nothing else about it changes, nor any other message, nor any
      other table. */
  lemma DispatchOutcome(db: Db, batch: nat, ok: int -> bool, m: int)
    ensures var after, ids := DispatchTx(db, batch, ok), Candidates(db.outbox, batch, {});
            && after == db.(outbox := after.outbox) && after.outbox.Keys == db.outbox.Keys
            && (m in db.outbox ==>
                  after.outbox[m] ==
                  (if m !in ids then db.outbox[m]
                   else if ok(m) then db.outbox[m].(published := true)
                   else db.outbox[m].(published := false, attempts := db.outbox[m].attempts + 1)))
  {
    hide Candidates;
    ClaimedAre(db.outbox, batch, {});
  }

  // Over rounds

  /** The failed sends of a message, one round after another. */
  function Failed(db: Db, batch: nat, answers: seq<int -> bool>, m: int): nat
    decreases |answers|
  {
    if answers == [] then 0
    else (if m in Candidates(db.outbox, batch, {}) && !answers[0](m) then 1 else 0)
         + Failed(DispatchTx(db, batch, answers[0]), batch, answers[1..], m)
  }

  /** One of its sends succeeds. */
  predicate Succeeds(db: Db, batch: nat, answers: seq<int -> bool>, m: int)
    decreases |answers|
  {
    answers != [] && ((m in Candidates(db.outbox, batch, {}) && answers[0](m))
                      || Succeeds(DispatchTx(db, batch, answers[0]), batch, answers[1..], m))
  }

  /** Over any number of rounds a message becomes published if and only if one of its sends succeeds, and its attempts
      grow by the number of its failed sends. */
  lemma {:induction false} RoundsOutcome(db: Db, batch: nat, answers: seq<int -> bool>, m: int)
    requires m in db.outbox
    ensures var after := Rounds(db, batch, answers).outbox;
            && m in after
            && after[m] == db.outbox[m].(published := after[m].published, attempts := after[m].attempts)
            && (after[m].published <==> db.outbox[m].published || Succeeds(db, batch, answers, m))
            && after[m].attempts == db.outbox[m].attempts + Failed(db, batch, answers, m)
    decreases |answers|
  {
    hide DispatchTx, Candidates;
    if answers == [] {
    } else {
      ClaimedAre(db.outbox, batch, {});
      DispatchOutcome(db, batch, answers[0], m);
      RoundsOutcome(DispatchTx(db, batch, answers[0]), batch, answers[1..], m);
    }
  }

  /** So after as many rounds as attempts are left every message has either been sent with success or failed five
      times. */
  lemma EveryMessageIsTried(db: Db, batch: nat, answers: seq<int -> bool>, m: int)
    requires batch >= 1 && AttemptsInRange(db.outbox) && Potential(db.outbox) <= |answers| && m in db.outbox
    requires !db.outbox[m].published
    ensures Succeeds(db, batch, answers, m) || db.outbox[m].attempts + Failed(db, batch, answers, m) == 5
  {
    hide Rounds, Potential, Succeeds, Failed;
    RoundsOutcome(db, batch, answers, m);
    EverythingSettles(db, batch, answers);
    assert Settled(Rounds(db, batch, answers).outbox[m]);
  }

  // A new event is unsent

  lemma ReservedEvent(db: Db, input: ReserveInput, rates: Result<seq<RateDay>>, d: Draws)
    requires input.key !in db.keys && ReserveTx(db, input, rates, d).result.Ok?
    ensures var after := ReserveTx(db, input, rates, d).db.outbox;
            && d.event !in db.outbox && d.event in after && after == db.outbox[d.event := after[d.event]]
            && !after[d.event].published && after[d.event].attempts == 0
  {
    hide ReserveTx, Planned, CanPlace;
    ReserveEffect(db, input, rates, d);
  }

  lemma CancelledEventInserted(db: Db, reference: string, now: Instant, event: int)
    requires CancelTx(db, reference, now, event).result.Ok?
    ensures var after := CancelTx(db, reference, now, event).db.outbox;
            && event !in db.outbox && event in after && after == db.outbox[event := after[event]]
            && !after[event].published && after[event].attempts == 0
  {
    hide CancelTx, ByReference, Assess;
    CancelEffect(db, reference, now, event);
  }

  // Over runs: what a send decides

  /** The action sends this message, for this dispatch. */
  predicate Sends(s: Sys, a: Action, t: TxId, m: int) {
    && a.Run? && a.t == t && t in s.txs && s.txs[t].stage == Sending
    && s.txs[t].got < |s.txs[t].picked| && s.txs[t].picked[s.txs[t].got] == m
  }

  /** The dispatch has sent the message, and is about to write it as published or not. */
  predicate HasSent(s: Sys, t: TxId, m: int, sent: bool) {
    && t in s.txs && s.txs[t].fate == Running && s.txs[t].program.Dispatching?
    && s.txs[t].got <= |s.txs[t].picked| && m in s.txs[t].picked[..s.txs[t].got]
    && m in s.txs[t].writes.outbox && (s.txs[t].writes.outbox[m].published <==> sent)
  }

  /** A send by `t` itself: either it is of this message, and its answer is what will be written, or this one was sent
      before. */
  lemma OwnSend(db: Db, tx: Tx, e: Env, m: int)
    requires tx.program.Dispatching? && tx.stage == Sending && DispatchOk(db, tx) && tx.got < |tx.picked|
    ensures var after := SendStep(db, tx, e);
            && after.got == tx.got + 1 && after.picked == tx.picked && after.fate == tx.fate && after.program == tx.program
            && (m in after.picked[..after.got] <==> m == tx.picked[tx.got] || m in tx.picked[..tx.got])
            && tx.picked[tx.got] in after.writes.outbox
            && (after.writes.outbox[tx.picked[tx.got]].published <==> e.sent)
            && (m in tx.picked[..tx.got] ==> m in tx.writes.outbox && m in after.writes.outbox
                                             && after.writes.outbox[m] == tx.writes.outbox[m])
  {
    assert tx.picked[tx.got] in tx.picked;
    assert tx.picked[..tx.got + 1] == tx.picked[..tx.got] + [tx.picked[tx.got]];
    if m in tx.picked[..tx.got] {
      var i :| 0 <= i < tx.got && tx.picked[i] == m;
    }
  }

  lemma DispatcherOk(s: Sys, t: TxId)
    requires Inv(s) && t in s.txs && s.txs[t].fate == Running && s.txs[t].program.Dispatching?
    ensures DispatchOk(s.db, s.txs[t]) && WellFormed(s.txs[t])
    ensures s.txs[t].stage == Picking || s.txs[t].stage == Sending || s.txs[t].stage == Ending
    ensures s.txs[t].stage == Picking ==> s.txs[t].picked == []
  {
    hide Consistent, Exclusive, AllDrawn, History, Attempted;
  }

  /** What an action does to a dispatch that goes on running. */
  lemma DispatchGoesOn(s: Sys, a: Action, t: TxId)
    requires Inv(s) && Enabled(s, a) && t in Next(s, a).txs && Next(s, a).txs[t].fate == Running
    requires Next(s, a).txs[t].program.Dispatching?
    ensures t in s.txs ==> s.txs[t].fate == Running && s.txs[t].program.Dispatching?
    ensures t !in s.txs ==> Next(s, a).txs[t].picked == []
    ensures t in s.txs && !(a.Run? && a.t == t) ==> Next(s, a).txs[t] == s.txs[t]
    ensures t in s.txs && a.Run? && a.t == t ==>
              || (s.txs[t].stage == Picking && s.txs[t].picked == [] && Next(s, a).txs[t].got == 0)
              || (s.txs[t].stage == Sending && Next(s, a).txs[t] == SendStep(s.db, s.txs[t], a.env))
  {
    hide Inv, Blocked, Apply, WellFormed, Candidates;
    if a.Run? && a.t == t {
      StepKeepsItsProgram(s, t, a.env);
      if s.txs[t].stage != Ending {
        DispatcherOk(s, t);
      }
    }
  }

  lemma StepKeepsItsProgram(s: Sys, t: TxId, e: Env)
    requires IsRunning(s, t)
    ensures s.txs[t].stage != Ending ==>
              StepTx(s.db, s.txs[t], e, s.next, LockedMessages(s, t)).program == s.txs[t].program
    ensures s.txs[t].stage == Ending ==> Advance(s, t, e).txs[t].fate == Done
  {
    hide Apply;
    if s.txs[t].stage != Ending {
      StepKeepsProgram(s.db, s.txs[t], e, s.next, LockedMessages(s, t));
    }
  }

  /** What has been sent after an action was sent before it, with the same answer, or is sent by it. */
  lemma StepSends(s: Sys, a: Action, t: TxId, m: int, sent: bool)
    requires Inv(s) && Enabled(s, a) && HasSent(Next(s, a), t, m, sent)
    ensures HasSent(s, t, m, sent) || (Sends(s, a, t, m) && a.env.sent == sent)
  {
    hide Inv, Enabled, Next, SendStep, DispatchOk;
    DispatchGoesOn(s, a, t);
    OwnStep(s, a, t, m);
  }

  lemma OwnStep(s: Sys, a: Action, t: TxId, m: int)
    requires Inv(s)
    ensures t in s.txs && s.txs[t].fate == Running && s.txs[t].program.Dispatching? && s.txs[t].stage == Sending && a.Run? ==>
              var tx, after := s.txs[t], SendStep(s.db, s.txs[t], a.env);
              && (tx.got >= |tx.picked| ==> after == tx.(stage := Ending))
              && (tx.got < |tx.picked| ==>
                    && after.got == tx.got + 1 && after.picked == tx.picked && after.fate == tx.fate
                    && after.program == tx.program
                    && (m in after.picked[..after.got] <==> m == tx.picked[tx.got] || m in tx.picked[..tx.got])
                    && tx.picked[tx.got] in after.writes.outbox
                    && (after.writes.outbox[tx.picked[tx.got]].published <==> a.env.sent)
                    && (m in tx.picked[..tx.got] ==> m in tx.writes.outbox && m in after.writes.outbox
                                                     && after.writes.outbox[m] == tx.writes.outbox[m]))
  {
    hide Inv, SendStep, DispatchOk;
    if t in s.txs && s.txs[t].fate == Running && s.txs[t].program.Dispatching? && a.Run? && s.txs[t].stage == Sending {
      DispatcherOk(s, t);
      if s.txs[t].got < |s.txs[t].picked| {
        OwnSend(s.db, s.txs[t], a.env, m);
      } else {
        NothingSent(s.db, s.txs[t], a.env);
      }
    }
  }

  lemma NothingSent(db: Db, tx: Tx, e: Env)
    requires tx.got >= |tx.picked|
    ensures SendStep(db, tx, e) == tx.(stage := Ending)
  {
  }

  /** The answer to a send stays with the dispatch as long as it runs. */
  lemma StepKeepsSent(s: Sys, a: Action, t: TxId, m: int, sent: bool)
    requires Inv(s) && Enabled(s, a) && t in Next(s, a).txs && Next(s, a).txs[t].fate == Running
    requires Next(s, a).txs[t].program.Dispatching?
    requires HasSent(s, t, m, sent) || (Sends(s, a, t, m) && a.env.sent == sent)
    ensures HasSent(Next(s, a), t, m, sent)
  {
    hide Inv, Enabled, Next, SendStep, DispatchOk;
    DispatchGoesOn(s, a, t);
    OwnStep(s, a, t, m);
  }

  lemma {:induction false} DrivenInv(run: seq<Sys>, actions: seq<Action>, n: nat)
    requires Driven(run, actions) && Inv(run[0]) && n <= |actions|
    ensures Inv(run[n])
  {
    hide Inv, Enabled, Next;
    if n == 0 {
    } else {
      DrivenInv(run, actions, n - 1);
      assert Enabled(run[n - 1], actions[n - 1]);
      NextKeeps(run[n - 1], actions[n - 1]);
    }
  }

  /** What has been sent was sent by some action. */
  lemma {:induction false} WasSent(run: seq<Sys>, actions: seq<Action>, n: nat, t: TxId, m: int, sent: bool)
    returns (i: nat)
    requires Driven(run, actions) && Inv(run[0]) && 0 < n <= |actions| && t !in run[0].txs && HasSent(run[n], t, m, sent)
    ensures i < n && Sends(run[i], actions[i], t, m) && actions[i].env.sent == sent
  {
    hide Inv, Enabled, Next, Sends;
    DrivenInv(run, actions, n - 1);
    assert Enabled(run[n - 1], actions[n - 1]);
    StepSends(run[n - 1], actions[n - 1], t, m, sent);
    if HasSent(run[n - 1], t, m, sent) {
      i := WasSent(run, actions, n - 1, t, m, sent);
    } else {
      i := n - 1;
    }
  }

  /** What some action has sent stays sent, as long as the dispatch runs. */
  lemma {:induction false} StaysSent(run: seq<Sys>, actions: seq<Action>, i: nat, n: nat, t: TxId, m: int)
    requires Driven(run, actions) && Inv(run[0]) && i < n <= |actions| && Sends(run[i], actions[i], t, m)
    requires t in run[n].txs && run[n].txs[t].fate == Running && run[n].txs[t].program.Dispatching?
    ensures HasSent(run[n], t, m, actions[i].env.sent)
    decreases n - i
  {
    hide Inv, Enabled, Next, HasSent;
    DrivenInv(run, actions, n - 1);
    assert Enabled(run[n - 1], actions[n - 1]);
    if i == n - 1 {
      StepKeepsSent(run[i], actions[i], t, m, actions[i].env.sent);
    } else {
      StaysThere(run, actions, i, n - 1, t);
      DispatchGoesOn(run[n - 1], actions[n - 1], t);
      StaysSent(run, actions, i, n - 1, t, m);
      StepKeepsSent(run[n - 1], actions[n - 1], t, m, actions[i].env.sent);
    }
  }

  lemma {:induction false} StaysThere(run: seq<Sys>, actions: seq<Action>, i: nat, n: nat, t: TxId)
    requires Driven(run, actions) && i <= n <= |actions| && t in run[i].txs
    ensures t in run[n].txs
    decreases n - i
  {
    hide Enabled, Next;
    if i == n {
    } else {
      StaysThere(run, actions, i, n - 1, t);
      assert Enabled(run[n - 1], actions[n - 1]);
      NobodyIsLost(run[n - 1], actions[n - 1]);
    }
  }

  lemma NobodyIsLost(s: Sys, a: Action)
    requires Enabled(s, a)
    ensures s.txs.Keys <= Next(s, a).txs.Keys
  {
    hide Apply, StepTx, Blocked, WellFormed;
  }

  /** The action commits a dispatch that claimed this message. */
  predicate CommitsClaim(s: Sys, a: Action, m: int) {
    && a.Run? && a.t in s.txs && s.txs[a.t].stage == Ending && s.txs[a.t].program.Dispatching? && m in s.txs[a.t].picked
  }

  /** A dispatch that commits writes each message it claimed as published, or as tried once more and still unpublished,
      and no other message. */
  lemma CommitWrites(s: Sys, a: Action, m: int)
    requires Inv(s) && Enabled(s, a) && a.Run? && s.txs[a.t].stage == Ending && s.txs[a.t].program.Dispatching?
    requires m in s.db.outbox
    ensures var after := Next(s, a).db;
            && after == s.db.(outbox := after.outbox) && after.outbox.Keys == s.db.outbox.Keys
            && (m !in s.txs[a.t].picked ==> after.outbox[m] == s.db.outbox[m])
            && (m in s.txs[a.t].picked ==>
                  exists sent :: HasSent(s, a.t, m, sent)
                                 && after.outbox[m] == if sent then s.db.outbox[m].(published := true)
                                                       else s.db.outbox[m].(published := false,
                                                                            attempts := s.db.outbox[m].attempts + 1))
  {
    hide Inv, Blocked, Apply;
    DispatcherOk(s, a.t);
    var tx := s.txs[a.t];
    DispatchCommit(s.db, tx);
    assert tx.picked[..tx.got] == tx.picked;
    assert forall x :: x in tx.writes.outbox ==> x in s.db.outbox;
    if m in tx.picked {
      var sent := tx.writes.outbox[m].published;
      assert HasSent(s, a.t, m, sent);
    }
  }

  /** A dispatch that has begun within the run and commits has sent every message it claimed, and the answer to the send
      decides: with success the message is published, its attempts as they were; otherwise it stays unpublished, with
      exactly one attempt more. */
  lemma SendDecides(run: seq<Sys>, actions: seq<Action>, j: nat, m: int) returns (i: nat)
    requires Driven(run, actions) && Inv(run[0]) && j < |actions| && CommitsClaim(run[j], actions[j], m)
    requires actions[j].t !in run[0].txs
    ensures i < j && Sends(run[i], actions[i], actions[j].t, m)
    ensures m in run[j].db.outbox && m in run[j + 1].db.outbox
    ensures forall k :: 0 <= k < j && Sends(run[k], actions[k], actions[j].t, m) ==>
              run[j + 1].db.outbox[m] ==
              if actions[k].env.sent then run[j].db.outbox[m].(published := true)
              else run[j].db.outbox[m].(published := false, attempts := run[j].db.outbox[m].attempts + 1)
  {
    hide Inv, Enabled, Next;
    var s, a := run[j], actions[j];
    DrivenInv(run, actions, j);
    assert Enabled(s, a);
    CommitRuns(s, a);
    PickedIsThere(s, a.t, m);
    CommitWrites(s, a, m);
    var sent :| HasSent(s, a.t, m, sent)
                && Next(s, a).db.outbox[m] == if sent then s.db.outbox[m].(published := true)
                                              else s.db.outbox[m].(published := false,
                                                                   attempts := s.db.outbox[m].attempts + 1);
    i := WasSent(run, actions, j, a.t, m, sent);
    forall k | 0 <= k < j && Sends(run[k], actions[k], a.t, m) ensures actions[k].env.sent == sent {
      StaysSent(run, actions, k, j, a.t, m);
    }
  }

  lemma CommitRuns(s: Sys, a: Action)
    requires Enabled(s, a) && a.Run?
    ensures a.t in s.txs && s.txs[a.t].fate == Running
  {
    hide Blocked, WellFormed;
  }

  lemma PickedIsThere(s: Sys, t: TxId, m: int)
    requires Inv(s) && t in s.txs && s.txs[t].fate == Running && s.txs[t].program.Dispatching? && m in s.txs[t].picked
    ensures m in s.db.outbox && !s.db.outbox[m].published
  {
    hide Inv;
    DispatcherOk(s, t);
  }

  // Over runs: the account of a message

  /** A dispatch whose send of the message failed commits. */
  predicate CommitsFailure(s: Sys, a: Action, m: int) {
    CommitsClaim(s, a, m) && HasSent(s, a.t, m, false)
  }

  predicate CommitsSuccess(s: Sys, a: Action, m: int) {
    CommitsClaim(s, a, m) && HasSent(s, a.t, m, true)
  }

  /** A message as it is stored, or as it would be when inserted. */
  function TriesOf(outbox: Outbox, m: int): int {
    if m in outbox then outbox[m].attempts else 0
  }

  predicate IsPublished(outbox: Outbox, m: int) {
    m in outbox && outbox[m].published
  }

  /** From one outbox to the next the account of a message changes by these tries, and by being published or not. */
  predicate Accounts(outbox: Outbox, after: Outbox, m: int, tries: int, success: bool) {
    m in after ==> TriesOf(after, m) == TriesOf(outbox, m) + tries
                   && (IsPublished(after, m) <==> IsPublished(outbox, m) || success)
  }

  lemma TransactionAccounts(s: Sys, a: Action, m: int)
    requires Inv(s) && Enabled(s, a) && !CommitsClaim(s, a, m)
    ensures Accounts(s.db.outbox, Next(s, a).db.outbox, m, 0, false)
  {
    hide Inv, Enabled, Next, ReserveTx, CancelTx, SetInventoryTx, SetRatesTx, Marks, HasSent;
    StepRefines(s, a);
    var before, after := s.db, Next(s, a).db;
    match AtomicOf(s, a)
    case Nothing =>
    case Reserve(input, rates, draws) =>
      if input.key in before.keys {
        ReplayEffect(before, input, rates, draws);
      } else {
        ReservedEvent(before, input, rates, draws);
      }
    case Cancel(reference, now, event) => CancelledEventInserted(before, reference, now, event);
    case Stock(room, from, until, allotment) => SetInventoryWrites(before, room, from, until, allotment);
    case Mark(batch, ids, sent) => DispatchAccounts(s, a, m);
    case Price(plan, inputs) => SetRatesOnlyRates(before, plan, inputs);
  }

  lemma DispatchAccounts(s: Sys, a: Action, m: int)
    requires Inv(s) && Enabled(s, a) && AtomicOf(s, a).Mark?
    ensures Accounts(s.db.outbox, Next(s, a).db.outbox, m,
                     if CommitsFailure(s, a, m) then 1 else 0, CommitsSuccess(s, a, m))
  {
    hide Inv, Blocked, Apply, HasSent, WellFormed;
    if m in s.db.outbox {
      CommitWrites(s, a, m);
      if m in s.txs[a.t].picked {
        PickedIsThere(s, a.t, m);
        OneAnswer(s, a.t, m);
      }
    } else {
      CommitKeepsNumbers(s, a);
      if m in s.txs[a.t].picked {
        PickedIsThere(s, a.t, m);
      }
    }
  }

  lemma OneAnswer(s: Sys, t: TxId, m: int)
    ensures !(HasSent(s, t, m, true) && HasSent(s, t, m, false))
  {
  }

  lemma CommitKeepsNumbers(s: Sys, a: Action)
    requires Inv(s) && Enabled(s, a) && a.Run? && s.txs[a.t].stage == Ending && s.txs[a.t].program.Dispatching?
    ensures Next(s, a).db.outbox.Keys == s.db.outbox.Keys
  {
    hide Inv, Blocked, Apply;
    DispatcherOk(s, a.t);
    DispatchCommit(s.db, s.txs[a.t]);
    assert forall x :: x in s.txs[a.t].writes.outbox ==> x in s.db.outbox;
  }

  lemma StepAccounts(s: Sys, a: Action, m: int)
    requires Inv(s) && Enabled(s, a)
    ensures Accounts(s.db.outbox, Next(s, a).db.outbox, m,
                     if CommitsFailure(s, a, m) then 1 else 0, CommitsSuccess(s, a, m))
    ensures m in s.db.outbox ==> m in Next(s, a).db.outbox
  {
    hide Inv, Enabled, Next, Accounts, HasSent, Evolves;
    NextEvolves(s, a);
    KeepsNumber(s.db, Next(s, a).db, m);
    if CommitsClaim(s, a, m) {
      DispatchAccounts(s, a, m);
    } else {
      TransactionAccounts(s, a, m);
    }
  }

  lemma KeepsNumber(db: Db, after: Db, m: int)
    requires Evolves(db, after)
    ensures m in db.outbox ==> m in after.outbox
  {
  }

  function Failures(run: seq<Sys>, actions: seq<Action>, m: int): nat
    requires |run| == |actions| + 1
    decreases |actions|
  {
    if actions == [] then 0
    else (if CommitsFailure(run[0], actions[0], m) then 1 else 0) + Failures(run[1..], actions[1..], m)
  }

  predicate SomeSuccess(run: seq<Sys>, actions: seq<Action>, m: int)
    requires |run| == |actions| + 1
    decreases |actions|
  {
    actions != [] && (CommitsSuccess(run[0], actions[0], m) || SomeSuccess(run[1..], actions[1..], m))
  }

  /** Along any run, from any reachable state, and beside any other transactions, a message becomes published if and
      only if a dispatch commits whose send of it succeeded, and its attempts grow by the number of those that commit
      and whose send failed. A message that is new starts unpublished, with no attempts. */
  lemma {:induction false} RunAccounts(run: seq<Sys>, actions: seq<Action>, m: int)
    requires Driven(run, actions) && Inv(run[0])
    ensures Accounts(run[0].db.outbox, run[|actions|].db.outbox, m, Failures(run, actions, m), SomeSuccess(run, actions, m))
    ensures m in run[0].db.outbox ==> m in run[|actions|].db.outbox
    ensures m !in run[|actions|].db.outbox ==> Failures(run, actions, m) == 0 && !SomeSuccess(run, actions, m)
    decreases |actions|
  {
    hide Inv, Enabled, Next, HasSent, CommitsClaim;
    if actions == [] {
    } else {
      RestIsDriven(run, actions);
      NextKeeps(run[0], actions[0]);
      StepAccounts(run[0], actions[0], m);
      ClaimsAreThere(run[0], actions[0], m);
      RunAccounts(run[1..], actions[1..], m);
    }
  }

  lemma ClaimsAreThere(s: Sys, a: Action, m: int)
    requires Inv(s) && Enabled(s, a)
    ensures CommitsClaim(s, a, m) ==> m in s.db.outbox
  {
    hide Inv, Enabled;
    if CommitsClaim(s, a, m) {
      CommitRuns(s, a);
      PickedIsThere(s, a.t, m);
    }
  }

  /** So a message inserted in the run that is published, or has attempts, was claimed by a dispatch that committed
      since. */
  lemma WasClaimed(run: seq<Sys>, actions: seq<Action>, m: int) returns (i: nat)
    requires Driven(run, actions) && Inv(run[0]) && m !in run[0].db.outbox && m in run[|actions|].db.outbox
    requires run[|actions|].db.outbox[m].published || run[|actions|].db.outbox[m].attempts != 0
    ensures i < |actions| && CommitsClaim(run[i], actions[i], m) && m in run[i].db.outbox
  {
    hide Inv, Enabled, Next, HasSent, CommitsClaim, CommitsFailure, CommitsSuccess, Failures, SomeSuccess;
    RunAccounts(run, actions, m);
    i := SomeClaim(run, actions, m);
    DrivenInv(run, actions, i);
    assert Enabled(run[i], actions[i]);
    ClaimsAreThere(run[i], actions[i], m);
  }

  lemma {:induction false} SomeClaim(run: seq<Sys>, actions: seq<Action>, m: int) returns (i: nat)
    requires |run| == |actions| + 1 && (Failures(run, actions, m) > 0 || SomeSuccess(run, actions, m))
    ensures i < |actions| && CommitsClaim(run[i], actions[i], m)
    decreases |actions|
  {
    hide HasSent, CommitsClaim;
    if CommitsClaim(run[0], actions[0], m) {
      i := 0;
    } else {
      var k := SomeClaim(run[1..], actions[1..], m);
      i := k + 1;
    }
  }
}
