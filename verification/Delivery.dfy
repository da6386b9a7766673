/** Draining the outbox: every dispatch uses up attempts, so retrying at once comes to an end, and in the end every
    message is published or has failed five times. */
module Delivery {
  import opened Collections
  import opened Tables
  import opened Transactions
  import opened Consistency
  import opened Interleaving
  import opened Invariants
  import opened Stability
  import opened Reachable
  import opened Guarantees
  import opened Refinement
  import Steps

  /** The attempts a message has left. */
  function AttemptsLeft(m: Message): int {
    if Eligible(m) then MAX_ATTEMPTS - m.attempts else 0
  }

  function LeftAt(outbox: Outbox, id: int): int {
    if id in outbox then AttemptsLeft(outbox[id]) else 0
  }

  ghost function Potential(outbox: Outbox): int {
    Sum(outbox.Keys, (id: int) => LeftAt(outbox, id))
  }

  /** Each message attempted uses up at least one attempt; the others keep theirs. */
  lemma {:induction false} SumLowers(all: set<int>, f: int -> int, g: int -> int, used: set<int>)
    requires used <= all
    requires forall x :: x in used ==> g(x) + 1 <= f(x)
    requires forall x :: x in all && x !in used ==> g(x) <= f(x)
    ensures Sum(all, g) + |used| <= Sum(all, f)
    decreases |all|
  {
    if all == {} {
    } else {
      var x := SomeElement(all);
      SumPick(all, f, x);
      SumPick(all, g, x);
      SumLowers(all - {x}, f, g, used - {x});
      if x in used {
        assert |used - {x}| == |used| - 1;
      } else {
        assert used - {x} == used;
      }
    }
  }

  lemma {:induction false} DistinctSize(ids: seq<int>)
    requires Distinct(ids)
    ensures |set m | m in ids| == |ids|
  {
    if ids == [] {
    } else {
      var n := |ids| - 1;
      var init := ids[..n];
      DistinctSize(init);
      assert ids == init + [ids[n]];
      assert (set m | m in ids) == (set m | m in init) + {ids[n]};
      assert ids[n] !in init;
    }
  }

  /** Every committed dispatch lowers the attempts left over all messages by at least the number it claimed, with any
      answers to its sends, and beside any other dispatcher. */
  lemma MarkingLowers(outbox: Outbox, batch: nat, ids: seq<int>, sent: set<int>, after: Outbox)
    requires Marks(outbox, batch, ids, sent, after)
    ensures after.Keys == outbox.Keys
    ensures Potential(after) + |ids| <= Potential(outbox)
  {
    var used := set m | m in ids;
    DistinctSize(ids);
    assert after.Keys == outbox.Keys;
    var f: int -> int := id => LeftAt(outbox, id);
    var g: int -> int := id => LeftAt(after, id);
    forall x | x in used ensures g(x) + 1 <= f(x) {
      assert after[x] == Marked(outbox[x], x in sent);
    }
    SumLowers(outbox.Keys, f, g, used);
    SumAgree(outbox.Keys, (id: int) => LeftAt(outbox, id), f);
    SumAgree(after.Keys, (id: int) => LeftAt(after, id), g);
  }

  lemma SomeClaimed(outbox: Outbox, batch: nat, m: int)
    requires batch >= 1 && m in outbox && Eligible(outbox[m])
    ensures |Candidates(outbox, batch, {})| >= 1
  {
    var all := Ascending(EligibleIds(outbox) - {});
    assert m in all;
  }

  /** One dispatch with nobody else about marks the first eligible messages. */
  lemma DispatchMarks(outbox: Outbox, batch: nat, ok: int -> bool)
    ensures var ids := Candidates(outbox, batch, {});
            Marks(outbox, batch, ids, (set m | m in ids && ok(m)), outbox + MarkedRows(outbox, ids, ok))
  {
    hide Candidates, MarkedRows, Eligible;
    var ids := Candidates(outbox, batch, {});
    Steps.CandidatesAre(outbox, batch, {});
    SameMarks(outbox, ids, ok, set m | m in ids && ok(m));
  }

  lemma SameMarks(outbox: Outbox, ids: seq<int>, ok: int -> bool, sent: set<int>)
    requires forall m :: m in ids ==> (m in sent <==> ok(m))
    ensures MarkedRows(outbox, ids, m => m in sent) == MarkedRows(outbox, ids, ok)
  {
    hide Marked;
    var a, b := MarkedRows(outbox, ids, m => m in sent), MarkedRows(outbox, ids, ok);
    forall m | m in a ensures m in b && a[m] == b[m] {
      assert (m in sent) == ok(m);
    }
    assert a.Keys == b.Keys;
  }

  /** The tables after one committed dispatch for each element of `answers`. */
  function Rounds(db: Db, batch: nat, answers: seq<int -> bool>): Db
    decreases |answers|
  {
    if answers == [] then db else Rounds(DispatchTx(db, batch, answers[0]), batch, answers[1..])
  }

  predicate Settled(m: Message) {
    m.published || m.attempts == MAX_ATTEMPTS
  }

  predicate AttemptsInRange(outbox: Outbox) {
    forall m :: m in outbox ==> 0 <= outbox[m].attempts <= MAX_ATTEMPTS
  }

  lemma RoundKeepsRange(db: Db, batch: nat, ok: int -> bool)
    requires AttemptsInRange(db.outbox)
    ensures AttemptsInRange(DispatchTx(db, batch, ok).outbox)
  {
    hide Candidates;
    Steps.CandidatesAre(db.outbox, batch, {});
  }

  lemma RoundLowers(db: Db, batch: nat, ok: int -> bool)
    ensures Potential(DispatchTx(db, batch, ok).outbox) + |Candidates(db.outbox, batch, {})| <= Potential(db.outbox)
  {
    hide Marks, Potential, Candidates, MarkedRows;
    var ids := Candidates(db.outbox, batch, {});
    DispatchMarks(db.outbox, batch, ok);
    MarkingLowers(db.outbox, batch, ids, (set m | m in ids && ok(m)), DispatchTx(db, batch, ok).outbox);
  }

  /** Without new events, after as many committed dispatches as there are attempts left every message is published, or
      has failed exactly five times, whatever the answers to the sends. */
  lemma {:induction false} EverythingSettles(db: Db, batch: nat, answers: seq<int -> bool>)
    requires batch >= 1 && AttemptsInRange(db.outbox) && Potential(db.outbox) <= |answers|
    ensures forall m :: m in Rounds(db, batch, answers).outbox ==> Settled(Rounds(db, batch, answers).outbox[m])
    decreases |answers|
  {
    hide Candidates, MarkedRows, DispatchTx, Potential;
    if exists m :: m in db.outbox && Eligible(db.outbox[m]) {
      var m :| m in db.outbox && Eligible(db.outbox[m]);
      SomeClaimed(db.outbox, batch, m);
      SomeLeft(db.outbox, m);
      RoundLowers(db, batch, answers[0]);
      RoundKeepsRange(db, batch, answers[0]);
      EverythingSettles(DispatchTx(db, batch, answers[0]), batch, answers[1..]);
    } else {
      NothingChanges(db, batch, answers);
    }
  }

  lemma SomeLeft(outbox: Outbox, m: int)
    requires m in outbox && Eligible(outbox[m])
    ensures 1 <= Potential(outbox)
  {
    var f: int -> int := id => LeftAt(outbox, id);
    SumAgree(outbox.Keys, (id: int) => LeftAt(outbox, id), f);
    SumPick(outbox.Keys, f, m);
    SumNonNegative(outbox.Keys - {m}, f);
  }

  lemma PotentialIsNonNegative(outbox: Outbox)
    ensures 0 <= Potential(outbox)
  {
    var f: int -> int := id => LeftAt(outbox, id);
    SumAgree(outbox.Keys, (id: int) => LeftAt(outbox, id), f);
    SumNonNegative(outbox.Keys, f);
  }

  /** There are at most five attempts left for each message. */
  lemma PotentialIsBounded(outbox: Outbox)
    requires AttemptsInRange(outbox)
    ensures Potential(outbox) <= MAX_ATTEMPTS * |outbox|
  {
    var f: int -> int := id => LeftAt(outbox, id);
    SumAgree(outbox.Keys, (id: int) => LeftAt(outbox, id), f);
    SumAtMost(outbox.Keys, f, MAX_ATTEMPTS);
  }

  lemma {:induction false} SumAtMost(s: set<int>, f: int -> int, most: int)
    requires forall x :: x in s ==> f(x) <= most
    ensures Sum(s, f) <= most * |s|
    decreases |s|
  {
    if s == {} {
    } else {
      var x := SomeElement(s);
      SumPick(s, f, x);
      SumAtMost(s - {x}, f, most);
      assert most * |s| == most * (|s| - 1) + most;
    }
  }

  lemma NoneEligible(outbox: Outbox, batch: nat)
    requires forall m :: m in outbox ==> !Eligible(outbox[m])
    ensures Candidates(outbox, batch, {}) == []
  {
    var free := EligibleIds(outbox) - {};
    forall m ensures m !in free {
      assert m in free ==> m in EligibleIds(outbox);
    }
    assert |free| == 0;
    assert |Ascending(free)| == 0;
  }

  lemma {:induction false} NothingChanges(db: Db, batch: nat, answers: seq<int -> bool>)
    requires forall m :: m in db.outbox ==> !Eligible(db.outbox[m])
    ensures Rounds(db, batch, answers) == db
    decreases |answers|
  {
    if answers == [] {
    } else {
      NoneEligible(db.outbox, batch);
      assert db.outbox + MarkedRows(db.outbox, [], answers[0]) == db.outbox;
      NothingChanges(db, batch, answers[1..]);
    }
  }

  lemma {:induction false} OneMoreRound(db: Db, batch: nat, answers: seq<int -> bool>, ok: int -> bool)
    ensures Rounds(db, batch, answers + [ok]) == DispatchTx(Rounds(db, batch, answers), batch, ok)
    decreases |answers|
  {
    hide DispatchTx;
    if answers == [] {
      assert [ok][1..] == [];
    } else {
      assert (answers + [ok])[1..] == answers[1..] + [ok];
      OneMoreRound(DispatchTx(db, batch, answers[0]), batch, answers[1..], ok);
    }
  }

  // Dispatchers among any other transactions

  /** The messages a dispatch claimed, when this action commits it. */
  function Claimed(s: Sys, a: Action): nat {
    if a.Run? && a.t in s.txs && s.txs[a.t].stage == Ending && s.txs[a.t].program.Dispatching?
    then |s.txs[a.t].picked| else 0
  }

  /** The actions lead from each state of `run` to the next. */
  ghost predicate Driven(run: seq<Sys>, actions: seq<Action>) {
    && |run| == |actions| + 1
    && forall i {:trigger actions[i]} :: 0 <= i < |actions| ==>
         Enabled(run[i], actions[i]) && run[i + 1] == Next(run[i], actions[i])
  }

  function AllClaimed(run: seq<Sys>, actions: seq<Action>): nat
    requires |run| == |actions| + 1
    decreases |actions|
  {
    if actions == [] then 0 else Claimed(run[0], actions[0]) + AllClaimed(run[1..], actions[1..])
  }

  /** Without new events, what becomes of the tables leaves no message more attempts. */
  lemma EvolvingLowers(db: Db, after: Db)
    requires Evolves(db, after) && after.outbox.Keys == db.outbox.Keys
    ensures Potential(after.outbox) <= Potential(db.outbox)
  {
    var f: int -> int := id => LeftAt(db.outbox, id);
    var g: int -> int := id => LeftAt(after.outbox, id);
    forall x | x in db.outbox ensures g(x) <= f(x) {
      assert MessageEvolves(db.outbox[x], after.outbox[x]);
    }
    SumLowers(db.outbox.Keys, f, g, {});
    SumAgree(db.outbox.Keys, (id: int) => LeftAt(db.outbox, id), f);
    SumAgree(after.outbox.Keys, (id: int) => LeftAt(after.outbox, id), g);
  }

  lemma ActionSpends(s: Sys, a: Action)
    requires Inv(s) && Enabled(s, a) && Next(s, a).db.outbox.Keys == s.db.outbox.Keys
    ensures Potential(Next(s, a).db.outbox) + Claimed(s, a) <= Potential(s.db.outbox)
  {
    hide Inv, Potential, Blocked, WellFormed, Apply, Marks, Evolves, StepTx, SetRatesTx;
    NextEvolves(s, a);
    EvolvingLowers(s.db, Next(s, a).db);
    if Claimed(s, a) > 0 {
      StepRefines(s, a);
      var tx := s.txs[a.t];
      MarkingLowers(s.db.outbox, tx.program.batch, tx.picked, Sent(tx), Next(s, a).db.outbox);
    }
  }

  /** Rows are never lost, so where no event is new at the end none was new on the way. */
  lemma {:induction false} DrivenEvolves(run: seq<Sys>, actions: seq<Action>)
    requires Driven(run, actions) && Inv(run[0])
    ensures Evolves(run[0].db, run[|actions|].db)
    decreases |actions|
  {
    hide Inv, Enabled, Next, Evolves;
    if actions == [] {
      Unchanged(run[0].db);
    } else {
      RestIsDriven(run, actions);
      NextKeeps(run[0], actions[0]);
      NextEvolves(run[0], actions[0]);
      DrivenEvolves(run[1..], actions[1..]);
      EvolvesTwice(run[0].db, run[1].db, run[|actions|].db);
    }
  }

  lemma RestIsDriven(run: seq<Sys>, actions: seq<Action>)
    requires Driven(run, actions) && actions != []
    ensures Enabled(run[0], actions[0]) && run[1] == Next(run[0], actions[0]) && Driven(run[1..], actions[1..])
  {
    hide Enabled, Next;
    forall i {:trigger actions[1..][i]} | 0 <= i < |actions[1..]|
      ensures Enabled(run[1..][i], actions[1..][i]) && run[1..][i + 1] == Next(run[1..][i], actions[1..][i])
    {
      assert Enabled(run[i + 1], actions[i + 1]);
    }
  }

  lemma EventsRemain(a: Db, b: Db, c: Db)
    requires Evolves(a, b) && Evolves(b, c) && c.outbox.Keys == a.outbox.Keys
    ensures b.outbox.Keys == a.outbox.Keys
  {
    forall m ensures m in b.outbox.Keys <==> m in a.outbox.Keys {
      assert m in b.outbox ==> m in c.outbox.Keys;
    }
  }

  /** From any reachable state, along any run without new events, the dispatches that commit claim no more messages
      altogether than there were attempts left, however they interleave with each other and with other transactions. */
  lemma {:induction false} DispatchersSpend(run: seq<Sys>, actions: seq<Action>)
    requires Driven(run, actions) && Inv(run[0])
    requires run[|actions|].db.outbox.Keys == run[0].db.outbox.Keys
    ensures Potential(run[|actions|].db.outbox) + AllClaimed(run, actions) <= Potential(run[0].db.outbox)
    decreases |actions|
  {
    hide Inv, Enabled, Next, Evolves, Potential, Claimed;
    if actions == [] {
    } else {
      RestIsDriven(run, actions);
      NextKeeps(run[0], actions[0]);
      NextEvolves(run[0], actions[0]);
      DrivenEvolves(run[1..], actions[1..]);
      EventsRemain(run[0].db, run[1].db, run[|actions|].db);
      ActionSpends(run[0], actions[0]);
      DispatchersSpend(run[1..], actions[1..]);
    }
  }

  /** The commits of dispatches that claimed something. */
  function Claimers(run: seq<Sys>, actions: seq<Action>): nat
    requires |run| == |actions| + 1
    decreases |actions|
  {
    if actions == [] then 0
    else (if Claimed(run[0], actions[0]) > 0 then 1 else 0) + Claimers(run[1..], actions[1..])
  }

  lemma {:induction false} EachClaimsSome(run: seq<Sys>, actions: seq<Action>)
    requires |run| == |actions| + 1
    ensures Claimers(run, actions) <= AllClaimed(run, actions)
    decreases |actions|
  {
    hide Claimed;
    if actions == [] {
    } else {
      EachClaimsSome(run[1..], actions[1..]);
    }
  }

  /** So no more dispatches than there were attempts left commit a claim, and once they have claimed as many messages as
      that, there is nothing left to claim: every message is published or has failed five times. */
  lemma InterleavedDispatchesEnd(run: seq<Sys>, actions: seq<Action>)
    requires Driven(run, actions) && Inv(run[0])
    requires run[|actions|].db.outbox.Keys == run[0].db.outbox.Keys
    ensures Claimers(run, actions) <= AllClaimed(run, actions) <= Potential(run[0].db.outbox)
    ensures AllClaimed(run, actions) == Potential(run[0].db.outbox) ==>
              forall m :: m in run[|actions|].db.outbox ==> !Eligible(run[|actions|].db.outbox[m])
  {
    hide Inv, Enabled, Next, Potential, AllClaimed, Claimers;
    EachClaimsSome(run, actions);
    DispatchersSpend(run, actions);
    var last := run[|actions|].db.outbox;
    PotentialIsNonNegative(last);
    if AllClaimed(run, actions) == Potential(run[0].db.outbox) {
      forall m | m in last ensures !Eligible(last[m]) {
        if Eligible(last[m]) {
          SomeLeft(last, m);
        }
      }
    }
  }
}
