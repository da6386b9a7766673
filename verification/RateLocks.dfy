/** Publishing rates: one upsert, which locks the rows of the rate calendar in the order of the request. No other
    transaction locks these rows, so publishers of rates can wait only for each other. */
module RateLocks {
  import opened Results
  import opened Tables

  /** The rows asked for, in order, up to the first that is asked for again, where the upsert fails; and how many of
      them are locked so far. */
  datatype Publisher = Publisher(keys: seq<RateKey>, got: nat, ended: bool)

  predicate Holds(p: Publisher, key: RateKey) {
    !p.ended && p.got <= |p.keys| && key in p.keys[..p.got]
  }

  /** `i` is about to lock a row that `j` holds. */
  predicate Waits(s: seq<Publisher>, i: nat, j: nat) {
    && i < |s| && j < |s| && i != j
    && !s[i].ended && s[i].got < |s[i].keys| && Holds(s[j], s[i].keys[s[i].got])
  }

  ghost predicate CanLock(s: seq<Publisher>, i: nat) {
    i < |s| && !s[i].ended && s[i].got < |s[i].keys| && forall j :: !Waits(s, i, j)
  }

  function Locked(s: seq<Publisher>, i: nat): seq<Publisher>
    requires i < |s|
  {
    s[i := s[i].(got := s[i].got + 1)]
  }

  /** A publisher locks its next row, or ends, by itself or from outside, and gives up its locks. */
  ghost predicate StepsTo(s: seq<Publisher>, s': seq<Publisher>) {
    || (exists i :: CanLock(s, i) && s' == Locked(s, i))
    || (exists i :: 0 <= i < |s| && s' == s[i := s[i].(ended := true)])
  }

  ghost predicate IsRun(run: seq<seq<Publisher>>) {
    && |run| > 0 && (forall p :: p in run[0] ==> p.got == 0)
    && forall i {:trigger run[i]} :: 0 < i < |run| ==> StepsTo(run[i - 1], run[i])
  }

  // No row is locked twice

  ghost predicate Exclusive(s: seq<Publisher>) {
    && (forall p :: p in s ==> p.got <= |p.keys|)
    && forall i, j, key :: 0 <= i < |s| && 0 <= j < |s| && Holds(s[i], key) && Holds(s[j], key) ==> i == j
  }

  lemma StepKeepsExclusive(s: seq<Publisher>, s': seq<Publisher>)
    requires Exclusive(s) && StepsTo(s, s')
    ensures Exclusive(s') && |s'| == |s| && forall i :: 0 <= i < |s| ==> s'[i].keys == s[i].keys
  {
    if i: nat :| CanLock(s, i) && s' == Locked(s, i) {
      var p := s[i];
      assert p.keys[..p.got + 1] == p.keys[..p.got] + [p.keys[p.got]];
      forall j, key | 0 <= j < |s| && j != i && Holds(s'[i], key) ensures !Holds(s'[j], key) {
        assert !Waits(s, i, j);
      }
    }
  }

  lemma {:induction false} RunIsExclusive(run: seq<seq<Publisher>>, n: nat)
    requires IsRun(run) && n < |run|
    ensures Exclusive(run[n]) && |run[n]| == |run[0]|
    ensures forall i :: 0 <= i < |run[0]| ==> run[n][i].keys == run[0][i].keys
  {
    hide StepsTo, Exclusive;
    if n == 0 {
      StartIsExclusive(run[0]);
    } else {
      RunIsExclusive(run, n - 1);
      assert StepsTo(run[n - 1], run[n]);
      StepKeepsExclusive(run[n - 1], run[n]);
    }
  }

  lemma StartIsExclusive(s: seq<Publisher>)
    requires forall p :: p in s ==> p.got == 0
    ensures Exclusive(s)
  {
    forall i, key | 0 <= i < |s| ensures !Holds(s[i], key) {
      assert s[i] in s;
    }
  }

  // Ascending requests never wait in a circle

  /** A request for one plan, by ascending date. */
  predicate ByDate(keys: seq<RateKey>) {
    forall k, l :: 0 <= k < l < |keys| ==> keys[k].plan == keys[l].plan && keys[k].day < keys[l].day
  }

  ghost predicate Circle(s: seq<Publisher>, ring: seq<nat>) {
    && |ring| > 1 && ring[0] == ring[|ring| - 1]
    && forall k {:trigger ring[k]} :: 0 < k < |ring| ==> Waits(s, ring[k - 1], ring[k])
  }

  lemma {:induction false} WaitingGoesOnByDate(s: seq<Publisher>, ring: seq<nat>)
    requires forall p :: p in s ==> ByDate(p.keys)
    requires |ring| > 1 && forall k {:trigger ring[k]} :: 0 < k < |ring| ==> Waits(s, ring[k - 1], ring[k])
    requires ring[|ring| - 1] < |s| && s[ring[|ring| - 1]].got < |s[ring[|ring| - 1]].keys|
    ensures ring[0] < |s| && s[ring[0]].got < |s[ring[0]].keys|
    ensures var p, q := s[ring[0]], s[ring[|ring| - 1]]; p.keys[p.got].day < q.keys[q.got].day
    decreases |ring|
  {
    assert Waits(s, ring[0], ring[1]);
    var p, q := s[ring[0]], s[ring[1]];
    assert q in s;
    var k :| 0 <= k < q.got && q.keys[..q.got][k] == p.keys[p.got];
    if |ring| == 2 {
    } else {
      assert Waits(s, ring[1], ring[2]);
      forall k {:trigger ring[1..][k]} | 0 < k < |ring[1..]| ensures Waits(s, ring[1..][k - 1], ring[1..][k]) {
        assert Waits(s, ring[k], ring[k + 1]);
      }
      WaitingGoesOnByDate(s, ring[1..]);
    }
  }

  /** Publishers whose requests go by ascending date, any number of them, never wait for each other in a circle. */
  lemma ByDateHasNoCircle(s: seq<Publisher>, ring: seq<nat>)
    requires forall p :: p in s ==> ByDate(p.keys)
    ensures !Circle(s, ring)
  {
    if Circle(s, ring) {
      assert Waits(s, ring[0], ring[1]);
      WaitingGoesOnByDate(s, ring);
    }
  }

  // Two publishers

  /** The first row of `a` that is also in `b`. */
  function FirstShared(a: seq<RateKey>, b: seq<RateKey>): Option<RateKey> {
    if a == [] then None else if a[0] in b then Some(a[0]) else FirstShared(a[1..], b)
  }

  lemma {:induction false} SharedIff(a: seq<RateKey>, b: seq<RateKey>)
    ensures FirstShared(a, b).Some? <==> exists k :: k in a && k in b
    decreases |a|
  {
    if a == [] || a[0] in b {
    } else {
      SharedIff(a[1..], b);
      assert a == [a[0]] + a[1..];
    }
  }

  /** Its place in `a`. */
  lemma {:induction false} SharedAt(a: seq<RateKey>, b: seq<RateKey>) returns (n: nat)
    requires FirstShared(a, b).Some?
    ensures n < |a| && FirstShared(a, b) == Some(a[n]) && a[n] in b && forall k :: 0 <= k < n ==> a[k] !in b
    decreases |a|
  {
    if a[0] in b {
      n := 0;
    } else {
      var m := SharedAt(a[1..], b);
      n := m + 1;
      forall k | 0 <= k < n ensures a[k] !in b {
        assert k > 0 ==> a[k] == a[1..][k - 1];
      }
    }
  }

  function Two(a: seq<RateKey>, i: nat, b: seq<RateKey>, j: nat): seq<Publisher> {
    [Publisher(a, i, false), Publisher(b, j, false)]
  }

  ghost predicate EndsAt(run: seq<seq<Publisher>>, s: seq<Publisher>) {
    IsRun(run) && run[|run| - 1] == s
  }

  lemma Extend(run: seq<seq<Publisher>>, s: seq<Publisher>, s': seq<Publisher>) returns (longer: seq<seq<Publisher>>)
    requires EndsAt(run, s) && StepsTo(s, s')
    ensures EndsAt(longer, s') && |longer| > 0 && longer[0] == run[0]
  {
    hide StepsTo;
    longer := run + [s'];
    forall i {:trigger longer[i]} | 0 < i < |longer| ensures StepsTo(longer[i - 1], longer[i]) {
      if i < |run| {
        assert StepsTo(run[i - 1], run[i]);
      }
    }
  }

  /** The first goes on over rows the second does not hold. */
  lemma FirstGoesOn(start: seq<seq<Publisher>>, a: seq<RateKey>, i: nat, n: nat, b: seq<RateKey>, j: nat)
    returns (run: seq<seq<Publisher>>)
    requires EndsAt(start, Two(a, i, b, j)) && |start| > 0 && i <= n <= |a| && j <= |b|
    requires forall k :: i <= k < n ==> a[k] !in b[..j]
    ensures EndsAt(run, Two(a, n, b, j)) && |run| > 0 && run[0] == start[0]
  {
    hide EndsAt;
    run := start;
    for k := i to n
      invariant EndsAt(run, Two(a, k, b, j)) && |run| > 0 && run[0] == start[0]
    {
      var s := Two(a, k, b, j);
      assert CanLock(s, 0) && Locked(s, 0) == Two(a, k + 1, b, j);
      run := Extend(run, s, Two(a, k + 1, b, j));
    }
  }

  lemma SecondGoesOn(start: seq<seq<Publisher>>, a: seq<RateKey>, i: nat, b: seq<RateKey>, j: nat, n: nat)
    returns (run: seq<seq<Publisher>>)
    requires EndsAt(start, Two(a, i, b, j)) && |start| > 0 && j <= n <= |b| && i <= |a|
    requires forall k :: j <= k < n ==> b[k] !in a[..i]
    ensures EndsAt(run, Two(a, i, b, n)) && |run| > 0 && run[0] == start[0]
  {
    hide EndsAt;
    run := start;
    for k := j to n
      invariant EndsAt(run, Two(a, i, b, k)) && |run| > 0 && run[0] == start[0]
    {
      var s := Two(a, i, b, k);
      assert CanLock(s, 1) && Locked(s, 1) == Two(a, i, b, k + 1);
      run := Extend(run, s, Two(a, i, b, k + 1));
    }
  }

  ghost predicate BothWait(s: seq<Publisher>) {
    Waits(s, 0, 1) && Waits(s, 1, 0)
  }

  /** Up to the first rows they share the requests have nothing in common, if those are not the same. */
  lemma FirstRows(a: seq<RateKey>, b: seq<RateKey>) returns (x: nat, y: nat)
    requires FirstShared(a, b) != FirstShared(b, a)
    ensures x < |a| && y < |b| && a[x] in b && b[y] in a
    ensures forall k :: 0 <= k <= x ==> a[k] !in b[..y + 1]
    ensures forall k :: 0 <= k <= y ==> b[k] !in a[..x + 1]
  {
    SharedIff(a, b);
    SharedIff(b, a);
    x := SharedAt(a, b);
    y := SharedAt(b, a);
  }

  /** From there on each meets a row of the other. */
  lemma RowsMet(a: seq<RateKey>, b: seq<RateKey>, x: nat, y: nat) returns (i: nat, j: nat)
    requires x < |a| && y < |b| && a[x] in b && b[y] in a
    requires forall k :: 0 <= k <= x ==> a[k] !in b[..y + 1]
    requires forall k :: 0 <= k <= y ==> b[k] !in a[..x + 1]
    ensures x < i < |a| && a[i] in b[..y + 1] && forall k :: 0 <= k < i ==> a[k] !in b[..y + 1]
    ensures y < j < |b| && b[j] in a[..i] && forall k :: 0 <= k < j ==> b[k] !in a[..i]
  {
    SharedIff(a, b[..y + 1]);
    assert b[y] in b[..y + 1];
    i := SharedAt(a, b[..y + 1]);
    SharedIff(b, a[..i]);
    assert a[x] in a[..i];
    j := SharedAt(b, a[..i]);
    forall k | 0 <= k <= y ensures b[k] !in a[..i] {
      assert b[k] in b[..y + 1];
    }
  }

  /** Each locks the first row it shares with the other, and goes on until it meets a row the other holds. */
  lemma RunsToBothWait(a: seq<RateKey>, b: seq<RateKey>) returns (run: seq<seq<Publisher>>)
    requires FirstShared(a, b) != FirstShared(b, a)
    ensures IsRun(run) && run[0] == Two(a, 0, b, 0) && BothWait(run[|run| - 1])
  {
    hide FirstShared, StepsTo;
    var x, y := FirstRows(a, b);
    var i, j := RowsMet(a, b, x, y);
    run := [Two(a, 0, b, 0)];
    run := FirstGoesOn(run, a, 0, x + 1, b, 0);
    run := SecondGoesOn(run, a, x + 1, b, 0, y + 1);
    run := FirstGoesOn(run, a, x + 1, i, b, y + 1);
    run := SecondGoesOn(run, a, i, b, y + 1, j);
  }

  /** Two that wait for each other hold the first rows they share, which are not the same then. */
  lemma BothWaitMeans(s: seq<Publisher>)
    requires Exclusive(s) && BothWait(s)
    ensures FirstShared(s[0].keys, s[1].keys) != FirstShared(s[1].keys, s[0].keys)
  {
    var p, q := s[0], s[1];
    SharedIff(p.keys, q.keys);
    SharedIff(q.keys, p.keys);
    assert p.keys[p.got] in p.keys && p.keys[p.got] in q.keys;
    var x := SharedAt(p.keys, q.keys);
    var y := SharedAt(q.keys, p.keys);
    assert Holds(p, p.keys[x]) && Holds(q, q.keys[y]);
  }

  /** Two publishers of rates can come to wait for each other if and only if the first row that each shares with the
      other is not the same. */
  lemma RatesPairIff(a: seq<RateKey>, b: seq<RateKey>)
    ensures (exists run :: IsRun(run) && run[0] == Two(a, 0, b, 0) && BothWait(run[|run| - 1])) <==>
            FirstShared(a, b) != FirstShared(b, a)
  {
    hide StepsTo, BothWait, Exclusive;
    if FirstShared(a, b) != FirstShared(b, a) {
      var run := RunsToBothWait(a, b);
    }
    if run :| IsRun(run) && run[0] == Two(a, 0, b, 0) && BothWait(run[|run| - 1]) {
      RunIsExclusive(run, |run| - 1);
      BothWaitMeans(run[|run| - 1]);
    }
  }
}
