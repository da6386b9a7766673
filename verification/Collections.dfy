/** Ordered enumeration of finite sets of numbers, windows of days, and sums over sets. */
module Collections {

  predicate StrictlyAscending(s: seq<int>) {
    forall i, j :: 0 <= i < j < |s| ==> s[i] < s[j]
  }

  lemma SomeElement<T>(s: set<T>) returns (x: T)
    requires s != {}
    ensures x in s
  {
    x :| x in s;
  }

  lemma {:induction false} MinExists(s: set<int>)
    requires s != {}
    ensures exists m :: m in s && forall x :: x in s ==> m <= x
    decreases |s|
  {
    var y := SomeElement(s);
    var rest := s - {y};
    assert forall x :: x in s ==> x == y || x in rest;
    if rest == {} {
    } else {
      MinExists(rest);
      var m :| m in rest && forall x :: x in rest ==> m <= x;
      var least := if y < m then y else m;
      assert least in s && forall x :: x in s ==> least <= x;
    }
  }

  function Min(s: set<int>): (m: int)
    requires s != {}
    ensures m in s && forall x :: x in s ==> m <= x
  {
    MinExists(s);
    var m :| m in s && forall x :: x in s ==> m <= x;
    m
  }

  /** `SELECT ... ORDER BY` over the keys of a query result. */
  function Ascending(s: set<int>): (r: seq<int>)
    ensures StrictlyAscending(r)
    ensures forall x :: x in r <==> x in s
    ensures |r| == |s|
  {
    if s == {} then [] else
      var m := Min(s);
      [m] + Ascending(s - {m})
  }

  /** A set has only one ascending enumeration. */
  lemma {:induction false} AscendingUnique(a: seq<int>, b: seq<int>)
    requires StrictlyAscending(a) && StrictlyAscending(b)
    requires forall x :: x in a <==> x in b
    ensures a == b
  {
    if a == [] {
      if b != [] { InSeq(b, 0); }
    } else {
      InSeq(a, 0);
      var j :| 0 <= j < |b| && b[j] == a[0];
      InSeq(b, 0);
      var i :| 0 <= i < |a| && a[i] == b[0];
      assert a[0] == b[0];
      forall x ensures x in a[1..] <==> x in b[1..] {
        assert x in a[1..] <==> x in a && x != a[0];
        assert x in b[1..] <==> x in b && x != b[0];
      }
      AscendingUnique(a[1..], b[1..]);
      assert a == [a[0]] + a[1..] && b == [b[0]] + b[1..];
    }
  }

  lemma InSeq(s: seq<int>, i: nat)
    requires i < |s|
    ensures s[i] in s
  {
  }

  /** The numbers from `a` up to but not including `b`, in order. */
  function Range(a: int, b: int): (r: seq<int>)
    requires a <= b
    ensures |r| == b - a
    ensures forall i :: 0 <= i < |r| ==> r[i] == a + i
    ensures forall x :: x in r <==> a <= x < b
    ensures StrictlyAscending(r)
  {
    var r := seq(b - a, i requires 0 <= i < b - a => a + i);
    assert forall x :: x in r <==> a <= x < b by {
      forall x | a <= x < b ensures x in r { assert r[x - a] == x; }
    }
    r
  }

  function Window(a: int, b: int): (w: set<int>)
    requires a <= b
    ensures forall x :: x in w <==> a <= x < b
  {
    set x | x in Range(a, b)
  }

  lemma {:induction false} WindowSize(a: int, b: int)
    requires a <= b
    ensures |Window(a, b)| == b - a
    decreases b - a
  {
    if a == b {
      assert Window(a, b) == {};
    } else {
      WindowSize(a + 1, b);
      assert Window(a, b) == {a} + Window(a + 1, b);
    }
  }

  /** Counting is coverage: a subset of a window has as many elements as the window only when it is the window. */
  lemma CountingIsCoverage(s: set<int>, a: int, b: int)
    requires a <= b
    requires s <= Window(a, b)
    ensures |s| <= b - a
    ensures |s| == b - a <==> forall x :: a <= x < b ==> x in s
  {
    WindowSize(a, b);
    SubsetSize(s, Window(a, b));
    if |s| == b - a {
      assert forall x :: x in Window(a, b) ==> x in s;
    }
    if forall x :: a <= x < b ==> x in s {
      assert s == Window(a, b);
    }
  }

  lemma {:induction false} SubsetSize<T>(s: set<T>, t: set<T>)
    requires s <= t
    ensures |s| <= |t|
    ensures |s| == |t| ==> s == t
    decreases |s|
  {
    if s == {} {
    } else {
      var x :| x in s;
      SubsetSize(s - {x}, t - {x});
      assert |s - {x}| == |s| - 1 && |t - {x}| == |t| - 1;
      if |s| == |t| {
        assert s == (s - {x}) + {x} == (t - {x}) + {x} == t;
      }
    }
  }

  ghost function Sum<T(!new)>(s: set<T>, f: T -> int): int {
    if s == {} then 0 else
      var x :| x in s;
      f(x) + Sum(s - {x}, f)
  }

  /** The order in which a sum takes its elements does not matter. */
  lemma {:induction false} SumPick<T(!new)>(s: set<T>, f: T -> int, x: T)
    requires x in s
    ensures Sum(s, f) == f(x) + Sum(s - {x}, f)
    decreases |s|
  {
    var y :| y in s && Sum(s, f) == f(y) + Sum(s - {y}, f);
    if y == x {
    } else {
      SumPick(s - {y}, f, x);
      SumPick(s - {x}, f, y);
      assert s - {y} - {x} == s - {x} - {y};
    }
  }

  lemma {:induction false} SumAgree<T(!new)>(s: set<T>, f: T -> int, g: T -> int)
    requires forall x :: x in s ==> f(x) == g(x)
    ensures Sum(s, f) == Sum(s, g)
    decreases |s|
  {
    if s == {} {
    } else {
      var x :| x in s;
      SumPick(s, f, x);
      SumPick(s, g, x);
      SumAgree(s - {x}, f, g);
    }
  }

  lemma {:induction false} SumNonNegative<T(!new)>(s: set<T>, f: T -> int)
    requires forall x :: x in s ==> 0 <= f(x)
    ensures 0 <= Sum(s, f)
    decreases |s|
  {
    if s == {} {
    } else {
      var x :| x in s;
      SumPick(s, f, x);
      SumNonNegative(s - {x}, f);
    }
  }

  /** If each `x` in `s` is charged to its own `owner(x)` in `t`, and to no more than that owner can bear,
      the sum over `s` stays within the sum over `t`. */
  lemma {:induction false} SumCharged<S(!new), T(!new)>(s: set<S>, t: set<T>, f: S -> int, g: T -> int, owner: S -> T)
    requires forall x :: x in s ==> owner(x) in t && f(x) <= g(owner(x))
    requires forall x, y :: x in s && y in s && owner(x) == owner(y) ==> x == y
    requires forall y :: y in t ==> 0 <= g(y)
    ensures Sum(s, f) <= Sum(t, g)
    decreases |s|
  {
    if s == {} {
      SumNonNegative(t, g);
    } else {
      var x :| x in s;
      SumPick(s, f, x);
      SumPick(t, g, owner(x));
      SumCharged(s - {x}, t - {owner(x)}, f, g, owner);
    }
  }
}
