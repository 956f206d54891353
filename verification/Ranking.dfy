/** Age order on (timestamp, id) pairs, the order both the session cap and audit retention use. */
module Ranking {

  /** A row's sort key: creation time first, then its identifier. */
  datatype Stamp = Stamp(at: int, id: nat)

  predicate Before(a: Stamp, b: Stamp) {
    a.at < b.at || (a.at == b.at && a.id < b.id)
  }

  function Earlier(s: set<Stamp>, x: Stamp): set<Stamp> {
    set y | y in s && Before(y, x)
  }

  /** The k oldest members: those with fewer than k members before them. */
  function Oldest(s: set<Stamp>, k: nat): set<Stamp> {
    set x | x in s && |Earlier(s, x)| < k
  }

  ghost predicate IsFirst(s: set<Stamp>, m: Stamp) {
    m in s && forall y | y in s && y != m :: Before(m, y)
  }

  lemma {:induction false} FirstExists(s: set<Stamp>) returns (m: Stamp)
    requires s != {}
    ensures IsFirst(s, m)
    decreases |s|
  {
    var x :| x in s;
    if s == {x} {
      m := x;
    } else {
      assert |s - {x}| < |s|;
      var y := FirstExists(s - {x});
      m := if Before(x, y) then x else y;
      forall z | z in s && z != m
        ensures Before(m, z)
      {
        assert z == x || z in s - {x};
      }
    }
  }

  function Min(a: nat, b: nat): nat {
    if a < b then a else b
  }

  lemma OldestStep(s: set<Stamp>, m: Stamp, k: nat)
    requires IsFirst(s, m) && k > 0
    ensures Oldest(s, k) == {m} + Oldest(s - {m}, k - 1)
  {
    assert Earlier(s, m) == {};
    forall x | x in s && x != m
      ensures |Earlier(s, x)| == |Earlier(s - {m}, x)| + 1
    {
      assert Earlier(s, x) == Earlier(s - {m}, x) + {m};
    }
  }

  lemma OldestNone(s: set<Stamp>, k: nat)
    requires k == 0 || s == {}
    ensures Oldest(s, k) == {}
  {
  }

  lemma OldestWithin(s: set<Stamp>, k: nat)
    ensures Oldest(s, k) <= s
  {
  }

  lemma OneMore(s: set<Stamp>, x: Stamp)
    requires x !in s
    ensures |{x} + s| == |s| + 1
  {
  }

  lemma {:induction false} OldestSize(s: set<Stamp>, k: nat)
    ensures |Oldest(s, k)| == Min(k, |s|)
    decreases k
  {
    hide Oldest, Before;
    if k == 0 || s == {} {
      OldestNone(s, k);
    } else {
      var m := FirstExists(s);
      var rest := s - {m};
      OldestStep(s, m, k);
      OldestSize(rest, k - 1);
      OldestWithin(rest, k - 1);
      OneMore(Oldest(rest, k - 1), m);
      OneMore(rest, m);
      assert s == {m} + rest;
    }
  }

  lemma SmallerSet(a: set<Stamp>, b: set<Stamp>)
    requires a < b
    ensures |a| < |b|
  {
    assert b == a + (b - a);
    assert b - a != {};
  }

  lemma SubsetSize(a: set<Stamp>, b: set<Stamp>)
    requires a <= b
    ensures |a| <= |b|
  {
    if a != b { SmallerSet(a, b); }
  }

  lemma OldestPrecede(s: set<Stamp>, k: nat, x: Stamp, y: Stamp)
    requires x in Oldest(s, k) && y in s && y !in Oldest(s, k)
    ensures Before(x, y)
  {
    if !Before(x, y) {
      assert Before(y, x);
      assert Earlier(s, y) <= Earlier(s, x);
      assert y in Earlier(s, x) && y !in Earlier(s, y);
      SmallerSet(Earlier(s, y), Earlier(s, x));
      assert false;
    }
  }

  /** A down-closed subset of the right size is the set of the oldest. */
  lemma OldestUnique(s: set<Stamp>, k: nat, d: set<Stamp>)
    requires d <= s && |d| == Min(k, |s|)
    requires forall x, y | x in d && y in s - d :: Before(x, y)
    ensures d == Oldest(s, k)
  {
    OldestSize(s, k);
    var o := Oldest(s, k);
    if d != o {
      if o <= d { SmallerSet(o, d); }
      if d <= o { SmallerSet(d, o); }
      var x :| x in d && x !in o;
      var y :| y in o && y !in d;
      assert y in s - d;
      OldestPrecede(s, k, y, x);
      assert false;
    }
  }

  /** Taking the a oldest and then the b oldest of the rest takes the a + b oldest. */
  lemma OldestCompose(s: set<Stamp>, a: nat, b: nat)
    ensures Oldest(s, a + b) == Oldest(s, a) + Oldest(s - Oldest(s, a), b)
  {
    var o := Oldest(s, a);
    var rest := s - o;
    var d := o + Oldest(rest, b);
    OldestSize(s, a);
    OldestSize(rest, b);
    OldestWithin(s, a);
    OldestWithin(rest, b);
    hide Oldest;
    assert s == o + rest;
    assert |s| == |o| + |rest|;
    assert o !! Oldest(rest, b);
    assert |d| == |o| + |Oldest(rest, b)|;
    forall x, y | x in d && y in s - d
      ensures Before(x, y)
    {
      if x in o {
        OldestPrecede(s, a, x, y);
      } else {
        OldestPrecede(rest, b, x, y);
      }
    }
    OldestUnique(s, a + b, d);
  }

  // ---- oldest-first enumeration ------------------------------------------------------------

  ghost predicate Ascending(q: seq<Stamp>) {
    forall i, j | 0 <= i < j < |q| :: Before(q[i], q[j])
  }

  function Elements(q: seq<Stamp>): set<Stamp> {
    set x | x in q
  }

  lemma {:induction false} ElementsSize(q: seq<Stamp>)
    requires Ascending(q)
    ensures |Elements(q)| == |q|
  {
    if q == [] {
      assert Elements(q) == {};
    } else {
      var last := q[|q| - 1];
      var front := q[..|q| - 1];
      ElementsSize(front);
      assert Elements(q) == Elements(front) + {last};
      assert last !in Elements(front);
    }
  }

  /** A prefix of an ascending enumeration holds exactly the oldest members. */
  lemma PrefixIsOldest(q: seq<Stamp>, k: nat)
    requires Ascending(q) && k <= |q|
    ensures Elements(q[..k]) == Oldest(Elements(q), k)
  {
    ElementsSize(q);
    ElementsSize(q[..k]);
    forall j | 0 <= j < k
      ensures q[j] in Elements(q[..k])
    {
      assert q[..k][j] == q[j];
    }
    forall x, y | x in Elements(q[..k]) && y in Elements(q) - Elements(q[..k])
      ensures Before(x, y)
    {
      var i :| 0 <= i < k && q[i] == x;
      var j :| 0 <= j < |q| && q[j] == y;
    }
    OldestUnique(Elements(q), k, Elements(q[..k]));
  }

  /** Two ascending enumerations of one set are the same sequence. */
  lemma {:induction false} AscendingUnique(p: seq<Stamp>, q: seq<Stamp>)
    requires Ascending(p) && Ascending(q) && Elements(p) == Elements(q)
    ensures p == q
  {
    ElementsSize(p);
    ElementsSize(q);
    if p != [] {
      assert p[0] in Elements(q) && q[0] in Elements(p);
      var i :| 0 <= i < |q| && q[i] == p[0];
      var j :| 0 <= j < |p| && p[j] == q[0];
      assert p[0] == q[0];
      assert Elements(p[1..]) == Elements(p) - {p[0]};
      assert Elements(q[1..]) == Elements(q) - {q[0]};
      AscendingUnique(p[1..], q[1..]);
      assert p == [p[0]] + p[1..] && q == [q[0]] + q[1..];
    }
  }

  lemma FirstIs(s: set<Stamp>)
    requires s != {}
    ensures exists m :: IsFirst(s, m)
  {
    var m := FirstExists(s);
  }

  /** The members of a set, oldest first. */
  ghost function Ordered(s: set<Stamp>): seq<Stamp> {
    if s == {} then []
    else
      FirstIs(s);
      var m :| IsFirst(s, m);
      [m] + Ordered(s - {m})
  }

  lemma {:induction false} OrderedAscends(s: set<Stamp>)
    ensures Ascending(Ordered(s)) && Elements(Ordered(s)) == s
  {
    if s != {} {
      var m := Ordered(s)[0];
      assert IsFirst(s, m) by { FirstIs(s); }
      OrderedAscends(s - {m});
      var q := Ordered(s - {m});
      assert Ordered(s) == [m] + q;
      forall i | 0 <= i < |q|
        ensures q[i] in s - {m}
      {
        assert q[i] in Elements(q);
      }
      assert Elements([m] + q) == {m} + Elements(q);
    }
  }
}
