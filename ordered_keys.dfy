/**
 * The chain store is a nest of `std::map`s keyed by unsigned integers, and
 * the source scans them with iterators, i.e. in ascending key order.  This
 * module provides that order: the minimum of a finite set, the lexicographic
 * minimum and maximum of a set of key pairs, and a method that lists the keys
 * of a map in ascending order.
 */
module OrderedKeys {

  /** A non-empty set has an element (what `:|` needs to pick one). */
  lemma Inhabited(s: set<int>)
    requires s != {}
    ensures exists x :: x in s
  {
    assert (forall x :: x !in s) ==> s == {};
  }

  lemma InhabitedPairs(ps: set<(int, int)>)
    requires ps != {}
    ensures exists p :: p in ps
  {
    assert (forall p :: p !in ps) ==> ps == {};
  }

  ghost function Pick(s: set<int>): (x: int)
    requires s != {}
    ensures x in s
  {
    Inhabited(s);
    var x :| x in s;
    x
  }

  ghost function PickPair(ps: set<(int, int)>): (p: (int, int))
    requires ps != {}
    ensures p in ps
  {
    InhabitedPairs(ps);
    var p :| p in ps;
    p
  }

  /** Strictly ascending, as the keys of a `std::map` are visited. */
  ghost predicate Ascending(ks: seq<int>) {
    forall i, j :: 0 <= i < j < |ks| ==> ks[i] < ks[j]
  }

  ghost function Min(s: set<int>): (m: int)
    requires s != {}
    ensures m in s && forall y :: y in s ==> m <= y
  {
    var x := Pick(s);
    if forall y :: y in s ==> x <= y then x
    else
      var w :| w in s && w < x;
      assert w in s - {x};
      var z := Min(s - {x});
      assert forall y :: y in s ==> y == x || y in s - {x};
      if x <= z then x else z
  }

  /** Lexicographic order on (outer key, inner key) pairs. */
  predicate LexLe(p: (int, int), q: (int, int)) {
    p.0 < q.0 || (p.0 == q.0 && p.1 <= q.1)
  }

  /** Strictly ascending in lexicographic order: the order in which two nested `std::map` iterators visit their entries. */
  ghost predicate LexAscending(ps: seq<(int, int)>) {
    forall i, j :: 0 <= i < j < |ps| ==> LexLe(ps[i], ps[j]) && ps[i] != ps[j]
  }

  ghost function LexMin(ps: set<(int, int)>): (p: (int, int))
    requires ps != {}
    ensures p in ps && forall q :: q in ps ==> LexLe(p, q)
  {
    var x := PickPair(ps);
    if forall q :: q in ps ==> LexLe(x, q) then x
    else
      var w :| w in ps && !LexLe(x, w);
      assert w in ps - {x};
      var z := LexMin(ps - {x});
      assert forall q :: q in ps ==> q == x || q in ps - {x};
      if LexLe(x, z) then x else z
  }

  ghost function LexMax(ps: set<(int, int)>): (p: (int, int))
    requires ps != {}
    ensures p in ps && forall q :: q in ps ==> LexLe(q, p)
  {
    var x := PickPair(ps);
    if forall q :: q in ps ==> LexLe(q, x) then x
    else
      var w :| w in ps && !LexLe(w, x);
      assert w in ps - {x};
      var z := LexMax(ps - {x});
      assert forall q :: q in ps ==> q == x || q in ps - {x};
      if LexLe(z, x) then x else z
  }

  /** An element below every other one is the lexicographic minimum. */
  lemma LexMinIs(ps: set<(int, int)>, p: (int, int))
    requires p in ps && forall q :: q in ps ==> LexLe(p, q)
    ensures LexMin(ps) == p
  {
    var r := LexMin(ps);
    assert LexLe(r, p) && LexLe(p, r);
  }

  /** An element above every other one is the lexicographic maximum. */
  lemma LexMaxIs(ps: set<(int, int)>, p: (int, int))
    requires p in ps && forall q :: q in ps ==> LexLe(q, p)
    ensures LexMax(ps) == p
  {
    var r := LexMax(ps);
    assert LexLe(r, p) && LexLe(p, r);
  }

  /** The smallest element of a non-empty finite set. */
  method MinOf(s: set<int>) returns (m: int)
    requires s != {}
    ensures m in s && forall x :: x in s ==> m <= x
  {
    Inhabited(s);
    m :| m in s;
    var rest := s - {m};
    while rest != {}
      invariant rest <= s && m in s
      invariant forall x :: x in s && x !in rest ==> m <= x
      decreases rest
    {
      Inhabited(rest);
      var x :| x in rest;
      if x < m {
        m := x;
      }
      rest := rest - {x};
    }
  }

  /** The elements of `s` in ascending order: the iteration order of a `std::map` with keys `s`. */
  method SortedKeys(s: set<int>) returns (ks: seq<int>)
    ensures Ascending(ks)
    ensures forall x :: x in ks <==> x in s
  {
    ks := [];
    var rest := s;
    while rest != {}
      invariant rest <= s
      invariant forall x :: x in s <==> x in ks || x in rest
      invariant Ascending(ks)
      invariant forall i, y :: 0 <= i < |ks| && y in rest ==> ks[i] < y
      decreases rest
    {
      var m := MinOf(rest);
      ks := ks + [m];
      rest := rest - {m};
    }
  }
}
