/** Finite sets put in order. A query returns the items of a set in key order, so the answer
    is the one ascending sequence with those elements. */
module Sorting {

  type Order<!T(!new)> = (T, T) -> bool

  ghost predicate Transitive<T(!new)>(less: Order<T>) {
    forall x, y, z :: less(x, y) && less(y, z) ==> less(x, z)
  }

  ghost predicate StrictTotal<T(!new)>(less: Order<T>) {
    && Transitive(less)
    && (forall x :: !less(x, x))
    && (forall x, y :: x != y ==> less(x, y) || less(y, x))
  }

  ghost predicate Ascending<T(!new)>(s: seq<T>, less: Order<T>) {
    forall i, j | 0 <= i < j < |s| :: less(s[i], s[j])
  }

  function Elements<T(!new)>(s: seq<T>): set<T> {
    set x | x in s
  }

  predicate NoRepeats<T(==)>(s: seq<T>) {
    forall i, j | 0 <= i < j < |s| :: s[i] != s[j]
  }

  ghost predicate IsLeast<T(!new)>(m: T, elements: set<T>, less: Order<T>) {
    m in elements && forall x | x in elements && x != m :: less(m, x)
  }

  lemma {:induction false} LeastExists<T(!new)>(elements: set<T>, less: Order<T>)
    requires StrictTotal(less) && elements != {}
    ensures exists m :: IsLeast(m, elements, less)
  {
    var x :| x in elements;
    var rest := elements - {x};
    if rest == {} {
      assert elements == {x};
      assert IsLeast(x, elements, less);
    } else {
      LeastExists(rest, less);
      var k :| IsLeast(k, rest, less);
      if less(x, k) {
        forall y | y in elements && y != x ensures less(x, y) {
          assert y in rest;
          assert y != k ==> less(x, k) && less(k, y);
        }
        assert IsLeast(x, elements, less);
      } else {
        assert IsLeast(k, elements, less);
      }
    }
  }

  ghost function Least<T(!new)>(elements: set<T>, less: Order<T>): (m: T)
    requires StrictTotal(less) && elements != {}
    ensures IsLeast(m, elements, less)
  {
    LeastExists(elements, less);
    var m :| IsLeast(m, elements, less);
    m
  }

  ghost function InOrder<T(!new)>(elements: set<T>, less: Order<T>): seq<T>
    requires StrictTotal(less)
    decreases |elements|
  {
    if elements == {} then [] else
      var m := Least(elements, less);
      [m] + InOrder(elements - {m}, less)
  }

  lemma {:induction false} InOrderIsOrdered<T(!new)>(elements: set<T>, less: Order<T>)
    requires StrictTotal(less)
    ensures Ascending(InOrder(elements, less), less)
    ensures forall x :: x in InOrder(elements, less) <==> x in elements
    ensures |InOrder(elements, less)| == |elements|
    decreases |elements|
  {
    if elements != {} {
      var m := Least(elements, less);
      var rest := InOrder(elements - {m}, less);
      InOrderIsOrdered(elements - {m}, less);
      LeastFirst(m, rest, elements, less);
    }
  }

  lemma LeastFirst<T(!new)>(m: T, rest: seq<T>, elements: set<T>, less: Order<T>)
    requires IsLeast(m, elements, less) && Ascending(rest, less)
    requires forall x :: x in rest <==> x in elements - {m}
    ensures Ascending([m] + rest, less)
    ensures forall x :: x in [m] + rest <==> x in elements
  {
    assert forall j | 0 <= j < |rest| :: rest[j] in rest;
  }

  lemma AscendingTail<T(!new)>(s: seq<T>, less: Order<T>)
    requires StrictTotal(less) && Ascending(s, less) && s != []
    ensures Ascending(s[1..], less)
    ensures forall x :: x in s[1..] <==> x in s && x != s[0]
  {
    forall x ensures x in s[1..] <==> x in s && x != s[0] {
      if x in s[1..] {
        var j :| 0 <= j < |s[1..]| && s[1..][j] == x;
        assert less(s[0], s[j + 1]);
      }
    }
  }

  /** There is only one way to put a set in order. */
  lemma {:induction false} OrderIsUnique<T(!new)>(a: seq<T>, b: seq<T>, less: Order<T>)
    requires StrictTotal(less) && Ascending(a, less) && Ascending(b, less)
    requires forall x :: x in a <==> x in b
    ensures a == b
  {
    EmptyTogether(a, b);
    if a != [] {
      HeadsAgree(a, b, less);
      AscendingTail(a, less);
      AscendingTail(b, less);
      OrderIsUnique(a[1..], b[1..], less);
      assert a == [a[0]] + a[1..] && b == [b[0]] + b[1..];
    }
  }

  lemma EmptyTogether<T(!new)>(a: seq<T>, b: seq<T>)
    requires forall x :: x in a <==> x in b
    ensures a == [] <==> b == []
  {
    if a != [] {
      assert a[0] in b;
    }
    if b != [] {
      assert b[0] in a;
    }
  }

  lemma HeadIsLeast<T(!new)>(s: seq<T>, less: Order<T>)
    requires Ascending(s, less) && s != []
    ensures forall x | x in s :: x == s[0] || less(s[0], x)
  {
  }

  lemma HeadsAgree<T(!new)>(a: seq<T>, b: seq<T>, less: Order<T>)
    requires StrictTotal(less) && Ascending(a, less) && Ascending(b, less)
    requires forall x :: x in a <==> x in b
    requires a != [] && b != []
    ensures a[0] == b[0]
  {
    HeadIsLeast(a, less);
    HeadIsLeast(b, less);
    assert a[0] in b && b[0] in a;
    assert !(less(a[0], b[0]) && less(b[0], a[0]));
  }

  /** Any ascending sequence with these elements is the ordered set. */
  lemma IsInOrder<T(!new)>(s: seq<T>, elements: set<T>, less: Order<T>)
    requires StrictTotal(less) && Ascending(s, less)
    requires forall x :: x in s <==> x in elements
    ensures s == InOrder(elements, less)
  {
    InOrderIsOrdered(elements, less);
    OrderIsUnique(s, InOrder(elements, less), less);
  }
}
