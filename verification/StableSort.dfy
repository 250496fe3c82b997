/** Stable sorting by a key, as Python's sorted and JavaScript's Array.sort do it: what comes out is
    ordered, has the same elements, and keeps elements with equal keys in their given order. */
module StableSort {

  type Less<!T(!new)> = (T, T) -> bool

  /** A weak order: being neither smaller nor larger is having the same key. */
  ghost predicate WeakOrder<T(!new)>(less: Less<T>) {
    && (forall x :: !less(x, x))
    && (forall x, y, z :: less(x, y) && less(y, z) ==> less(x, z))
    && (forall x, y, z :: less(x, z) ==> less(x, y) || less(y, z))
  }

  ghost predicate Ordered<T(!new)>(s: seq<T>, less: Less<T>) {
    forall i, j | 0 <= i < j < |s| :: !less(s[j], s[i])
  }

  function Insert<T(!new)>(s: seq<T>, x: T, less: Less<T>): (r: seq<T>)
    ensures multiset(r) == multiset(s) + multiset{x}
  {
    if s == [] || !less(x, s[|s| - 1]) then s + [x]
    else
      assert s == s[..|s| - 1] + [s[|s| - 1]];
      Insert(s[..|s| - 1], x, less) + [s[|s| - 1]]
  }

  function SortBy<T(!new)>(s: seq<T>, less: Less<T>): (r: seq<T>)
    ensures multiset(r) == multiset(s)
  {
    if s == [] then []
    else
      assert s == s[..|s| - 1] + [s[|s| - 1]];
      Insert(SortBy(s[..|s| - 1], less), s[|s| - 1], less)
  }

  lemma OrderedAppend<T(!new)>(s: seq<T>, z: T, less: Less<T>)
    requires Ordered(s, less) && forall y | y in s :: !less(z, y)
    ensures Ordered(s + [z], less)
  {
  }

  lemma {:induction false} InsertOrdered<T(!new)>(s: seq<T>, x: T, less: Less<T>)
    requires WeakOrder(less) && Ordered(s, less)
    ensures Ordered(Insert(s, x, less), less)
  {
    if s != [] {
      var n := |s| - 1;
      if less(x, s[n]) {
        var front := Insert(s[..n], x, less);
        InsertOrdered(s[..n], x, less);
        forall y | y in front ensures !less(s[n], y) {
          assert y in multiset(front);
          assert y in multiset(s[..n]) || y == x;
        }
        hide Insert;
        OrderedAppend(front, s[n], less);
      } else {
        assert forall i | 0 <= i < n :: !less(s[n], s[i]);
      }
    }
  }

  lemma {:induction false} SortOrdered<T(!new)>(s: seq<T>, less: Less<T>)
    requires WeakOrder(less)
    ensures Ordered(SortBy(s, less), less)
  {
    if s != [] {
      SortOrdered(s[..|s| - 1], less);
      InsertOrdered(SortBy(s[..|s| - 1], less), s[|s| - 1], less);
    }
  }

  /** Sorting what is already in order changes nothing. */
  lemma {:induction false} SortIsIdentity<T(!new)>(s: seq<T>, less: Less<T>)
    requires Ordered(s, less)
    ensures SortBy(s, less) == s
  {
    if s != [] {
      SortIsIdentity(s[..|s| - 1], less);
      assert s == s[..|s| - 1] + [s[|s| - 1]];
    }
  }

  function Tie<T(!new)>(y: T, x: T, less: Less<T>): seq<T> {
    if less(x, y) || less(y, x) then [] else [y]
  }

  /** The elements that share a key with x, in their given order. */
  function Ties<T(!new)>(s: seq<T>, x: T, less: Less<T>): seq<T> {
    if s == [] then [] else Ties(s[..|s| - 1], x, less) + Tie(s[|s| - 1], x, less)
  }

  lemma TiesAppend<T(!new)>(s: seq<T>, y: T, x: T, less: Less<T>)
    ensures Ties(s + [y], x, less) == Ties(s, x, less) + Tie(y, x, less)
  {
    assert (s + [y])[..|s|] == s;
  }

  lemma NotBothTies<T(!new)>(y: T, z: T, x: T, less: Less<T>)
    requires WeakOrder(less) && less(y, z)
    ensures Tie(y, x, less) + Tie(z, x, less) == Tie(z, x, less) + Tie(y, x, less)
  {
    assert less(y, x) || less(x, z);
  }

  /** The last two of three lists may change places when one of them is empty. */
  lemma TiesSwap<T(!new)>(s: seq<T>, y: T, z: T, x: T, less: Less<T>)
    requires WeakOrder(less) && less(y, z)
    ensures Ties(s + [y], x, less) + Tie(z, x, less) == Ties(s + [z] + [y], x, less)
  {
    NotBothTies(y, z, x, less);
    hide Tie;
    TiesAppend(s, y, x, less);
    TiesAppend(s, z, x, less);
    TiesAppend(s + [z], y, x, less);
    var before, a, b := Ties(s, x, less), Tie(y, x, less), Tie(z, x, less);
    assert (before + a) + b == before + (a + b);
    assert (before + b) + a == before + (b + a);
  }

  lemma InsertCases<T(!new)>(s: seq<T>, y: T, less: Less<T>)
    ensures Insert(s, y, less) == if s == [] || !less(y, s[|s| - 1]) then s + [y]
                                  else Insert(s[..|s| - 1], y, less) + [s[|s| - 1]]
  {
  }

  lemma {:induction false} InsertStable<T(!new)>(s: seq<T>, y: T, x: T, less: Less<T>)
    requires WeakOrder(less)
    ensures Ties(Insert(s, y, less), x, less) == Ties(s + [y], x, less)
  {
    hide Insert, Tie, Ties, WeakOrder;
    InsertCases(s, y, less);
    if s != [] && less(y, s[|s| - 1]) {
      var n := |s| - 1;
      var front := Insert(s[..n], y, less);
      InsertStable(s[..n], y, x, less);
      TiesAppend(front, s[n], x, less);
      TiesSwap(s[..n], y, s[n], x, less);
      assert s[..n] + [s[n]] == s;
    }
  }

  /** Stability: elements with equal keys keep their given order. */
  lemma {:induction false} SortIsStable<T(!new)>(s: seq<T>, x: T, less: Less<T>)
    requires WeakOrder(less)
    ensures Ties(SortBy(s, less), x, less) == Ties(s, x, less)
  {
    if s != [] {
      var n := |s| - 1;
      SortIsStable(s[..n], x, less);
      InsertStable(SortBy(s[..n], less), s[n], x, less);
      TiesAppend(SortBy(s[..n], less), s[n], x, less);
    }
  }

  ghost predicate DistinctKeys<T(!new)>(s: seq<T>, less: Less<T>) {
    forall i, j | 0 <= i < j < |s| :: less(s[i], s[j]) || less(s[j], s[i])
  }

  lemma FirstIsFirst<T(!new)>(s: seq<T>, t: seq<T>, less: Less<T>)
    requires WeakOrder(less) && Ordered(s, less) && Ordered(t, less) && multiset(s) == multiset(t)
    requires DistinctKeys(s, less) && s != [] && t != []
    ensures s[0] == t[0]
  {
    HeadIsLeast(s, less);
    HeadIsLeast(t, less);
    assert s[0] in multiset(t) && t[0] in multiset(s);
    assert !less(s[0], t[0]) && !less(t[0], s[0]);
  }

  lemma HeadIsLeast<T(!new)>(s: seq<T>, less: Less<T>)
    requires WeakOrder(less) && Ordered(s, less) && s != []
    ensures forall y | y in s :: !less(y, s[0])
  {
  }

  lemma WithoutFirst<T>(s: seq<T>)
    requires s != []
    ensures s == [s[0]] + s[1..] && multiset(s[1..]) == multiset(s) - multiset{s[0]}
  {
    assert s == [s[0]] + s[1..];
  }

  /** With distinct keys there is only one ordered arrangement of the same elements. */
  lemma {:induction false} OrderedIsUnique<T(!new)>(s: seq<T>, t: seq<T>, less: Less<T>)
    requires WeakOrder(less) && Ordered(s, less) && Ordered(t, less) && multiset(s) == multiset(t)
    requires DistinctKeys(s, less)
    ensures s == t
  {
    assert |s| == |multiset(s)| == |multiset(t)| == |t|;
    if s != [] {
      FirstIsFirst(s, t, less);
      WithoutFirst(s);
      WithoutFirst(t);
      OrderedIsUnique(s[1..], t[1..], less);
    }
  }

  lemma TwiceInSeq<T>(s: seq<T>, i: nat, j: nat)
    requires i < j < |s| && s[i] == s[j]
    ensures multiset(s)[s[i]] >= 2
  {
    assert s == s[..j] + s[j..];
    assert s[i] in s[..j] && s[j] in s[j..];
  }
}
