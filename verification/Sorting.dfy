/** A stable sort, by an order that ties may share. */
module Sorting {

  ghost predicate IsOrder<T(!new)>(leq: (T, T) -> bool) {
    && (forall x, y :: leq(x, y) || leq(y, x))
    && (forall x, y, z :: leq(x, y) && leq(y, z) ==> leq(x, z))
  }

  ghost predicate IsSorted<T>(s: seq<T>, leq: (T, T) -> bool) {
    forall i, j :: 0 <= i < j < |s| ==> leq(s[i], s[j])
  }

  function Insert<T>(x: T, s: seq<T>, leq: (T, T) -> bool): seq<T> {
    if s == [] || leq(x, s[0]) then [x] + s else [s[0]] + Insert(x, s[1..], leq)
  }

  /** Equal elements keep their order. */
  function Sorted<T>(s: seq<T>, leq: (T, T) -> bool): seq<T> {
    if s == [] then [] else Insert(s[0], Sorted(s[1..], leq), leq)
  }

  lemma {:induction false} InsertIsSorted<T(!new)>(x: T, s: seq<T>, leq: (T, T) -> bool)
    requires IsOrder(leq) && IsSorted(s, leq)
    ensures multiset(Insert(x, s, leq)) == multiset{x} + multiset(s)
    ensures IsSorted(Insert(x, s, leq), leq)
  {
    if s != [] {
      assert s == [s[0]] + s[1..];
      if !leq(x, s[0]) {
        InsertIsSorted(x, s[1..], leq);
        FirstIsLeast(s, x, Insert(x, s[1..], leq), leq);
      }
    }
  }

  lemma FirstIsLeast<T(!new)>(s: seq<T>, x: T, rest: seq<T>, leq: (T, T) -> bool)
    requires s != [] && IsSorted(s, leq) && leq(s[0], x) && multiset(rest) == multiset{x} + multiset(s[1..])
    ensures forall j :: 0 <= j < |rest| ==> leq(s[0], rest[j])
  {
    forall j | 0 <= j < |rest|
      ensures leq(s[0], rest[j])
    {
      assert rest[j] in multiset(rest);
      assert rest[j] == x || rest[j] in s[1..];
    }
  }

  lemma {:induction false} SortedIsSorted<T(!new)>(s: seq<T>, leq: (T, T) -> bool)
    requires IsOrder(leq)
    ensures multiset(Sorted(s, leq)) == multiset(s)
    ensures IsSorted(Sorted(s, leq), leq)
  {
    if s != [] {
      SortedIsSorted(s[1..], leq);
      InsertIsSorted(s[0], Sorted(s[1..], leq), leq);
      assert s == [s[0]] + s[1..];
    }
  }

  /** y, where the order does not tell it from x. */
  function Tie<T>(y: T, x: T, leq: (T, T) -> bool): seq<T> {
    if leq(y, x) && leq(x, y) then [y] else []
  }

  /** The elements that the order does not tell from x. */
  function Ties<T>(s: seq<T>, x: T, leq: (T, T) -> bool): seq<T> {
    if s == [] then [] else Tie(s[0], x, leq) + Ties(s[1..], x, leq)
  }

  lemma TiesFirst<T>(y: T, s: seq<T>, x: T, leq: (T, T) -> bool)
    ensures Ties([y] + s, x, leq) == Tie(y, x, leq) + Ties(s, x, leq)
  {
    assert ([y] + s)[1..] == s;
  }

  lemma OnlyOneTies<T(!new)>(y: T, z: T, x: T, leq: (T, T) -> bool)
    requires IsOrder(leq) && !leq(y, z)
    ensures Tie(y, x, leq) == [] || Tie(z, x, leq) == []
  {
  }

  lemma {:induction false} InsertIsStable<T(!new)>(y: T, s: seq<T>, x: T, leq: (T, T) -> bool)
    requires IsOrder(leq)
    ensures Ties(Insert(y, s, leq), x, leq) == Tie(y, x, leq) + Ties(s, x, leq)
  {
    if s != [] && !leq(y, s[0]) {
      InsertIsStable(y, s[1..], x, leq);
      TiesFirst(s[0], Insert(y, s[1..], leq), x, leq);
      OnlyOneTies(y, s[0], x, leq);
      hide IsOrder, Tie;
    } else {
      TiesFirst(y, s, x, leq);
      hide IsOrder, Tie, Ties;
    }
  }

  /** Elements that the order does not tell apart keep their order. */
  lemma {:induction false} SortedIsStable<T(!new)>(s: seq<T>, x: T, leq: (T, T) -> bool)
    requires IsOrder(leq)
    ensures Ties(Sorted(s, leq), x, leq) == Ties(s, x, leq)
  {
    if s != [] {
      SortedIsStable(s[1..], x, leq);
      InsertIsStable(s[0], Sorted(s[1..], leq), x, leq);
    }
  }

  lemma SameElements<T>(s: seq<T>, t: seq<T>)
    requires multiset(s) == multiset(t)
    ensures |s| == |t| && forall x :: x in s <==> x in t
  {
    assert |s| == |multiset(s)| && |t| == |multiset(t)|;
    assert forall x :: x in s <==> x in multiset(s);
    assert forall x :: x in t <==> x in multiset(t);
  }

  lemma HeadIsIn<T>(s: seq<T>)
    ensures s == [] || s[0] in s
  {
  }

  predicate NoRepeats<T(==)>(s: seq<T>) {
    forall i, j :: 0 <= i < j < |s| ==> s[i] != s[j]
  }

  lemma NoRepeatsPrepend<T>(x: T, s: seq<T>)
    requires NoRepeats(s) && x !in s
    ensures NoRepeats([x] + s)
  {
  }

  lemma NoRepeatsTail<T>(s: seq<T>)
    requires s != [] && NoRepeats(s)
    ensures NoRepeats(s[1..]) && s[0] !in s[1..]
  {
  }

  lemma {:induction false} CountsOnce<T>(s: seq<T>, x: T)
    requires NoRepeats(s)
    ensures multiset(s)[x] == if x in s then 1 else 0
  {
    if s != [] {
      NoRepeatsTail(s);
      CountsOnce(s[1..], x);
      assert s == [s[0]] + s[1..];
    }
  }

  lemma NoRepeatsPermuted<T>(s: seq<T>, t: seq<T>)
    requires multiset(s) == multiset(t) && NoRepeats(s)
    ensures NoRepeats(t)
  {
    forall i, j | 0 <= i < j < |t|
      ensures t[i] != t[j]
    {
      CountsOnce(s, t[i]);
      assert t == t[..i] + [t[i]] + t[i + 1..j] + [t[j]] + t[j + 1..];
    }
  }
}
