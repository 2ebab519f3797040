/** Listing a finite set in order, as directory listings are sorted. */
module Sorting {

  ghost predicate TotalOrder<T(!new)>(le: (T, T) -> bool) {
    && (forall a, b :: le(a, b) || le(b, a))
    && (forall a, b :: le(a, b) && le(b, a) ==> a == b)
    && (forall a, b, c :: le(a, b) && le(b, c) ==> le(a, c))
  }

  ghost predicate IsLeast<T(!new)>(m: T, s: set<T>, le: (T, T) -> bool) {
    m in s && forall x :: x in s ==> le(m, x)
  }

  lemma LeastStep<T(!new)>(s: set<T>, le: (T, T) -> bool, a: T, m: T)
    requires TotalOrder(le) && a in s && IsLeast(m, s - {a}, le)
    ensures IsLeast(if le(a, m) then a else m, s, le)
  {
  }

  lemma {:induction false} LeastExists<T(!new)>(s: set<T>, le: (T, T) -> bool) returns (m: T)
    requires s != {} && TotalOrder(le)
    ensures IsLeast(m, s, le)
    decreases |s|
  {
    m :| m in s;
    if s - {m} != {} {
      var rest := LeastExists(s - {m}, le);
      LeastStep(s, le, m, rest);
      m := if le(m, rest) then m else rest;
    } else {
      assert s == {m};
    }
  }

  lemma SomeLeast<T(!new)>(s: set<T>, le: (T, T) -> bool)
    requires s != {} && TotalOrder(le)
    ensures exists m :: m in s && forall x :: x in s ==> le(m, x)
  {
    var m := LeastExists(s, le);
  }

  function Sorted<T(!new)>(s: set<T>, le: (T, T) -> bool): (r: seq<T>)
    requires TotalOrder(le)
    ensures forall x :: x in r <==> x in s
    decreases |s|
  {
    if s == {} then []
    else
      SomeLeast(s, le);
      var m :| m in s && forall x :: x in s ==> le(m, x);
      [m] + Sorted(s - {m}, le)
  }

  lemma {:induction false} SortedInOrder<T(!new)>(s: set<T>, le: (T, T) -> bool, i: nat, j: nat)
    requires TotalOrder(le) && i < j < |Sorted(s, le)|
    ensures le(Sorted(s, le)[i], Sorted(s, le)[j]) && Sorted(s, le)[i] != Sorted(s, le)[j]
    decreases |s|
  {
    var r := Sorted(s, le);
    var m := r[0];
    assert r[1..] == Sorted(s - {m}, le);
    assert r[j] == r[1..][j - 1];
    if i == 0 {
      assert r[1..][j - 1] in s - {m};
    } else {
      assert r[i] == r[1..][i - 1];
      SortedInOrder(s - {m}, le, i - 1, j - 1);
    }
  }

  /** Text in the order of its characters. */
  predicate Before(a: string, b: string) {
    a == "" || (b != "" && (a[0] < b[0] || (a[0] == b[0] && Before(a[1..], b[1..]))))
  }

  /** One text is before another when it begins it, or has the smaller character where they first
      differ. */
  lemma {:induction false} BeforeExactly(a: string, b: string)
    ensures Before(a, b) <==>
            || a <= b
            || exists i :: 0 <= i < |a| && i < |b| && a[i] < b[i] && a[..i] == b[..i]
  {
    if a != "" && b != "" {
      BeforeExactly(a[1..], b[1..]);
      if Before(a, b) && a[0] == b[0] {
        if i :| 0 <= i < |a[1..]| && i < |b[1..]| && a[1..][i] < b[1..][i] && a[1..][..i] == b[1..][..i] {
          assert a[..i + 1] == [a[0]] + a[1..][..i] && b[..i + 1] == [b[0]] + b[1..][..i];
          assert a[i + 1] < b[i + 1];
        } else {
          assert a == [a[0]] + a[1..] && b == [b[0]] + b[1..];
        }
      }
      if a <= b {
        assert a[0] == b[0] && a[1..] <= b[1..];
      } else if i :| 0 <= i < |a| && i < |b| && a[i] < b[i] && a[..i] == b[..i] {
        if i > 0 {
          assert a[0] == a[..i][0] && b[0] == b[..i][0];
          assert a[1..][..i - 1] == a[..i][1..] && b[1..][..i - 1] == b[..i][1..];
          assert a[1..][i - 1] < b[1..][i - 1];
        } else {
          assert a[0] < b[0];
        }
      }
    }
  }

  lemma {:induction false} BeforeTotal(a: string, b: string)
    ensures Before(a, b) || Before(b, a)
  {
    if a != "" && b != "" {
      BeforeTotal(a[1..], b[1..]);
    }
  }

  lemma {:induction false} BeforeAntisymmetric(a: string, b: string)
    ensures Before(a, b) && Before(b, a) ==> a == b
  {
    if a != "" && b != "" && a[0] == b[0] {
      BeforeAntisymmetric(a[1..], b[1..]);
      assert a == [a[0]] + a[1..] && b == [b[0]] + b[1..];
    }
  }

  lemma {:induction false} BeforeTransitive(a: string, b: string, c: string)
    ensures Before(a, b) && Before(b, c) ==> Before(a, c)
  {
    if a != "" && b != "" && c != "" {
      BeforeTransitive(a[1..], b[1..], c[1..]);
    }
  }

  lemma BeforeIsTotalOrder()
    ensures TotalOrder(Before)
  {
    forall a, b
      ensures Before(a, b) || Before(b, a)
      ensures Before(a, b) && Before(b, a) ==> a == b
    {
      BeforeTotal(a, b);
      BeforeAntisymmetric(a, b);
    }
    forall a, b, c
      ensures Before(a, b) && Before(b, c) ==> Before(a, c)
    {
      BeforeTransitive(a, b, c);
    }
  }

  /** Newest first, and among equals the greatest identifier first. */
  predicate NewerOrSame(a: (int, string), b: (int, string)) {
    a.0 > b.0 || (a.0 == b.0 && Before(b.1, a.1))
  }

  lemma NewerIsTotalOrder()
    ensures TotalOrder(NewerOrSame)
  {
    BeforeIsTotalOrder();
    hide Before;
  }
}
