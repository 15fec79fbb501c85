/** Orders the C++ containers iterate by, and the unique sorted sequence of a finite set.
    Iterating a std::map visits its keys in this order, and std::sort of distinct keys under a
    total order has exactly one possible result, so both are the function `Sorted`. */
module Order {

  ghost predicate TotalOrder<T(!new)>(le: (T, T) -> bool) {
    && (forall x, y :: le(x, y) || le(y, x))
    && (forall x, y :: le(x, y) && le(y, x) ==> x == y)
    && (forall x, y, z :: le(x, y) && le(y, z) ==> le(x, z))
  }

  ghost predicate NoDup<T>(s: seq<T>) {
    forall i, j :: 0 <= i < j < |s| ==> s[i] != s[j]
  }

  ghost predicate SortedBy<T>(s: seq<T>, le: (T, T) -> bool) {
    forall i, j :: 0 <= i < j < |s| ==> le(s[i], s[j])
  }

  function Elems<T>(s: seq<T>): set<T> {
    set x | x in s
  }

  lemma LeastExists<T(!new)>(s: set<T>, le: (T, T) -> bool) returns (m: T)
    requires TotalOrder(le) && s != {}
    ensures m in s && forall y | y in s :: le(m, y)
  {
    var x :| x in s;
    if s == {x} {
      m := x;
      assert le(x, x);
    } else {
      var k := LeastExists(s - {x}, le);
      m := if le(x, k) then x else k;
      forall y | y in s ensures le(m, y) {
        assert y == x || y in s - {x};
        assert le(x, x);
      }
    }
  }

  function Least<T(!new)>(s: set<T>, le: (T, T) -> bool): (m: T)
    requires TotalOrder(le) && s != {}
    ensures m in s && forall y | y in s :: le(m, y)
  {
    assert exists m :: m in s && forall y | y in s :: le(m, y) by {
      var m := LeastExists(s, le);
    }
    var m :| m in s && forall y | y in s :: le(m, y);
    m
  }

  function Sorted<T(!new)>(s: set<T>, le: (T, T) -> bool): (r: seq<T>)
    requires TotalOrder(le)
    ensures forall x :: x in r <==> x in s
    ensures NoDup(r) && SortedBy(r, le) && |r| == |s|
  {
    if s == {} then []
    else
      var m := Least(s, le);
      var rest := Sorted(s - {m}, le);
      assert forall i :: 0 <= i < |rest| ==> rest[i] in rest;
      [m] + rest
  }

  lemma InFront<T>(s: seq<T>, x: T)
    requires NoDup(s) && s != []
    ensures x in s[..|s| - 1] <==> x in s && x != s[|s| - 1]
  {
    assert s == s[..|s| - 1] + [s[|s| - 1]];
  }

  /** Under a total order a set has only one sorted sequence without repetitions: whatever algorithm
      sorts, the result is the same. */
  lemma {:induction false} SortedUnique<T(!new)>(a: seq<T>, b: seq<T>, le: (T, T) -> bool)
    requires TotalOrder(le) && NoDup(a) && NoDup(b) && SortedBy(a, le) && SortedBy(b, le)
    requires forall x :: x in a <==> x in b
    ensures a == b
    decreases |a|
  {
    NoDupSize(a);
    NoDupSize(b);
    assert Elems(a) == Elems(b);
    if a != [] {
      var m, n := |a| - 1, |b| - 1;
      assert a[m] in b;
      assert b[n] in a;
      assert le(a[m], b[n]) && le(b[n], a[m]) by {
        var i :| 0 <= i < |b| && b[i] == a[m];
        var j :| 0 <= j < |a| && a[j] == b[n];
        assert le(a[m], a[m]) && le(b[n], b[n]);
      }
      forall x ensures x in a[..m] <==> x in b[..n] {
        InFront(a, x);
        InFront(b, x);
      }
      SortedUnique(a[..m], b[..n], le);
      assert a == a[..m] + [a[m]] && b == b[..n] + [b[n]];
    }
  }

  /** A sequence without repetitions has as many elements as its set, and a repetition-free
      sequence drawn from another one that is no longer than it must contain all of it. */
  lemma {:induction false} NoDupSize<T>(s: seq<T>)
    requires NoDup(s)
    ensures |Elems(s)| == |s|
  {
    if s != [] {
      var n := |s| - 1;
      NoDupSize(s[..n]);
      assert s == s[..n] + [s[n]];
      assert Elems(s) == Elems(s[..n]) + {s[n]};
    }
  }

  lemma {:induction false} ElemsSize<T>(s: seq<T>)
    ensures |Elems(s)| <= |s|
  {
    if s != [] {
      var n := |s| - 1;
      ElemsSize(s[..n]);
      assert s == s[..n] + [s[n]];
      assert Elems(s) == Elems(s[..n]) + {s[n]};
    }
  }

  lemma SubsetSize<T>(a: set<T>, b: set<T>)
    requires a <= b
    ensures |a| <= |b|
    ensures |a| == |b| ==> a == b
  {
    assert b == a + (b - a);
  }

  /** std::string's operator<=: lexicographic on characters. */
  predicate StringLe(a: string, b: string) {
    if a == "" then true
    else if b == "" then false
    else if a[0] != b[0] then a[0] < b[0]
    else StringLe(a[1..], b[1..])
  }

  lemma {:induction false} StringAntisymmetric(a: string, b: string)
    requires StringLe(a, b) && StringLe(b, a)
    ensures a == b
  {
    if a != "" {
      StringAntisymmetric(a[1..], b[1..]);
      assert a == [a[0]] + a[1..] && b == [b[0]] + b[1..];
    }
  }

  lemma {:induction false} StringTransitive(a: string, b: string, c: string)
    requires StringLe(a, b) && StringLe(b, c)
    ensures StringLe(a, c)
  {
    if a != "" && a[0] == b[0] == c[0] {
      StringTransitive(a[1..], b[1..], c[1..]);
    }
  }

  lemma {:induction false} StringTotal(a: string, b: string)
    ensures StringLe(a, b) || StringLe(b, a)
  {
    if a != "" && b != "" && a[0] == b[0] {
      StringTotal(a[1..], b[1..]);
    }
  }

  lemma StringOrder()
    ensures TotalOrder(StringLe)
  {
    forall x, y ensures StringLe(x, y) || StringLe(y, x) { StringTotal(x, y); }
    forall x, y | StringLe(x, y) && StringLe(y, x) ensures x == y { StringAntisymmetric(x, y); }
    forall x, y, z | StringLe(x, y) && StringLe(y, z) ensures StringLe(x, z) { StringTransitive(x, y, z); }
  }

  /** a comes before b: it is a proper prefix, or has the smaller character at the first difference. */
  ghost predicate ComesBefore(a: string, b: string) {
    a < b || exists i :: SmallerAt(a, b, i)
  }

  /** The strings first differ at i, where a has the smaller character. */
  ghost predicate SmallerAt(a: string, b: string, i: nat) {
    i < |a| && i < |b| && a[..i] == b[..i] && a[i] < b[i]
  }

  lemma FirstShared(a: string, b: string, i: nat)
    requires i <= |a| && i <= |b| && a[..i] == b[..i]
    ensures i > 0 ==> a[0] == b[0]
  {
    if i > 0 {
      assert a[..i][0] == b[..i][0];
    }
  }

  /** What the order of strings means. */
  lemma {:induction false} StringLeMeans(a: string, b: string)
    ensures StringLe(a, b) <==> a == b || ComesBefore(a, b)
  {
    if a != "" && b != "" && a[0] == b[0] {
      StringLeMeans(a[1..], b[1..]);
      assert a == [a[0]] + a[1..] && b == [b[0]] + b[1..];
      if i: nat :| SmallerAt(a[1..], b[1..], i) {
        assert a[..i + 1] == [a[0]] + a[1..][..i] && b[..i + 1] == [b[0]] + b[1..][..i];
        assert SmallerAt(a, b, i + 1);
      }
      if i: nat :| SmallerAt(a, b, i) {
        assert a[1..][..i - 1] == a[..i][1..] && b[1..][..i - 1] == b[..i][1..];
        assert SmallerAt(a[1..], b[1..], i - 1);
      }
    } else if a != "" && b != "" {
      forall i: nat | SmallerAt(a, b, i) ensures i == 0 {
        FirstShared(a, b, i);
      }
      if a[0] < b[0] {
        assert SmallerAt(a, b, 0);
      }
    }
  }

  /** Of two different strings exactly one comes before the other. */
  lemma OneComesBefore(a: string, b: string)
    ensures a != b ==> (ComesBefore(a, b) <==> !ComesBefore(b, a))
    ensures !ComesBefore(a, a)
  {
    forall i ensures !SmallerAt(a, a, i) {
    }
    hide ComesBefore, StringLe;
    StringLeMeans(a, b);
    StringLeMeans(b, a);
    StringOrder();
  }

  predicate IntLe(a: int, b: int) { a <= b }

  /** The key order of a std::map with string keys. */
  function SortedStrings(s: set<string>): (r: seq<string>)
    ensures forall x :: x in r <==> x in s
    ensures NoDup(r) && SortedBy(r, StringLe) && |r| == |s|
  {
    StringOrder();
    Sorted(s, StringLe)
  }
}
