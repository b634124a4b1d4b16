// Options, and the one library routine many tools share: the sorted listing of a set.
module Options {
  datatype Option<+T> = None | Some(value: T)
}

module Listing {

  ghost predicate TotalOrder<T(!new)>(le: (T, T) -> bool) {
    && (forall x :: le(x, x))
    && (forall x, y :: le(x, y) || le(y, x))
    && (forall x, y :: le(x, y) && le(y, x) ==> x == y)
    && (forall x, y, z :: le(x, y) && le(y, z) ==> le(x, z))
  }

  // Strictly ascending: sorted, and no element twice.
  ghost predicate Ascending<T(!new)>(le: (T, T) -> bool, s: seq<T>) {
    forall i, j :: 0 <= i < j < |s| ==> le(s[i], s[j]) && s[i] != s[j]
  }

  predicate IntLe(a: int, b: int) {
    a <= b
  }

  // Python's order on strings: code point by code point, a proper prefix first.
  predicate StringLe(a: string, b: string) {
    a == [] || (b != [] && (a[0] < b[0] || (a[0] == b[0] && StringLe(a[1..], b[1..]))))
  }

  lemma IntLeIsTotal()
    ensures TotalOrder(IntLe)
  {
  }

  lemma {:induction false} StringLeRefl(a: string)
    ensures StringLe(a, a)
  {
    if a != [] { StringLeRefl(a[1..]); }
  }

  lemma {:induction false} StringLeConnex(a: string, b: string)
    ensures StringLe(a, b) || StringLe(b, a)
  {
    if a != [] && b != [] && a[0] == b[0] { StringLeConnex(a[1..], b[1..]); }
  }

  lemma {:induction false} StringLeAntisym(a: string, b: string)
    requires StringLe(a, b) && StringLe(b, a)
    ensures a == b
  {
    if a != [] {
      StringLeAntisym(a[1..], b[1..]);
      assert a == [a[0]] + a[1..] && b == [b[0]] + b[1..];
    }
  }

  lemma {:induction false} StringLeTrans(a: string, b: string, c: string)
    requires StringLe(a, b) && StringLe(b, c)
    ensures StringLe(a, c)
  {
    if a != [] && a[0] == b[0] && b[0] == c[0] { StringLeTrans(a[1..], b[1..], c[1..]); }
  }

  lemma StringLeIsTotal()
    ensures TotalOrder(StringLe)
  {
    forall x { StringLeRefl(x); }
    forall x, y { StringLeConnex(x, y); }
    forall x, y | StringLe(x, y) && StringLe(y, x) ensures x == y { StringLeAntisym(x, y); }
    forall x, y, z | StringLe(x, y) && StringLe(y, z) ensures StringLe(x, z) { StringLeTrans(x, y, z); }
  }

  predicate IsLeast<T(!new)>(le: (T, T) -> bool, s: set<T>, m: T) {
    m in s && forall x | x in s :: le(m, x)
  }

  lemma LowerLeast<T(!new)>(le: (T, T) -> bool, s: set<T>, m: T, r: T)
    requires TotalOrder(le) && IsLeast(le, s, r) && le(m, r)
    ensures forall x | x in s :: le(m, x)
  {
  }

  lemma LeastExists<T(!new)>(le: (T, T) -> bool, s: set<T>)
    requires TotalOrder(le) && s != {}
    ensures exists m :: IsLeast(le, s, m)
  {
    var e :| e in s;
    assert le(e, e);
    if s == {e} {
      assert IsLeast(le, s, e);
    } else {
      var t := s - {e};
      assert s == t + {e} && t != {};
      LeastExists(le, t);
      var r :| IsLeast(le, t, r);
      if le(e, r) {
        LowerLeast(le, t, e, r);
        assert IsLeast(le, s, e);
      } else {
        assert le(r, e);
        assert IsLeast(le, s, r);
      }
    }
  }

  ghost predicate IsListing<T(!new)>(le: (T, T) -> bool, s: set<T>, r: seq<T>) {
    Ascending(le, r) && |r| == |s| && (forall x :: x in r <==> x in s)
  }

  // The elements of a set in ascending order.
  function SortedListing<T(!new)>(le: (T, T) -> bool, s: set<T>): (r: seq<T>)
    requires TotalOrder(le)
    ensures IsListing(le, s, r)
    decreases s
  {
    if s == {} then [] else
      LeastExists(le, s);
      var m :| IsLeast(le, s, m);
      [m] + SortedListing(le, s - {m})
  }

  function SortedInts(s: set<int>): (r: seq<int>)
    ensures IsListing(IntLe, s, r)
  {
    IntLeIsTotal();
    SortedListing(IntLe, s)
  }

  // A set has one sorted listing.
  lemma {:induction false} ListingUnique<T(!new)>(le: (T, T) -> bool, s: set<T>, a: seq<T>, b: seq<T>)
    requires TotalOrder(le) && IsListing(le, s, a) && IsListing(le, s, b)
    ensures a == b
    decreases s
  {
    if s != {} {
      assert a[0] in s && b[0] in s;
      assert a[0] in b && b[0] in a;
      assert le(a[0], b[0]) && le(b[0], a[0]);
      TailListing(le, s, a);
      TailListing(le, s, b);
      ListingUnique(le, s - {a[0]}, a[1..], b[1..]);
      assert a == [a[0]] + a[1..] && b == [b[0]] + b[1..];
    }
  }

  lemma TailListing<T(!new)>(le: (T, T) -> bool, s: set<T>, a: seq<T>)
    requires IsListing(le, s, a) && s != {}
    ensures IsListing(le, s - {a[0]}, a[1..])
  {
    assert a[0] in s;
    forall x ensures x in a[1..] <==> x in s - {a[0]} {
      if x in a[1..] {
        var i :| 0 <= i < |a| - 1 && a[1..][i] == x;
        assert a[i + 1] == x && a[0] != a[i + 1];
      }
    }
  }
}
