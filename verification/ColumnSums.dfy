// What the sum over a column in id order is: nothing for an empty column, and one more row adds
// its value, whatever its id.
module ColumnSums {
  import opened Listing
  import opened CollectionTable

  function Total(column: map<int, int>): int {
    Sum(SortedInts(column.Keys), column)
  }

  lemma SumOfNothing()
    ensures Total(map[]) == 0
  {
  }

  lemma SumOfInsert(column: map<int, int>, k: int, v: int)
    requires k !in column
    ensures Total(column[k := v]) == Total(column) + v
  {
    hide Ascending, Sum, Without;
    var more := column[k := v];
    var ids := SortedInts(more.Keys);
    assert more.Keys == column.Keys + {k} && more.Keys - {k} == column.Keys;
    assert k in ids;
    WithoutIsListing(ids, more.Keys, k);
    IntLeIsTotal();
    ListingUnique(IntLe, column.Keys, Without(ids, k), SortedInts(column.Keys));
    Distinct(ids, more.Keys);
    SumWithout(ids, more, column, k);
  }

  lemma Distinct(ids: seq<int>, keys: set<int>)
    requires IsListing(IntLe, keys, ids)
    ensures forall i, j | 0 <= i < j < |ids| :: ids[i] != ids[j]
  {
  }

  function Without(ids: seq<int>, k: int): seq<int> {
    if ids == [] then [] else (if ids[0] == k then [] else [ids[0]]) + Without(ids[1..], k)
  }

  lemma {:induction false} WithoutMembers(ids: seq<int>, k: int)
    ensures forall x :: x in Without(ids, k) <==> x in ids && x != k
  {
    if ids != [] { WithoutMembers(ids[1..], k); }
  }

  lemma {:induction false} WithoutAscends(ids: seq<int>, k: int)
    requires Ascending(IntLe, ids)
    ensures Ascending(IntLe, Without(ids, k)) && |Without(ids, k)| == |ids| - if k in ids then 1 else 0
  {
    if ids != [] {
      var rest := ids[1..];
      assert forall i | 0 <= i < |rest| :: rest[i] == ids[i + 1];
      WithoutAscends(rest, k);
      WithoutMembers(rest, k);
      forall i | 0 <= i < |Without(rest, k)| ensures ids[0] < Without(rest, k)[i] {
        var x := Without(rest, k)[i];
        assert x in Without(rest, k);
        var j :| 0 <= j < |rest| && rest[j] == x;
        assert ids[j + 1] == x;
      }
      if ids[0] == k {
        forall i | 0 <= i < |rest| ensures rest[i] != k { assert ids[i + 1] != ids[0]; }
      }
    }
  }

  lemma WithoutIsListing(ids: seq<int>, keys: set<int>, k: int)
    requires IsListing(IntLe, keys, ids) && k in keys
    ensures IsListing(IntLe, keys - {k}, Without(ids, k))
  {
    hide Ascending, Without;
    assert k in ids;
    WithoutAscends(ids, k);
    WithoutMembers(ids, k);
    assert |keys - {k}| == |keys| - 1 == |Without(ids, k)|;
    forall x ensures x in Without(ids, k) <==> x in keys - {k} {}
  }

  lemma {:induction false} SumWithout(ids: seq<int>, more: map<int, int>, column: map<int, int>, k: int)
    requires forall i | 0 <= i < |ids| :: ids[i] in more && (ids[i] != k ==> ids[i] in column && column[ids[i]] == more[ids[i]])
    requires forall i, j | 0 <= i < j < |ids| :: ids[i] != ids[j]
    requires forall i | 0 <= i < |Without(ids, k)| :: Without(ids, k)[i] in column
    ensures Sum(ids, more) == Sum(Without(ids, k), column) + if k in ids then more[k] else 0
  {
    if ids != [] {
      var rest := ids[1..];
      assert forall i | 0 <= i < |rest| :: rest[i] == ids[i + 1];
      if ids[0] == k {
        assert Without(ids, k) == Without(rest, k);
        forall i | 0 <= i < |rest| ensures rest[i] != k { assert ids[i + 1] != ids[0]; }
      } else {
        assert Without(ids, k) == [ids[0]] + Without(rest, k);
        assert forall i | 0 <= i < |Without(rest, k)| :: Without(rest, k)[i] == Without(ids, k)[i + 1];
        assert k in ids <==> k in rest;
      }
      SumWithout(rest, more, column, k);
    }
  }
}
