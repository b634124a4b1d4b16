// Sets of natural numbers written as "3,7-9,12": the notation, its reader and what makes a
// list of ranges the only right one for a set.
module RangeNotation {
  import opened Options
  import opened Text

  // ----- Ranges -----

  datatype Range = Range(lo: nat, hi: nat)

  predicate Contains(r: Range, x: nat) {
    r.lo <= x <= r.hi
  }

  function Members(r: Range): set<nat> {
    set x: nat | x <= r.hi && Contains(r, x)
  }

  function Union(ranges: seq<Range>): set<nat> {
    if ranges == [] then {} else Union(ranges[..|ranges| - 1]) + Members(ranges[|ranges| - 1])
  }

  function Piece(r: Range): string {
    if r.lo == r.hi then Decimal(r.lo) else Decimal(r.lo) + "-" + Decimal(r.hi)
  }

  function Pieces(ranges: seq<Range>): seq<string> {
    seq(|ranges|, i requires 0 <= i < |ranges| => Piece(ranges[i]))
  }

  function Printed(ranges: seq<Range>): string {
    if ranges == [] then "-" else Join(Pieces(ranges), ',')
  }

  // Reading the notation.
  function ParsePiece(s: string): Option<set<nat>> {
    var parts := Split(s, '-');
    if |parts| == 1 then
      var n := ParseDecimal(parts[0]);
      if n.None? then None else Some({n.value})
    else if |parts| == 2 then
      var lo, hi := ParseDecimal(parts[0]), ParseDecimal(parts[1]);
      if lo.None? || hi.None? then None else Some(Members(Range(lo.value, hi.value)))
    else None
  }

  function ParsePieces(pieces: seq<string>): Option<set<nat>> {
    if pieces == [] then Some({})
    else
      var front, last := ParsePieces(pieces[..|pieces| - 1]), ParsePiece(pieces[|pieces| - 1]);
      if front.None? || last.None? then None else Some(front.value + last.value)
  }

  function Parse(s: string): Option<set<nat>> {
    if s == "-" then Some({}) else ParsePieces(Split(s, ','))
  }

  lemma DecimalIsPlain(n: nat)
    ensures '-' !in Decimal(n) && ',' !in Decimal(n)
  {
    DecimalRoundTrip(n);
  }

  lemma PieceRoundTrip(r: Range)
    requires r.lo <= r.hi
    ensures ParsePiece(Piece(r)) == Some(Members(r))
    ensures ',' !in Piece(r) && Piece(r) != "-"
  {
    var lo, hi := Decimal(r.lo), Decimal(r.hi);
    DecimalIsPlain(r.lo);
    DecimalIsPlain(r.hi);
    DecimalRoundTrip(r.lo);
    DecimalRoundTrip(r.hi);
    hide Decimal, ParseDecimal, Split, IsDigit;
    SplitWhole(lo, '-');
    if r.lo == r.hi {
      assert Members(r) == {r.lo};
    } else {
      SplitSuffix(lo, hi, '-');
      assert lo + ['-'] + hi == Piece(r) && |Piece(r)| > 1;
      assert [lo] + [hi] == [lo, hi];
    }
  }

  lemma {:induction false} PiecesRoundTrip(ranges: seq<Range>)
    requires forall r | r in ranges :: r.lo <= r.hi
    ensures ParsePieces(Pieces(ranges)) == Some(Union(ranges))
  {
    if ranges != [] {
      var front := ranges[..|ranges| - 1];
      PiecesRoundTrip(front);
      PieceRoundTrip(ranges[|ranges| - 1]);
      assert Pieces(ranges)[..|ranges| - 1] == Pieces(front);
    }
  }

  // Reading what was printed gives back exactly the numbers of the ranges.
  lemma PrintedRoundTrip(ranges: seq<Range>)
    requires forall r | r in ranges :: r.lo <= r.hi
    ensures Parse(Printed(ranges)) == Some(Union(ranges))
  {
    if ranges != [] {
      var pieces := Pieces(ranges);
      forall p | p in pieces ensures ',' !in p && p != "-" {
        var i :| 0 <= i < |pieces| && pieces[i] == p;
        PieceRoundTrip(ranges[i]);
      }
      SplitJoin(pieces, ',');
      PiecesRoundTrip(ranges);
      assert pieces[0] in pieces;
      SplitWhole("-", ',');
    }
  }

  // ----- Canonical lists -----

  // Ascending ranges with at least one number missing between neighbours.
  ghost predicate Canonical(ranges: seq<Range>) {
    && (forall r | r in ranges :: r.lo <= r.hi)
    && (forall i | 0 < i < |ranges| :: ranges[i - 1].hi + 1 < ranges[i].lo)
  }

  lemma {:induction false} UnionBelow(ranges: seq<Range>)
    requires Canonical(ranges) && ranges != []
    ensures forall x | x in Union(ranges) :: x <= ranges[|ranges| - 1].hi
    ensures ranges[|ranges| - 1].hi in Union(ranges)
  {
    if |ranges| > 1 {
      var front := ranges[..|ranges| - 1];
      assert ranges[|ranges| - 1] in ranges && forall r | r in front :: r in ranges;
      forall i | 0 < i < |front| ensures front[i - 1].hi + 1 < front[i].lo {
        assert ranges[i - 1].hi + 1 < ranges[i].lo;
      }
      UnionBelow(front);
      assert ranges[|ranges| - 2].hi + 1 < ranges[|ranges| - 1].lo;
    } else {
      assert ranges[0] in ranges;
    }
  }

  lemma CanonicalFront(ranges: seq<Range>)
    requires Canonical(ranges) && ranges != []
    ensures var front, last := ranges[..|ranges| - 1], ranges[|ranges| - 1];
            && Canonical(front) && last.lo <= last.hi
            && (forall x | x in Union(front) :: x + 1 < last.lo)
  {
    var front, last := ranges[..|ranges| - 1], ranges[|ranges| - 1];
    assert last in ranges && forall r | r in front :: r in ranges;
    forall i | 0 < i < |front| ensures front[i - 1].hi + 1 < front[i].lo {
      assert ranges[i - 1].hi + 1 < ranges[i].lo;
    }
    if front != [] {
      UnionBelow(front);
      assert ranges[|front| - 1].hi + 1 < ranges[|front|].lo;
    }
  }

  // A set has one canonical list of ranges, so the printed form does not depend on the order
  // or the multiplicity in which its numbers were given.
  lemma {:induction false} CanonicalIsUnique(a: seq<Range>, b: seq<Range>)
    requires Canonical(a) && Canonical(b) && Union(a) == Union(b)
    ensures a == b
  {
    if a != [] { UnionBelow(a); }
    if b != [] { UnionBelow(b); }
    hide Canonical, Members;
    if a != [] {
      SameLast(a, b);
      CanonicalIsUnique(a[..|a| - 1], b[..|b| - 1]);
      SplitLast(a);
      SplitLast(b);
    }
  }

  lemma SplitLast<T>(s: seq<T>)
    requires s != []
    ensures s == s[..|s| - 1] + [s[|s| - 1]]
  {
  }

  lemma SameLast(a: seq<Range>, b: seq<Range>)
    requires Canonical(a) && Canonical(b) && a != [] && b != [] && Union(a) == Union(b)
    ensures a[|a| - 1] == b[|b| - 1]
    ensures Canonical(a[..|a| - 1]) && Canonical(b[..|b| - 1]) && Union(a[..|a| - 1]) == Union(b[..|b| - 1])
  {
    UnionBelow(a);
    UnionBelow(b);
    var m, n := a[|a| - 1], b[|b| - 1];
    assert m.hi == n.hi;
    LastStarts(a, b);
    LastStarts(b, a);
    CanonicalFront(a);
    CanonicalFront(b);
    hide Canonical;
    assert Union(a[..|a| - 1]) == Union(a) - Members(m);
    assert Union(b[..|b| - 1]) == Union(b) - Members(n);
  }

  lemma LastStarts(a: seq<Range>, b: seq<Range>)
    requires Canonical(a) && Canonical(b) && a != [] && b != [] && Union(a) == Union(b)
    requires a[|a| - 1].hi == b[|b| - 1].hi
    ensures a[|a| - 1].lo <= b[|b| - 1].lo
  {
    CanonicalFront(a);
    CanonicalFront(b);
    var m, n := a[|a| - 1], b[|b| - 1];
    if m.lo > 0 {
      assert m.lo - 1 !in Union(a);
      assert m.lo - 1 !in Members(n);
    }
  }

  // ----- Fewest ranges -----

  predicate BeginsRun(s: set<nat>, x: nat) {
    x == 0 || x - 1 !in s
  }

  // The numbers of s at which a run begins.
  function RunStarts(s: set<nat>): set<nat> {
    set x | x in s && BeginsRun(s, x)
  }

  lemma {:induction false} CanonicalCountsRuns(ranges: seq<Range>)
    requires Canonical(ranges)
    ensures |ranges| == |RunStarts(Union(ranges))|
  {
    hide Canonical, RunStarts, Union;
    if ranges == [] {
      NoRuns();
    } else {
      var front, last := ranges[..|ranges| - 1], ranges[|ranges| - 1];
      CanonicalFront(ranges);
      CanonicalCountsRuns(front);
      OneMoreRun(ranges);
      assert |RunStarts(Union(front)) + {last.lo}| == |RunStarts(Union(front))| + 1;
    }
  }

  lemma NoRuns()
    ensures RunStarts(Union([])) == {}
  {
  }

  lemma OneMoreRun(ranges: seq<Range>)
    requires Canonical(ranges) && ranges != []
    ensures var front, last := ranges[..|ranges| - 1], ranges[|ranges| - 1];
            RunStarts(Union(ranges)) == RunStarts(Union(front)) + {last.lo} && last.lo !in RunStarts(Union(front))
  {
    hide Canonical;
    var front, last := ranges[..|ranges| - 1], ranges[|ranges| - 1];
    CanonicalFront(ranges);
    forall x | x in Members(last) && x != last.lo ensures x !in RunStarts(Union(ranges)) {
      assert x - 1 in Members(last);
    }
    assert last.lo !in Union(front);
  }

  lemma {:induction false} UnionMember(ranges: seq<Range>, x: nat)
    requires x in Union(ranges)
    ensures exists i :: 0 <= i < |ranges| && x in Members(ranges[i])
  {
    if x !in Members(ranges[|ranges| - 1]) {
      UnionMember(ranges[..|ranges| - 1], x);
      var i :| 0 <= i < |ranges| - 1 && x in Members(ranges[..|ranges| - 1][i]);
      assert x in Members(ranges[i]);
    }
  }

  lemma {:induction false} MemberUnion(ranges: seq<Range>, i: nat, x: nat)
    requires i < |ranges| && x in Members(ranges[i])
    ensures x in Union(ranges)
  {
    if i < |ranges| - 1 { MemberUnion(ranges[..|ranges| - 1], i, x); }
  }

  function Starts(ranges: seq<Range>): set<nat> {
    set i | 0 <= i < |ranges| :: ranges[i].lo
  }

  lemma {:induction false} StartsAreFew(ranges: seq<Range>)
    ensures |Starts(ranges)| <= |ranges|
  {
    if ranges != [] {
      var front := ranges[..|ranges| - 1];
      StartsAreFew(front);
      forall x ensures x in Starts(ranges) <==> x in Starts(front) + {ranges[|ranges| - 1].lo} {
        if x in Starts(front) {
          var i :| 0 <= i < |front| && front[i].lo == x;
          assert ranges[i].lo == x;
        }
      }
      assert Starts(ranges) == Starts(front) + {ranges[|ranges| - 1].lo};
    }
  }

  lemma SubsetCount(a: set<nat>, b: set<nat>)
    requires a <= b
    ensures |a| <= |b|
  {
    assert b == a + (b - a);
  }

  // No list of ranges, sorted or not, overlapping or not, covers a set with fewer ranges than
  // its canonical list.
  lemma CanonicalIsShortest(ranges: seq<Range>, other: seq<Range>)
    requires Canonical(ranges) && Union(other) == Union(ranges)
    ensures |ranges| <= |other|
  {
    CanonicalCountsRuns(ranges);
    forall x | x in RunStarts(Union(other)) ensures x in Starts(other) {
      UnionMember(other, x);
      var i :| 0 <= i < |other| && x in Members(other[i]);
      if other[i].lo < x { MemberUnion(other, i, x - 1); }
    }
    StartsAreFew(other);
    SubsetCount(RunStarts(Union(other)), Starts(other));
  }
}
