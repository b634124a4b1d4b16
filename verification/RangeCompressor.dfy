// _compress of tools/render_ci_deep_review.py: line numbers as a compact range list.
module RangeCompressor {
  import opened Options
  import opened Listing
  import opened RangeNotation
  import opened Text

  // `lines` may come in any order and with repetitions.
  method Compress(lines: seq<nat>) returns (text: string)
    ensures Parse(text) == Some(set v | v in lines)
    ensures exists ranges :: Canonical(ranges) && Union(ranges) == (set v | v in lines) && text == Printed(ranges)
  {
    hide Canonical, Union, Covers, Parse, Pieces, Decimal, SortedNumbers;
    var vals := SortedNumbers(lines);
    if vals == [] {
      NothingToCover(lines);
      return "-";
    }
    var out: seq<string> := [];
    var start, prev := vals[0], vals[0];
    ghost var ranges: seq<Range> := [];
    OneRange(vals[0]);
    assert vals[..1] == [vals[0]];
    NoPieces();
    for i := 1 to |vals|
      invariant prev == vals[i - 1]
      invariant Covers(ranges + [Range(start, prev)], vals[..i])
      invariant out == Pieces(ranges)
    {
      var v := vals[i];
      assert vals[..i + 1] == vals[..i] + [v];
      if v == prev + 1 {
        ExtendLast(ranges, start, prev, vals[..i]);
        prev := v;
      } else {
        AddRange(ranges, Range(start, prev), v, vals[..i]);
        out, ranges := out + [if start == prev then Decimal(start) else Decimal(start) + "-" + Decimal(prev)],
                       MorePieces(ranges, Range(start, prev));
        start, prev := v, v;
      }
    }
    assert vals[..|vals|] == vals;
    out, ranges := out + [if start == prev then Decimal(start) else Decimal(start) + "-" + Decimal(prev)],
                   MorePieces(ranges, Range(start, prev));
    CoversAll(ranges, vals, lines);
    return Join(out, ',');
  }

  lemma NothingToCover(lines: seq<nat>)
    requires forall v :: v !in lines
    ensures Canonical([]) && Union([]) == (set v | v in lines) && Parse("-") == Some(set v | v in lines)
  {
    assert (set v | v in lines) == {};
  }

  lemma NoPieces()
    ensures Pieces([]) == []
  {
  }

  // The distinct numbers in ascending order.
  function SortedNumbers(lines: seq<nat>): (vals: seq<nat>)
    ensures forall i, j | 0 <= i < j < |vals| :: vals[i] < vals[j]
    ensures forall v :: v in vals <==> v in lines
  {
    var numbers: set<int> := set v | v in lines;
    var vals := SortedInts(numbers);
    assert forall i | 0 <= i < |vals| :: vals[i] in numbers;
    vals
  }

  ghost function MorePieces(ranges: seq<Range>, r: Range): (more: seq<Range>)
    ensures more == ranges + [r] && Pieces(more) == Pieces(ranges) + [Piece(r)]
  {
    ranges + [r]
  }

  ghost predicate Covers(ranges: seq<Range>, vals: seq<nat>) {
    Canonical(ranges) && forall x :: x in Union(ranges) <==> x in vals
  }

  lemma CoversAll(ranges: seq<Range>, vals: seq<nat>, lines: seq<nat>)
    requires Covers(ranges, vals) && forall v :: v in vals <==> v in lines
    ensures Canonical(ranges) && Union(ranges) == (set v | v in lines)
    ensures Parse(Printed(ranges)) == Some(set v | v in lines)
  {
    PrintedRoundTrip(ranges);
  }

  lemma OneRange(v: nat)
    ensures Covers([] + [Range(v, v)], [v])
  {
    var one := [] + [Range(v, v)];
    assert one[..0] == [] && Members(Range(v, v)) == {v};
  }

  lemma ExtendLast(ranges: seq<Range>, start: nat, prev: nat, vals: seq<nat>)
    requires Covers(ranges + [Range(start, prev)], vals)
    ensures Covers(ranges + [Range(start, prev + 1)], vals + [prev + 1])
  {
    hide Union, Canonical;
    ExtendCanonical(ranges, start, prev);
    var before, after := ranges + [Range(start, prev)], ranges + [Range(start, prev + 1)];
    ExtendUnion(ranges, start, prev);
    assert forall x :: x in Union(after) <==> x in Union(before) || x == prev + 1;
  }

  lemma ExtendCanonical(ranges: seq<Range>, start: nat, prev: nat)
    requires Canonical(ranges + [Range(start, prev)])
    ensures Canonical(ranges + [Range(start, prev + 1)])
  {
    var before, after := ranges + [Range(start, prev)], ranges + [Range(start, prev + 1)];
    assert Range(start, prev) in before;
    forall r | r in after ensures r.lo <= r.hi { if r in ranges { assert r in before; } }
    forall i | 0 < i < |after| ensures after[i - 1].hi + 1 < after[i].lo {
      assert before[i - 1].hi + 1 < before[i].lo;
    }
  }

  lemma ExtendUnion(ranges: seq<Range>, start: nat, prev: nat)
    requires Canonical(ranges + [Range(start, prev)])
    ensures Union(ranges + [Range(start, prev + 1)]) == Union(ranges + [Range(start, prev)]) + {prev + 1}
  {
    var before, after := ranges + [Range(start, prev)], ranges + [Range(start, prev + 1)];
    assert Range(start, prev) in before;
    assert before[..|before| - 1] == ranges == after[..|after| - 1];
    assert Members(Range(start, prev + 1)) == Members(Range(start, prev)) + {prev + 1};
  }

  lemma AddRange(ranges: seq<Range>, last: Range, v: nat, vals: seq<nat>)
    requires Covers(ranges + [last], vals) && last.hi + 1 < v
    ensures Covers(ranges + [last] + [Range(v, v)], vals + [v])
  {
    var before := ranges + [last];
    var after := before + [Range(v, v)];
    assert after[..|after| - 1] == before;
    forall i | 0 < i < |after| ensures after[i - 1].hi + 1 < after[i].lo {
      if i < |before| { assert before[i - 1].hi + 1 < before[i].lo; }
    }
    assert Members(Range(v, v)) == {v};
  }
}
