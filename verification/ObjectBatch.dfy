// The second half of source_manifest: reading the framed objects of `git cat-file --batch`.
module ObjectBatch {
  import opened Options
  import opened Text
  import opened SourceManifest

  function Header(e: Entry): string {
    e.oid + " blob " + Decimal(e.size)
  }

  datatype Object = Object(data: string, next: nat)

  // One turn of the loop of source_manifest; None is a raised error.
  function ReadObject(raw: string, offset: nat, e: Entry): Option<Object> {
    var boundary := IndexFrom(raw, NEWLINE, offset);
    if boundary.None? || raw[offset..boundary.value] != Header(e) then None
    else
      var start, end := boundary.value + 1, boundary.value + 1 + e.size;
      if end > |raw| then None else Some(Object(raw[start..end], end + 1))
  }

  // The loop from a given offset on.
  function ReadFrom(raw: string, offset: nat, entries: seq<Entry>): (datas: Option<seq<string>>)
    ensures datas.Some? ==> |datas.value| == |entries|
    decreases entries
  {
    if entries == [] then Some([])
    else
      var first := ReadObject(raw, offset, entries[0]);
      if first.None? then None
      else
        var rest := ReadFrom(raw, first.value.next, entries[1..]);
        if rest.None? then None else Some([first.value.data] + rest.value)
  }

  // Where the i-th object begins when every object before it is framed.
  function Position(offset: nat, entries: seq<Entry>, i: nat): (p: nat)
    requires i <= |entries|
    ensures if i == 0 then p == offset else p > offset
    decreases i
  {
    if i == 0 then offset else Position(offset + FrameLength(entries[0]), entries[1..], i - 1)
  }

  function FrameLength(e: Entry): nat {
    |Header(e)| + 1 + e.size + 1
  }

  // Header, newline and the object's bytes stand at `at`. What follows them is not looked at.
  predicate StandsAt(raw: string, at: nat, e: Entry, data: string) {
    var body := at + |Header(e)| + 1;
    && |data| == e.size
    && body + e.size <= |raw|
    && raw[at..body] == Header(e) + [NEWLINE]
    && raw[body..body + e.size] == data
  }

  ghost predicate Framed(raw: string, offset: nat, entries: seq<Entry>, datas: seq<string>) {
    && |datas| == |entries|
    && forall i | 0 <= i < |entries| :: StandsAt(raw, Position(offset, entries, i), entries[i], datas[i])
  }

  ghost predicate PlainOids(entries: seq<Entry>) {
    forall e | e in entries :: NEWLINE !in e.oid
  }

  lemma HeaderIsOneLine(e: Entry)
    requires NEWLINE !in e.oid
    ensures NEWLINE !in Header(e)
  {
    DecimalRoundTrip(e.size);
  }

  // One object is read if and only if it stands at the offset.
  lemma ObjectFound(raw: string, offset: nat, e: Entry, data: string)
    requires NEWLINE !in e.oid && StandsAt(raw, offset, e, data)
    ensures ReadObject(raw, offset, e) == Some(Object(data, offset + FrameLength(e)))
  {
    HeaderIsOneLine(e);
    hide Header, IndexFrom;
    var h := Header(e);
    var line, boundary := raw[offset..offset + |h| + 1], offset + |h|;
    assert raw[offset..boundary] == line[..|h|] == h;
    assert raw[boundary] == line[|h|] == NEWLINE;
    IndexIs(raw, NEWLINE, offset, boundary);
  }

  lemma ObjectStands(raw: string, offset: nat, e: Entry)
    requires ReadObject(raw, offset, e).Some?
    ensures var o := ReadObject(raw, offset, e).value;
            o.next == offset + FrameLength(e) && StandsAt(raw, offset, e, o.data)
  {
    hide Header;
    var h, boundary := Header(e), IndexFrom(raw, NEWLINE, offset).value;
    assert raw[offset..boundary + 1] == raw[offset..boundary] + [raw[boundary]];
  }

  // The reader accepts a stream, of any bytes, if and only if every object stands where the
  // sizes before it put it; it then returns exactly the bytes that stand there.
  lemma AcceptsExactlyTheFramed(raw: string, offset: nat, entries: seq<Entry>, datas: seq<string>)
    requires PlainOids(entries)
    ensures ReadFrom(raw, offset, entries) == Some(datas) <==> Framed(raw, offset, entries, datas)
  {
    if Framed(raw, offset, entries, datas) { AcceptsFramed(raw, offset, entries, datas); }
    if ReadFrom(raw, offset, entries) == Some(datas) { AcceptedIsFramed(raw, offset, entries, datas); }
  }

  lemma {:induction false} AcceptsFramed(raw: string, offset: nat, entries: seq<Entry>, datas: seq<string>)
    requires PlainOids(entries) && Framed(raw, offset, entries, datas)
    ensures ReadFrom(raw, offset, entries) == Some(datas)
    decreases entries
  {
    hide ReadObject, StandsAt, FrameLength;
    if entries != [] {
      assert entries[0] in entries && StandsAt(raw, Position(offset, entries, 0), entries[0], datas[0]);
      FramedTail(raw, offset, entries, datas);
      ObjectFound(raw, offset, entries[0], datas[0]);
      AcceptsFramed(raw, offset + FrameLength(entries[0]), entries[1..], datas[1..]);
      assert datas == [datas[0]] + datas[1..];
    }
  }

  lemma {:induction false} AcceptedIsFramed(raw: string, offset: nat, entries: seq<Entry>, datas: seq<string>)
    requires ReadFrom(raw, offset, entries) == Some(datas)
    ensures Framed(raw, offset, entries, datas)
    decreases entries
  {
    hide ReadObject, StandsAt, FrameLength;
    if entries != [] {
      ObjectStands(raw, offset, entries[0]);
      AcceptedIsFramed(raw, offset + FrameLength(entries[0]), entries[1..], datas[1..]);
      FramedCons(raw, offset, entries, datas);
    }
  }

  lemma FramedTail(raw: string, offset: nat, entries: seq<Entry>, datas: seq<string>)
    requires entries != [] && Framed(raw, offset, entries, datas)
    ensures Framed(raw, offset + FrameLength(entries[0]), entries[1..], datas[1..])
  {
    hide StandsAt, FrameLength;
    forall i | 0 <= i < |entries| - 1
      ensures StandsAt(raw, Position(offset + FrameLength(entries[0]), entries[1..], i), entries[1..][i], datas[1..][i])
    {
      assert StandsAt(raw, Position(offset, entries, i + 1), entries[i + 1], datas[i + 1]);
    }
  }

  lemma FramedCons(raw: string, offset: nat, entries: seq<Entry>, datas: seq<string>)
    requires entries != [] && datas != [] && StandsAt(raw, offset, entries[0], datas[0])
    requires Framed(raw, offset + FrameLength(entries[0]), entries[1..], datas[1..])
    ensures Framed(raw, offset, entries, datas)
  {
    hide StandsAt, FrameLength;
    forall i | 0 <= i < |entries|
      ensures StandsAt(raw, Position(offset, entries, i), entries[i], datas[i])
    {
      if i > 0 {
        assert StandsAt(raw, Position(offset + FrameLength(entries[0]), entries[1..], i - 1), entries[1..][i - 1], datas[1..][i - 1]);
      }
    }
  }

  // ----- What git writes -----

  function Frame(e: Entry, data: string): string {
    Header(e) + [NEWLINE] + data + [NEWLINE]
  }

  function Batch(entries: seq<Entry>, datas: seq<string>): string
    requires |datas| == |entries|
  {
    if entries == [] then [] else Frame(entries[0], datas[0]) + Batch(entries[1..], datas[1..])
  }

  ghost predicate Sized(entries: seq<Entry>, datas: seq<string>) {
    |datas| == |entries| && forall i | 0 <= i < |entries| :: |datas[i]| == entries[i].size
  }

  // Whatever bytes the objects hold, newlines and further headers included, reading git's own
  // stream gives every object back exactly.
  lemma BatchRoundTrip(entries: seq<Entry>, datas: seq<string>)
    requires PlainOids(entries) && Sized(entries, datas)
    ensures ReadFrom(Batch(entries, datas), 0, entries) == Some(datas)
  {
    BatchIsFramed([], entries, datas);
    assert [] + Batch(entries, datas) == Batch(entries, datas);
    AcceptsExactlyTheFramed(Batch(entries, datas), 0, entries, datas);
  }

  lemma {:induction false} BatchIsFramed(before: string, entries: seq<Entry>, datas: seq<string>)
    requires Sized(entries, datas)
    ensures Framed(before + Batch(entries, datas), |before|, entries, datas)
    decreases entries
  {
    if entries != [] {
      var e, frame, rest := entries[0], Frame(entries[0], datas[0]), Batch(entries[1..], datas[1..]);
      assert Sized(entries[1..], datas[1..]);
      assert before + Batch(entries, datas) == before + frame + rest;
      FrameStands(before, e, datas[0], rest);
      hide Framed, StandsAt, Batch, Header;
      assert |before + frame| == |before| + FrameLength(e);
      BatchIsFramed(before + frame, entries[1..], datas[1..]);
      FramedCons(before + frame + rest, |before|, entries, datas);
    }
  }

  lemma FrameStands(before: string, e: Entry, data: string, after: string)
    requires |data| == e.size
    ensures StandsAt(before + Frame(e, data) + after, |before|, e, data)
  {
    var h := Header(e);
    hide Header;
    var raw, body := before + Frame(e, data) + after, |before| + |h| + 1;
    assert raw[|before|..body] == h + [NEWLINE];
    assert raw[body..body + e.size] == data;
  }

  // The byte after an object is never checked to be a newline: replacing it by any other byte
  // changes nothing in what the reader accepts or returns.
  lemma SeparatorsAreNotChecked(raw: string, entries: seq<Entry>, i: nat, c: char, datas: seq<string>)
    requires PlainOids(entries) && i < |entries| && Position(0, entries, i + 1) - 1 < |raw|
    requires ReadFrom(raw, 0, entries) == Some(datas)
    ensures ReadFrom(raw[Position(0, entries, i + 1) - 1 := c], 0, entries) == Some(datas)
  {
    var at := Position(0, entries, i + 1) - 1;
    var changed := raw[at := c];
    AcceptsExactlyTheFramed(raw, 0, entries, datas);
    forall j | 0 <= j < |entries| ensures StandsAt(changed, Position(0, entries, j), entries[j], datas[j]) {
      SeparatorLiesOutside(entries, i, j);
      hide StandsAt, Framed;
      StandsElsewhere(raw, Position(0, entries, j), entries[j], datas[j], at, c);
    }
    AcceptsExactlyTheFramed(changed, 0, entries, datas);
  }

  lemma SeparatorLiesOutside(entries: seq<Entry>, i: nat, j: nat)
    requires i < |entries| && j < |entries|
    ensures var at, p := Position(0, entries, i + 1) - 1, Position(0, entries, j);
            at < p || p + FrameLength(entries[j]) - 1 <= at
  {
    PositionStep(0, entries, i);
    PositionStep(0, entries, j);
    if j < i { PositionMonotone(0, entries, j + 1, i); }
    if i < j { PositionMonotone(0, entries, i + 1, j); }
  }

  lemma StandsElsewhere(raw: string, p: nat, e: Entry, data: string, at: nat, c: char)
    requires at < |raw| && StandsAt(raw, p, e, data) && (at < p || p + FrameLength(e) - 1 <= at)
    ensures StandsAt(raw[at := c], p, e, data)
  {
    hide Header;
    var body := p + |Header(e)| + 1;
    assert raw[at := c][p..body] == raw[p..body];
    assert raw[at := c][body..body + e.size] == raw[body..body + e.size];
  }

  lemma {:induction false} PositionStep(offset: nat, entries: seq<Entry>, i: nat)
    requires i < |entries|
    ensures Position(offset, entries, i + 1) == Position(offset, entries, i) + FrameLength(entries[i])
    decreases i
  {
    hide FrameLength;
    if i > 0 { PositionStep(offset + FrameLength(entries[0]), entries[1..], i - 1); }
  }

  lemma {:induction false} PositionMonotone(offset: nat, entries: seq<Entry>, i: nat, j: nat)
    requires i <= j <= |entries|
    ensures Position(offset, entries, i) <= Position(offset, entries, j)
    decreases j - i
  {
    if i < j {
      PositionStep(offset, entries, i);
      PositionMonotone(offset, entries, i + 1, j);
    }
  }
}
