// Decimal numbers, splitting and joining, as Python's str and bytes methods do it. A byte
// string is modelled as a string of characters with codes below 256.
module Text {
  import opened Options

  // ----- Decimal numbers -----

  function Digit(d: nat): char
    requires d < 10
  {
    '0' + d as char
  }

  function Decimal(n: nat): (s: string)
    ensures s != []
  {
    if n < 10 then [Digit(n)] else Decimal(n / 10) + [Digit(n % 10)]
  }

  predicate IsDigit(c: char) {
    '0' <= c <= '9'
  }

  function ParseDecimal(s: string): Option<nat> {
    if s == [] || !IsDigit(s[|s| - 1]) then None
    else
      var last := (s[|s| - 1] - '0') as nat;
      if |s| == 1 then Some(last) else
        var front := ParseDecimal(s[..|s| - 1]);
        if front.None? then None else Some(10 * front.value + last)
  }

  lemma {:induction false} DecimalRoundTrip(n: nat)
    ensures ParseDecimal(Decimal(n)) == Some(n)
    ensures forall i | 0 <= i < |Decimal(n)| :: IsDigit(Decimal(n)[i])
  {
    if n >= 10 {
      DecimalRoundTrip(n / 10);
      var s := Decimal(n);
      assert s[..|s| - 1] == Decimal(n / 10);
      assert s[|s| - 1] == Digit(n % 10);
    }
  }

  // Decimal digits with single underscores between them.
  function LooseDecimal(s: string): Option<nat> {
    if s == [] || !IsDigit(s[|s| - 1]) then None
    else
      var last := (s[|s| - 1] - '0') as nat;
      if |s| == 1 then Some(last) else
        var front := LooseDecimal(if s[|s| - 2] == '_' then s[..|s| - 2] else s[..|s| - 1]);
        if front.None? then None else Some(10 * front.value + last)
  }

  function SkipBlanks(s: string): string {
    if s != [] && IsBlank(s[0]) then SkipBlanks(s[1..]) else s
  }

  function DropBlanks(s: string): string {
    if s != [] && IsBlank(s[|s| - 1]) then DropBlanks(s[..|s| - 1]) else s
  }

  // What Python's int makes of a text: blanks around it, a sign, digits with underscores.
  function IntOfText(text: string): Option<int> {
    var s := DropBlanks(SkipBlanks(text));
    if s == "" then None
    else
      var digits := LooseDecimal(if s[0] == '-' || s[0] == '+' then s[1..] else s);
      if digits.None? then None
      else
        var n: int := digits.value;
        Some(if s[0] == '-' then -n else n)
  }

  lemma {:induction false} PlainIsLoose(s: string)
    requires ParseDecimal(s).Some?
    ensures LooseDecimal(s) == ParseDecimal(s) && forall i | 0 <= i < |s| :: IsDigit(s[i])
  {
    if |s| > 1 { PlainIsLoose(s[..|s| - 1]); }
  }

  // Plain digits are read as the number they are.
  lemma PlainIntOfText(s: string)
    requires ParseDecimal(s).Some?
    ensures IntOfText(s) == Some(ParseDecimal(s).value)
  {
    hide ParseDecimal, LooseDecimal;
    PlainIsLoose(s);
    NonEmptyPlain(s);
    assert IsDigit(s[0]) && IsDigit(s[|s| - 1]);
  }

  lemma NonEmptyPlain(s: string)
    requires ParseDecimal(s).Some?
    ensures s != []
  {
  }

  // ----- UTF-8 -----

  predicate ByteIn(s: string, i: nat, lo: int, hi: int) {
    i < |s| && lo <= s[i] as int <= hi
  }

  predicate Continues(s: string, i: nat) {
    ByteIn(s, i, 0x80, 0xBF)
  }

  // The length of the well-formed sequence at the start of s, or 0: table 3-7 of the Unicode
  // Standard.
  function SequenceLength(s: string): (n: nat)
    ensures n <= |s|
  {
    if ByteIn(s, 0, 0x00, 0x7F) then 1
    else if ByteIn(s, 0, 0xC2, 0xDF) && Continues(s, 1) then 2
    else if ByteIn(s, 0, 0xE0, 0xE0) && ByteIn(s, 1, 0xA0, 0xBF) && Continues(s, 2) then 3
    else if ByteIn(s, 0, 0xED, 0xED) && ByteIn(s, 1, 0x80, 0x9F) && Continues(s, 2) then 3
    else if (ByteIn(s, 0, 0xE1, 0xEC) || ByteIn(s, 0, 0xEE, 0xEF)) && Continues(s, 1) && Continues(s, 2) then 3
    else if ByteIn(s, 0, 0xF0, 0xF0) && ByteIn(s, 1, 0x90, 0xBF) && Continues(s, 2) && Continues(s, 3) then 4
    else if ByteIn(s, 0, 0xF1, 0xF3) && Continues(s, 1) && Continues(s, 2) && Continues(s, 3) then 4
    else if ByteIn(s, 0, 0xF4, 0xF4) && ByteIn(s, 1, 0x80, 0x8F) && Continues(s, 2) && Continues(s, 3) then 4
    else 0
  }

  // The bytes decode as UTF-8.
  predicate Decodable(s: string)
    decreases |s|
  {
    s == [] || (SequenceLength(s) > 0 && Decodable(s[SequenceLength(s)..]))
  }

  lemma {:induction false} AsciiDecodes(s: string)
    requires forall i | 0 <= i < |s| :: s[i] as int < 0x80
    ensures Decodable(s)
    decreases |s|
  {
    if s != [] { AsciiDecodes(s[1..]); }
  }

  // ----- Splitting and joining -----

  function Join(pieces: seq<string>, separator: char): string {
    if pieces == [] then [] else if |pieces| == 1 then pieces[0]
    else Join(pieces[..|pieces| - 1], separator) + [separator] + pieces[|pieces| - 1]
  }

  // The pieces between separators.
  function Split(s: string, separator: char): (pieces: seq<string>)
    ensures pieces != []
  {
    if s == [] then [[]]
    else
      var front := Split(s[..|s| - 1], separator);
      if s[|s| - 1] == separator then front + [[]]
      else front[..|front| - 1] + [front[|front| - 1] + [s[|s| - 1]]]
  }

  lemma {:induction false} SplitSuffix(s: string, piece: string, separator: char)
    requires separator !in piece
    ensures Split(s + [separator] + piece, separator) == Split(s, separator) + [piece]
  {
    var t := s + [separator] + piece;
    if piece == [] {
      assert t[..|t| - 1] == s;
    } else {
      var p := piece[..|piece| - 1];
      SplitSuffix(s, p, separator);
      assert t[..|t| - 1] == s + [separator] + p;
      assert piece == p + [piece[|piece| - 1]];
    }
  }

  lemma {:induction false} SplitWhole(piece: string, separator: char)
    requires separator !in piece
    ensures Split(piece, separator) == [piece]
  {
    if piece != [] {
      SplitWhole(piece[..|piece| - 1], separator);
      assert piece == piece[..|piece| - 1] + [piece[|piece| - 1]];
    }
  }

  lemma {:induction false} SplitJoin(pieces: seq<string>, separator: char)
    requires pieces != [] && forall p | p in pieces :: separator !in p
    ensures Split(Join(pieces, separator), separator) == pieces
  {
    var front, last := pieces[..|pieces| - 1], pieces[|pieces| - 1];
    if |pieces| == 1 {
      SplitWhole(pieces[0], separator);
    } else {
      SplitJoin(front, separator);
      SplitSuffix(Join(front, separator), last, separator);
      assert pieces == front + [last];
    }
  }

  // And joining the pieces of a text gives it back; no piece holds the separator.
  lemma {:induction false} JoinSplit(s: string, separator: char)
    ensures Join(Split(s, separator), separator) == s
    ensures forall p | p in Split(s, separator) :: separator !in p
  {
    if s == [] {
      assert Split(s, separator) == [[]];
    } else {
      var front, last, all := Split(s[..|s| - 1], separator), s[|s| - 1], Split(s, separator);
      JoinSplit(s[..|s| - 1], separator);
      var n := |front| - 1;
      if last == separator {
        assert all[..|all| - 1] == front;
        assert s == s[..|s| - 1] + [last] + [];
      } else {
        JoinGrows(front, last, separator);
        assert s == s[..|s| - 1] + [last];
        assert front[n] in front;
        forall p | p in all ensures separator !in p {
          if p != front[n] + [last] { assert p in front; }
        }
      }
    }
  }

  lemma JoinGrows(pieces: seq<string>, c: char, separator: char)
    requires pieces != []
    ensures var n := |pieces| - 1; Join(pieces[..n] + [pieces[n] + [c]], separator) == Join(pieces, separator) + [c]
  {
    var n := |pieces| - 1;
    var more := pieces[..n] + [pieces[n] + [c]];
    assert more[..n] == pieces[..n];
    if n > 0 { assert Join(pieces[..n], separator) + [separator] + (pieces[n] + [c]) == Join(pieces[..n], separator) + [separator] + pieces[n] + [c]; }
  }

  // The first occurrence of c at or after `from`; None is the ValueError of bytes.index.
  function IndexFrom(s: string, c: char, from: nat): (r: Option<nat>)
    ensures r.Some? ==> from <= r.value < |s| && s[r.value] == c && c !in s[from..r.value]
    ensures r.None? ==> from > |s| || c !in s[from..]
    decreases |s| - from
  {
    if from >= |s| then None
    else if s[from] == c then Some(from)
    else
      var r := IndexFrom(s, c, from + 1);
      assert s[from..] == [s[from]] + s[from + 1..];
      assert r.Some? ==> s[from..r.value] == [s[from]] + s[from + 1..r.value];
      r
  }

  lemma {:induction false} IndexIs(s: string, c: char, from: nat, at: nat)
    requires from <= at < |s| && s[at] == c && c !in s[from..at]
    ensures IndexFrom(s, c, from) == Some(at)
    decreases at - from
  {
    if from < at {
      assert s[from..at] == [s[from]] + s[from + 1..at];
      IndexIs(s, c, from + 1, at);
    }
  }

  // ----- Words between blanks -----

  predicate IsBlank(c: char) {
    c in {' ', '\t', '\n', '\r', '\U{0b}', '\U{0c}'}
  }

  predicate IsWord(w: string) {
    w != [] && forall i | 0 <= i < |w| :: !IsBlank(w[i])
  }

  // The pieces between runs of blanks.
  function Words(s: string): seq<string> {
    if s == [] then []
    else
      var front, last := s[..|s| - 1], s[|s| - 1];
      if IsBlank(last) then Words(front)
      else if front == [] || IsBlank(front[|front| - 1]) || Words(front) == [] then Words(front) + [[last]]
      else
        var words := Words(front);
        words[..|words| - 1] + [words[|words| - 1] + [last]]
  }

  lemma {:induction false} WordsSkipBlanks(s: string, n: nat)
    ensures Words(s + seq(n, _ => ' ')) == Words(s)
  {
    if n == 0 {
      assert s + seq(0, _ => ' ') == s;
    } else {
      var t := s + seq(n, _ => ' ');
      assert t[..|t| - 1] == s + seq(n - 1, _ => ' ');
      WordsSkipBlanks(s, n - 1);
    }
  }

  // The words after one more character that is no blank.
  lemma WordsStep(t: string, c: char)
    requires !IsBlank(c)
    ensures Words(t + [c]) == if t == [] || IsBlank(t[|t| - 1]) || Words(t) == [] then Words(t) + [[c]]
                              else Words(t)[..|Words(t)| - 1] + [Words(t)[|Words(t)| - 1] + [c]]
  {
    hide IsBlank;
    var u := t + [c];
    assert u[..|u| - 1] == t && u[|u| - 1] == c;
  }

  lemma LastWordGrows(words: seq<string>, w: string, c: char)
    ensures var all := words + [w]; all[..|all| - 1] + [all[|all| - 1] + [c]] == words + [w + [c]]
  {
  }

  lemma {:induction false} WordsAppend(s: string, w: string)
    requires IsWord(w) && (s == [] || IsBlank(s[|s| - 1]))
    ensures Words(s + w) == Words(s) + [w]
  {
    hide IsBlank, Words;
    var v, c := w[..|w| - 1], w[|w| - 1];
    assert w == v + [c] && s + w == (s + v) + [c];
    if v == [] {
      assert s + v == s && [c] == w;
      WordsStep(s, c);
    } else {
      WordsAppend(s, v);
      assert (s + v)[|s + v| - 1] == v[|v| - 1];
      WordsStep(s + v, c);
      LastWordGrows(Words(s), v, c);
    }
  }
}
