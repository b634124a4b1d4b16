// Which texts Python reads as an integer, and as which.
module Integers {
  import opened Options
  import opened Text

  ghost predicate Blanks(s: string) {
    forall i | 0 <= i < |s| :: s[i] == ' ' || 9 <= s[i] as int <= 13
  }

  ghost predicate DigitChar(c: char) {
    '0' <= c <= '9'
  }

  // Digits with single underscores between them.
  ghost predicate Grouped(s: string) {
    && s != [] && DigitChar(s[0]) && DigitChar(s[|s| - 1])
    && (forall i | 0 <= i < |s| :: DigitChar(s[i]) || s[i] == '_')
    && forall i | 0 <= i < |s| - 1 :: DigitChar(s[i]) || DigitChar(s[i + 1])
  }

  // The number the digits of s write, read from the left.
  ghost function Value(s: string): nat {
    if s == [] then 0
    else if DigitChar(s[|s| - 1]) then 10 * Value(s[..|s| - 1]) + (s[|s| - 1] as int - 48)
    else Value(s[..|s| - 1])
  }

  lemma {:induction false} LooseIff(s: string)
    ensures LooseDecimal(s).Some? <==> Grouped(s)
    ensures Grouped(s) ==> LooseDecimal(s) == Some(Value(s))
    decreases |s|
  {
    if |s| == 1 {
      assert s[..0] == [];
    } else if |s| > 1 && DigitChar(s[|s| - 1]) {
      var n := |s|;
      if s[n - 2] == '_' {
        LooseIff(s[..n - 2]);
        GroupedAfterUnderscore(s);
        assert s[..n - 1][..n - 2] == s[..n - 2];
      } else {
        LooseIff(s[..n - 1]);
        GroupedAfterDigit(s);
      }
    }
  }

  lemma GroupedAfterUnderscore(s: string)
    requires |s| > 1 && DigitChar(s[|s| - 1]) && s[|s| - 2] == '_'
    ensures Grouped(s) <==> Grouped(s[..|s| - 2])
  {
    var front, n := s[..|s| - 2], |s|;
    if Grouped(s) {
      assert n > 2;
      assert DigitChar(s[n - 3]);
    }
    if Grouped(front) {
      forall i | 0 <= i < n - 1 ensures DigitChar(s[i]) || DigitChar(s[i + 1]) {
        if i < n - 3 { assert DigitChar(front[i]) || DigitChar(front[i + 1]); }
      }
    }
  }

  lemma GroupedAfterDigit(s: string)
    requires |s| > 1 && DigitChar(s[|s| - 1]) && s[|s| - 2] != '_'
    ensures Grouped(s) <==> Grouped(s[..|s| - 1])
  {
    var front, n := s[..|s| - 1], |s|;
    if Grouped(front) {
      forall i | 0 <= i < n - 1 ensures DigitChar(s[i]) || DigitChar(s[i + 1]) {
        if i < n - 2 { assert DigitChar(front[i]) || DigitChar(front[i + 1]); }
      }
    }
  }

  // ----- Blanks -----

  lemma {:induction false} SkipsBlanks(before: string, s: string)
    requires Blanks(before) && (s != [] ==> !Blanks(s[..1]))
    ensures SkipBlanks(before + s) == s
  {
    if before == [] {
      assert before + s == s;
    } else {
      assert (before + s)[1..] == before[1..] + s;
      SkipsBlanks(before[1..], s);
    }
  }

  lemma {:induction false} DropsBlanks(s: string, after: string)
    requires Blanks(after) && (s != [] ==> !Blanks([s[|s| - 1]]))
    ensures DropBlanks(s + after) == s
  {
    if after == [] {
      assert s + after == s;
    } else {
      var n := |after| - 1;
      assert (s + after)[..|s| + n] == s + after[..n];
      DropsBlanks(s, after[..n]);
    }
  }

  lemma {:induction false} SkippedAreBlanks(s: string) returns (before: string)
    ensures s == before + SkipBlanks(s) && Blanks(before)
  {
    before := [];
    if s != [] && IsBlank(s[0]) {
      var rest := SkippedAreBlanks(s[1..]);
      before := [s[0]] + rest;
    }
  }

  lemma {:induction false} DroppedAreBlanks(s: string) returns (after: string)
    ensures s == DropBlanks(s) + after && Blanks(after)
  {
    after := [];
    if s != [] && IsBlank(s[|s| - 1]) {
      var rest := DroppedAreBlanks(s[..|s| - 1]);
      after := rest + [s[|s| - 1]];
    }
  }

  // ----- Integers -----

  // Blanks around it, a sign or none, and grouped digits.
  ghost predicate Writes(text: string, before: string, sign: string, digits: string, after: string, n: int) {
    && text == before + (sign + digits) + after && Blanks(before) && Blanks(after) && Grouped(digits)
    && (sign == "" || sign == "+" || sign == "-")
    && n == if sign == "-" then -(Value(digits) as int) else Value(digits)
  }

  // A text is read as n exactly when it writes n.
  lemma IntOfTextIff(text: string, n: int)
    ensures IntOfText(text) == Some(n) <==> exists before, sign, digits, after :: Writes(text, before, sign, digits, after, n)
  {
    hide Writes, LooseDecimal, Grouped, SkipBlanks, DropBlanks;
    if IntOfText(text) == Some(n) { var before, sign, digits, after := ReadIsWritten(text, n); }
    if before, sign, digits, after :| Writes(text, before, sign, digits, after, n) {
      WrittenIsRead(text, before, sign, digits, after, n);
    }
  }

  lemma ReadIsWritten(text: string, n: int) returns (before: string, sign: string, digits: string, after: string)
    requires IntOfText(text) == Some(n)
    ensures Writes(text, before, sign, digits, after, n)
  {
    hide LooseDecimal, Grouped, Value, SkipBlanks, DropBlanks;
    before := SkippedAreBlanks(text);
    after := DroppedAreBlanks(SkipBlanks(text));
    var s := DropBlanks(SkipBlanks(text));
    sign, digits := if s[0] == '-' || s[0] == '+' then s[..1] else "", if s[0] == '-' || s[0] == '+' then s[1..] else s;
    LooseIff(digits);
    assert s == sign + digits;
    assert text == before + (s + after) == before + s + after;
  }

  lemma NotBlank(c: char)
    requires DigitChar(c) || c == '+' || c == '-'
    ensures !Blanks([c])
  {
    assert [c][0] == c;
  }

  lemma WrittenIsRead(text: string, before: string, sign: string, digits: string, after: string, n: int)
    requires Writes(text, before, sign, digits, after, n)
    ensures IntOfText(text) == Some(n)
  {
    var s := sign + digits;
    assert s[..1] == [s[0]] && s[|s| - 1] == digits[|digits| - 1];
    assert sign == "" ==> s[0] == digits[0];
    NotBlank(s[0]);
    NotBlank(s[|s| - 1]);
    hide LooseDecimal, Value, SkipBlanks, DropBlanks;
    assert text == before + (s + after);
    assert (s + after)[..1] == s[..1];
    SkipsBlanks(before, s + after);
    DropsBlanks(s, after);
    LooseIff(digits);
    assert sign == "" ==> s == digits;
    assert sign != "" ==> s[1..] == digits;
  }
}
