// JSON documents as Python reads them, with Python's equality, truth value and text of a value.
module JsonValues {
  import opened Text

  datatype Json =
    | JNull
    | JBool(flag: bool)
    | JInt(n: int)
    | JFloat(x: real)
    | JStr(s: string)
    | JList(items: seq<Json>)
    | JObj(fields: map<string, Json>)

  predicate Numeric(j: Json) {
    j.JBool? || j.JInt? || j.JFloat?
  }

  function NumericValue(j: Json): real
    requires Numeric(j)
  {
    match j
    case JBool(b) => if b then 1.0 else 0.0
    case JInt(n) => n as real
    case JFloat(x) => x
  }

  // Python's ==: numbers of every kind compare by value, True being 1.
  predicate Same(a: Json, b: Json) {
    if Numeric(a) && Numeric(b) then NumericValue(a) == NumericValue(b)
    else if a.JList? && b.JList? then
      |a.items| == |b.items| && forall i | 0 <= i < |a.items| :: Same(a.items[i], b.items[i])
    else if a.JObj? && b.JObj? then
      a.fields.Keys == b.fields.Keys && forall k | k in a.fields :: Same(a.fields[k], b.fields[k])
    else a == b
  }

  // The member of that name; null when it is missing.
  function Get(fields: map<string, Json>, key: string): Json {
    if key in fields then fields[key] else JNull
  }

  // The member of an object; a missing member, or a value that is no object, gives null.
  function Field(j: Json, key: string): Json {
    if j.JObj? then Get(j.fields, key) else JNull
  }

  function GetText(fields: map<string, Json>, key: string): Shown {
    if key in fields then Str(fields[key]) else Plain("")
  }

  // Python's truth value.
  predicate Truthy(j: Json) {
    match j
    case JNull => false
    case JBool(b) => b
    case JInt(n) => n != 0
    case JFloat(x) => x != 0.0
    case JStr(s) => s != ""
    case JList(items) => items != []
    case JObj(fields) => fields != map[]
  }

  // Python's text of a value. That of a float, a list or an object is kept abstract: it equals no plain text.
  datatype Shown = Plain(text: string) | Other(value: Json)

  function Str(j: Json): Shown {
    match j
    case JNull => Plain("None")
    case JBool(b) => Plain(if b then "True" else "False")
    case JInt(n) => Plain(if n < 0 then "-" + Decimal(-n) else Decimal(n))
    case JStr(s) => Plain(s)
    case _ => Other(j)
  }

  function LowerChar(c: char): char {
    if 'A' <= c <= 'Z' then 'a' + (c - 'A') else c
  }

  // str.lower and str.casefold on ASCII text.
  function Lower(s: string): (r: string)
    ensures |r| == |s|
  {
    if s == "" then "" else Lower(s[..|s| - 1]) + [LowerChar(s[|s| - 1])]
  }

  function LowerText(t: Shown): Shown {
    if t.Plain? then Plain(Lower(t.text)) else t
  }

  predicate IsHexDigit(c: char) {
    '0' <= c <= '9' || 'a' <= c <= 'f'
  }

  predicate IsHex(s: string, n: nat) {
    |s| == n && forall i | 0 <= i < n :: IsHexDigit(s[i])
  }

  // A text of n lower-case hexadecimal digits.
  predicate HexText(t: Shown, n: nat) {
    t.Plain? && IsHex(t.text, n)
  }
}
