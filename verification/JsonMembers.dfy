// Statements about the members of a JSON object that name no function of the programs.
module JsonMembers {
  import opened Text
  import opened JsonValues

  ghost predicate Has(fields: map<string, Json>, key: string, value: Json) {
    key in fields && fields[key] == value
  }

  ghost predicate HasObject(fields: map<string, Json>, key: string) {
    key in fields && fields[key].JObj?
  }

  ghost function Member(fields: map<string, Json>, key: string): Json {
    if key in fields then fields[key] else JNull
  }

  // A number that is no bool, with that value.
  ghost predicate Is(fields: map<string, Json>, key: string, x: real) {
    key in fields && ((fields[key].JInt? && fields[key].n as real == x) || (fields[key].JFloat? && fields[key].x == x))
  }

  // A number of any kind, with that value: true counts as one.
  ghost predicate Equals(fields: map<string, Json>, key: string, x: real) {
    Is(fields, key, x) || (key in fields && fields[key].JBool? && x == if fields[key].flag then 1.0 else 0.0)
  }

  // The text Python prints for a null, a bool, an integer or a text.
  ghost predicate Prints(j: Json, t: string) {
    match j
    case JStr(s) => t == s
    case JInt(n) => t == if n < 0 then "-" + Decimal(-n) else Decimal(n)
    case JBool(b) => t == if b then "True" else "False"
    case JNull => t == "None"
    case _ => false
  }

  ghost predicate HexDigits(s: string, n: nat) {
    |s| == n && forall i | 0 <= i < n :: '0' <= s[i] <= '9' || 'a' <= s[i] <= 'f'
  }

  lemma SameNumberIff(j: Json, key: string, n: int)
    requires j.JObj?
    ensures Same(Field(j, key), JInt(n)) <==> Equals(j.fields, key, n as real)
  {
  }

  lemma SameTextIff(j: Json, t: string)
    ensures Same(j, JStr(t)) <==> j == JStr(t)
  {
  }

  lemma PrintsIff(j: Json, t: string)
    ensures Str(j) == Plain(t) <==> Prints(j, t)
  {
    hide Decimal;
  }

  // ----- Python's equality -----

  // The value with every number, bools included, as a float.
  ghost function WithFloats(j: Json): Json {
    match j
    case JBool(b) => JFloat(if b then 1.0 else 0.0)
    case JInt(n) => JFloat(n as real)
    case JList(items) => JList(seq(|items|, i requires 0 <= i < |items| => WithFloats(items[i])))
    case JObj(fields) => JObj(map k | k in fields :: WithFloats(fields[k]))
    case _ => j
  }

  // Two values are equal for Python exactly when they are the same value up to the kind of their
  // numbers, at any depth.
  lemma {:induction false} SameIff(a: Json, b: Json)
    ensures Same(a, b) <==> WithFloats(a) == WithFloats(b)
    decreases a
  {
    if a.JList? && b.JList? && |a.items| == |b.items| {
      var n := |a.items|;
      forall i | 0 <= i < n ensures Same(a.items[i], b.items[i]) <==> WithFloats(a.items[i]) == WithFloats(b.items[i]) {
        SameIff(a.items[i], b.items[i]);
      }
      SameItems(a, b);
    } else if a.JObj? && b.JObj? && a.fields.Keys == b.fields.Keys {
      forall k | k in a.fields ensures Same(a.fields[k], b.fields[k]) <==> WithFloats(a.fields[k]) == WithFloats(b.fields[k]) {
        SameIff(a.fields[k], b.fields[k]);
      }
      SameMembers(a, b);
    } else {
      DifferentShape(a, b);
    }
  }

  lemma SameItems(a: Json, b: Json)
    requires a.JList? && b.JList? && |a.items| == |b.items|
    ensures WithFloats(a) == WithFloats(b)
            <==> forall i | 0 <= i < |a.items| :: WithFloats(a.items[i]) == WithFloats(b.items[i])
  {
    var x, y := WithFloats(a).items, WithFloats(b).items;
    assert |x| == |y| == |a.items|;
    assert forall i | 0 <= i < |x| :: x[i] == WithFloats(a.items[i]) && y[i] == WithFloats(b.items[i]);
    assert x == y <==> forall i | 0 <= i < |x| :: x[i] == y[i];
  }

  lemma SameMembers(a: Json, b: Json)
    requires a.JObj? && b.JObj? && a.fields.Keys == b.fields.Keys
    ensures WithFloats(a) == WithFloats(b)
            <==> forall k | k in a.fields :: WithFloats(a.fields[k]) == WithFloats(b.fields[k])
  {
    FloatFields(a);
    FloatFields(b);
    hide WithFloats;
    MapsEqual(WithFloats(a).fields, WithFloats(b).fields);
  }

  lemma FloatFields(j: Json)
    requires j.JObj?
    ensures WithFloats(j).JObj? && WithFloats(j).fields.Keys == j.fields.Keys
    ensures forall k | k in j.fields :: WithFloats(j).fields[k] == WithFloats(j.fields[k])
  {
  }

  lemma MapsEqual(x: map<string, Json>, y: map<string, Json>)
    requires x.Keys == y.Keys
    ensures JObj(x) == JObj(y) <==> forall k | k in x :: x[k] == y[k]
  {
    if forall k | k in x :: x[k] == y[k] { assert x == y; }
  }

  lemma DifferentShape(a: Json, b: Json)
    requires !(a.JList? && b.JList? && |a.items| == |b.items|) && !(a.JObj? && b.JObj? && a.fields.Keys == b.fields.Keys)
    ensures Same(a, b) <==> WithFloats(a) == WithFloats(b)
  {
    if a.JList? && b.JList? { assert |WithFloats(a).items| == |a.items| && |WithFloats(b).items| == |b.items|; }
    if a.JObj? && b.JObj? {
      assert WithFloats(a).fields.Keys == a.fields.Keys && WithFloats(b).fields.Keys == b.fields.Keys;
    }
  }
}
