/** JSON values and the `json.dumps` / `json.loads` pair (RFC 8259) the
    document store uses for every stored document, index and registry entry.
    Floats are not part of the model.  `dumps` writes Python's default
    separators `", "` and `": "`; `loads` accepts any JSON whitespace between
    tokens. */
module Json {
  import opened Base
  import opened Numerals
  import opened JsonStrings

  /** A JSON-representable Python value: None, bool, int, str, list, dict.
      A dict is kept as its (key, value) pairs in insertion order. */
  datatype Json =
    | JNull
    | JBool(b: bool)
    | JInt(i: int)
    | JString(s: string)
    | JArray(items: seq<Json>)
    | JObject(fields: seq<(string, Json)>)

  function Keys(fields: seq<(string, Json)>): set<string> {
    if fields == [] then {} else {fields[0].0} + Keys(fields[1..])
  }

  /** A Python dict never holds a key twice. */
  predicate DistinctKeys(fields: seq<(string, Json)>) {
    fields == [] || (fields[0].0 !in Keys(fields[1..]) && DistinctKeys(fields[1..]))
  }

  /** JSON text decodes to dicts without repeated keys, at any depth. */
  predicate ValidJson(v: Json)
    decreases v
  {
    match v
    case JArray(items) => forall i :: 0 <= i < |items| ==> ValidJson(items[i])
    case JObject(fields) =>
      DistinctKeys(fields) && forall i :: 0 <= i < |fields| ==> ValidJson(fields[i].1)
    case _ => true
  }

  /** `d.get(k)`: the value stored under `k`, if any. */
  function Lookup(fields: seq<(string, Json)>, k: string): (r: Option<Json>)
    ensures r.Some? <==> k in Keys(fields)
  {
    if fields == [] then None
    else if fields[0].0 == k then Some(fields[0].1)
    else Lookup(fields[1..], k)
  }

  /** `d[k] = v`: replaces the value of an existing key in place, otherwise
      appends the pair (dict insertion order). */
  function Put(fields: seq<(string, Json)>, k: string, v: Json): (r: seq<(string, Json)>)
    ensures Keys(r) == Keys(fields) + {k}
    ensures Lookup(r, k) == Some(v)
    ensures k !in Keys(fields) ==> r == fields + [(k, v)]
    ensures DistinctKeys(fields) ==> DistinctKeys(r)
  {
    if fields == [] then [(k, v)]
    else if fields[0].0 == k then
      var r := [(k, v)] + fields[1..];
      assert r[1..] == fields[1..];
      r
    else
      var r := [fields[0]] + Put(fields[1..], k, v);
      assert r[1..] == Put(fields[1..], k, v);
      r
  }

  /** `d[k] = v` leaves every other key's value alone. */
  lemma {:induction false} PutOthers(fields: seq<(string, Json)>, k: string, v: Json)
    ensures forall k' :: k' != k ==> Lookup(Put(fields, k, v), k') == Lookup(fields, k')
    decreases |fields|
  {
    if fields != [] && fields[0].0 != k {
      PutOthers(fields[1..], k, v);
      var r := Put(fields, k, v);
      assert r[1..] == Put(fields[1..], k, v);
    }
  }

  /** `dict(pairs)`: later duplicates overwrite the value of the first
      occurrence and keep its position. */
  function DictFromPairs(acc: seq<(string, Json)>, pairs: seq<(string, Json)>): seq<(string, Json)>
    decreases |pairs|
  {
    if pairs == [] then acc else DictFromPairs(Put(acc, pairs[0].0, pairs[0].1), pairs[1..])
  }

  /** Python truthiness of a value. */
  predicate Truthy(v: Json) {
    match v
    case JNull => false
    case JBool(b) => b
    case JInt(i) => i != 0
    case JString(s) => s != []
    case JArray(items) => items != []
    case JObject(fields) => fields != []
  }

  // ---------------------------------------------------------------- dumps

  /** `json.dumps(v)`. */
  function Dumps(v: Json): (s: string)
    ensures |s| > 0 && !IsWs(s[0])
    decreases v, 1
  {
    match v
    case JNull => "null"
    case JBool(b) => if b then "true" else "false"
    case JInt(i) => NatToStringShape(if i < 0 then -i else i); IntToString(i)
    case JString(str) => Quote(str)
    case JArray(items) => "[" + DumpsItems(items) + "]"
    case JObject(fields) => "{" + DumpsFields(fields) + "}"
  }

  function DumpsItems(items: seq<Json>): string
    decreases items, 0
  {
    if items == [] then ""
    else if |items| == 1 then Dumps(items[0])
    else Dumps(items[0]) + ", " + DumpsItems(items[1..])
  }

  function DumpsFields(fields: seq<(string, Json)>): string
    decreases fields, 0
  {
    if fields == [] then ""
    else
      var p := fields[0];
      assert p in fields;
      assert p.1 < p;
      var member := Quote(p.0) + ": " + Dumps(p.1);
      if |fields| == 1 then member else member + ", " + DumpsFields(fields[1..])
  }

  // ---------------------------------------------------------------- loads

  predicate IsWs(c: char) {
    c == ' ' || c == '\t' || c == '\n' || c == '\r'
  }

  function SkipWs(s: string): (r: string)
    ensures |r| <= |s| && (r == [] || !IsWs(r[0]))
  {
    if s != [] && IsWs(s[0]) then SkipWs(s[1..]) else s
  }

  /** A JSON number without fraction or exponent: `-?(0|[1-9][0-9]*)`. */
  function ParseNumber(s: string): (r: Option<(Json, string)>)
    ensures r.Some? ==> |r.value.1| < |s|
  {
    var neg := |s| > 0 && s[0] == '-';
    var t := if neg then s[1..] else s;
    if t == [] || !IsDigit(t[0]) then None
    else
      var k := if t[0] == '0' then 1 else DigitPrefixLen(t);
      var n := DigitsValue(t[..k]);
      Some((JInt(if neg then -(n as int) else n), t[k..]))
  }

  function ParseValue(s: string): (r: Option<(Json, string)>)
    ensures r.Some? ==> |r.value.1| < |s|
    decreases |s|, 0
  {
    if s == [] then None
    else if s[0] == 'n' then (if "null" <= s then Some((JNull, s[4..])) else None)
    else if s[0] == 't' then (if "true" <= s then Some((JBool(true), s[4..])) else None)
    else if s[0] == 'f' then (if "false" <= s then Some((JBool(false), s[5..])) else None)
    else if s[0] == '"' then
      match ParseStringBody(s[1..])
      case None => None
      case Some((str, rest)) => Some((JString(str), rest))
    else if s[0] == '[' then
      var t := SkipWs(s[1..]);
      if t != [] && t[0] == ']' then Some((JArray([]), t[1..]))
      else
        match ParseElements(t)
        case None => None
        case Some((items, rest)) => Some((JArray(items), rest))
    else if s[0] == '{' then
      var t := SkipWs(s[1..]);
      if t != [] && t[0] == '}' then Some((JObject([]), t[1..]))
      else
        match ParseMembers(t)
        case None => None
        case Some((pairs, rest)) => Some((JObject(DictFromPairs([], pairs)), rest))
    else ParseNumber(s)
  }

  /** Array elements after the opening bracket, through the closing one. */
  function ParseElements(s: string): (r: Option<(seq<Json>, string)>)
    ensures r.Some? ==> |r.value.1| < |s|
    decreases |s|, 1
  {
    match ParseValue(s)
    case None => None
    case Some((v, t)) =>
      var u := SkipWs(t);
      if u != [] && u[0] == ']' then Some(([v], u[1..]))
      else if u != [] && u[0] == ',' then
        match ParseElements(SkipWs(u[1..]))
        case None => None
        case Some((vs, rest)) => Some(([v] + vs, rest))
      else None
  }

  /** Object members after the opening brace, through the closing one. */
  function ParseMembers(s: string): (r: Option<(seq<(string, Json)>, string)>)
    ensures r.Some? ==> |r.value.1| < |s|
    decreases |s|, 1
  {
    if s == [] || s[0] != '"' then None
    else
      match ParseStringBody(s[1..])
      case None => None
      case Some((key, t)) =>
        var u := SkipWs(t);
        if u == [] || u[0] != ':' then None
        else
          match ParseValue(SkipWs(u[1..]))
          case None => None
          case Some((v, w)) =>
            var x := SkipWs(w);
            if x != [] && x[0] == '}' then Some(([(key, v)], x[1..]))
            else if x != [] && x[0] == ',' then
              match ParseMembers(SkipWs(x[1..]))
              case None => None
              case Some((ms, rest)) => Some(([(key, v)] + ms, rest))
            else None
  }

  /** `json.loads(s)`; `Err(DecodeError)` is the JSONDecodeError it raises. */
  function Loads(s: string): (r: Result<Json>)
    ensures r.Err? ==> r.error == DecodeError
  {
    match ParseValue(SkipWs(s))
    case Some((v, rest)) => if SkipWs(rest) == [] then Ok(v) else Err(DecodeError)
    case None => Err(DecodeError)
  }

  // ---------------------------------------------------------------- round trip

  /** What may follow a value in the text `dumps` writes. */
  predicate Delimited(rest: string) {
    rest == [] || rest[0] == ',' || rest[0] == ']' || rest[0] == '}'
  }

  lemma {:induction false} SkipWsNonWs(s: string)
    requires s == [] || !IsWs(s[0])
    ensures SkipWs(s) == s
  {
  }

  lemma {:induction false} SkipOneSpace(s: string)
    requires s != [] && !IsWs(s[0])
    ensures SkipWs(" " + s) == s
  {
    assert (" " + s)[1..] == s;
  }

  /** The digits of `n` followed by a delimiter: exactly those digits are
      read as the number. */
  lemma {:induction false} NaturalPart(n: nat, rest: string)
    requires Delimited(rest)
    ensures var t := NatToString(n) + rest;
      && t != [] && IsDigit(t[0])
      && var k := if t[0] == '0' then 1 else DigitPrefixLen(t);
      && k == |NatToString(n)| && t[..k] == NatToString(n) && t[k..] == rest
  {
    NatToStringShape(n);
    var digits := NatToString(n);
    var t := digits + rest;
    assert t[0] == digits[0];
    if n == 0 {
      assert digits == "0";
    } else {
      DigitPrefixOfDigits(digits, rest);
    }
    assert t[..|digits|] == digits && t[|digits|..] == rest;
  }

  lemma {:induction false} NumberRoundTrip(i: int, rest: string)
    requires Delimited(rest)
    ensures ParseNumber(IntToString(i) + rest) == Some((JInt(i), rest))
  {
    if i < 0 {
      NegativeRoundTrip(i, rest);
    } else {
      NaturalRoundTrip(i, rest);
    }
  }

  lemma {:induction false} NaturalRoundTrip(n: nat, rest: string)
    requires Delimited(rest)
    ensures ParseNumber(IntToString(n) + rest) == Some((JInt(n), rest))
  {
    var digits := NatToString(n);
    var t := digits + rest;
    NaturalPart(n, rest);
    DigitsValueOfNat(n);
    assert IntToString(n) == digits;
    ParseNumberOf(t, false, t, |digits|);
  }

  lemma {:induction false} NegativeRoundTrip(i: int, rest: string)
    requires i < 0 && Delimited(rest)
    ensures ParseNumber(IntToString(i) + rest) == Some((JInt(i), rest))
  {
    var digits := NatToString(-i);
    var t := digits + rest;
    var s := "-" + t;
    NaturalPart(-i, rest);
    DigitsValueOfNat(-i);
    assert IntToString(i) == "-" + digits;
    AppendAssoc("-", digits, rest);
    assert s[0] == '-' && s[1..] == t;
    ParseNumberOf(s, true, t, |digits|);
  }

  /** What `ParseNumber` reads once the sign, the digits after it and the
      length of the digit run are known. */
  lemma {:induction false} ParseNumberOf(s: string, neg: bool, t: string, k: nat)
    requires neg <==> |s| > 0 && s[0] == '-'
    requires t == if neg then s[1..] else s
    requires t != [] && IsDigit(t[0])
    requires k == if t[0] == '0' then 1 else DigitPrefixLen(t)
    ensures k <= |t| && AllDigits(t[..k])
    ensures ParseNumber(s) == Some((JInt(if neg then -(DigitsValue(t[..k]) as int) else DigitsValue(t[..k])), t[k..]))
  {
  }

  /** The text of an integer starts with a minus sign or a digit, so it is
      read as a number. */
  lemma {:induction false} IntRoundTrip(i: int, rest: string)
    requires Delimited(rest)
    ensures ParseValue(Dumps(JInt(i)) + rest) == Some((JInt(i), rest))
  {
    var s := IntToString(i) + rest;
    NatToStringShape(if i < 0 then -i else i);
    assert s[0] == IntToString(i)[0];
    assert s[0] == '-' || IsDigit(s[0]);
    NumberRoundTrip(i, rest);
  }

  lemma {:induction false} NullRoundTrip(rest: string)
    ensures ParseValue(Dumps(JNull) + rest) == Some((JNull, rest))
  {
    var s := "null" + rest;
    assert s[0] == 'n' && "null" <= s && s[4..] == rest;
  }

  lemma {:induction false} BoolRoundTrip(b: bool, rest: string)
    ensures ParseValue(Dumps(JBool(b)) + rest) == Some((JBool(b), rest))
  {
    if b {
      var s := "true" + rest;
      assert s[0] == 't' && "true" <= s && s[4..] == rest;
    } else {
      var s := "false" + rest;
      assert s[0] == 'f' && "false" <= s && s[5..] == rest;
    }
  }

  lemma {:induction false} StringRoundTrip(str: string, rest: string)
    ensures ParseValue(Quote(str) + rest) == Some((JString(str), rest))
  {
    var s := Quote(str) + rest;
    assert s[1..] == Escape(str) + "\"" + rest;
    EscapeRoundTrip(str, rest);
  }

  lemma {:induction false} PutFresh(acc: seq<(string, Json)>, pairs: seq<(string, Json)>)
    requires DistinctKeys(pairs)
    requires Keys(acc) !! Keys(pairs)
    ensures DictFromPairs(acc, pairs) == acc + pairs
    decreases |pairs|
  {
    if pairs != [] {
      var acc' := PutFreshStep(acc, pairs);
      PutFresh(acc', pairs[1..]);
      AppendAssoc(acc, [pairs[0]], pairs[1..]);
      assert [pairs[0]] + pairs[1..] == pairs;
    }
  }

  /** One step of `PutFresh`: the first pair lands at the end, and the rest
      of the pairs still bring only new keys. */
  lemma {:induction false} PutFreshStep(acc: seq<(string, Json)>, pairs: seq<(string, Json)>)
    returns (acc': seq<(string, Json)>)
    requires pairs != [] && DistinctKeys(pairs)
    requires Keys(acc) !! Keys(pairs)
    ensures acc' == acc + [pairs[0]]
    ensures DictFromPairs(acc, pairs) == DictFromPairs(acc', pairs[1..])
    ensures DistinctKeys(pairs[1..]) && Keys(acc') !! Keys(pairs[1..])
  {
    var k, v := pairs[0].0, pairs[0].1;
    assert Keys(pairs) == {k} + Keys(pairs[1..]);
    acc' := Put(acc, k, v);
  }

  /** `json.loads` reads back any value `json.dumps` wrote, followed by
      whatever the enclosing text holds. */
  lemma {:induction false} ValueRoundTrip(v: Json, rest: string)
    requires ValidJson(v) && Delimited(rest)
    ensures ParseValue(Dumps(v) + rest) == Some((v, rest))
    decreases v, 2
  {
    match v
    case JNull =>
      NullRoundTrip(rest);
    case JBool(b) =>
      BoolRoundTrip(b, rest);
    case JInt(i) =>
      IntRoundTrip(i, rest);
    case JString(str) =>
      StringRoundTrip(str, rest);
    case JArray(items) =>
      ArrayRoundTrip(items, rest);
    case JObject(fields) =>
      ObjectRoundTrip(fields, rest);
  }

  lemma {:induction false} ArrayRoundTrip(items: seq<Json>, rest: string)
    requires forall i :: 0 <= i < |items| ==> ValidJson(items[i])
    ensures ParseValue(Dumps(JArray(items)) + rest) == Some((JArray(items), rest))
    decreases items, 2
  {
    var inner := Enclosed('[', DumpsItems(items), ']', rest);
    if items == [] {
      assert inner == "]" + rest;
    } else {
      ItemsRoundTrip(items, rest);
      DumpsItemsStart(items);
    }
    SkipWsNonWs(inner);
    ArrayUnfold(inner);
  }

  lemma {:induction false} ObjectRoundTrip(fields: seq<(string, Json)>, rest: string)
    requires DistinctKeys(fields)
    requires forall i :: 0 <= i < |fields| ==> ValidJson(fields[i].1)
    ensures ParseValue(Dumps(JObject(fields)) + rest) == Some((JObject(fields), rest))
    decreases fields, 2
  {
    var inner := Enclosed('{', DumpsFields(fields), '}', rest);
    if fields == [] {
      assert inner == "}" + rest;
    } else {
      FieldsRoundTrip(fields, rest);
      DumpsFieldsStart(fields);
      PutFresh([], fields);
      assert [] + fields == fields;
    }
    SkipWsNonWs(inner);
    ObjectUnfold(inner);
  }

  /** The text of a bracketed value followed by `rest`, regrouped as the
      opening bracket followed by everything after it. */
  lemma {:induction false} Enclosed(open: char, body: string, close: char, rest: string)
    returns (inner: string)
    ensures inner == body + [close] + rest
    ensures [open] + body + [close] + rest == [open] + inner
  {
    inner := body + [close] + rest;
    AppendAssoc([open] + body, [close], rest);
    AppendAssoc([open], body, [close] + rest);
    AppendAssoc(body, [close], rest);
  }

  /** Reading an array from its opening bracket. */
  lemma {:induction false} ArrayUnfold(inner: string)
    requires inner != [] && SkipWs(inner) == inner
    ensures inner[0] == ']' ==> ParseValue("[" + inner) == Some((JArray([]), inner[1..]))
    ensures var e := ParseElements(inner);
            inner[0] != ']' && e.Some? ==> ParseValue("[" + inner) == Some((JArray(e.value.0), e.value.1))
  {
    var s := "[" + inner;
    assert s[0] == '[' && s[1..] == inner;
  }

  /** Reading an object from its opening brace. */
  lemma {:induction false} ObjectUnfold(inner: string)
    requires inner != [] && SkipWs(inner) == inner
    ensures inner[0] == '}' ==> ParseValue("{" + inner) == Some((JObject([]), inner[1..]))
    ensures var m := ParseMembers(inner);
            inner[0] != '}' && m.Some? ==>
              ParseValue("{" + inner) == Some((JObject(DictFromPairs([], m.value.0)), m.value.1))
  {
    var s := "{" + inner;
    assert s[0] == '{' && s[1..] == inner;
  }

  lemma {:induction false} DumpsItemsStart(items: seq<Json>)
    requires items != []
    ensures DumpsItems(items) != [] && DumpsItems(items)[0] == Dumps(items[0])[0]
  {
  }

  lemma {:induction false} DumpsFieldsStart(fields: seq<(string, Json)>)
    requires fields != []
    ensures DumpsFields(fields) != [] && DumpsFields(fields)[0] == '"'
  {
  }

  /** One array element, read up to the delimiter after it. */
  lemma {:induction false} ElementsUnfold(x: string, v: Json, w: string)
    requires ParseValue(x) == Some((v, w))
    requires w != [] && SkipWs(w) == w
    ensures w[0] == ']' ==> ParseElements(x) == Some(([v], w[1..]))
    ensures var more := ParseElements(SkipWs(w[1..]));
            w[0] == ',' && more.Some? ==> ParseElements(x) == Some(([v] + more.value.0, more.value.1))
  {
  }

  lemma {:induction false} ElementsLast(x: string, v: Json, rest: string)
    requires ParseValue(x) == Some((v, "]" + rest))
    ensures ParseElements(x) == Some(([v], rest))
  {
    var w := "]" + rest;
    SkipWsNonWs(w);
    assert w[1..] == rest;
    ElementsUnfold(x, v, w);
  }

  lemma {:induction false} ElementsNext(x: string, v: Json, t: string, vs: seq<Json>, rest: string)
    requires t != [] && !IsWs(t[0])
    requires ParseValue(x) == Some((v, ", " + t))
    requires ParseElements(t) == Some((vs, rest))
    ensures ParseElements(x) == Some(([v] + vs, rest))
  {
    var w := ", " + t;
    SkipWsNonWs(w);
    assert w[1..] == " " + t;
    SkipOneSpace(t);
    ElementsUnfold(x, v, w);
  }

  lemma {:induction false} ItemsRoundTrip(items: seq<Json>, rest: string)
    requires items != []
    requires forall i :: 0 <= i < |items| ==> ValidJson(items[i])
    ensures ParseElements(DumpsItems(items) + "]" + rest) == Some((items, rest))
    decreases items, 1
  {
    if |items| == 1 {
      ItemsSingle(items[0], rest);
      assert items == [items[0]];
    } else {
      ItemsRoundTrip(items[1..], rest);
      ItemsCons(items, rest);
    }
  }

  lemma {:induction false} ItemsSingle(item: Json, rest: string)
    requires ValidJson(item)
    ensures ParseElements(DumpsItems([item]) + "]" + rest) == Some(([item], rest))
    decreases item, 3
  {
    var x := DumpsItems([item]) + "]" + rest;
    ValueRoundTrip(item, "]" + rest);
    assert x == Dumps(item) + ("]" + rest);
    ElementsLast(x, item, rest);
  }

  /** Reading the first of several items, given that the others read back. */
  lemma {:induction false} ItemsCons(items: seq<Json>, rest: string)
    requires |items| > 1
    requires forall i :: 0 <= i < |items| ==> ValidJson(items[i])
    requires ParseElements(DumpsItems(items[1..]) + "]" + rest) == Some((items[1..], rest))
    ensures ParseElements(DumpsItems(items) + "]" + rest) == Some((items, rest))
    decreases items, 0
  {
    var tailText := DumpsItems(items[1..]) + "]" + rest;
    DumpsItemsMore(items, rest);
    DumpsItemsStart(items[1..]);
    ItemThenMore(items[0], tailText, items[1..], rest);
    assert [items[0]] + items[1..] == items;
  }

  /** A value, a separator and text that reads back as further items. */
  lemma {:induction false} ItemThenMore(v: Json, t: string, vs: seq<Json>, rest: string)
    requires ValidJson(v)
    requires t != [] && !IsWs(t[0])
    requires ParseElements(t) == Some((vs, rest))
    ensures ParseElements(Dumps(v) + (", " + t)) == Some(([v] + vs, rest))
    decreases v, 3
  {
    ValueRoundTrip(v, ", " + t);
    ElementsNext(Dumps(v) + (", " + t), v, t, vs, rest);
  }

  /** The text of several items: the first, a separator, then the others. */
  lemma {:induction false} DumpsItemsMore(items: seq<Json>, rest: string)
    requires |items| > 1
    ensures DumpsItems(items) + "]" + rest == Dumps(items[0]) + (", " + (DumpsItems(items[1..]) + "]" + rest))
  {
    var d, e := Dumps(items[0]), DumpsItems(items[1..]);
    assert DumpsItems(items) == d + ", " + e;
    AppendAssoc(d + ", " + e, "]", rest);
    AppendAssoc(d + ", ", e, "]" + rest);
    AppendAssoc(e, "]", rest);
    AppendAssoc(d, ", ", e + "]" + rest);
  }

  /** The `": "` between a key and its value is skipped. */
  lemma {:induction false} ColonStep(y: string)
    requires y != [] && !IsWs(y[0])
    ensures SkipWs(": " + y) == ": " + y && SkipWs((": " + y)[1..]) == y
  {
    SkipWsNonWs(": " + y);
    assert (": " + y)[1..] == " " + y;
    SkipOneSpace(y);
  }

  /** One object member, read up to the delimiter after its value. */
  lemma {:induction false} MembersUnfold(x: string, key: string, u: string, v: Json, w: string)
    requires x != [] && x[0] == '"'
    requires ParseStringBody(x[1..]) == Some((key, u))
    requires u != [] && u[0] == ':' && SkipWs(u) == u
    requires ParseValue(SkipWs(u[1..])) == Some((v, w))
    requires w != [] && SkipWs(w) == w
    ensures w[0] == '}' ==> ParseMembers(x) == Some(([(key, v)], w[1..]))
    ensures var more := ParseMembers(SkipWs(w[1..]));
            w[0] == ',' && more.Some? ==> ParseMembers(x) == Some(([(key, v)] + more.value.0, more.value.1))
  {
  }

  lemma {:induction false} MembersLast(x: string, key: string, y: string, v: Json, rest: string)
    requires x != [] && x[0] == '"'
    requires y != [] && !IsWs(y[0])
    requires ParseStringBody(x[1..]) == Some((key, ": " + y))
    requires ParseValue(y) == Some((v, "}" + rest))
    ensures ParseMembers(x) == Some(([(key, v)], rest))
  {
    ColonStep(y);
    var w := "}" + rest;
    SkipWsNonWs(w);
    assert w[1..] == rest;
    MembersUnfold(x, key, ": " + y, v, w);
  }

  lemma {:induction false} MembersNext(x: string, key: string, y: string, v: Json, t: string,
                    ms: seq<(string, Json)>, rest: string)
    requires x != [] && x[0] == '"'
    requires y != [] && !IsWs(y[0])
    requires t != [] && !IsWs(t[0])
    requires ParseStringBody(x[1..]) == Some((key, ": " + y))
    requires ParseValue(y) == Some((v, ", " + t))
    requires ParseMembers(t) == Some((ms, rest))
    ensures ParseMembers(x) == Some(([(key, v)] + ms, rest))
  {
    ColonStep(y);
    var w := ", " + t;
    SkipWsNonWs(w);
    assert w[1..] == " " + t;
    SkipOneSpace(t);
    MembersUnfold(x, key, ": " + y, v, w);
  }

  /** A quoted key followed by `y` reads back as the key, leaving `y`. */
  lemma {:induction false} KeyStep(key: string, y: string)
    ensures var x := Quote(key) + y; x[0] == '"' && ParseStringBody(x[1..]) == Some((key, y))
  {
    var x := Quote(key) + y;
    assert x[1..] == Escape(key) + "\"" + y;
    EscapeRoundTrip(key, y);
  }

  lemma {:induction false} DumpsFieldsOne(key: string, val: Json, rest: string)
    ensures DumpsFields([(key, val)]) + "}" + rest == Quote(key) + (": " + (Dumps(val) + ("}" + rest)))
  {
    var q, d := Quote(key), Dumps(val);
    assert DumpsFields([(key, val)]) == q + ": " + d;
    AppendAssoc(q + ": " + d, "}", rest);
    AppendAssoc(q + ": ", d, "}" + rest);
    AppendAssoc(q, ": ", d + ("}" + rest));
  }

  /** The text of several members: the first key and value, a separator,
      then the others. */
  lemma {:induction false} DumpsFieldsMore(fields: seq<(string, Json)>, rest: string)
    requires |fields| > 1
    ensures DumpsFields(fields) + "}" + rest
      == Quote(fields[0].0) + (": " + (Dumps(fields[0].1) + (", " + (DumpsFields(fields[1..]) + "}" + rest))))
  {
    var q, d, e := Quote(fields[0].0), Dumps(fields[0].1), DumpsFields(fields[1..]);
    assert DumpsFields(fields) == q + ": " + d + ", " + e;
    AppendAssoc(q + ": " + d + ", " + e, "}", rest);
    AppendAssoc(q + ": " + d + ", ", e, "}" + rest);
    AppendAssoc(e, "}", rest);
    AppendAssoc(q + ": " + d, ", ", e + "}" + rest);
    AppendAssoc(q + ": ", d, ", " + (e + "}" + rest));
    AppendAssoc(q, ": ", d + (", " + (e + "}" + rest)));
  }

  lemma {:induction false} FieldsSingle(key: string, val: Json, rest: string)
    requires ValidJson(val)
    ensures ParseMembers(DumpsFields([(key, val)]) + "}" + rest) == Some(([(key, val)], rest))
    decreases val, 3
  {
    var x := DumpsFields([(key, val)]) + "}" + rest;
    var y := Dumps(val) + ("}" + rest);
    DumpsFieldsOne(key, val, rest);
    KeyStep(key, ": " + y);
    ValueRoundTrip(val, "}" + rest);
    MembersLast(x, key, y, val, rest);
  }

  lemma {:induction false} FieldsRoundTrip(fields: seq<(string, Json)>, rest: string)
    requires fields != []
    requires forall i :: 0 <= i < |fields| ==> ValidJson(fields[i].1)
    ensures ParseMembers(DumpsFields(fields) + "}" + rest) == Some((fields, rest))
    decreases fields, 1
  {
    if |fields| == 1 {
      var key, val := fields[0].0, fields[0].1;
      assert fields[0] in fields && val < fields[0];
      FieldsSingle(key, val, rest);
      assert fields == [(key, val)];
    } else {
      FieldsRoundTrip(fields[1..], rest);
      FieldsCons(fields, rest);
    }
  }

  /** Reading the first of several members, given that the others read
      back. */
  lemma {:induction false} FieldsCons(fields: seq<(string, Json)>, rest: string)
    requires |fields| > 1
    requires forall i :: 0 <= i < |fields| ==> ValidJson(fields[i].1)
    requires ParseMembers(DumpsFields(fields[1..]) + "}" + rest) == Some((fields[1..], rest))
    ensures ParseMembers(DumpsFields(fields) + "}" + rest) == Some((fields, rest))
    decreases fields, 0
  {
    var key, val := fields[0].0, fields[0].1;
    assert fields[0] in fields && val < fields[0];
    var t := DumpsFields(fields[1..]) + "}" + rest;
    DumpsFieldsMore(fields, rest);
    DumpsFieldsStart(fields[1..]);
    MemberThenMore(key, val, t, fields[1..], rest);
    assert [(key, val)] + fields[1..] == fields;
  }

  /** A key, a value, a separator and text that reads back as further
      members. */
  lemma {:induction false} MemberThenMore(key: string, val: Json, t: string,
                                          ms: seq<(string, Json)>, rest: string)
    requires ValidJson(val)
    requires t != [] && !IsWs(t[0])
    requires ParseMembers(t) == Some((ms, rest))
    ensures ParseMembers(Quote(key) + (": " + (Dumps(val) + (", " + t)))) == Some(([(key, val)] + ms, rest))
    decreases val, 3
  {
    var y := Dumps(val) + (", " + t);
    KeyStep(key, ": " + y);
    ValueRoundTrip(val, ", " + t);
    MembersNext(Quote(key) + (": " + y), key, y, val, t, ms, rest);
  }

  // ------------------------------------------------------ decoded values

  /** Every value of a dict is valid. */
  ghost predicate ValidValues(fields: seq<(string, Json)>) {
    forall i :: 0 <= i < |fields| ==> ValidJson(fields[i].1)
  }

  /** Every pair `d[k] = v` leaves behind is `(k, v)` or was already there. */
  lemma {:induction false} PutPairs(fields: seq<(string, Json)>, k: string, v: Json)
    ensures forall i :: 0 <= i < |Put(fields, k, v)| ==>
              Put(fields, k, v)[i] == (k, v) || Put(fields, k, v)[i] in fields
  {
    if fields != [] && fields[0].0 != k {
      PutPairs(fields[1..], k, v);
      var r := Put(fields, k, v);
      forall i | 0 <= i < |r|
        ensures r[i] == (k, v) || r[i] in fields
      {
        if i > 0 {
          assert r[i] == Put(fields[1..], k, v)[i - 1];
        }
      }
    }
  }

  lemma {:induction false} DictFromPairsValid(acc: seq<(string, Json)>, pairs: seq<(string, Json)>)
    requires DistinctKeys(acc) && ValidValues(acc) && ValidValues(pairs)
    ensures DistinctKeys(DictFromPairs(acc, pairs)) && ValidValues(DictFromPairs(acc, pairs))
    decreases |pairs|
  {
    if pairs != [] {
      var acc' := Put(acc, pairs[0].0, pairs[0].1);
      PutPairs(acc, pairs[0].0, pairs[0].1);
      forall i | 0 <= i < |acc'|
        ensures ValidJson(acc'[i].1)
      {
        if acc'[i] != (pairs[0].0, pairs[0].1) {
          var j :| 0 <= j < |acc| && acc[j] == acc'[i];
        }
      }
      assert ValidValues(pairs[1..]) by {
        forall i | 0 <= i < |pairs[1..]|
          ensures ValidJson(pairs[1..][i].1)
        {
          assert pairs[1..][i] == pairs[i + 1];
        }
      }
      DictFromPairsValid(acc', pairs[1..]);
    }
  }

  /** `json.loads` builds dicts without repeated keys, at any depth. */
  lemma {:induction false} ParseValueValid(s: string)
    ensures ParseValue(s).Some? ==> ValidJson(ParseValue(s).value.0)
    decreases |s|, 0
  {
    if s != [] && s[0] == '[' {
      var t := SkipWs(s[1..]);
      if !(t != [] && t[0] == ']') {
        ParseElementsValid(t);
      }
    } else if s != [] && s[0] == '{' {
      var t := SkipWs(s[1..]);
      if !(t != [] && t[0] == '}') {
        ParseMembersValid(t);
        if ParseMembers(t).Some? {
          DictFromPairsValid([], ParseMembers(t).value.0);
        }
      }
    }
  }

  lemma {:induction false} ParseElementsValid(s: string)
    ensures ParseElements(s).Some? ==>
              forall i :: 0 <= i < |ParseElements(s).value.0| ==> ValidJson(ParseElements(s).value.0[i])
    decreases |s|, 1
  {
    ParseValueValid(s);
    match ParseValue(s)
    case None =>
    case Some((v, t)) =>
      var u := SkipWs(t);
      if !(u != [] && u[0] == ']') && u != [] && u[0] == ',' {
        ParseElementsValid(SkipWs(u[1..]));
      }
  }

  lemma {:induction false} ParseMembersValid(s: string)
    ensures ParseMembers(s).Some? ==> ValidValues(ParseMembers(s).value.0)
    decreases |s|, 1
  {
    if s != [] && s[0] == '"' {
      match ParseStringBody(s[1..])
      case None =>
      case Some((key, t)) =>
        var u := SkipWs(t);
        if u != [] && u[0] == ':' {
          ParseValueValid(SkipWs(u[1..]));
          match ParseValue(SkipWs(u[1..]))
          case None =>
          case Some((v, w)) =>
            var x := SkipWs(w);
            if !(x != [] && x[0] == '}') && x != [] && x[0] == ',' {
              ParseMembersValid(SkipWs(x[1..]));
            }
        }
    }
  }

  /** Whatever `json.loads` returns is a valid value. */
  lemma {:induction false} LoadsValid(s: string)
    ensures Loads(s).Ok? ==> ValidJson(Loads(s).value)
  {
    ParseValueValid(SkipWs(s));
  }

  /** `json.loads(json.dumps(v)) == v`. */
  lemma {:induction false} LoadsDumps(v: Json)
    requires ValidJson(v)
    ensures Loads(Dumps(v)) == Ok(v)
  {
    SkipWsNonWs(Dumps(v));
    ValueRoundTrip(v, []);
    assert Dumps(v) + [] == Dumps(v);
  }

  /** Distinct values have distinct texts; an index bucket key therefore
      identifies the value it was computed from. */
  lemma {:induction false} DumpsInjective(a: Json, b: Json)
    requires ValidJson(a) && ValidJson(b)
    requires Dumps(a) == Dumps(b)
    ensures a == b
  {
    LoadsDumps(a);
    LoadsDumps(b);
  }
}
