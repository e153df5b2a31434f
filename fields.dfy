/** Field validators of the object mapper (ogitm/fields.py).

    A field is configured once, from the keyword arguments of its constructor,
    and afterwards only answers `check(val)`: coerce the value, test its type
    (letting `None` through when the field is nullable), then the field's own
    test — a regular expression search for `String`, inclusive bounds for
    `Integer`.  Python values are JSON values here (`JNull` is `None`);
    callables and objects with a `search` method are the two other kinds of
    object a field's configuration may hold. */
module Fields {
  import opened Base
  import opened Json

  /** A Python object passed to a field constructor: plain data, a callable
      (which may raise), or an object with a `search(s)` method, whose result
      is given here as "is not None". */
  datatype PyObject =
    | Data(value: Json)
    | Function(call: Json -> Result<Json>)
    | Searchable(search: string -> bool)

  /** The regular expression engine: `re.compile(pattern).search(s) is not
      None`. */
  type SearchEngine = (string, string) -> bool

  /** What `String` keeps in `self.regex`: the always-successful matcher when
      no regex is given, a compiled pattern for a str, otherwise the object
      itself. */
  datatype Matcher = AlwaysMatch | Compiled(pattern: string) | Given(obj: PyObject)

  datatype Field =
    | StringField(nullable: bool, coerce: PyObject, regex: Matcher)
    | IntegerField(nullable: bool, coerce: PyObject, min: PyObject, max: PyObject)

  /** The default `coerce`: `lambda x: x`. */
  const Identity: PyObject := Function(v => Ok(v))

  /** `o is None`. */
  predicate IsNone(o: PyObject) {
    o.Data? && o.value == JNull
  }

  /** Python truthiness; functions and other objects are true. */
  predicate PyTruthy(o: PyObject) {
    o.Data? ==> Truthy(o.value)
  }

  /** `kwargs.pop(key, default)`, value part. */
  function PopOr(kwargs: map<string, PyObject>, key: string, default: PyObject): PyObject {
    if key in kwargs then kwargs[key] else default
  }

  // ---------------------------------------------------------- construction

  /** The keyword arguments `BaseField.__init__` accepts. */
  const BaseKeys: set<string> := {"nullable", "coerce"}

  /** `BaseField.__init__`, on the keyword arguments the subclass has not
      popped: takes `nullable` (default True) and `coerce` (default
      identity); any keyword left over is a TypeError. */
  function NewBase(kwargs: map<string, PyObject>, popped: set<string>): (r: Result<(bool, PyObject)>)
    requires popped !! BaseKeys
    ensures r.Err? <==> !(kwargs.Keys <= BaseKeys + popped)
    ensures r.Err? ==> r.error == TypeError
    ensures r.Ok? ==> r.value.0 == ("nullable" !in kwargs || PyTruthy(kwargs["nullable"]))
    ensures r.Ok? && "coerce" !in kwargs ==> r.value.1.Function? && forall v :: r.value.1.call(v) == Ok(v)
  {
    var nullable := PopOr(kwargs, "nullable", Data(JBool(true)));
    var coerce := PopOr(kwargs, "coerce", Identity);
    if |kwargs.Keys - popped - BaseKeys| > 0 then Err(TypeError)
    else Ok((PyTruthy(nullable), coerce))
  }

  /** `String(**kwargs)`: pops `regex`, then the base keywords. */
  function NewString(kwargs: map<string, PyObject>): (r: Result<Field>)
    ensures r.Err? <==> !(kwargs.Keys <= BaseKeys + {"regex"})
    ensures r.Ok? ==> r.value.StringField?
    ensures r.Ok? ==> r.value.nullable == ("nullable" !in kwargs || PyTruthy(kwargs["nullable"]))
    ensures r.Ok? && "coerce" !in kwargs ==> forall v :: Coerce(r.value, v) == Ok(v)
    ensures r.Ok? ==> ("regex" !in kwargs || IsNone(kwargs["regex"]) <==> r.value.regex.AlwaysMatch?)
  {
    var regex := PopOr(kwargs, "regex", Data(JNull));
    var base :- NewBase(kwargs, {"regex"});
    var matcher :=
      if IsNone(regex) then AlwaysMatch
      else if regex.Data? && regex.value.JString? then Compiled(regex.value.s)
      else Given(regex);
    Ok(StringField(base.0, base.1, matcher))
  }

  /** `Integer(**kwargs)`: pops `min` and `max` (None when absent), then the
      base keywords. */
  function NewInteger(kwargs: map<string, PyObject>): (r: Result<Field>)
    ensures r.Err? <==> !(kwargs.Keys <= BaseKeys + {"min", "max"})
    ensures r.Ok? ==> r.value.IntegerField?
    ensures r.Ok? ==> r.value.nullable == ("nullable" !in kwargs || PyTruthy(kwargs["nullable"]))
    ensures r.Ok? && "coerce" !in kwargs ==> forall v :: Coerce(r.value, v) == Ok(v)
    ensures r.Ok? ==> (IsNone(r.value.min) <==> "min" !in kwargs || IsNone(kwargs["min"]))
    ensures r.Ok? ==> (IsNone(r.value.max) <==> "max" !in kwargs || IsNone(kwargs["max"]))
  {
    var lo := PopOr(kwargs, "min", Data(JNull));
    var hi := PopOr(kwargs, "max", Data(JNull));
    var base :- NewBase(kwargs, {"min", "max"});
    Ok(IntegerField(base.0, base.1, lo, hi))
  }

  // ---------------------------------------------------------------- checks

  /** Exceptions an `except ValueError` clause catches. */
  predicate CaughtAsValueError(e: Error) {
    e == ValueError || e == DecodeError
  }

  /** `BaseField.coerce`: the coerce function's result, or the value itself
      when that function raises ValueError; a coerce object that is not
      callable raises TypeError when called. */
  function Coerce(f: Field, v: Json): (r: Result<Json>)
    ensures !f.coerce.Function? ==> r == Err(TypeError)
    ensures r.Ok? ==> f.coerce.Function? && (f.coerce.call(v) == r || (r.value == v && f.coerce.call(v).Err?))
    ensures r.Err? <==>
              !f.coerce.Function? || (f.coerce.call(v).Err? && !CaughtAsValueError(f.coerce.call(v).error))
    ensures r.Err? && f.coerce.Function? ==> r == f.coerce.call(v)
    ensures r.Err? ==> !CaughtAsValueError(r.error)
  {
    match f.coerce
    case Function(call) =>
      (match call(v)
       case Ok(w) => Ok(w)
       case Err(e) => if e == ValueError || e == DecodeError then Ok(v) else Err(e))
    case _ => Err(TypeError)
  }

  /** The two types the fields test for: `str` and `int` (of which `bool`
      is a subclass). */
  datatype PyType = Str | Int

  predicate IsInstance(v: Json, t: PyType) {
    match t
    case Str => v.JString?
    case Int => v.JInt? || v.JBool?
  }

  /** `BaseField.type_check`: the value has the type, or is None on a
      nullable field. */
  function TypeCheck(nullable: bool, v: Json, t: PyType): (r: bool)
    ensures r <==> IsInstance(v, t) || (nullable && v == JNull)
  {
    if nullable || v != JNull then IsInstance(v, t) || v == JNull
    else IsInstance(v, t)
  }

  /** `self.regex.search(val) is not None`; an object without `search`
      raises AttributeError. */
  function Search(m: Matcher, s: string, engine: SearchEngine): (r: Result<bool>)
    ensures r.Err? <==> m.Given? && !m.obj.Searchable?
    ensures r.Err? ==> r.error == AttributeError
  {
    match m
    case AlwaysMatch => Ok(true)
    case Compiled(p) => Ok(engine(p, s))
    case Given(o) => if o.Searchable? then Ok(o.search(s)) else Err(AttributeError)
  }

  /** `String.check`. */
  function StringCheck(f: Field, v: Json, engine: SearchEngine): (r: Result<bool>)
    requires f.StringField?
    ensures var c := Coerce(f, v);
      r == Ok(true) <==>
        c.Ok? && ((c.value.JString? && Search(f.regex, c.value.s, engine) == Ok(true))
                  || (f.nullable && c.value == JNull))
    ensures r.Err? <==>
      Coerce(f, v).Err? || (Coerce(f, v).value.JString? && Search(f.regex, Coerce(f, v).value.s, engine).Err?)
  {
    var c :- Coerce(f, v);
    if !TypeCheck(f.nullable, c, Str) then Ok(false)
    else if c != JNull then Search(f.regex, c.s, engine)
    else Ok(true)
  }

  /** The number an int or bool stands for in a comparison. */
  function IntValue(v: Json): int
    requires v.JInt? || v.JBool?
  {
    if v.JInt? then v.i else if v.b then 1 else 0
  }

  /** A bound that an int can be compared with. */
  predicate IsNumber(o: PyObject) {
    o.Data? && (o.value.JInt? || o.value.JBool?)
  }

  /** `val < bound` for the values `Integer.check` compares: an int, or None
      on a nullable field; Python raises TypeError unless both are numbers. */
  function Less(val: Json, bound: PyObject): (r: Result<bool>)
    requires val.JInt? || val.JNull?
    ensures r.Ok? <==> val.JInt? && IsNumber(bound)
    ensures r.Err? ==> r.error == TypeError
  {
    if val.JInt? && IsNumber(bound) then Ok(val.i < IntValue(bound.value)) else Err(TypeError)
  }

  /** `val > bound`, on the same terms. */
  function Greater(val: Json, bound: PyObject): (r: Result<bool>)
    requires val.JInt? || val.JNull?
    ensures r.Ok? <==> val.JInt? && IsNumber(bound)
    ensures r.Err? ==> r.error == TypeError
  {
    if val.JInt? && IsNumber(bound) then Ok(val.i > IntValue(bound.value)) else Err(TypeError)
  }

  /** `min <= i <= max`, a missing bound being no bound. */
  predicate Within(i: int, min: PyObject, max: PyObject)
    requires IsNone(min) || IsNumber(min)
    requires IsNone(max) || IsNumber(max)
  {
    (IsNone(min) || IntValue(min.value) <= i) && (IsNone(max) || i <= IntValue(max.value))
  }

  /** `Integer.check`. */
  function IntegerCheck(f: Field, v: Json): (r: Result<bool>)
    requires f.IntegerField?
    ensures Coerce(f, v).Err? ==> r == Err(Coerce(f, v).error)
    ensures var c := Coerce(f, v);
      c.Ok? && !c.value.JInt? && !c.value.JNull? ==> r == Ok(false)
    ensures var c := Coerce(f, v);
      c == Ok(JNull) ==>
        r == if !f.nullable then Ok(false)
             else if IsNone(f.min) && IsNone(f.max) then Ok(true)
             else Err(TypeError)
    ensures var c := Coerce(f, v);
      c.Ok? && c.value.JInt? && (IsNone(f.min) || IsNumber(f.min)) && (IsNone(f.max) || IsNumber(f.max)) ==>
        r == Ok(Within(c.value.i, f.min, f.max))
    ensures var c := Coerce(f, v);
      c.Ok? && c.value.JInt? && !IsNone(f.min) && !IsNumber(f.min) ==> r == Err(TypeError)
  {
    var c :- Coerce(f, v);
    if !TypeCheck(f.nullable, c, Int) || c.JBool? then Ok(false)
    else
      var below :- if IsNone(f.min) then Ok(false) else Less(c, f.min);
      if below then Ok(false)
      else
        var above :- if IsNone(f.max) then Ok(false) else Greater(c, f.max);
        Ok(!above)
  }

  /** `field.check(val)`, dispatched on the field's class. */
  function Check(f: Field, v: Json, engine: SearchEngine): (r: Result<bool>)
    ensures Coerce(f, v).Err? ==> r == Err(Coerce(f, v).error)
    ensures r == Ok(true) ==>
              Coerce(f, v).Ok? && TypeCheck(f.nullable, Coerce(f, v).value, if f.StringField? then Str else Int)
    ensures f.IntegerField? && Coerce(f, v).Ok? && Coerce(f, v).value.JBool? ==> r == Ok(false)
  {
    match f
    case StringField(_, _, _) => StringCheck(f, v, engine)
    case IntegerField(_, _, _, _) => IntegerCheck(f, v)
  }

  // ------------------------------------------------------------ properties

  /** None passes a String field exactly when the field is nullable. */
  lemma {:induction false} StringNone(f: Field, engine: SearchEngine)
    requires f.StringField? && Coerce(f, JNull) == Ok(JNull)
    ensures StringCheck(f, JNull, engine) == Ok(f.nullable)
  {
  }

  /** A bool never passes an Integer field, although Python counts it as an
      int. */
  lemma {:induction false} IntegerRejectsBool(f: Field, v: Json, b: bool)
    requires f.IntegerField? && Coerce(f, v) == Ok(JBool(b))
    ensures IntegerCheck(f, v) == Ok(false)
  {
  }
}
