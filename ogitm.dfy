/** The model layer of the object mapper (ogitm/ogitm.py).

    The metaclass `MetaModel` records, for every class it creates, the
    attributes of the class body that are fields.  `Model.__init__` accepts
    only keyword arguments naming those fields, checks every field — an
    omitted one as None — and sets each field's value on the instance. */
module OGitM {
  import opened Base
  import opened Json
  import opened Fields

  /** A value in a class body: a field, or any other attribute. */
  datatype ClassAttr = FieldAttr(field: Field) | PlainAttr(value: PyObject)

  /** The names of a dict given as its items. */
  function Names<T>(items: seq<(string, T)>): set<string> {
    set i | 0 <= i < |items| :: items[i].0
  }

  /** A dict never holds a key twice. */
  ghost predicate DistinctNames<T>(items: seq<(string, T)>) {
    forall i, j :: 0 <= i < j < |items| ==> items[i].0 != items[j].0
  }

  /** A class object the metaclass created: its name and its body. */
  class ModelClass {
    const name: string
    const namespace: seq<(string, ClassAttr)>

    constructor(name: string, namespace: seq<(string, ClassAttr)>)
      ensures this.name == name && this.namespace == namespace
    {
      this.name := name;
      this.namespace := namespace;
    }
  }

  /** The `attrs` dict `MetaModel.__new__` collects: the fields of the class
      body, in body order. */
  function FieldAttrs(dct: seq<(string, ClassAttr)>): seq<(string, Field)> {
    if dct == [] then []
    else
      var last := dct[|dct| - 1];
      FieldAttrs(dct[..|dct| - 1]) + (if last.1.FieldAttr? then [(last.0, last.1.field)] else [])
  }

  /** The positions in the body of its field attributes, in order. */
  function FieldPositions(dct: seq<(string, ClassAttr)>): seq<nat> {
    if dct == [] then []
    else FieldPositions(dct[..|dct| - 1]) + (if dct[|dct| - 1].1.FieldAttr? then [|dct| - 1] else [])
  }

  /** The recorded fields are exactly the field attributes of the body, in
      body order, each under its own name; plain attributes are not
      recorded. */
  lemma {:induction false} FieldAttrsExact(dct: seq<(string, ClassAttr)>)
    ensures var r, p := FieldAttrs(dct), FieldPositions(dct);
      && |p| == |r|
      && (forall j :: 0 <= j < |p| ==>
            p[j] < |dct| && dct[p[j]].1.FieldAttr? && r[j] == (dct[p[j]].0, dct[p[j]].1.field))
      && (forall j, k :: 0 <= j < k < |p| ==> p[j] < p[k])
      && (forall i :: 0 <= i < |dct| && dct[i].1.FieldAttr? ==> i in p)
  {
    if dct != [] {
      var init := dct[..|dct| - 1];
      FieldAttrsExact(init);
      var r, p := FieldAttrs(dct), FieldPositions(dct);
      var r0, p0 := FieldAttrs(init), FieldPositions(init);
      assert forall j :: 0 <= j < |p0| ==> p[j] == p0[j] && r[j] == r0[j] && dct[p0[j]] == init[p0[j]];
      assert forall i :: 0 <= i < |init| ==> dct[i] == init[i];
    }
  }

  /** The metaclass, holding the class-level `type_attributes` dict. */
  class MetaModel {
    var typeAttributes: map<ModelClass, seq<(string, Field)>>

    constructor()
      ensures typeAttributes == map[]
      ensures forall c :: GetAttributes(c) == Err(KeyError)
    {
      typeAttributes := map[];
    }

    /** `MetaModel.__new__`: creates the class and records its fields. */
    method New(name: string, dct: seq<(string, ClassAttr)>) returns (typ: ModelClass)
      requires DistinctNames(dct)
      modifies this
      ensures fresh(typ) && typ.name == name && typ.namespace == dct
      ensures typeAttributes == old(typeAttributes)[typ := FieldAttrs(dct)]
      ensures GetAttributes(typ) == Ok(FieldAttrs(dct))
      ensures forall c :: c != typ ==>
                GetAttributes(c) == if c in old(typeAttributes) then Ok(old(typeAttributes)[c]) else Err(KeyError)
    {
      var attrs: seq<(string, Field)> := [];
      var i := 0;
      while i < |dct|
        invariant 0 <= i <= |dct|
        invariant attrs == FieldAttrs(dct[..i])
      {
        var (key, val) := dct[i];
        assert dct[..i + 1][..i] == dct[..i];
        if val.FieldAttr? {
          attrs := attrs + [(key, val.field)];
        }
        i := i + 1;
      }
      assert dct[..i] == dct;
      typ := new ModelClass(name, dct);
      typeAttributes := typeAttributes[typ := attrs];
    }

    /** `MetaModel.get_attributes`: the fields recorded for the class, or
        KeyError for a class the metaclass did not create. */
    function GetAttributes(typ: ModelClass): (r: Result<seq<(string, Field)>>)
      reads this
      ensures r.Ok? <==> typ in typeAttributes
      ensures r.Ok? ==> r.value == typeAttributes[typ]
      ensures r.Err? ==> r.error == KeyError
    {
      if typ in typeAttributes then Ok(typeAttributes[typ]) else Err(KeyError)
    }
  }

  /** `to_set.get(key, None)`. */
  function GetOrNone(m: map<string, Json>, key: string): Json {
    if key in m then m[key] else JNull
  }

  /** The dict `to_set` that the first loop of `Model.__init__` fills from
      the keyword arguments. */
  function ToSet(kwargs: seq<(string, Json)>): map<string, Json> {
    if kwargs == [] then map[]
    else ToSet(kwargs[..|kwargs| - 1])[kwargs[|kwargs| - 1].0 := kwargs[|kwargs| - 1].1]
  }

  /** `to_set` holds every keyword argument under its own name. */
  lemma {:induction false} ToSetSpec(kwargs: seq<(string, Json)>)
    requires DistinctNames(kwargs)
    ensures ToSet(kwargs).Keys == Names(kwargs)
    ensures forall i :: 0 <= i < |kwargs| ==> ToSet(kwargs)[kwargs[i].0] == kwargs[i].1
  {
    if kwargs != [] {
      var init := kwargs[..|kwargs| - 1];
      ToSetSpec(init);
      assert Names(kwargs) == Names(init) + {kwargs[|kwargs| - 1].0} by {
        forall k | k in Names(kwargs) ensures k in Names(init) + {kwargs[|kwargs| - 1].0} {
          var i :| 0 <= i < |kwargs| && kwargs[i].0 == k;
          if i < |init| { assert init[i] == kwargs[i]; }
        }
        forall k | k in Names(init) ensures k in Names(kwargs) {
          var i :| 0 <= i < |init| && init[i].0 == k;
          assert kwargs[i] == init[i];
        }
      }
      forall i | 0 <= i < |kwargs| ensures ToSet(kwargs)[kwargs[i].0] == kwargs[i].1 {
        if i < |init| {
          assert init[i] == kwargs[i];
        }
      }
    }
  }

  /** The second loop of `Model.__init__` as a verdict: each field in turn is
      checked against its value in `to_set` (None when omitted); an exception
      from a check propagates, a failed check raises ValueError. */
  function CheckAll(attrs: seq<(string, Field)>, toSet: map<string, Json>, engine: SearchEngine): Outcome {
    if attrs == [] then Pass
    else
      match Check(attrs[0].1, GetOrNone(toSet, attrs[0].0), engine)
      case Err(e) => Fail(e)
      case Ok(ok) => if ok then CheckAll(attrs[1..], toSet, engine) else Fail(ValueError)
  }

  /** The checks pass exactly when every field accepts its value. */
  lemma {:induction false} CheckAllPass(attrs: seq<(string, Field)>, toSet: map<string, Json>, engine: SearchEngine)
    ensures CheckAll(attrs, toSet, engine) == Pass <==>
              forall i :: 0 <= i < |attrs| ==> Check(attrs[i].1, GetOrNone(toSet, attrs[i].0), engine) == Ok(true)
    ensures CheckAll(attrs, toSet, engine).Fail? ==>
              CheckAll(attrs, toSet, engine).error == ValueError
              || exists i :: 0 <= i < |attrs| && Check(attrs[i].1, GetOrNone(toSet, attrs[i].0), engine).Err?
  {
    if attrs != [] {
      CheckAllPass(attrs[1..], toSet, engine);
      forall i | 0 < i < |attrs| ensures attrs[1..][i - 1] == attrs[i] { }
      if CheckAll(attrs, toSet, engine).Fail? && CheckAll(attrs, toSet, engine).error != ValueError
         && Check(attrs[0].1, GetOrNone(toSet, attrs[0].0), engine).Ok? {
        var i :| 0 <= i < |attrs[1..]| && Check(attrs[1..][i].1, GetOrNone(toSet, attrs[1..][i].0), engine).Err?;
        assert attrs[1..][i] == attrs[i + 1];
      }
    }
  }

  /** Once a prefix of the fields has passed, the verdict is that of the
      rest. */
  lemma {:induction false} CheckAllAppend(a: seq<(string, Field)>, b: seq<(string, Field)>,
                                          toSet: map<string, Json>, engine: SearchEngine)
    requires CheckAll(a, toSet, engine) == Pass
    ensures CheckAll(a + b, toSet, engine) == CheckAll(b, toSet, engine)
  {
    if a != [] {
      assert Check(a[0].1, GetOrNone(toSet, a[0].0), engine) == Ok(true);
      assert (a + b)[0] == a[0];
      assert (a + b)[1..] == a[1..] + b;
      CheckAllAppend(a[1..], b, toSet, engine);
    } else {
      assert a + b == b;
    }
  }

  /** The attributes the second loop sets: every field name, with its value
      from `to_set` or None. */
  function Assigned(attrs: seq<(string, Field)>, toSet: map<string, Json>): map<string, Json> {
    if attrs == [] then map[]
    else
      var key := attrs[|attrs| - 1].0;
      Assigned(attrs[..|attrs| - 1], toSet)[key := GetOrNone(toSet, key)]
  }

  /** Setting one more field, on top of what was there before `__init__`. */
  lemma {:induction false} AssignedStep(attrs: seq<(string, Field)>, j: nat, toSet: map<string, Json>,
                                        before: map<string, Json>)
    requires j < |attrs|
    ensures before + Assigned(attrs[..j + 1], toSet)
         == (before + Assigned(attrs[..j], toSet))[attrs[j].0 := GetOrNone(toSet, attrs[j].0)]
  {
    assert attrs[..j + 1][..j] == attrs[..j];
  }

  /** Every field and nothing else is set, to the supplied value or None. */
  lemma {:induction false} AssignedSpec(attrs: seq<(string, Field)>, toSet: map<string, Json>)
    ensures Assigned(attrs, toSet).Keys == Names(attrs)
    ensures forall k :: k in Names(attrs) ==> Assigned(attrs, toSet)[k] == GetOrNone(toSet, k)
  {
    if attrs != [] {
      var init := attrs[..|attrs| - 1];
      AssignedSpec(init, toSet);
      forall k | k in Names(attrs) ensures k in Names(init) + {attrs[|attrs| - 1].0} {
        var i :| 0 <= i < |attrs| && attrs[i].0 == k;
        if i < |init| { assert init[i] == attrs[i]; }
      }
      forall k | k in Names(init) ensures k in Names(attrs) {
        var i :| 0 <= i < |init| && init[i].0 == k;
        assert attrs[i] == init[i];
      }
    }
  }

  /** The outcome of `Model.__init__` for the fields the metaclass recorded
      (or the KeyError of looking them up) and the keyword arguments: a
      ValueError for any keyword that names no field, else the checks. */
  function InitOutcome(attrs: Result<seq<(string, Field)>>, kwargs: seq<(string, Json)>,
                       engine: SearchEngine): (o: Outcome)
    ensures attrs.Err? ==> o == Fail(attrs.error)
    ensures o == Pass ==> attrs.Ok? && forall i :: 0 <= i < |kwargs| ==> kwargs[i].0 in Names(attrs.value)
  {
    match attrs
    case Err(e) => Fail(e)
    case Ok(a) =>
      if exists i :: 0 <= i < |kwargs| && kwargs[i].0 !in Names(a) then Fail(ValueError)
      else CheckAll(a, ToSet(kwargs), engine)
  }

  /** An instance of a model class, with the attributes set on it. */
  class Model {
    const typ: ModelClass
    var attributes: map<string, Json>

    constructor(typ: ModelClass)
      ensures this.typ == typ && attributes == map[]
    {
      this.typ := typ;
      attributes := map[];
    }

    /** `Model.__init__(**kwargs)`. */
    method Init(meta: MetaModel, kwargs: seq<(string, Json)>, engine: SearchEngine) returns (o: Outcome)
      modifies this
      ensures o == InitOutcome(meta.GetAttributes(typ), kwargs, engine)
      ensures o.Pass? ==> attributes == old(attributes) + Assigned(meta.typeAttributes[typ], ToSet(kwargs))
    {
      var found := meta.GetAttributes(typ);
      if found.Err? {
        return Fail(found.error);
      }
      var attrs := found.value;
      var names := Names(attrs);
      var toSet: map<string, Json> := map[];
      var i := 0;
      while i < |kwargs|
        invariant 0 <= i <= |kwargs|
        invariant forall j :: 0 <= j < i ==> kwargs[j].0 in names
        invariant toSet == ToSet(kwargs[..i])
      {
        var (key, val) := kwargs[i];
        if key !in names {
          return Fail(ValueError);
        }
        assert kwargs[..i + 1][..i] == kwargs[..i];
        toSet := toSet[key := val];
        i := i + 1;
      }
      assert kwargs[..i] == kwargs;
      var j := 0;
      while j < |attrs|
        invariant 0 <= j <= |attrs|
        invariant CheckAll(attrs[..j], toSet, engine) == Pass
        invariant attributes == old(attributes) + Assigned(attrs[..j], toSet)
      {
        var (key, field) := attrs[j];
        var val := GetOrNone(toSet, key);
        var ok := Check(field, val, engine);
        CheckAllStep(attrs, j, toSet, engine);
        if ok.Err? {
          return Fail(ok.error);
        }
        if !ok.value {
          return Fail(ValueError);
        }
        AssignedStep(attrs, j, toSet, old(attributes));
        attributes := attributes[key := val];
        j := j + 1;
      }
      assert attrs[..j] == attrs;
      o := Pass;
    }
  }

  /** Where the second loop of `__init__` stands after `j` fields passed. */
  lemma {:induction false} CheckAllStep(attrs: seq<(string, Field)>, j: nat,
                                        toSet: map<string, Json>, engine: SearchEngine)
    requires j < |attrs| && CheckAll(attrs[..j], toSet, engine) == Pass
    ensures var c := Check(attrs[j].1, GetOrNone(toSet, attrs[j].0), engine);
      && (c.Err? ==> CheckAll(attrs, toSet, engine) == Fail(c.error))
      && (c == Ok(false) ==> CheckAll(attrs, toSet, engine) == Fail(ValueError))
      && (c == Ok(true) ==> CheckAll(attrs[..j + 1], toSet, engine) == Pass)
  {
    assert attrs == attrs[..j] + attrs[j..];
    CheckAllAppend(attrs[..j], attrs[j..], toSet, engine);
    assert attrs[..j + 1] == attrs[..j] + [attrs[j]];
    CheckAllAppend(attrs[..j], [attrs[j]], toSet, engine);
    assert [attrs[j]][1..] == [];
  }

  /** `Model(**kwargs)` succeeds exactly when every keyword names a field and
      every field accepts its value (None when omitted). */
  lemma {:induction false} InitPass(attrs: seq<(string, Field)>, kwargs: seq<(string, Json)>, engine: SearchEngine)
    ensures InitOutcome(Ok(attrs), kwargs, engine) == Pass <==>
              (forall i :: 0 <= i < |kwargs| ==> kwargs[i].0 in Names(attrs))
              && (forall i :: 0 <= i < |attrs| ==>
                    Check(attrs[i].1, GetOrNone(ToSet(kwargs), attrs[i].0), engine) == Ok(true))
  {
    CheckAllPass(attrs, ToSet(kwargs), engine);
  }

  /** An omitted field that refuses None — a non-nullable field that leaves
      None alone when coercing — makes `Model(**kwargs)` fail. */
  lemma {:induction false} MissingRequiredFails(attrs: seq<(string, Field)>, kwargs: seq<(string, Json)>,
                                                engine: SearchEngine, i: nat)
    requires DistinctNames(kwargs)
    requires i < |attrs| && attrs[i].0 !in Names(kwargs)
    requires !attrs[i].1.nullable && Coerce(attrs[i].1, JNull) == Ok(JNull)
    ensures InitOutcome(Ok(attrs), kwargs, engine) != Pass
  {
    ToSetSpec(kwargs);
    var f := attrs[i].1;
    assert GetOrNone(ToSet(kwargs), attrs[i].0) == JNull;
    if f.StringField? {
      StringNone(f, engine);
    }
    assert Check(f, JNull, engine) == Ok(false);
    InitPass(attrs, kwargs, engine);
  }
}
