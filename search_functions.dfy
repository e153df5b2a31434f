/** The search-operator registry and its one operator, `exists`.

    `exists` takes the query dict of a clause (`{"exists": flag}`), the
    decoded index of the field (JSON text of a value to the list of ids
    holding it) and the set of all document ids.  With a true flag it answers
    every id that appears in some bucket of the index, with a false flag every
    other id of the table. */
module SearchFunctions {
  import opened Base
  import opened Json

  /** The operators the registry can hold. */
  datatype SearchOp = Exists

  /** `SearchFunction`: a name-to-operator dictionary shared by the whole
      program (a class attribute in the source). */
  class SearchFunction {
    var funcs: map<string, SearchOp>

    /** The registry as it stands once the module is loaded: `exists` is the
        only operator. */
    constructor ()
      ensures funcs == map["exists" := Exists]
      ensures Get("exists") == Ok(Exists)
      ensures forall name :: name != "exists" ==> Get(name) == Err(KeyError)
    {
      funcs := map["exists" := Exists];
    }

    /** `get(name)`: the registered operator, or KeyError. */
    function Get(name: string): (r: Result<SearchOp>)
      reads this
      ensures r.Ok? <==> name in funcs
      ensures r.Ok? ==> r.value == funcs[name]
      ensures r.Err? ==> r.error == KeyError
    {
      if name in funcs then Ok(funcs[name]) else Err(KeyError)
    }

    /** `add(name)(f)`: registers `f`, replacing any earlier entry of that
        name. */
    method Add(name: string, f: SearchOp)
      modifies this
      ensures funcs == old(funcs)[name := f]
      ensures Get(name) == Ok(f)
      ensures forall n :: n != name ==> Get(n) == old(Get(n))
    {
      funcs := funcs[name := f];
    }
  }

  // ------------------------------------------------------------------ exists

  /** What `list.extend(value)` takes from one bucket: the items of a list,
      the keys of a dict, the characters of a string; anything else is not
      iterable. */
  function BucketItems(bucket: Json): (r: Result<seq<Json>>)
    ensures r.Err? <==> !(bucket.JArray? || bucket.JObject? || bucket.JString?)
    ensures r.Err? ==> r.error == TypeError
    ensures bucket.JArray? ==> r == Ok(bucket.items)
  {
    match bucket
    case JArray(items) => Ok(items)
    case JObject(fields) => Ok(seq(|fields|, i requires 0 <= i < |fields| => JString(fields[i].0)))
    case JString(s) => Ok(seq(|s|, i requires 0 <= i < |s| => JString([s[i]])))
    case _ => Err(TypeError)
  }

  /** A value `set()` can hold: lists and dicts are unhashable. */
  predicate Hashable(v: Json) {
    !v.JArray? && !v.JObject?
  }

  /** The items gathered from the first buckets, or the error of the first
      bucket that is not iterable. */
  function Collect(buckets: seq<(string, Json)>): (r: Result<seq<Json>>)
  {
    if buckets == [] then Ok([])
    else
      match Collect(buckets[..|buckets| - 1])
      case Err(e) => Err(e)
      case Ok(acc) =>
        match BucketItems(buckets[|buckets| - 1].1)
        case Err(e) => Err(e)
        case Ok(items) => Ok(acc + items)
  }

  /** The result `exists(key, term, index, al)` is meant to return. */
  function ExistsSpec(term: seq<(string, Json)>, index: Json, universe: set<int>): (r: Result<set<Json>>)
    ensures !index.JObject? ==> r == Err(AttributeError)
    ensures r.Ok? ==> index.JObject? && Collect(index.fields).Ok? && Lookup(term, "exists").Some?
    ensures r.Ok? ==> forall v :: v in r.value ==> Hashable(v)
    ensures r.Ok? && !Truthy(Lookup(term, "exists").value) ==> forall v :: v in r.value ==> v.JInt? && v.i in universe
  {
    if !index.JObject? then Err(AttributeError)
    else
      match Collect(index.fields)
      case Err(e) => Err(e)
      case Ok(resp) =>
        match Lookup(term, "exists")
        case None => Err(KeyError)
        case Some(flag) =>
          if exists j :: 0 <= j < |resp| && !Hashable(resp[j]) then Err(TypeError)
          else if Truthy(flag) then Ok(set v | v in resp)
          else Ok(set i | i in universe && JInt(i) !in resp :: JInt(i))
  }

  /** `exists`: gathers every bucket of the index into one list, then answers
      that list as a set (true flag) or the universe without it (false
      flag). */
  method ExistsOp(term: seq<(string, Json)>, index: Json, universe: set<int>) returns (r: Result<set<Json>>)
    ensures r == ExistsSpec(term, index, universe)
  {
    if !index.JObject? {
      return Err(AttributeError);
    }
    var buckets := index.fields;
    var resp: seq<Json> := [];
    var i := 0;
    while i < |buckets|
      invariant 0 <= i <= |buckets|
      invariant Collect(buckets[..i]) == Ok(resp)
    {
      assert buckets[..i + 1][..i] == buckets[..i];
      match BucketItems(buckets[i].1)
      case Err(e) =>
        CollectStopsAtError(buckets, i + 1);
        return Err(e);
      case Ok(items) =>
        resp := resp + items;
      i := i + 1;
    }
    assert buckets[..i] == buckets;
    var flag := Lookup(term, "exists");
    if flag.None? {
      return Err(KeyError);
    }
    var j := 0;
    while j < |resp|
      invariant 0 <= j <= |resp|
      invariant forall j' :: 0 <= j' < j ==> Hashable(resp[j'])
    {
      if !Hashable(resp[j]) {
        return Err(TypeError);
      }
      j := j + 1;
    }
    if Truthy(flag.value) {
      r := Ok(set v | v in resp);
    } else {
      r := Ok(set i | i in universe && JInt(i) !in resp :: JInt(i));
    }
  }

  /** Once a bucket is not iterable, later buckets are never looked at. */
  lemma {:induction false} CollectStopsAtError(buckets: seq<(string, Json)>, k: nat)
    requires k <= |buckets| && Collect(buckets[..k]).Err?
    ensures Collect(buckets) == Collect(buckets[..k])
    decreases |buckets| - k
  {
    if k < |buckets| {
      assert buckets[..k + 1][..k] == buckets[..k];
      CollectStopsAtError(buckets, k + 1);
    } else {
      assert buckets[..k] == buckets;
    }
  }

  /** The gathered list holds exactly the items of the buckets. */
  lemma {:induction false} CollectUnion(buckets: seq<(string, Json)>)
    requires Collect(buckets).Ok?
    ensures forall j :: 0 <= j < |buckets| ==> BucketItems(buckets[j].1).Ok?
    ensures forall v :: v in Collect(buckets).value <==>
              exists j :: 0 <= j < |buckets| && v in BucketItems(buckets[j].1).value
  {
    if buckets != [] {
      var init := buckets[..|buckets| - 1];
      CollectUnion(init);
      var last := |buckets| - 1;
      forall v | v in Collect(buckets).value
        ensures exists j :: 0 <= j < |buckets| && v in BucketItems(buckets[j].1).value
      {
        if v in Collect(init).value {
          var j :| 0 <= j < |init| && v in BucketItems(init[j].1).value;
          assert buckets[j] == init[j];
        } else {
          assert v in BucketItems(buckets[last].1).value;
        }
      }
      forall v, j | 0 <= j < |buckets| && v in BucketItems(buckets[j].1).value
        ensures v in Collect(buckets).value
      {
        if j < last {
          assert buckets[j] == init[j];
        }
      }
    }
  }

  /** With a true flag, `exists` answers the union of every bucket of the
      index. */
  lemma {:induction false} ExistsTrueIsUnion(term: seq<(string, Json)>, buckets: seq<(string, Json)>, universe: set<int>)
    requires Lookup(term, "exists").Some? && Truthy(Lookup(term, "exists").value)
    requires ExistsSpec(term, JObject(buckets), universe).Ok?
    ensures forall v :: v in ExistsSpec(term, JObject(buckets), universe).value <==>
              exists j :: 0 <= j < |buckets| && BucketItems(buckets[j].1).Ok?
                          && v in BucketItems(buckets[j].1).value
  {
    CollectUnion(buckets);
  }

  /** With a false flag, `exists` answers ids of the universe that are in no
      bucket: a subset of the universe, disjoint from the true answer, and
      together with it covering the universe. */
  lemma {:induction false} ExistsFalseIsComplement(yes: seq<(string, Json)>, no: seq<(string, Json)>,
                                index: Json, universe: set<int>)
    requires Lookup(yes, "exists").Some? && Truthy(Lookup(yes, "exists").value)
    requires Lookup(no, "exists").Some? && !Truthy(Lookup(no, "exists").value)
    requires ExistsSpec(no, index, universe).Ok?
    ensures ExistsSpec(yes, index, universe).Ok?
    ensures forall v :: v in ExistsSpec(no, index, universe).value ==> v.JInt? && v.i in universe
    ensures ExistsSpec(yes, index, universe).value * ExistsSpec(no, index, universe).value == {}
    ensures forall i :: i in universe ==>
              JInt(i) in ExistsSpec(yes, index, universe).value + ExistsSpec(no, index, universe).value
  {
  }
}
