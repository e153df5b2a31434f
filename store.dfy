/** The layout of a table's data tree and the pure computations over it.

    A document with id `i` is stored under `doc-{i}` as its JSON text.  For
    every field `k` there is an index under `index-{k}`: a JSON object from
    the JSON text of a value to the list of ids of the documents holding that
    value.  `insert` and `update` rewrite one index per field, one field at a
    time; `find` reads the ids back out of the document names and intersects
    them with the ids the index buckets name. */
module Store {
  import opened Base
  import opened Numerals
  import opened Json
  import opened Git
  import opened SearchFunctions
  import opened SortedSets

  function DocKey(id: int): string {
    "doc-" + IntToString(id)
  }

  function IndexKey(field: string): string {
    "index-" + field
  }

  predicate IsDocKey(k: string) {
    |k| >= 4 && k[..4] == "doc-"
  }

  /** A document name never names an index. */
  lemma {:induction false} DocKeyNotIndexKey(id: int, field: string)
    ensures DocKey(id) != IndexKey(field) && IsDocKey(DocKey(id)) && !IsDocKey(IndexKey(field))
  {
    assert DocKey(id)[0] == 'd' && IndexKey(field)[0] == 'i';
    assert DocKey(id)[..4] == "doc-";
  }

  /** `DocKey` is one-to-one: distinct ids are stored under distinct names. */
  lemma {:induction false} DocKeyInjective(a: int, b: int)
    requires DocKey(a) == DocKey(b)
    ensures a == b
  {
    assert DocKey(a)[4..] == IntToString(a);
    assert DocKey(b)[4..] == IntToString(b);
    IntToStringInjective(a, b);
  }

  /** `json.loads(tree[key])`, or the default when the name is missing
      (`Mapping.get`). */
  function LoadOr(tree: Tree, key: string, default: Json): (r: Result<Json>)
    ensures key !in tree ==> r == Ok(default)
    ensures key in tree ==> r == Loads(tree[key])
  {
    if key in tree then Loads(tree[key]) else Ok(default)
  }

  /** What a value was stored as is read back: an entry holding the
      `json.dumps` text of a value loads as that value, whatever the
      default. */
  lemma {:induction false} LoadOrStored(tree: Tree, key: string, v: Json, default: Json)
    requires ValidJson(v) && key in tree && tree[key] == Dumps(v)
    ensures LoadOr(tree, key, default) == Ok(v)
  {
    LoadsDumps(v);
  }

  // ----------------------------------------------------------------- indexes

  /** How an index bucket is edited: `insert` appends the id, `update` pops
      the old entry with `list.pop(d_id)`. */
  datatype Edit = Append | PopAt

  /** The position `list.pop(i)` removes from a list of length `len`: a
      negative `i` counts from the end; anything else is IndexError. */
  function PopPosition(len: nat, i: int): (r: Option<nat>)
    ensures r.Some? <==> 0 - len <= i < len
    ensures r.Some? ==> r.value < len && (r.value == i || r.value == i + len)
  {
    var j := if i < 0 then i + len else i;
    if 0 <= j < len then Some(j) else None
  }

  /** `bucket.append(id)` or `bucket.pop(id)` on the decoded bucket. */
  function BucketEdit(bucket: Json, id: int, edit: Edit): (r: Result<Json>)
    ensures r.Ok? ==> r.value.JArray? && bucket.JArray?
    ensures edit == Append && bucket.JArray? ==> r == Ok(JArray(bucket.items + [JInt(id)]))
    ensures edit == Append && !bucket.JArray? ==> r == Err(AttributeError)
    ensures edit == PopAt && bucket.JArray? ==>
              r == match PopPosition(|bucket.items|, id)
                   case None => Err(IndexError)
                   case Some(j) => Ok(JArray(bucket.items[..j] + bucket.items[j + 1..]))
    ensures edit == PopAt && bucket.JObject? ==> r == Err(KeyError)
    ensures edit == PopAt && bucket.JArray? && r.Ok? ==> |r.value.items| == |bucket.items| - 1
  {
    match bucket
    case JArray(items) =>
      if edit == Append then Ok(JArray(items + [JInt(id)]))
      else (
        match PopPosition(|items|, id)
        case None => Err(IndexError)
        case Some(j) => Ok(JArray(items[..j] + items[j + 1..])))
    // A decoded dict only has string keys, so popping an int key fails.
    case JObject(_) => if edit == Append then Err(AttributeError) else Err(KeyError)
    case _ => Err(AttributeError)
  }

  /** `index.setdefault(json.dumps(value), []).append(id)` (or `.pop(id)`):
      the bucket of the value's text, created empty when missing. */
  function IndexEdit(index: Json, value: Json, id: int, edit: Edit): (r: Result<Json>)
    ensures r.Ok? ==> index.JObject? && r.value.JObject?
    ensures r.Ok? ==> Keys(r.value.fields) == Keys(index.fields) + {Dumps(value)}
    ensures r.Ok? ==> forall k :: k != Dumps(value) ==> Lookup(r.value.fields, k) == Lookup(index.fields, k)
    ensures index.JObject? && edit == Append ==>
              var b := Lookup(index.fields, Dumps(value)).GetOr(JArray([]));
              (b.JArray? ==> r == Ok(JObject(Put(index.fields, Dumps(value), JArray(b.items + [JInt(id)])))))
              && (!b.JArray? ==> r == Err(AttributeError))
  {
    if !index.JObject? then Err(AttributeError)
    else
      var text := Dumps(value);
      var bucket := Lookup(index.fields, text).GetOr(JArray([]));
      match BucketEdit(bucket, id, edit)
      case Err(e) => Err(e)
      case Ok(b) =>
        PutOthers(index.fields, text, b);
        Ok(JObject(Put(index.fields, text, b)))
  }

  /** One iteration of the index loop of `insert`/`update` for the field
      `field` holding `value`: read the index (an empty one when missing),
      edit it, write it back. */
  function IndexStep(tree: Tree, field: string, value: Json, id: int, edit: Edit): (r: Result<Tree>)
  {
    match LoadOr(tree, IndexKey(field), JObject([]))
    case Err(e) => Err(e)
    case Ok(index) =>
      match IndexEdit(index, value, id, edit)
      case Err(e) => Err(e)
      case Ok(index') => Ok(tree[IndexKey(field) := Dumps(index')])
  }

  /** The data tree after a loop that may stop on an exception: the writes
      made before it stay. */
  datatype Partial = Partial(tree: Tree, error: Option<Error>)

  /** The index loop over all fields of a document, in order. */
  function IndexAll(tree: Tree, fields: seq<(string, Json)>, id: int, edit: Edit): (r: Partial)
    ensures tree.Keys <= r.tree.Keys
    ensures forall k :: k in tree && IsDocKey(k) ==> r.tree[k] == tree[k]
    decreases |fields|
  {
    if fields == [] then Partial(tree, None)
    else
      match IndexStep(tree, fields[0].0, fields[0].1, id, edit)
      case Err(e) => Partial(tree, Some(e))
      case Ok(t) =>
        IndexStepFrame(tree, fields[0].0, fields[0].1, id, edit);
        DocKeyNotIndexKey(id, fields[0].0);
        IndexAll(t, fields[1..], id, edit)
  }

  /** One turn of the index loop: a failing step stops it where it is, a
      successful one goes on from the tree it wrote. */
  lemma {:induction false} IndexAllStep(tree: Tree, fields: seq<(string, Json)>, id: int, edit: Edit)
    requires fields != []
    ensures var step := IndexStep(tree, fields[0].0, fields[0].1, id, edit);
            (step.Ok? ==> IndexAll(tree, fields, id, edit) == IndexAll(step.value, fields[1..], id, edit))
            && (step.Err? ==> IndexAll(tree, fields, id, edit) == Partial(tree, Some(step.error)))
  {
  }

  /** An index step writes the index of its field and nothing else. */
  lemma {:induction false} IndexStepFrame(tree: Tree, field: string, value: Json, id: int, edit: Edit)
    requires IndexStep(tree, field, value, id, edit).Ok?
    ensures var t := IndexStep(tree, field, value, id, edit).value;
            t.Keys == tree.Keys + {IndexKey(field)}
            && forall k :: k != IndexKey(field) && k in tree ==> t[k] == tree[k]
  {
  }

  /** The index loop writes only the indexes of the fields it visits: every
      new name is one of them, and every other entry keeps its text. */
  lemma {:induction false} IndexAllFrame(tree: Tree, fields: seq<(string, Json)>, id: int, edit: Edit)
    ensures var r := IndexAll(tree, fields, id, edit);
            tree.Keys <= r.tree.Keys
            && (forall k :: k in r.tree && k !in tree ==> exists j :: 0 <= j < |fields| && k == IndexKey(fields[j].0))
            && (forall k :: k in tree && (forall j :: 0 <= j < |fields| ==> k != IndexKey(fields[j].0)) ==>
                  r.tree[k] == tree[k])
    decreases |fields|
  {
    if fields != [] {
      var step := IndexStep(tree, fields[0].0, fields[0].1, id, edit);
      if step.Ok? {
        IndexStepFrame(tree, fields[0].0, fields[0].1, id, edit);
        IndexAllFrame(step.value, fields[1..], id, edit);
        assert forall j :: 0 <= j < |fields[1..]| ==> fields[1..][j] == fields[j + 1];
      }
    }
  }

  /** What `insert(document)` does to the data tree once it has the id:
      store the document, then index every field. */
  function InsertData(tree: Tree, id: int, document: Json): (r: Partial)
    ensures tree.Keys + {DocKey(id)} <= r.tree.Keys
    ensures r.tree[DocKey(id)] == Dumps(document)
    ensures forall k :: k in tree && IsDocKey(k) && k != DocKey(id) ==> r.tree[k] == tree[k]
  {
    var t := tree[DocKey(id) := Dumps(document)];
    if !document.JObject? then Partial(t, Some(AttributeError))
    else IndexAll(t, document.fields, id, Append)
  }

  /** What `update(id, document)` does to the data tree once it has read the
      old document: store the new one, pop position `id` from the old
      value's bucket of every old field, then index every new field. */
  function UpdateData(tree: Tree, id: int, oldDoc: Json, document: Json): (r: Partial)
    ensures tree.Keys + {DocKey(id)} <= r.tree.Keys
    ensures r.tree[DocKey(id)] == Dumps(document)
    ensures forall k :: k in tree && IsDocKey(k) && k != DocKey(id) ==> r.tree[k] == tree[k]
    ensures !oldDoc.JObject? ==> r.error == Some(AttributeError)
  {
    var t := tree[DocKey(id) := Dumps(document)];
    if !oldDoc.JObject? then Partial(t, Some(AttributeError))
    else
      var removed := IndexAll(t, oldDoc.fields, id, PopAt);
      if removed.error.Some? then removed
      else if !document.JObject? then Partial(removed.tree, Some(AttributeError))
      else IndexAll(removed.tree, document.fields, id, Append)
  }

  /** The pop of `update` goes by position, not by value: when document 1
      alone holds `v` in field `f`, the bucket of `v` is `[1]`, position 1
      of it does not exist, and updating document 1 raises IndexError. */
  lemma {:induction false} UpdatePopsByPosition(tree: Tree, f: string, v: Json, document: Json)
    requires ValidJson(v)
    requires IndexKey(f) in tree && tree[IndexKey(f)] == Dumps(JObject([(Dumps(v), JArray([JInt(1)]))]))
    ensures UpdateData(tree, 1, JObject([(f, v)]), document).error == Some(IndexError)
  {
    var index := JObject([(Dumps(v), JArray([JInt(1)]))]);
    assert ValidJson(JArray([JInt(1)]));
    assert ValidJson(index);
    var t := tree[DocKey(1) := Dumps(document)];
    DocKeyNotIndexKey(1, f);
    LoadOrStored(t, IndexKey(f), index, JObject([]));
    assert Lookup(index.fields, Dumps(v)) == Some(JArray([JInt(1)]));
    assert BucketEdit(JArray([JInt(1)]), 1, PopAt) == Err(IndexError);
    assert IndexStep(t, f, v, 1, PopAt) == Err(IndexError);
    IndexAllStep(t, [(f, v)], 1, PopAt);
  }

  /** After an index step for `field`, the index of that field decodes to
      the edited index. */
  lemma {:induction false} IndexStepStores(tree: Tree, field: string, value: Json, id: int, edit: Edit)
    requires IndexStep(tree, field, value, id, edit).Ok?
    ensures var index := LoadOr(tree, IndexKey(field), JObject([])).value;
            Loads(IndexStep(tree, field, value, id, edit).value[IndexKey(field)])
              == Ok(IndexEdit(index, value, id, edit).value)
  {
    var index := LoadOr(tree, IndexKey(field), JObject([])).value;
    IndexStepValid(tree, field, value, id, edit);
    LoadsDumps(IndexEdit(index, value, id, edit).value);
  }

  /** The index an index step writes back is a well-formed JSON value, so
      it reads back as itself. */
  lemma {:induction false} IndexStepValid(tree: Tree, field: string, value: Json, id: int, edit: Edit)
    requires IndexStep(tree, field, value, id, edit).Ok?
    ensures ValidJson(IndexEdit(LoadOr(tree, IndexKey(field), JObject([])).value, value, id, edit).value)
  {
    var index := LoadOr(tree, IndexKey(field), JObject([])).value;
    if IndexKey(field) in tree {
      LoadsValid(tree[IndexKey(field)]);
    }
    var b := Lookup(index.fields, Dumps(value)).GetOr(JArray([]));
    LookupValid(index.fields, Dumps(value));
    BucketEditValid(b, id, edit);
    PutValid(index.fields, Dumps(value), BucketEdit(b, id, edit).value);
  }

  lemma {:induction false} LookupValid(fields: seq<(string, Json)>, k: string)
    requires ValidValues(fields)
    ensures Lookup(fields, k).Some? ==> ValidJson(Lookup(fields, k).value)
  {
    if fields != [] && fields[0].0 != k {
      assert ValidValues(fields[1..]) by {
        forall i | 0 <= i < |fields[1..]|
          ensures ValidJson(fields[1..][i].1)
        {
          assert fields[1..][i] == fields[i + 1];
        }
      }
      LookupValid(fields[1..], k);
    }
  }

  lemma {:induction false} BucketEditValid(bucket: Json, id: int, edit: Edit)
    requires ValidJson(bucket) && BucketEdit(bucket, id, edit).Ok?
    ensures ValidJson(BucketEdit(bucket, id, edit).value)
  {
    var items := bucket.items;
    if edit == PopAt {
      var j := PopPosition(|items|, id).value;
      var r := items[..j] + items[j + 1..];
      forall i | 0 <= i < |r|
        ensures ValidJson(r[i])
      {
        if i < j { assert r[i] == items[i]; } else { assert r[i] == items[i + 1]; }
      }
    }
  }

  lemma {:induction false} PutValid(fields: seq<(string, Json)>, k: string, v: Json)
    requires DistinctKeys(fields) && ValidValues(fields) && ValidJson(v)
    ensures ValidJson(JObject(Put(fields, k, v)))
  {
    PutPairs(fields, k, v);
    var r := Put(fields, k, v);
    forall i | 0 <= i < |r|
      ensures ValidJson(r[i].1)
    {
      if r[i] != (k, v) {
        var j :| 0 <= j < |fields| && fields[j] == r[i];
      }
    }
  }

  /** `IndexKey` is one-to-one. */
  lemma {:induction false} IndexKeyInjective(a: string, b: string)
    requires IndexKey(a) == IndexKey(b)
    ensures a == b
  {
    assert a == IndexKey(a)[6..];
    assert b == IndexKey(b)[6..];
  }

  /** The index of `field` lists `id` under the text of `value`. */
  ghost predicate Indexed(tree: Tree, field: string, value: Json, id: int) {
    IndexKey(field) in tree
    && var index := Loads(tree[IndexKey(field)]);
    index.Ok? && index.value.JObject?
    && var bucket := Lookup(index.value.fields, Dumps(value));
    bucket.Some? && bucket.value.JArray? && JInt(id) in bucket.value.items
  }

  /** An appending step indexes its own field. */
  lemma {:induction false} AppendStepIndexes(tree: Tree, f: string, v: Json, id: int)
    requires IndexStep(tree, f, v, id, Append).Ok?
    ensures Indexed(IndexStep(tree, f, v, id, Append).value, f, v, id)
  {
    IndexStepStores(tree, f, v, id, Append);
    var index := LoadOr(tree, IndexKey(f), JObject([])).value;
    var b := Lookup(index.fields, Dumps(v)).GetOr(JArray([]));
    assert Lookup(IndexEdit(index, v, id, Append).value.fields, Dumps(v)) == Some(JArray(b.items + [JInt(id)]));
  }

  lemma {:induction false} IndexedFrame(t1: Tree, t2: Tree, f: string, v: Json, id: int)
    requires Indexed(t1, f, v, id)
    requires IndexKey(f) in t2 && t2[IndexKey(f)] == t1[IndexKey(f)]
    ensures Indexed(t2, f, v, id)
  {
  }

  /** A later field of a dict names another index. */
  lemma {:induction false} OtherIndexKeys(fields: seq<(string, Json)>)
    requires fields != [] && DistinctKeys(fields)
    ensures forall j :: 0 <= j < |fields[1..]| ==> IndexKey(fields[0].0) != IndexKey(fields[1..][j].0)
  {
    forall j | 0 <= j < |fields[1..]|
      ensures IndexKey(fields[0].0) != IndexKey(fields[1..][j].0)
    {
      KeysHasEvery(fields[1..], j);
      if IndexKey(fields[0].0) == IndexKey(fields[1..][j].0) {
        IndexKeyInjective(fields[0].0, fields[1..][j].0);
      }
    }
  }

  /** An index loop that appends and finishes leaves every field's bucket
      holding the id. */
  lemma {:induction false} IndexAllAppends(tree: Tree, fields: seq<(string, Json)>, id: int)
    requires DistinctKeys(fields)
    requires IndexAll(tree, fields, id, Append).error.None?
    ensures forall j :: 0 <= j < |fields| ==>
              Indexed(IndexAll(tree, fields, id, Append).tree, fields[j].0, fields[j].1, id)
    decreases |fields|
  {
    if fields != [] {
      var f, v := fields[0].0, fields[0].1;
      var t := IndexStep(tree, f, v, id, Append).value;
      AppendStepIndexes(tree, f, v, id);
      var rest := fields[1..];
      IndexAllAppends(t, rest, id);
      var r := IndexAll(t, rest, id, Append);
      assert r == IndexAll(tree, fields, id, Append);
      OtherIndexKeys(fields);
      IndexStepFrame(tree, f, v, id, Append);
      IndexAllFrame(t, rest, id, Append);
      assert IndexKey(f) in r.tree && r.tree[IndexKey(f)] == t[IndexKey(f)];
      IndexedFrame(t, r.tree, f, v, id);
      forall j | 0 <= j < |fields|
        ensures Indexed(r.tree, fields[j].0, fields[j].1, id)
      {
        if j > 0 {
          assert fields[j] == rest[j - 1];
        }
      }
    }
  }

  lemma {:induction false} KeysHasEvery(fields: seq<(string, Json)>, j: int)
    requires 0 <= j < |fields|
    ensures fields[j].0 in Keys(fields)
  {
    if j > 0 {
      KeysHasEvery(fields[1..], j - 1);
    }
  }

  /** `insert(document)` stores the document under `doc-{id}`, where it
      reads back as the same document, even when indexing stops early; when
      indexing finishes every field's bucket holds the id. */
  lemma {:induction false} InsertStoresAndIndexes(tree: Tree, id: int, document: Json)
    requires ValidJson(document)
    ensures var r := InsertData(tree, id, document);
            DocKey(id) in r.tree && Loads(r.tree[DocKey(id)]) == Ok(document)
    ensures var r := InsertData(tree, id, document);
            r.error.None? ==> (document.JObject? &&
              forall j :: 0 <= j < |document.fields| ==>
                Indexed(r.tree, document.fields[j].0, document.fields[j].1, id))
    ensures !document.JObject? ==> InsertData(tree, id, document).error == Some(AttributeError)
  {
    LoadsDumps(document);
    if document.JObject? {
      var t := tree[DocKey(id) := Dumps(document)];
      forall j | 0 <= j < |document.fields|
        ensures DocKey(id) != IndexKey(document.fields[j].0)
      {
        DocKeyNotIndexKey(id, document.fields[j].0);
      }
      IndexAllFrame(t, document.fields, id, Append);
      if InsertData(tree, id, document).error.None? {
        IndexAllAppends(t, document.fields, id);
      }
    }
  }

  /** `update(id, document)` always stores the new document; when it
      finishes, every field of the new document indexes the id. */
  lemma {:induction false} UpdateStoresAndIndexes(tree: Tree, id: int, oldDoc: Json, document: Json)
    requires ValidJson(document)
    ensures var r := UpdateData(tree, id, oldDoc, document);
            DocKey(id) in r.tree && Loads(r.tree[DocKey(id)]) == Ok(document)
    ensures var r := UpdateData(tree, id, oldDoc, document);
            r.error.None? ==> (document.JObject? &&
              forall j :: 0 <= j < |document.fields| ==>
                Indexed(r.tree, document.fields[j].0, document.fields[j].1, id))
  {
    LoadsDumps(document);
    if oldDoc.JObject? {
      var t := tree[DocKey(id) := Dumps(document)];
      forall j | 0 <= j < |oldDoc.fields|
        ensures DocKey(id) != IndexKey(oldDoc.fields[j].0)
      {
        DocKeyNotIndexKey(id, oldDoc.fields[j].0);
      }
      var removed := IndexAll(t, oldDoc.fields, id, PopAt);
      IndexAllFrame(t, oldDoc.fields, id, PopAt);
      if removed.error.None? && document.JObject? {
        forall j | 0 <= j < |document.fields|
          ensures DocKey(id) != IndexKey(document.fields[j].0)
        {
          DocKeyNotIndexKey(id, document.fields[j].0);
        }
        IndexAllFrame(removed.tree, document.fields, id, Append);
        if UpdateData(tree, id, oldDoc, document).error.None? {
          IndexAllAppends(removed.tree, document.fields, id);
        }
      }
    }
  }

  // -------------------------------------------------------------------- find

  /** `{int(k[4:]) for k in items_list() if k.startswith('doc-')}`: the id
      of every document name; a name whose suffix `int` rejects is a
      ValueError. */
  function Universe(tree: Tree): (r: Result<set<int>>)
    ensures r.Err? <==> exists k :: k in tree && IsDocKey(k) && PyInt(k[4..]).None?
    ensures r.Err? ==> r.error == ValueError
    ensures r.Ok? ==> forall i :: i in r.value <==> exists k :: k in tree && IsDocKey(k) && PyInt(k[4..]) == Some(i)
  {
    if exists k :: k in tree && IsDocKey(k) && PyInt(k[4..]).None? then Err(ValueError)
    else Ok(set k | k in tree && IsDocKey(k) && PyInt(k[4..]).Some? :: PyInt(k[4..]).value)
  }

  /** Document names as `insert` writes them. */
  ghost predicate CanonicalDocKeys(tree: Tree) {
    forall k :: k in tree && IsDocKey(k) ==> exists id :: k == DocKey(id)
  }

  /** The id universe round-trips the `doc-{id}` formatting: every stored id
      is found, and when every document name is one `insert` wrote, nothing
      else is. */
  lemma {:induction false} UniverseRoundTrip(tree: Tree)
    ensures Universe(tree).Ok? ==> forall id :: DocKey(id) in tree ==> id in Universe(tree).value
    ensures CanonicalDocKeys(tree) ==>
              Universe(tree).Ok? && forall id :: id in Universe(tree).value <==> DocKey(id) in tree
  {
    forall id | DocKey(id) in tree
      ensures IsDocKey(DocKey(id)) && PyInt(DocKey(id)[4..]) == Some(id)
    {
      DocKeyNotIndexKey(id, "");
      assert DocKey(id)[4..] == IntToString(id);
      PyIntRoundTrip(id);
    }
    if CanonicalDocKeys(tree) {
      forall k | k in tree && IsDocKey(k)
        ensures PyInt(k[4..]).Some?
      {
        var id :| k == DocKey(id);
        assert k[4..] == IntToString(id);
        PyIntRoundTrip(id);
      }
      forall id | id in Universe(tree).value
        ensures DocKey(id) in tree
      {
        var k :| k in tree && IsDocKey(k) && PyInt(k[4..]) == Some(id);
        var id' :| k == DocKey(id');
        assert k[4..] == IntToString(id');
        PyIntRoundTrip(id');
      }
    }
  }

  /** The ids in a list: `set()` of its items, of which only the ints can
      ever equal a document id. */
  function IdsIn(items: seq<Json>): (ids: set<int>)
    ensures forall i :: i in ids <==> JInt(i) in items
  {
    set j | 0 <= j < |items| && items[j].JInt? :: items[j].i
  }

  /** `_find_simple(key, val, index)`: `set(index.get(json.dumps(val), []))`. */
  function SimpleIds(index: Json, term: Json): (r: Result<set<int>>)
    ensures r.Ok? ==> index.JObject?
    ensures index.JObject? && Lookup(index.fields, Dumps(term)).None? ==> r == Ok({})
    ensures index.JObject? && Lookup(index.fields, Dumps(term)) == Some(JArray([])) ==> r == Ok({})
    ensures r.Ok? && Lookup(index.fields, Dumps(term)).Some? && Lookup(index.fields, Dumps(term)).value.JArray? ==>
              r.value == IdsIn(Lookup(index.fields, Dumps(term)).value.items)
  {
    if !index.JObject? then Err(AttributeError)
    else
      var bucket := Lookup(index.fields, Dumps(term)).GetOr(JArray([]));
      match BucketItems(bucket)
      case Err(e) => Err(e)
      case Ok(items) =>
        if exists j :: 0 <= j < |items| && !Hashable(items[j]) then Err(TypeError)
        else
          assert items == [] ==> IdsIn(items) == {};
          Ok(IdsIn(items))
  }

  /** `_find_complex(key, query, index, al)`: the first operator is looked
      up and then called with six arguments, which no registered operator
      accepts; an empty query reduces an empty list.  It never returns. */
  function ComplexIds(funcs: map<string, SearchOp>, query: seq<(string, Json)>): (r: Result<set<int>>)
    ensures r.Err?
    ensures query != [] && query[0].0 !in funcs ==> r.error == KeyError
    ensures query == [] || query[0].0 in funcs ==> r.error == TypeError
  {
    if query == [] then Err(TypeError)
    else if query[0].0 in funcs then Err(TypeError)
    else Err(KeyError)
  }

  /** The id set one `where` clause contributes: a dict term is a complex
      query, anything else a plain value. */
  function ClauseIds(tree: Tree, clause: (string, Json), funcs: map<string, SearchOp>): (r: Result<set<int>>)
    ensures clause.1.JObject? ==> r.Err?
  {
    match LoadOr(tree, IndexKey(clause.0), JObject([]))
    case Err(e) => Err(e)
    case Ok(index) =>
      if clause.1.JObject? then ComplexIds(funcs, clause.1.fields) else SimpleIds(index, clause.1)
  }

  /** `reduce(&, [all_ids] + [clause sets])`, the clauses taken in order. */
  function Matching(tree: Tree, where: seq<(string, Json)>, funcs: map<string, SearchOp>, universe: set<int>): (r: Result<set<int>>)
    ensures r.Ok? ==> r.value <= universe
  {
    if where == [] then Ok(universe)
    else
      match ClauseIds(tree, where[0], funcs)
      case Err(e) => Err(e)
      case Ok(ids) =>
        match Matching(tree, where[1..], funcs, universe)
        case Err(e) => Err(e)
        case Ok(rest) => Ok(ids * rest)
  }

  /** The matching ids are exactly the ids of the universe every clause
      admits. */
  lemma {:induction false} MatchingIsIntersection(tree: Tree, where: seq<(string, Json)>,
                                                  funcs: map<string, SearchOp>, universe: set<int>)
    requires Matching(tree, where, funcs, universe).Ok?
    ensures forall j :: 0 <= j < |where| ==> ClauseIds(tree, where[j], funcs).Ok?
    ensures forall i :: i in Matching(tree, where, funcs, universe).value <==>
              i in universe && forall j :: 0 <= j < |where| ==> i in ClauseIds(tree, where[j], funcs).value
  {
    if where != [] {
      MatchingIsIntersection(tree, where[1..], funcs, universe);
      assert forall j :: 1 <= j < |where| ==> where[j] == where[1..][j - 1];
    }
  }

  /** A `where` holding a dict term never succeeds. */
  lemma {:induction false} ComplexClauseFails(tree: Tree, where: seq<(string, Json)>,
                                              funcs: map<string, SearchOp>, universe: set<int>, j: int)
    requires 0 <= j < |where| && where[j].1.JObject?
    ensures Matching(tree, where, funcs, universe).Err?
  {
    if Matching(tree, where, funcs, universe).Ok? {
      MatchingIsIntersection(tree, where, funcs, universe);
    }
  }

  /** `[(i, data_tree['doc-{i}']) for i in ids]`: a missing document is a
      KeyError, a document that is not JSON a decode error. */
  function Fetch(tree: Tree, ids: seq<int>): (r: Result<seq<(int, Json)>>)
    ensures r.Ok? ==> |r.value| == |ids|
    ensures r.Ok? ==> forall j :: 0 <= j < |ids| ==>
              r.value[j].0 == ids[j] && DocKey(ids[j]) in tree && Loads(tree[DocKey(ids[j])]) == Ok(r.value[j].1)
    ensures r.Err? ==> exists j :: 0 <= j < |ids| && (DocKey(ids[j]) !in tree || Loads(tree[DocKey(ids[j])]).Err?)
  {
    if ids == [] then Ok([])
    else
      var key := DocKey(ids[0]);
      if key !in tree then Err(KeyError)
      else
        match Loads(tree[key])
        case Err(e) => Err(e)
        case Ok(doc) =>
          match Fetch(tree, ids[1..])
          case Err(e) => Err(e)
          case Ok(rest) => Ok([(ids[0], doc)] + rest)
  }

  /** `find(where)`: the (id, document) pairs of the documents every clause
      admits, in ascending id order. */
  function Find(tree: Tree, where: seq<(string, Json)>, funcs: map<string, SearchOp>): (r: Result<seq<(int, Json)>>)
    ensures Universe(tree).Err? ==> r == Err(ValueError)
    ensures r.Ok? ==> forall p, q :: 0 <= p < q < |r.value| ==> r.value[p].0 < r.value[q].0
    ensures r.Ok? ==> forall p :: 0 <= p < |r.value| ==>
              DocKey(r.value[p].0) in tree && Loads(tree[DocKey(r.value[p].0)]) == Ok(r.value[p].1)
  {
    match Universe(tree)
    case Err(e) => Err(e)
    case Ok(universe) =>
      match Matching(tree, where, funcs, universe)
      case Err(e) => Err(e)
      case Ok(ids) => Fetch(tree, SortedIds(ids))
  }

  /** Every pair `find` returns is a document of the table, read back from
      its `doc-{id}` entry, that every clause admits; the ids ascend. */
  lemma {:induction false} FindSound(tree: Tree, where: seq<(string, Json)>, funcs: map<string, SearchOp>)
    requires Find(tree, where, funcs).Ok?
    ensures var res := Find(tree, where, funcs).value;
            forall p :: 0 <= p < |res| ==>
              res[p].0 in Universe(tree).value
              && DocKey(res[p].0) in tree && Loads(tree[DocKey(res[p].0)]) == Ok(res[p].1)
              && forall j :: 0 <= j < |where| ==>
                   ClauseIds(tree, where[j], funcs).Ok? && res[p].0 in ClauseIds(tree, where[j], funcs).value
    ensures var res := Find(tree, where, funcs).value;
            forall p, q :: 0 <= p < q < |res| ==> res[p].0 < res[q].0
  {
    var universe := Universe(tree).value;
    var m := Matching(tree, where, funcs, universe).value;
    var ids := SortedIds(m);
    var res := Find(tree, where, funcs).value;
    assert res == Fetch(tree, ids).value;
    MatchingIsIntersection(tree, where, funcs, universe);
    forall p | 0 <= p < |res|
      ensures res[p].0 in universe
      ensures forall j :: 0 <= j < |where| ==>
                ClauseIds(tree, where[j], funcs).Ok? && res[p].0 in ClauseIds(tree, where[j], funcs).value
    {
      assert res[p].0 == ids[p];
      assert ids[p] in m;
    }
  }

  /** Every document of the table that all clauses admit is in the answer of
      `find`. */
  lemma {:induction false} FindComplete(tree: Tree, where: seq<(string, Json)>, funcs: map<string, SearchOp>, i: int)
    requires Find(tree, where, funcs).Ok?
    requires i in Universe(tree).value
    requires forall j :: 0 <= j < |where| ==> ClauseIds(tree, where[j], funcs).Ok? && i in ClauseIds(tree, where[j], funcs).value
    ensures exists p :: 0 <= p < |Find(tree, where, funcs).value| && Find(tree, where, funcs).value[p].0 == i
  {
    var universe := Universe(tree).value;
    MatchingIsIntersection(tree, where, funcs, universe);
    var ids := SortedIds(Matching(tree, where, funcs, universe).value);
    var p :| 0 <= p < |ids| && ids[p] == i;
    assert Find(tree, where, funcs).value[p].0 == i;
  }

  /** Fetching a set's ids in ascending order lists each of them. */
  lemma {:induction false} FetchSortedCovers(tree: Tree, u: set<int>)
    requires Fetch(tree, SortedIds(u)).Ok?
    ensures var res := Fetch(tree, SortedIds(u)).value;
            forall id :: id in u <==> exists p :: 0 <= p < |res| && res[p].0 == id
  {
    var ids := SortedIds(u);
    var res := Fetch(tree, ids).value;
    forall id | id in u
      ensures exists p :: 0 <= p < |res| && res[p].0 == id
    {
      var p :| 0 <= p < |ids| && ids[p] == id;
      assert res[p].0 == id;
    }
  }

  /** With no clauses `find` lists every document of the table. */
  lemma {:induction false} FindAllDocuments(tree: Tree, funcs: map<string, SearchOp>)
    requires CanonicalDocKeys(tree)
    requires Find(tree, [], funcs).Ok?
    ensures forall id :: DocKey(id) in tree <==> exists p :: 0 <= p < |Find(tree, [], funcs).value| && Find(tree, [], funcs).value[p].0 == id
  {
    UniverseRoundTrip(tree);
    var universe := Universe(tree).value;
    assert Find(tree, [], funcs) == Fetch(tree, SortedIds(universe));
    FetchSortedCovers(tree, universe);
  }

  /** `find_ids(where)`: the ids of `find`. */
  function FindIds(tree: Tree, where: seq<(string, Json)>, funcs: map<string, SearchOp>): (r: Result<seq<int>>)
    ensures r.Ok? <==> Find(tree, where, funcs).Ok?
    ensures r.Ok? ==> (|r.value| == |Find(tree, where, funcs).value|
      && forall p :: 0 <= p < |r.value| ==> r.value[p] == Find(tree, where, funcs).value[p].0)
  {
    match Find(tree, where, funcs)
    case Err(e) => Err(e)
    case Ok(res) => Ok(seq(|res|, p requires 0 <= p < |res| => res[p].0))
  }

  /** `find_items(where)`: the documents of `find`. */
  function FindItems(tree: Tree, where: seq<(string, Json)>, funcs: map<string, SearchOp>): (r: Result<seq<Json>>)
    ensures r.Ok? <==> Find(tree, where, funcs).Ok?
    ensures r.Ok? ==> (|r.value| == |Find(tree, where, funcs).value|
      && forall p :: 0 <= p < |r.value| ==> r.value[p] == Find(tree, where, funcs).value[p].1)
  {
    match Find(tree, where, funcs)
    case Err(e) => Err(e)
    case Ok(res) => Ok(seq(|res|, p requires 0 <= p < |res| => res[p].1))
  }

  /** `find_one(where)`: the first pair of `find`, or None. */
  function FindOne(tree: Tree, where: seq<(string, Json)>, funcs: map<string, SearchOp>): (r: Result<Option<(int, Json)>>)
    ensures r.Ok? <==> Find(tree, where, funcs).Ok?
    ensures r.Ok? ==> (r.value.None? <==> Find(tree, where, funcs).value == [])
    ensures r.Ok? && r.value.Some? ==> r.value.value == Find(tree, where, funcs).value[0]
  {
    match Find(tree, where, funcs)
    case Err(e) => Err(e)
    case Ok(res) => Ok(if |res| > 0 then Some(res[0]) else None)
  }
}
