/** The document store: a database directory holds a `__meta__` repository
    with the registry of table names, and one directory per table.  A table
    keeps its documents and indexes in a JSON-wrapped data tree and its id
    counter in a raw meta tree, each in a repository of its own. */
module GitDb {
  import opened Base
  import opened Numerals
  import opened Json
  import opened Git
  import opened TreeWrappers
  import opened JsonWrapper
  import opened SearchFunctions
  import opened Store
  import opened FileSystem

  const DEFAULT_TABLE: string := "__defaulttable__"
  const META_NAME: string := "__meta__"
  const RESERVED_TABLE_NAMES: set<string> := {META_NAME, DEFAULT_TABLE}
  /** The meta-tree entry holding the last id handed out. */
  const LAST_ID: string := "meta-last_id"
  /** The registry entry of the database's meta tree. */
  const TABLE_LIST: string := "table_list"

  // ------------------------------------------------------------------ ids

  /** The id `_get_next_id` hands out for a meta tree: 0 when no id was
      handed out yet, else one more than the stored one; a stored text that
      `int` rejects is a ValueError. */
  function NextIdOf(meta: Tree): (r: Result<int>)
    ensures LAST_ID !in meta ==> r == Ok(0)
    ensures r.Ok? && LAST_ID in meta ==> PyInt(meta[LAST_ID]) == Some(r.value - 1)
    ensures r.Err? <==> LAST_ID in meta && PyInt(meta[LAST_ID]).None?
    ensures r.Err? ==> r.error == ValueError
  {
    if LAST_ID !in meta then Ok(0)
    else
      match PyInt(meta[LAST_ID])
      case None => Err(ValueError)
      case Some(n) => Ok(n + 1)
  }

  /** Once an id is recorded, the next one is exactly one larger: ids
      strictly increase. */
  lemma {:induction false} NextIdFollows(meta: Tree, id: int)
    ensures NextIdOf(meta[LAST_ID := IntToString(id)]) == Ok(id + 1)
  {
    PyIntRoundTrip(id);
  }

  /** A fresh table hands out 0 first. */
  lemma {:induction false} NextIdOfFresh(meta: Tree)
    requires LAST_ID !in meta
    ensures NextIdOf(meta) == Ok(0)
  {
  }

  /** `'doc-{id}'.format(id=doc_id)` for an `int`; a `bool` is an `int` in
      Python and formats as `True`/`False`. */
  function IdKey(docId: Json): (key: string)
    requires docId.JInt? || docId.JBool?
    ensures docId.JInt? ==> key == DocKey(docId.i)
    ensures IsDocKey(key)
  {
    if docId.JInt? then DocKey(docId.i)
    else "doc-" + (if docId.b then "True" else "False")
  }

  // ---------------------------------------------------------- index loops

    /** One turn of the index loop of `insert`/`update`: reads the index of
      the first field (an empty one if there is none), adds or removes `id`
      in the bucket of its value and writes the index back.  It leaves the
      loop where the whole loop would be after that turn. */
  method IndexField(dataTree: JsonDictWrapper, fields: seq<(string, Json)>, id: int, edit: Edit) returns (err: Option<Error>)
    requires dataTree.Valid() && fields != []
    modifies dataTree.inner
    ensures dataTree.Valid() && unchanged(dataTree.inner.repo)
    ensures old(dataTree.inner.working).Some? ==> dataTree.inner.working.Some?
    ensures err.None? ==> IndexAll(old(dataTree.inner.Visible()), fields, id, edit)
                          == IndexAll(dataTree.inner.Visible(), fields[1..], id, edit)
    ensures err.Some? ==> dataTree.inner.Visible() == old(dataTree.inner.Visible())
                          && IndexAll(old(dataTree.inner.Visible()), fields, id, edit) == Partial(dataTree.inner.Visible(), err)
  {
    IndexAllStep(dataTree.inner.Visible(), fields, id, edit);
    var field, value := fields[0].0, fields[0].1;
    var index := dataTree.Get(IndexKey(field), JObject([]));
    if index.Err? {
      return Some(index.error);
    }
    var edited := IndexEdit(index.value, value, id, edit);
    if edited.Err? {
      return Some(edited.error);
    }
    IndexStepValid(dataTree.inner.Visible(), field, value, id, edit);
    dataTree.SetItem(IndexKey(field), edited.value);
    err := None;
  }

  /** The loop of `insert`/`update` over the fields of a document; an
      exception stops it, leaving the earlier writes in the working
      tree. */
  method IndexFields(dataTree: JsonDictWrapper, fields: seq<(string, Json)>, id: int, edit: Edit) returns (err: Option<Error>)
    requires dataTree.Valid()
    modifies dataTree.inner
    ensures dataTree.Valid() && unchanged(dataTree.inner.repo)
    ensures old(dataTree.inner.working).Some? ==> dataTree.inner.working.Some?
    ensures dataTree.inner.Visible() == IndexAll(old(dataTree.inner.Visible()), fields, id, edit).tree
    ensures err == IndexAll(old(dataTree.inner.Visible()), fields, id, edit).error
  {
    ghost var goal := IndexAll(dataTree.inner.Visible(), fields, id, edit);
    var i := 0;
    while i < |fields|
      invariant 0 <= i <= |fields|
      invariant dataTree.Valid() && unchanged(dataTree.inner.repo)
      invariant old(dataTree.inner.working).Some? ==> dataTree.inner.working.Some?
      invariant goal == IndexAll(dataTree.inner.Visible(), fields[i..], id, edit)
    {
      assert fields[i..][1..] == fields[i + 1..];
      err := IndexField(dataTree, fields[i..], id, edit);
      if err.Some? {
        return;
      }
      i := i + 1;
    }
    return None;
  }

  /** The part of `insert` after the id is taken: stores the document under
      its key, then indexes its fields. */
  method StoreDocument(dataTree: JsonDictWrapper, id: int, document: Json) returns (err: Option<Error>)
    requires dataTree.Valid() && ValidJson(document)
    modifies dataTree.inner
    ensures dataTree.Valid() && unchanged(dataTree.inner.repo) && dataTree.inner.working.Some?
    ensures dataTree.inner.Visible() == InsertData(old(dataTree.inner.Visible()), id, document).tree
    ensures err == InsertData(old(dataTree.inner.Visible()), id, document).error
  {
    dataTree.SetItem(DocKey(id), document);
    if !document.JObject? {
      return Some(AttributeError);
    }
    err := IndexFields(dataTree, document.fields, id, Append);
  }

  /** The part of `update` after the old document is read: stores the new
      one, pops `id` from the buckets of the old fields, then indexes the
      new fields. */
  method ReplaceDocument(dataTree: JsonDictWrapper, id: int, oldDoc: Json, document: Json) returns (err: Option<Error>)
    requires dataTree.Valid() && ValidJson(document)
    modifies dataTree.inner
    ensures dataTree.Valid() && unchanged(dataTree.inner.repo) && dataTree.inner.working.Some?
    ensures dataTree.inner.Visible() == UpdateData(old(dataTree.inner.Visible()), id, oldDoc, document).tree
    ensures err == UpdateData(old(dataTree.inner.Visible()), id, oldDoc, document).error
  {
    dataTree.SetItem(DocKey(id), document);
    if !oldDoc.JObject? {
      return Some(AttributeError);
    }
    err := IndexFields(dataTree, oldDoc.fields, id, PopAt);
    if err.Some? {
      return;
    }
    if !document.JObject? {
      return Some(AttributeError);
    }
    err := IndexFields(dataTree, document.fields, id, Append);
  }

  /** The tree the head commit of the repository at `path` holds, or the
      empty tree when there is no repository there or it has no commit. */
  ghost function StoredTree(disk: Disk, path: string): Tree
    reads disk, disk.Existing(path)
  {
    if path in disk.repos && disk.repos[path].history.head.Some? then disk.repos[path].HeadTree() else map[]
  }

  /** Opens (or creates) the repository at `path` and wraps it; an existing
      repository is reused, and the wrapper reads what its head held. */
  method OpenTree(disk: Disk, path: string) returns (w: TreeWrapper)
    requires disk.Valid()
    modifies disk, disk.Existing(path)
    ensures disk.Valid() && fresh(w) && w.Valid() && w.working.None? && w.repo.path == path
    ensures disk.repos == old(disk.repos)[path := w.repo]
    ensures path in old(disk.repos) ==> w.repo == old(disk.repos)[path]
    ensures path !in old(disk.repos) ==> fresh(w.repo) && w.Visible() == map[]
    ensures w.Visible() == old(StoredTree(disk, path))
  {
    var r := disk.InitRepository(path);
    w := new TreeWrapper(r);
  }

  // -------------------------------------------------------------- registry

  /** `needle in haystack` on two strings. */
  predicate IsSubstring(needle: string, haystack: string)
    decreases |haystack|
  {
    (|needle| <= |haystack| && haystack[..|needle|] == needle)
    || (haystack != [] && IsSubstring(needle, haystack[1..]))
  }

  /** `name in tables` for whatever the `table_list` entry decodes to: list
      membership, a dict's keys, a substring test; `in` on anything else is
      a TypeError. */
  function Listed(tables: Json, name: string): (r: Result<bool>)
    ensures r.Err? <==> !(tables.JArray? || tables.JObject? || tables.JString?)
    ensures r.Err? ==> r.error == TypeError
    ensures tables.JArray? ==>
              (r == Ok(true) <==> exists i :: 0 <= i < |tables.items| && tables.items[i] == JString(name))
    ensures tables.JObject? ==> (r == Ok(true) <==> Lookup(tables.fields, name).Some?)
    ensures tables.JString? && name == [] ==> r == Ok(true)
  {
    match tables
    case JArray(items) => Ok(JString(name) in items)
    case JObject(fields) => Ok(name in Keys(fields))
    case JString(s) => Ok(IsSubstring(name, s))
    case _ => Err(TypeError)
  }

  /** The registry step of `table(name)`: a listed name leaves the list as
      it is, an unlisted one is appended, and only a list can be appended
      to. */
  function Register(tables: Json, name: string): (r: Result<Json>)
    ensures r.Ok? ==> Listed(r.value, name) == Ok(true)
    ensures r.Err? <==> Listed(tables, name).Err? || (Listed(tables, name) == Ok(false) && !tables.JArray?)
    ensures r.Ok? && tables.JArray? ==>
              r.value.JArray? && tables.items <= r.value.items && |r.value.items| <= |tables.items| + 1
    ensures r.Ok? && !tables.JArray? ==> r.value == tables
  {
    match Listed(tables, name)
    case Err(e) => Err(e)
    case Ok(listed) =>
      if listed then Ok(tables)
      else if tables.JArray? then Ok(JArray(tables.items + [JString(name)]))
      else Err(AttributeError)
  }

  /** Registering twice is registering once. */
  lemma {:induction false} RegisterIdempotent(tables: Json, name: string)
    requires Register(tables, name).Ok?
    ensures Register(Register(tables, name).value, name) == Register(tables, name)
  {
  }

  /** Registering a name unlists no other name. */
  lemma {:induction false} RegisterKeepsListed(tables: Json, name: string, other: string)
    requires Register(tables, name).Ok? && Listed(tables, other) == Ok(true)
    ensures Listed(Register(tables, name).value, other) == Ok(true)
  {
    if tables.JArray? {
      var items := Register(tables, name).value.items;
      assert JString(other) in tables.items;
      var k :| 0 <= k < |tables.items| && tables.items[k] == JString(other);
      assert items[k] == JString(other);
    }
  }

  /** A registry that decodes from JSON stays storable. */
  lemma {:induction false} RegisterValid(tables: Json, name: string)
    requires ValidJson(tables) && Register(tables, name).Ok?
    ensures ValidJson(Register(tables, name).value)
  {
  }

  /** The `table_list` that `table(name)` stores for a registry tree, or the
      error it raises first: a reserved name other than the default table's,
      an entry that is not JSON, an entry `in` or `append` rejects. */
  function TableListAfter(registry: Tree, name: string): (r: Result<Json>)
    ensures r.Ok? ==> Listed(r.value, name) == Ok(true)
    ensures name in RESERVED_TABLE_NAMES && name != DEFAULT_TABLE ==> r == Err(ValueError)
  {
    if name in RESERVED_TABLE_NAMES && name != DEFAULT_TABLE then Err(ValueError)
    else
      match LoadOr(registry, TABLE_LIST, JArray([]))
      case Err(e) => Err(e)
      case Ok(tables) => Register(tables, name)
  }

  /** A registry with no `table_list` accepts the default table. */
  lemma {:induction false} FreshRegistryOpens()
    ensures TableListAfter(map[], DEFAULT_TABLE) == Ok(JArray([JString(DEFAULT_TABLE)]))
  {
    assert [] + [JString(DEFAULT_TABLE)] == [JString(DEFAULT_TABLE)];
  }

  /** Whether the `table_list` of a registry tree lists `name`. */
  ghost predicate RegisteredIn(registry: Tree, name: string) {
    var tables := LoadOr(registry, TABLE_LIST, JArray([]));
    tables.Ok? && Listed(tables.value, name) == Ok(true)
  }

  /** The list `table(name)` stores lists `name`. */
  lemma {:induction false} OpenRegisters(registry: Tree, name: string)
    requires TableListAfter(registry, name).Ok?
    ensures RegisteredIn(registry[TABLE_LIST := Dumps(TableListAfter(registry, name).value)], name)
  {
    var tables := LoadOr(registry, TABLE_LIST, JArray([])).value;
    if TABLE_LIST in registry {
      LoadsValid(registry[TABLE_LIST]);
    }
    RegisterValid(tables, name);
    LoadsDumps(TableListAfter(registry, name).value);
  }

  /** Opening a table a second time stores the same list again. */
  lemma {:induction false} OpenTwiceSameList(registry: Tree, name: string)
    requires TableListAfter(registry, name).Ok?
    ensures var list := TableListAfter(registry, name).value;
            TableListAfter(registry[TABLE_LIST := Dumps(list)], name) == Ok(list)
  {
    var tables := LoadOr(registry, TABLE_LIST, JArray([])).value;
    if TABLE_LIST in registry {
      LoadsValid(registry[TABLE_LIST]);
    }
    RegisterValid(tables, name);
    var list := TableListAfter(registry, name).value;
    LoadsDumps(list);
    RegisterIdempotent(tables, name);
  }

  /** What `drop(name, force)` decides for a registry tree: an error, `false`
      to return without doing anything, or `true` to delete the table's
      directory.  A forced drop never deletes, and neither does dropping
      from a registry that is not a list. */
  function DropPlan(registry: Tree, name: string, force: bool): (r: Result<bool>)
    ensures force ==> r != Ok(true)
    ensures name in RESERVED_TABLE_NAMES ==> r == Err(ValueError)
    ensures r == Ok(true) ==> var tables := LoadOr(registry, TABLE_LIST, JArray([]));
                              tables.Ok? && tables.value.JArray? && JString(name) in tables.value.items
  {
    if name in RESERVED_TABLE_NAMES then Err(ValueError)
    else
      match LoadOr(registry, TABLE_LIST, JArray([]))
      case Err(e) => Err(e)
      case Ok(tables) =>
        match Listed(tables, name)
        case Err(e) => Err(e)
        case Ok(listed) =>
          if !listed && !force then Err(ValueError)
          else if force then Ok(false)
          else if !tables.JArray? then Err(AttributeError)
          else Ok(true)
  }

  /** A table that `table(name)` registered can be dropped without force,
      exactly when the registry is a list. */
  lemma {:induction false} DropAfterOpen(registry: Tree, name: string)
    requires name !in RESERVED_TABLE_NAMES && TableListAfter(registry, name).Ok?
    ensures var list := TableListAfter(registry, name).value;
            DropPlan(registry[TABLE_LIST := Dumps(list)], name, false)
              == if list.JArray? then Ok(true) else Err(AttributeError)
  {
    var tables := LoadOr(registry, TABLE_LIST, JArray([])).value;
    if TABLE_LIST in registry {
      LoadsValid(registry[TABLE_LIST]);
    }
    RegisterValid(tables, name);
    LoadsDumps(TableListAfter(registry, name).value);
  }

  // ---------------------------------------------------------------- tables

  class Table {
    const name: string
    const location: string
    /** The documents and indexes. */
    const dataTree: JsonDictWrapper
    /** The id counter, as raw text. */
    const metaTree: TreeWrapper
    var transactionOpen: bool
    var contextManaged: bool

    ghost function Repr(): set<object> {
      {this, dataTree, dataTree.inner, dataTree.inner.repo, metaTree, metaTree.repo}
    }

    /** The two trees live in two repositories of the table's directory;
        the meta tree is saved by every change, so it is always clean; and a
        transaction managed by `transaction()` is an open one. */
    ghost predicate Valid()
      reads Repr()
    {
      dataTree.Valid() && metaTree.Valid() && metaTree.working.None?
      && dataTree.inner != metaTree
      && dataTree.inner.repo != metaTree.repo
      && dataTree.inner.repo.path == Join(location, "data")
      && metaTree.repo.path == Join(location, "meta")
      && (contextManaged ==> transactionOpen)
    }

    /** `Table(name, location)`: opens (or creates) the two repositories and
        wraps them, each wrapper committing the tree it finds. */
    constructor (name: string, location: string, disk: Disk)
      requires disk.Valid()
      modifies disk, disk.Existing(Join(location, "data")), disk.Existing(Join(location, "meta"))
      ensures Valid() && disk.Valid()
      ensures this.name == name && this.location == location
      ensures !transactionOpen && !contextManaged && dataTree.inner.working.None?
      ensures fresh(dataTree) && fresh(dataTree.inner) && fresh(metaTree)
      ensures disk.repos == old(disk.repos)[Join(location, "data") := dataTree.inner.repo]
                                           [Join(location, "meta") := metaTree.repo]
      ensures Join(location, "data") in old(disk.repos) ==> dataTree.inner.repo == old(disk.repos)[Join(location, "data")]
      ensures Join(location, "meta") in old(disk.repos) ==> metaTree.repo == old(disk.repos)[Join(location, "meta")]
      ensures Join(location, "data") !in old(disk.repos) ==> fresh(dataTree.inner.repo) && dataTree.inner.Visible() == map[]
      ensures Join(location, "meta") !in old(disk.repos) ==> fresh(metaTree.repo) && metaTree.Visible() == map[]
      ensures old(disk.Existing(Join(location, "data"))) <= {dataTree.inner.repo}
      ensures old(disk.Existing(Join(location, "meta"))) <= {metaTree.repo}
    {
      JoinEndsDiffer(location, "data", location, "meta");
      var data := OpenTree(disk, Join(location, "data"));
      var meta := OpenTree(disk, Join(location, "meta"));
      this.name := name;
      this.location := location;
      dataTree := new JsonDictWrapper(data);
      metaTree := meta;
      transactionOpen := false;
      contextManaged := false;
    }

    /** `==`: tables are equal when they are at the same location. */
    predicate Eq(other: Table?)
      ensures other == this ==> Eq(other)
      ensures Eq(other) <==> other != null && other.location == location
    {
      other != null && other.location == location
    }

    /** `_get_next_id()`: reads the counter, records the new id and saves the
        meta tree at once, so the id survives a rollback of the data. */
    method NextId() returns (r: Result<int>)
      requires Valid()
      modifies metaTree, metaTree.repo
      ensures Valid()
      ensures r == NextIdOf(old(metaTree.Visible()))
      ensures r.Err? ==> unchanged(metaTree, metaTree.repo)
      ensures r.Ok? ==> metaTree.repo.history.commits
                          == old(metaTree.repo.history.commits)
                             + [Git.Commit(old(metaTree.Visible())[LAST_ID := IntToString(r.value)], old(metaTree.repo.history.head))]
      ensures r.Ok? ==> metaTree.Visible() == old(metaTree.Visible())[LAST_ID := IntToString(r.value)]
    {
      ghost var before := metaTree.Visible();
      var id: int;
      if metaTree.Contains(LAST_ID) {
        var text := metaTree.Item(LAST_ID).value;
        var n := PyInt(text);
        if n.None? {
          return Err(ValueError);
        }
        id := n.value + 1;
      } else {
        metaTree.SetItem(LAST_ID, "0");
        id := 0;
      }
      metaTree.SetItem(LAST_ID, IntToString(id));
      assert metaTree.Visible() == before[LAST_ID := IntToString(id)];
      metaTree.Save();
      r := Ok(id);
    }

    /** `insert(document)`: takes the next id, stores the document, indexes
        every field, and saves unless a transaction is open. */
    method Insert(document: Json) returns (r: Result<int>)
      requires Valid() && ValidJson(document)
      modifies metaTree, metaTree.repo, dataTree.inner, dataTree.inner.repo
      ensures Valid()
      ensures r.Ok? ==> Get(JInt(r.value)) == Ok(document)
      ensures var next := NextIdOf(old(metaTree.Visible()));
              next.Err? ==> r == Err(next.error) && unchanged(metaTree, metaTree.repo, dataTree.inner, dataTree.inner.repo)
      ensures var next := NextIdOf(old(metaTree.Visible()));
              next.Ok? ==>
                var p := InsertData(old(dataTree.inner.Visible()), next.value, document);
                metaTree.Visible() == old(metaTree.Visible())[LAST_ID := IntToString(next.value)]
                && dataTree.inner.Visible() == p.tree
                && r == (if p.error.None? then Ok(next.value) else Err(p.error.value))
      ensures r.Ok? && !transactionOpen ==>
                dataTree.inner.working.None?
                && dataTree.inner.repo.history.commits
                   == old(dataTree.inner.repo.history.commits)
                      + [Git.Commit(dataTree.inner.Visible(), old(dataTree.inner.repo.history.head))]
      ensures r.Err? || transactionOpen ==> dataTree.inner.repo.history == old(dataTree.inner.repo.history)
    {
      var next := NextId();
      if next.Err? {
        return Err(next.error);
      }
      var id := next.value;
      ghost var before := dataTree.inner.Visible();
      InsertStoresAndIndexes(before, id, document);
      var err := StoreDocument(dataTree, id, document);
      if err.Some? {
        return Err(err.value);
      }
      if !transactionOpen {
        dataTree.Save();
      }
      r := Ok(id);
    }

    /** `update(d_id, document)`: replaces a stored document, pops position
        `d_id` from the bucket of every old field, indexes every new field,
        and saves unless a transaction is open. */
    method Update(id: int, document: Json) returns (r: Result<int>)
      requires Valid() && ValidJson(document)
      modifies dataTree.inner, dataTree.inner.repo
      ensures Valid()
      ensures r.Ok? ==> r.value == id && Get(JInt(id)) == Ok(document)
      ensures var before := old(dataTree.inner.Visible());
              DocKey(id) !in before ==> r == Err(ValueError) && unchanged(dataTree.inner, dataTree.inner.repo)
      ensures var before := old(dataTree.inner.Visible());
              DocKey(id) in before && Loads(before[DocKey(id)]).Err? ==>
                r == Err(DecodeError) && unchanged(dataTree.inner, dataTree.inner.repo)
      ensures var before := old(dataTree.inner.Visible());
              DocKey(id) in before && Loads(before[DocKey(id)]).Ok? ==>
                var p := UpdateData(before, id, Loads(before[DocKey(id)]).value, document);
                dataTree.inner.Visible() == p.tree
                && r == (if p.error.None? then Ok(id) else Err(p.error.value))
      ensures r.Ok? && !transactionOpen ==>
                dataTree.inner.working.None?
                && dataTree.inner.repo.history.commits
                   == old(dataTree.inner.repo.history.commits)
                      + [Git.Commit(dataTree.inner.Visible(), old(dataTree.inner.repo.history.head))]
      ensures r.Err? || transactionOpen ==> dataTree.inner.repo.history == old(dataTree.inner.repo.history)
    {
      var key := DocKey(id);
      var present := dataTree.Contains(key);
      if present.Err? {
        return Err(present.error);
      }
      if !present.value {
        return Err(ValueError);
      }
      var oldDoc := dataTree.Item(key).value;
      ghost var before := dataTree.inner.Visible();
      UpdateStoresAndIndexes(before, id, oldDoc, document);
      var err := ReplaceDocument(dataTree, id, oldDoc, document);
      if err.Some? {
        return Err(err.value);
      }
      if !transactionOpen {
        dataTree.Save();
      }
      r := Ok(id);
    }

    /** `get(doc_id)`: the stored document; an id that is not an `int` is a
        TypeError, and a missing document (or a stored `null`) a
        ValueError. */
    function Get(docId: Json): (r: Result<Json>)
      reads dataTree, dataTree.inner, dataTree.inner.repo
      requires dataTree.Valid()
      ensures !(docId.JInt? || docId.JBool?) ==> r == Err(TypeError)
      ensures docId.JInt? || docId.JBool? ==>
                var view := dataTree.inner.Visible();
                var key := IdKey(docId);
                (key !in view ==> r == Err(ValueError))
                && (key in view && Loads(view[key]).Err? ==> r == Err(DecodeError))
                && (key in view && Loads(view[key]) == Ok(JNull) ==> r == Err(ValueError))
                && (key in view && Loads(view[key]).Ok? && Loads(view[key]).value != JNull ==> r == Loads(view[key]))
    {
      if !(docId.JInt? || docId.JBool?) then Err(TypeError)
      else
        match dataTree.Get(IdKey(docId), JNull)
        case Err(e) => Err(e)
        case Ok(doc) => if doc == JNull then Err(ValueError) else Ok(doc)
    }

    /** `save()`: commits the data tree. */
    method Save()
      requires Valid()
      modifies dataTree.inner, dataTree.inner.repo
      ensures Valid() && dataTree.inner.working == None
      ensures dataTree.inner.repo.history.commits
              == old(dataTree.inner.repo.history.commits)
                 + [Git.Commit(old(dataTree.inner.Visible()), old(dataTree.inner.repo.history.head))]
      ensures dataTree.inner.Visible() == old(dataTree.inner.Visible())
    {
      dataTree.Save();
    }

    // ---------------------------------------------------------- transactions

    /** `begin_transaction()`: refused inside `transaction()` and while a
        transaction is open. */
    method BeginTransaction() returns (o: Outcome)
      requires Valid()
      modifies this
      ensures Valid()
      ensures o.Fail? <==> old(contextManaged || transactionOpen)
      ensures o.Fail? ==> o.error == ValueError && unchanged(this)
      ensures o.Pass? ==> transactionOpen && !contextManaged
    {
      if contextManaged || transactionOpen {
        return Fail(ValueError);
      }
      transactionOpen := true;
      o := Pass;
    }

    /** `commit()`: refused inside `transaction()` and when no transaction
        is open; otherwise closes it and saves the data tree. */
    method Commit() returns (o: Outcome)
      requires Valid()
      modifies this, dataTree.inner, dataTree.inner.repo
      ensures Valid()
      ensures o.Pass? <==> old(!contextManaged && transactionOpen)
      ensures o.Fail? ==> o.error == ValueError && unchanged(this, dataTree.inner, dataTree.inner.repo)
      ensures o.Pass? ==>
                !transactionOpen && !contextManaged && dataTree.inner.working.None?
                && dataTree.inner.repo.history.commits
                   == old(dataTree.inner.repo.history.commits)
                      + [Git.Commit(old(dataTree.inner.Visible()), old(dataTree.inner.repo.history.head))]
                && dataTree.inner.Visible() == old(dataTree.inner.Visible())
    {
      if contextManaged || !transactionOpen {
        return Fail(ValueError);
      }
      transactionOpen := false;
      dataTree.Save();
      o := Pass;
    }

    /** `rollback()`: refused inside `transaction()` and when no transaction
        is open; otherwise closes it and drops the unsaved data. */
    method Rollback() returns (o: Outcome)
      requires Valid()
      modifies this, dataTree.inner
      ensures Valid() && unchanged(dataTree.inner.repo)
      ensures o.Pass? <==> old(!contextManaged && transactionOpen)
      ensures o.Fail? ==> o.error == ValueError && unchanged(this, dataTree.inner)
      ensures o.Pass? ==>
                !transactionOpen && !contextManaged && dataTree.inner.working.None?
                && dataTree.inner.Visible() == dataTree.inner.repo.HeadTree()
    {
      if contextManaged || !transactionOpen {
        return Fail(ValueError);
      }
      transactionOpen := false;
      dataTree.Rollback();
      o := Pass;
    }

    /** Entering `with table.transaction():` begins a transaction and marks
        it as managed by the block. */
    method TransactionEnter() returns (o: Outcome)
      requires Valid()
      modifies this
      ensures Valid()
      ensures o.Fail? <==> old(contextManaged || transactionOpen)
      ensures o.Fail? ==> o.error == ValueError && unchanged(this)
      ensures o.Pass? ==> transactionOpen && contextManaged
    {
      o := BeginTransaction();
      if o.Pass? {
        contextManaged := true;
      }
    }

    /** Leaving the block: normally it commits; when the block raised
        `raised`, it rolls back and raises it again.  Either way no
        transaction is left open. */
    method TransactionExit(raised: Option<Error>) returns (o: Outcome)
      requires Valid() && contextManaged
      modifies this, dataTree.inner, dataTree.inner.repo
      ensures Valid() && !transactionOpen && !contextManaged && dataTree.inner.working.None?
      ensures raised.Some? ==>
                o == Fail(raised.value)
                && dataTree.inner.repo.history == old(dataTree.inner.repo.history)
                && dataTree.inner.Visible() == dataTree.inner.repo.HeadTree()
      ensures raised.None? ==>
                o == Pass
                && dataTree.inner.repo.history.commits
                   == old(dataTree.inner.repo.history.commits)
                      + [Git.Commit(old(dataTree.inner.Visible()), old(dataTree.inner.repo.history.head))]
                && dataTree.inner.Visible() == old(dataTree.inner.Visible())
    {
      contextManaged := false;
      if raised.Some? {
        var _ := Rollback();
        o := Fail(raised.value);
      } else {
        o := Commit();
      }
    }

    // --------------------------------------------------------------- history

    /** `save_state()`: the head of the data repository. */
    function SaveState(): (state: nat)
      reads dataTree, dataTree.inner, dataTree.inner.repo
      requires dataTree.Valid()
      ensures Some(state) == dataTree.inner.repo.history.head
    {
      dataTree.SaveState()
    }

    /** `revert_to_state(state)`. */
    method RevertToState(state: nat) returns (o: Outcome)
      requires Valid()
      modifies dataTree.inner.repo
      ensures Valid() && dataTree.inner.repo.history.commits == old(dataTree.inner.repo.history.commits)
      ensures state < |dataTree.inner.repo.history.commits| ==> o == Pass && dataTree.inner.repo.history.head == Some(state)
      ensures state >= |dataTree.inner.repo.history.commits| ==>
                o == Fail(KeyError) && dataTree.inner.repo.history.head == old(dataTree.inner.repo.history.head)
    {
      o := dataTree.RevertToState(state);
    }

    /** `revert_steps(steps)`. */
    method RevertSteps(steps: int)
      requires Valid()
      modifies dataTree.inner.repo
      ensures Valid() && dataTree.inner.repo.history.commits == old(dataTree.inner.repo.history.commits)
      ensures dataTree.inner.repo.history.head
              == Some(Walk(dataTree.inner.repo.history.commits, old(dataTree.inner.repo.history.head.value), steps))
    {
      dataTree.RevertSteps(steps);
    }

    // ----------------------------------------------------------------- find

    /** `find(where)`, `find_ids`, `find_items` and `find_one` on what the
        data tree shows, with the operators registered in `registry`. */
    ghost function Find(where: seq<(string, Json)>, registry: SearchFunction): (r: Result<seq<(int, Json)>>)
      reads dataTree, dataTree.inner, dataTree.inner.repo, registry
      requires dataTree.Valid()
      ensures r == Store.Find(dataTree.inner.Visible(), where, registry.funcs)
    {
      Store.Find(dataTree.inner.Visible(), where, registry.funcs)
    }

    ghost function FindIds(where: seq<(string, Json)>, registry: SearchFunction): (r: Result<seq<int>>)
      reads dataTree, dataTree.inner, dataTree.inner.repo, registry
      requires dataTree.Valid()
      ensures r == Store.FindIds(dataTree.inner.Visible(), where, registry.funcs)
    {
      Store.FindIds(dataTree.inner.Visible(), where, registry.funcs)
    }

    ghost function FindItems(where: seq<(string, Json)>, registry: SearchFunction): (r: Result<seq<Json>>)
      reads dataTree, dataTree.inner, dataTree.inner.repo, registry
      requires dataTree.Valid()
      ensures r == Store.FindItems(dataTree.inner.Visible(), where, registry.funcs)
    {
      Store.FindItems(dataTree.inner.Visible(), where, registry.funcs)
    }

    ghost function FindOne(where: seq<(string, Json)>, registry: SearchFunction): (r: Result<Option<(int, Json)>>)
      reads dataTree, dataTree.inner, dataTree.inner.repo, registry
      requires dataTree.Valid()
      ensures r == Store.FindOne(dataTree.inner.Visible(), where, registry.funcs)
    {
      Store.FindOne(dataTree.inner.Visible(), where, registry.funcs)
    }
  }

  /** Table equality is an equivalence decided by location alone. */
  lemma {:induction false} TableEqIsEquivalence(a: Table, b: Table, c: Table)
    ensures a.Eq(a)
    ensures a.Eq(b) <==> b.Eq(a)
    ensures a.Eq(b) && b.Eq(c) ==> a.Eq(c)
    ensures a.Eq(b) <==> a.location == b.location
  {
  }

  /** A table none of whose own objects changed is still valid as long as
      both its repositories still have a head. */
  twostate lemma {:induction false} TableKept(t: Table)
    requires old(t.Valid())
    requires unchanged(t, t.dataTree, t.dataTree.inner, t.metaTree)
    requires t.dataTree.inner.repo.history.head.Some? && t.metaTree.repo.history.head.Some?
    ensures t.Valid()
  {
  }

  /** Two handles on one table share its repositories but not their
      working trees.  A document inserted through `t1` inside a transaction
      stays out of what the clean handle `t2` reads (it still answers what
      it answered before), and once `t1` commits, `t2` reads it back. */
  method InsertSeenAfterCommit(t1: Table, t2: Table, document: Json)
    returns (r: Result<int>, hidden: Result<Json>, o: Outcome, shown: Result<Json>)
    requires t1.Valid() && t2.Valid() && ValidJson(document)
    requires {t2, t2.dataTree, t2.dataTree.inner, t2.metaTree} !! t1.Repr()
    requires t2.dataTree.inner.repo == t1.dataTree.inner.repo
    requires t1.transactionOpen && !t1.contextManaged && t2.dataTree.inner.working.None?
    modifies t1, t1.metaTree, t1.metaTree.repo, t1.dataTree.inner, t1.dataTree.inner.repo
    ensures t1.Valid() && t2.Valid()
    ensures r.Ok? ==> hidden == old(t2.Get(JInt(r.value)))
    ensures r.Ok? ==> o == Pass && shown == Ok(document)
  {
    r := t1.Insert(document);
    TableKept(t2);
    if r.Err? {
      return r, Err(ValueError), Fail(ValueError), Err(ValueError);
    }
    hidden := t2.Get(JInt(r.value));
    label Inserted:
    o := t1.Commit();
    TableKept@Inserted(t2);
    shown := t2.Get(JInt(r.value));
  }

  /** A document inserted through `t1` inside a transaction that `t1` then
      rolls back is never seen: both handles read afterwards what the clean
      handle `t2` read before the insert. */
  method InsertHiddenAfterRollback(t1: Table, t2: Table, document: Json)
    returns (r: Result<int>, o: Outcome, shown: Result<Json>)
    requires t1.Valid() && t2.Valid() && ValidJson(document)
    requires {t2, t2.dataTree, t2.dataTree.inner, t2.metaTree} !! t1.Repr()
    requires t2.dataTree.inner.repo == t1.dataTree.inner.repo
    requires t1.transactionOpen && !t1.contextManaged && t2.dataTree.inner.working.None?
    modifies t1, t1.metaTree, t1.metaTree.repo, t1.dataTree.inner, t1.dataTree.inner.repo
    ensures t1.Valid() && t2.Valid()
    ensures r.Ok? ==> o == Pass && shown == old(t2.Get(JInt(r.value)))
    ensures r.Ok? ==> t1.Get(JInt(r.value)) == old(t2.Get(JInt(r.value)))
  {
    r := t1.Insert(document);
    TableKept(t2);
    if r.Err? {
      return r, Fail(ValueError), Err(ValueError);
    }
    label Inserted:
    o := t1.Rollback();
    TableKept@Inserted(t2);
    shown := t2.Get(JInt(r.value));
  }

  /** Two handles on one table share its id counter: an id taken through
      `t1` is followed by the next one through `t2`, so ids keep increasing
      across handles. */
  method IdsAcrossHandles(t1: Table, t2: Table, d1: Json, d2: Json) returns (r1: Result<int>, r2: Result<int>)
    requires t1.Valid() && t2.Valid() && ValidJson(d1) && ValidJson(d2)
    requires {t2, t2.dataTree, t2.dataTree.inner, t2.metaTree} !! t1.Repr()
    requires t2.dataTree.inner.repo == t1.dataTree.inner.repo && t2.metaTree.repo == t1.metaTree.repo
    modifies t1.metaTree, t1.metaTree.repo, t1.dataTree.inner, t1.dataTree.inner.repo
    modifies t2.metaTree, t2.dataTree.inner
    ensures t1.Valid() && t2.Valid()
    ensures r1.Ok? && r2.Ok? ==> r2.value == r1.value + 1
  {
    r1 := t1.Insert(d1);
    TableKept(t2);
    r2 := t2.Insert(d2);
    if r1.Ok? {
      NextIdFollows(old(t1.metaTree.Visible()), r1.value);
    }
  }

  // -------------------------------------------------------------- database

  /** The registry step of `table(name)`: checks the name and records it
      in `table_list`, in the working tree only (nothing saves it). */
  method RegisterName(registry: JsonDictWrapper, name: string) returns (r: Result<Json>)
    requires registry.Valid()
    modifies registry.inner
    ensures registry.Valid() && unchanged(registry.inner.repo)
    ensures r == TableListAfter(old(registry.inner.Visible()), name)
    ensures r.Err? ==> unchanged(registry.inner)
    ensures r.Ok? ==> registry.inner.Visible() == old(registry.inner.Visible())[TABLE_LIST := Dumps(r.value)]
  {
    if name in RESERVED_TABLE_NAMES && name != DEFAULT_TABLE {
      return Err(ValueError);
    }
    var tables := registry.Get(TABLE_LIST, JArray([]));
    if tables.Err? {
      return Err(tables.error);
    }
    r := Register(tables.value, name);
    if r.Err? {
      return;
    }
    if TABLE_LIST in registry.inner.Visible() {
      LoadsValid(registry.inner.Visible()[TABLE_LIST]);
    }
    RegisterValid(tables.value, name);
    registry.SetItem(TABLE_LIST, r.value);
  }

  /** The registry of a database: the JSON-wrapped tree of its `__meta__`
      repository, empty when the repository is new. */
  method OpenRegistry(disk: Disk, path: string) returns (registry: JsonDictWrapper)
    requires disk.Valid()
    modifies disk, disk.Existing(path)
    ensures disk.Valid() && fresh(registry) && fresh(registry.inner) && registry.Valid()
    ensures registry.inner.repo.path == path && disk.repos == old(disk.repos)[path := registry.inner.repo]
    ensures path !in old(disk.repos) ==> registry.inner.Visible() == map[]
    ensures path in old(disk.repos) ==> registry.inner.repo == old(disk.repos)[path]
    ensures registry.inner.Visible() == old(StoredTree(disk, path))
  {
    var inner := OpenTree(disk, path);
    registry := new JsonDictWrapper(inner);
  }

  /** `table(name)` on a database at `location` whose registry is
      `registry`: registers the name, then opens the table's directory. */
  method RegisterAndOpen(disk: Disk, registry: JsonDictWrapper, location: string, name: string)
    returns (r: Result<Table>)
    requires disk.Valid() && registry.Valid()
    requires registry.inner.repo.path == Join(location, META_NAME)
    modifies disk, registry.inner
    modifies disk.Existing(Join(Join(location, name), "data")), disk.Existing(Join(Join(location, name), "meta"))
    ensures disk.Valid() && registry.Valid() && unchanged(registry.inner.repo)
    ensures var list := TableListAfter(old(registry.inner.Visible()), name);
            (list.Err? ==> r == Err(list.error) && unchanged(disk, registry.inner)
                           && unchanged(disk.Existing(Join(Join(location, name), "data")))
                           && unchanged(disk.Existing(Join(Join(location, name), "meta"))))
            && (list.Ok? ==>
                  r.Ok? && fresh(r.value) && r.value.Valid()
                  && r.value.name == name && r.value.location == Join(location, name)
                  && !r.value.transactionOpen && !r.value.contextManaged
                  && registry.inner.Visible() == old(registry.inner.Visible())[TABLE_LIST := Dumps(list.value)])
    ensures r.Ok? ==> r.value.dataTree.inner != registry.inner && r.value.metaTree != registry.inner
    ensures var dir := Join(location, name);
            r.Ok? ==> old(disk.Existing(Join(dir, "data"))) <= {r.value.dataTree.inner.repo}
                      && old(disk.Existing(Join(dir, "meta"))) <= {r.value.metaTree.repo}
  {
    var list := RegisterName(registry, name);
    if list.Err? {
      return Err(list.error);
    }
    ghost var after := registry.inner.Visible();
    var dir := Join(location, name);
    JoinEndsDiffer(location, META_NAME, dir, "data");
    JoinEndsDiffer(location, META_NAME, dir, "meta");
    label Registered:
    var t := new Table(name, dir, disk);
    assert unchanged@Registered(registry.inner, registry.inner.repo);
    assert registry.inner.Visible() == after;
    r := Ok(t);
  }

  /** `GitDB(location)`: the registry of table names in `__meta__`, and the
      default table every unknown attribute is forwarded to. */
  class GitDB {
    const location: string
    const disk: Disk
    const metaTree: JsonDictWrapper
    const defaultTable: Table

    ghost function Repr(): set<object>
      reads this
    {
      {this, disk, metaTree, metaTree.inner, metaTree.inner.repo} + defaultTable.Repr()
    }

    ghost predicate Valid()
      reads Repr()
    {
      disk.Valid() && metaTree.Valid() && defaultTable.Valid()
      && metaTree.inner.repo.path == Join(location, META_NAME)
      && defaultTable.name == DEFAULT_TABLE
      && defaultTable.location == Join(location, DEFAULT_TABLE)
      && metaTree.inner != defaultTable.dataTree.inner
      && metaTree.inner != defaultTable.metaTree
      && metaTree.inner.repo != defaultTable.dataTree.inner.repo
      && metaTree.inner.repo != defaultTable.metaTree.repo
    }

    constructor (location: string, disk: Disk, metaTree: JsonDictWrapper, defaultTable: Table)
      requires disk.Valid() && metaTree.Valid() && defaultTable.Valid()
      requires metaTree.inner.repo.path == Join(location, META_NAME)
      requires defaultTable.name == DEFAULT_TABLE && defaultTable.location == Join(location, DEFAULT_TABLE)
      requires metaTree.inner != defaultTable.dataTree.inner && metaTree.inner != defaultTable.metaTree
      requires metaTree.inner.repo != defaultTable.dataTree.inner.repo && metaTree.inner.repo != defaultTable.metaTree.repo
      ensures Valid()
      ensures this.location == location && this.disk == disk
      ensures this.metaTree == metaTree && this.defaultTable == defaultTable
    {
      this.location := location;
      this.disk := disk;
      this.metaTree := metaTree;
      this.defaultTable := defaultTable;
    }

    /** `GitDB(location)`: opens (or creates) the `__meta__` repository,
        wraps it, and opens the default table, which registers it.  A fresh
        directory always opens. */
    static method Open(location: string, disk: Disk) returns (r: Result<GitDB>)
      requires disk.Valid()
      modifies disk, disk.Existing(Join(location, META_NAME))
      modifies disk.Existing(Join(Join(location, DEFAULT_TABLE), "data"))
      modifies disk.Existing(Join(Join(location, DEFAULT_TABLE), "meta"))
      ensures disk.Valid()
      ensures r.Ok? ==> fresh(r.value) && r.value.Valid() && r.value.location == location && r.value.disk == disk
      ensures Join(location, META_NAME) !in old(disk.repos) ==>
                r.Ok? && r.value.metaTree.inner.Visible() == map[TABLE_LIST := Dumps(JArray([JString(DEFAULT_TABLE)]))]
      ensures var stored := old(StoredTree(disk, Join(location, META_NAME)));
              var list := TableListAfter(stored, DEFAULT_TABLE);
              (r.Ok? <==> list.Ok?)
              && (r.Ok? ==> r.value.metaTree.inner.Visible() == stored[TABLE_LIST := Dumps(list.value)])
      ensures var dir := Join(location, DEFAULT_TABLE);
              r.Ok? ==> old(disk.Existing(Join(location, META_NAME))) <= {r.value.metaTree.inner.repo}
                        && old(disk.Existing(Join(dir, "data"))) <= {r.value.defaultTable.dataTree.inner.repo}
                        && old(disk.Existing(Join(dir, "meta"))) <= {r.value.defaultTable.metaTree.repo}
    {
      var metaPath := Join(location, META_NAME);
      var dir := Join(location, DEFAULT_TABLE);
      JoinEndsDiffer(location, META_NAME, dir, "data");
      JoinEndsDiffer(location, META_NAME, dir, "meta");
      var registry := OpenRegistry(disk, metaPath);
      assert disk.Existing(Join(dir, "data")) == old(disk.Existing(Join(dir, "data")));
      assert disk.Existing(Join(dir, "meta")) == old(disk.Existing(Join(dir, "meta")));
      ghost var newDir := metaPath !in old(disk.repos);
      if newDir {
        FreshRegistryOpens();
      }
      var table := RegisterAndOpen(disk, registry, location, DEFAULT_TABLE);
      if table.Err? {
        return Err(table.error);
      }
      assert newDir ==> registry.inner.Visible() == map[][TABLE_LIST := Dumps(JArray([JString(DEFAULT_TABLE)]))];
      var db := new GitDB(location, disk, registry, table.value);
      r := Ok(db);
    }

    /** `table(name)` and `db[name]`: a new handle on the table, registered
        in the (unsaved) registry.  Two handles on one name are equal. */
    method GetTable(name: string) returns (r: Result<Table>)
      requires Valid()
      modifies disk, metaTree.inner
      modifies disk.Existing(Join(Join(location, name), "data")), disk.Existing(Join(Join(location, name), "meta"))
      ensures Valid() && unchanged(metaTree.inner.repo)
      ensures var list := TableListAfter(old(metaTree.inner.Visible()), name);
              (list.Err? ==> r == Err(list.error) && unchanged(disk, metaTree.inner))
              && (list.Ok? ==>
                    r.Ok? && fresh(r.value) && r.value.Valid()
                    && r.value.name == name && r.value.location == Join(location, name)
                    && !r.value.transactionOpen && !r.value.contextManaged
                    && metaTree.inner.Visible() == old(metaTree.inner.Visible())[TABLE_LIST := Dumps(list.value)])
      ensures var dir := Join(location, name);
              r.Ok? ==> old(disk.Existing(Join(dir, "data"))) <= {r.value.dataTree.inner.repo}
                        && old(disk.Existing(Join(dir, "meta"))) <= {r.value.metaTree.repo}
    {
      ghost var touched := disk.Existing(Join(Join(location, name), "data"))
                           + disk.Existing(Join(Join(location, name), "meta"));
      label Before:
      r := RegisterAndOpen(disk, metaTree, location, name);
      // Opening the table again may commit to the default table's
      // repositories, but only to ones the new table holds, which keep a head.
      ghost var dataRepo, metaRepo := defaultTable.dataTree.inner.repo, defaultTable.metaTree.repo;
      if r.Ok? {
        assert touched <= {r.value.dataTree.inner.repo, r.value.metaTree.repo};
      }
      assert dataRepo !in touched ==> unchanged@Before(dataRepo);
      assert metaRepo !in touched ==> unchanged@Before(metaRepo);
      TableKept@Before(defaultTable);
    }

    /** `drop(name, force)`: deletes the table's directory when the registry
        lists it.  The registry itself is left as it was, so the name stays
        listed. */
    method Drop(name: string, force: bool) returns (o: Outcome)
      requires Valid()
      modifies disk
      ensures Valid()
      ensures var plan := DropPlan(metaTree.inner.Visible(), name, force);
              (plan.Err? ==> o == Fail(plan.error) && unchanged(disk))
              && (plan == Ok(false) ==> o == Pass && unchanged(disk))
              && (plan == Ok(true) ==>
                    (forall p :: p in disk.repos <==> p in old(disk.repos) && !Under(p, Join(location, name)))
                    && (forall p :: p in disk.repos ==> disk.repos[p] == old(disk.repos)[p])
                    && (o == Pass <==> exists p :: p in old(disk.repos) && Under(p, Join(location, name)))
                    && (o.Fail? ==> o.error == ValueError))
    {
      if name in RESERVED_TABLE_NAMES {
        return Fail(ValueError);
      }
      var tables := metaTree.Get(TABLE_LIST, JArray([]));
      if tables.Err? {
        return Fail(tables.error);
      }
      var listed := Listed(tables.value, name);
      if listed.Err? {
        return Fail(listed.error);
      }
      if !listed.value && !force {
        return Fail(ValueError);
      } else if force {
        return Pass;
      }
      if !tables.value.JArray? {
        return Fail(AttributeError);
      }
      var removed := disk.RemoveTree(Join(location, name));
      o := if removed then Pass else Fail(ValueError);
    }

    // ------------------------------------------------------------ forwarding

    /** `db.insert(document)`: `__getattr__` hands it to the default table, so
        the contract is that of `Table.Insert` on `defaultTable`. */
    method Insert(document: Json) returns (r: Result<int>)
      requires Valid() && ValidJson(document)
      modifies defaultTable.metaTree, defaultTable.metaTree.repo, defaultTable.dataTree.inner, defaultTable.dataTree.inner.repo
      ensures Valid()
      ensures r.Ok? ==> defaultTable.Get(JInt(r.value)) == Ok(document)
      ensures var next := NextIdOf(old(defaultTable.metaTree.Visible()));
              next.Err? ==> r == Err(next.error) && unchanged(defaultTable.metaTree, defaultTable.metaTree.repo, defaultTable.dataTree.inner, defaultTable.dataTree.inner.repo)
      ensures var next := NextIdOf(old(defaultTable.metaTree.Visible()));
              next.Ok? ==>
                var p := InsertData(old(defaultTable.dataTree.inner.Visible()), next.value, document);
                defaultTable.metaTree.Visible() == old(defaultTable.metaTree.Visible())[LAST_ID := IntToString(next.value)]
                && defaultTable.dataTree.inner.Visible() == p.tree
                && r == (if p.error.None? then Ok(next.value) else Err(p.error.value))
      ensures r.Ok? && !defaultTable.transactionOpen ==>
                defaultTable.dataTree.inner.working.None?
                && defaultTable.dataTree.inner.repo.history.commits
                   == old(defaultTable.dataTree.inner.repo.history.commits)
                      + [Git.Commit(defaultTable.dataTree.inner.Visible(), old(defaultTable.dataTree.inner.repo.history.head))]
      ensures r.Err? || defaultTable.transactionOpen ==> defaultTable.dataTree.inner.repo.history == old(defaultTable.dataTree.inner.repo.history)
    {
      r := defaultTable.Insert(document);
    }

    /** `db.update(d_id, document)`: `__getattr__` hands it to the default table, so
        the contract is that of `Table.Update` on `defaultTable`. */
    method Update(id: int, document: Json) returns (r: Result<int>)
      requires Valid() && ValidJson(document)
      modifies defaultTable.dataTree.inner, defaultTable.dataTree.inner.repo
      ensures Valid()
      ensures r.Ok? ==> r.value == id && defaultTable.Get(JInt(id)) == Ok(document)
      ensures var before := old(defaultTable.dataTree.inner.Visible());
              DocKey(id) !in before ==> r == Err(ValueError) && unchanged(defaultTable.dataTree.inner, defaultTable.dataTree.inner.repo)
      ensures var before := old(defaultTable.dataTree.inner.Visible());
              DocKey(id) in before && Loads(before[DocKey(id)]).Err? ==>
                r == Err(DecodeError) && unchanged(defaultTable.dataTree.inner, defaultTable.dataTree.inner.repo)
      ensures var before := old(defaultTable.dataTree.inner.Visible());
              DocKey(id) in before && Loads(before[DocKey(id)]).Ok? ==>
                var p := UpdateData(before, id, Loads(before[DocKey(id)]).value, document);
                defaultTable.dataTree.inner.Visible() == p.tree
                && r == (if p.error.None? then Ok(id) else Err(p.error.value))
      ensures r.Ok? && !defaultTable.transactionOpen ==>
                defaultTable.dataTree.inner.working.None?
                && defaultTable.dataTree.inner.repo.history.commits
                   == old(defaultTable.dataTree.inner.repo.history.commits)
                      + [Git.Commit(defaultTable.dataTree.inner.Visible(), old(defaultTable.dataTree.inner.repo.history.head))]
      ensures r.Err? || defaultTable.transactionOpen ==> defaultTable.dataTree.inner.repo.history == old(defaultTable.dataTree.inner.repo.history)
    {
      r := defaultTable.Update(id, document);
    }

    /** `db.get(doc_id)`: `__getattr__` hands it to the default table, so
        the contract is that of `Table.Get` on `defaultTable`. */
    function Get(docId: Json): (r: Result<Json>)
      reads defaultTable.dataTree, defaultTable.dataTree.inner, defaultTable.dataTree.inner.repo
      requires defaultTable.dataTree.Valid()
      ensures !(docId.JInt? || docId.JBool?) ==> r == Err(TypeError)
      ensures docId.JInt? || docId.JBool? ==>
                var view := defaultTable.dataTree.inner.Visible();
                var key := IdKey(docId);
                (key !in view ==> r == Err(ValueError))
                && (key in view && Loads(view[key]).Err? ==> r == Err(DecodeError))
                && (key in view && Loads(view[key]) == Ok(JNull) ==> r == Err(ValueError))
                && (key in view && Loads(view[key]).Ok? && Loads(view[key]).value != JNull ==> r == Loads(view[key]))
    {
      defaultTable.Get(docId)
    }

    /** `db.save()`: `__getattr__` hands it to the default table, so
        the contract is that of `Table.Save` on `defaultTable`. */
    method Save()
      requires Valid()
      modifies defaultTable.dataTree.inner, defaultTable.dataTree.inner.repo
      ensures Valid() && defaultTable.dataTree.inner.working == None
      ensures defaultTable.dataTree.inner.repo.history.commits
              == old(defaultTable.dataTree.inner.repo.history.commits)
                 + [Git.Commit(old(defaultTable.dataTree.inner.Visible()), old(defaultTable.dataTree.inner.repo.history.head))]
      ensures defaultTable.dataTree.inner.Visible() == old(defaultTable.dataTree.inner.Visible())
    {
      defaultTable.Save();
    }

    /** `db.begin_transaction()`: `__getattr__` hands it to the default table, so
        the contract is that of `Table.BeginTransaction` on `defaultTable`. */
    method BeginTransaction() returns (o: Outcome)
      requires Valid()
      modifies defaultTable
      ensures Valid()
      ensures o.Fail? <==> old(defaultTable.contextManaged || defaultTable.transactionOpen)
      ensures o.Fail? ==> o.error == ValueError && unchanged(defaultTable)
      ensures o.Pass? ==> defaultTable.transactionOpen && !defaultTable.contextManaged
    {
      o := defaultTable.BeginTransaction();
    }

    /** `db.commit()`: `__getattr__` hands it to the default table, so
        the contract is that of `Table.Commit` on `defaultTable`. */
    method Commit() returns (o: Outcome)
      requires Valid()
      modifies defaultTable, defaultTable.dataTree.inner, defaultTable.dataTree.inner.repo
      ensures Valid()
      ensures o.Pass? <==> old(!defaultTable.contextManaged && defaultTable.transactionOpen)
      ensures o.Fail? ==> o.error == ValueError && unchanged(defaultTable, defaultTable.dataTree.inner, defaultTable.dataTree.inner.repo)
      ensures o.Pass? ==>
                !defaultTable.transactionOpen && !defaultTable.contextManaged && defaultTable.dataTree.inner.working.None?
                && defaultTable.dataTree.inner.repo.history.commits
                   == old(defaultTable.dataTree.inner.repo.history.commits)
                      + [Git.Commit(old(defaultTable.dataTree.inner.Visible()), old(defaultTable.dataTree.inner.repo.history.head))]
                && defaultTable.dataTree.inner.Visible() == old(defaultTable.dataTree.inner.Visible())
    {
      o := defaultTable.Commit();
    }

    /** `db.rollback()`: `__getattr__` hands it to the default table, so
        the contract is that of `Table.Rollback` on `defaultTable`. */
    method Rollback() returns (o: Outcome)
      requires Valid()
      modifies defaultTable, defaultTable.dataTree.inner
      ensures Valid() && unchanged(defaultTable.dataTree.inner.repo)
      ensures o.Pass? <==> old(!defaultTable.contextManaged && defaultTable.transactionOpen)
      ensures o.Fail? ==> o.error == ValueError && unchanged(defaultTable, defaultTable.dataTree.inner)
      ensures o.Pass? ==>
                !defaultTable.transactionOpen && !defaultTable.contextManaged && defaultTable.dataTree.inner.working.None?
                && defaultTable.dataTree.inner.Visible() == defaultTable.dataTree.inner.repo.HeadTree()
    {
      o := defaultTable.Rollback();
    }

    /** Entering `with db.transaction():`: `__getattr__` hands it to the default table, so
        the contract is that of `Table.TransactionEnter` on `defaultTable`. */
    method TransactionEnter() returns (o: Outcome)
      requires Valid()
      modifies defaultTable
      ensures Valid()
      ensures o.Fail? <==> old(defaultTable.contextManaged || defaultTable.transactionOpen)
      ensures o.Fail? ==> o.error == ValueError && unchanged(defaultTable)
      ensures o.Pass? ==> defaultTable.transactionOpen && defaultTable.contextManaged
    {
      o := defaultTable.TransactionEnter();
    }

    /** Leaving `with db.transaction():`: `__getattr__` hands it to the default table, so
        the contract is that of `Table.TransactionExit` on `defaultTable`. */
    method TransactionExit(raised: Option<Error>) returns (o: Outcome)
      requires Valid() && defaultTable.contextManaged
      modifies defaultTable, defaultTable.dataTree.inner, defaultTable.dataTree.inner.repo
      ensures Valid() && !defaultTable.transactionOpen && !defaultTable.contextManaged && defaultTable.dataTree.inner.working.None?
      ensures raised.Some? ==>
                o == Fail(raised.value)
                && defaultTable.dataTree.inner.repo.history == old(defaultTable.dataTree.inner.repo.history)
                && defaultTable.dataTree.inner.Visible() == defaultTable.dataTree.inner.repo.HeadTree()
      ensures raised.None? ==>
                o == Pass
                && defaultTable.dataTree.inner.repo.history.commits
                   == old(defaultTable.dataTree.inner.repo.history.commits)
                      + [Git.Commit(old(defaultTable.dataTree.inner.Visible()), old(defaultTable.dataTree.inner.repo.history.head))]
                && defaultTable.dataTree.inner.Visible() == old(defaultTable.dataTree.inner.Visible())
    {
      o := defaultTable.TransactionExit(raised);
    }

    /** `db.save_state()`: `__getattr__` hands it to the default table, so
        the contract is that of `Table.SaveState` on `defaultTable`. */
    function SaveState(): (state: nat)
      reads defaultTable.dataTree, defaultTable.dataTree.inner, defaultTable.dataTree.inner.repo
      requires defaultTable.dataTree.Valid()
      ensures Some(state) == defaultTable.dataTree.inner.repo.history.head
    {
      defaultTable.SaveState()
    }

    /** `db.revert_to_state(state)`: `__getattr__` hands it to the default table, so
        the contract is that of `Table.RevertToState` on `defaultTable`. */
    method RevertToState(state: nat) returns (o: Outcome)
      requires Valid()
      modifies defaultTable.dataTree.inner.repo
      ensures Valid() && defaultTable.dataTree.inner.repo.history.commits == old(defaultTable.dataTree.inner.repo.history.commits)
      ensures state < |defaultTable.dataTree.inner.repo.history.commits| ==> o == Pass && defaultTable.dataTree.inner.repo.history.head == Some(state)
      ensures state >= |defaultTable.dataTree.inner.repo.history.commits| ==>
                o == Fail(KeyError) && defaultTable.dataTree.inner.repo.history.head == old(defaultTable.dataTree.inner.repo.history.head)
    {
      o := defaultTable.RevertToState(state);
    }

    /** `db.revert_steps(steps)`: `__getattr__` hands it to the default table, so
        the contract is that of `Table.RevertSteps` on `defaultTable`. */
    method RevertSteps(steps: int)
      requires Valid()
      modifies defaultTable.dataTree.inner.repo
      ensures Valid() && defaultTable.dataTree.inner.repo.history.commits == old(defaultTable.dataTree.inner.repo.history.commits)
      ensures defaultTable.dataTree.inner.repo.history.head
              == Some(Walk(defaultTable.dataTree.inner.repo.history.commits, old(defaultTable.dataTree.inner.repo.history.head.value), steps))
    {
      defaultTable.RevertSteps(steps);
    }

    /** `db.find(where)`: `__getattr__` hands it to the default table, so
        the contract is that of `Table.Find` on `defaultTable`. */
    ghost function Find(where: seq<(string, Json)>, registry: SearchFunction): (r: Result<seq<(int, Json)>>)
      reads defaultTable.dataTree, defaultTable.dataTree.inner, defaultTable.dataTree.inner.repo, registry
      requires defaultTable.dataTree.Valid()
      ensures r == Store.Find(defaultTable.dataTree.inner.Visible(), where, registry.funcs)
    {
      defaultTable.Find(where, registry)
    }

    /** `db.find_ids(where)`: `__getattr__` hands it to the default table, so
        the contract is that of `Table.FindIds` on `defaultTable`. */
    ghost function FindIds(where: seq<(string, Json)>, registry: SearchFunction): (r: Result<seq<int>>)
      reads defaultTable.dataTree, defaultTable.dataTree.inner, defaultTable.dataTree.inner.repo, registry
      requires defaultTable.dataTree.Valid()
      ensures r == Store.FindIds(defaultTable.dataTree.inner.Visible(), where, registry.funcs)
    {
      defaultTable.FindIds(where, registry)
    }

    /** `db.find_items(where)`: `__getattr__` hands it to the default table, so
        the contract is that of `Table.FindItems` on `defaultTable`. */
    ghost function FindItems(where: seq<(string, Json)>, registry: SearchFunction): (r: Result<seq<Json>>)
      reads defaultTable.dataTree, defaultTable.dataTree.inner, defaultTable.dataTree.inner.repo, registry
      requires defaultTable.dataTree.Valid()
      ensures r == Store.FindItems(defaultTable.dataTree.inner.Visible(), where, registry.funcs)
    {
      defaultTable.FindItems(where, registry)
    }

    /** `db.find_one(where)`: `__getattr__` hands it to the default table, so
        the contract is that of `Table.FindOne` on `defaultTable`. */
    ghost function FindOne(where: seq<(string, Json)>, registry: SearchFunction): (r: Result<Option<(int, Json)>>)
      reads defaultTable.dataTree, defaultTable.dataTree.inner, defaultTable.dataTree.inner.repo, registry
      requires defaultTable.dataTree.Valid()
      ensures r == Store.FindOne(defaultTable.dataTree.inner.Visible(), where, registry.funcs)
    {
      defaultTable.FindOne(where, registry)
    }
  }
}
