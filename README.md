# ogitm — a git-backed document store and object mapper, modelled in Dafny

ogitm keeps JSON documents in git repositories. A database (`GitDB`) is a
directory that holds a `__meta__` repository. That repository stores a
registry of table names under the entry `table_list`. Each table (`Table`) is
its own directory with two repositories:

- `data` holds each document as the JSON text `doc-{id}`. It also holds one
  index per field, `index-{field}`. An index maps the JSON text of a value to
  the list of ids whose document holds that value.
- `meta` holds the id counter `meta-last_id`.

A `TreeWrapper` presents one repository as a string-to-string mapping. Reads
come from the head commit until the first edit. That edit copies the head
tree into a working tree, and `save` commits the working tree on top of
head. `JsonDictWrapper` puts `json.dumps`/`json.loads` in front of such a
mapping. `SearchFunction` is the registry of query operators; it holds one
operator, `exists`.

A table's operations are:

- `insert`, which takes the next id, stores the document and appends the id
  to each field's index;
- `update`;
- `get`;
- `find` (with `find_ids`, `find_items` and `find_one`);
- the transactions `begin_transaction`, `commit`, `rollback` and the
  `transaction()` context;
- the history operations `save_state`, `revert_to_state` and
  `revert_steps`.

On top of the store sits the object mapper:

- Field validators (`String`, `Integer`) are configured by keyword arguments.
  They answer `check(val)` by coercing the value, checking its type, then
  matching a regex or checking bounds.
- The metaclass `MetaModel` records the fields of each model class in
  `type_attributes`.
- `Model.__init__` accepts only declared keyword arguments. It checks each
  declared field in turn and sets the attributes.

Each source file becomes one module:

| Module | Source | What it models |
|---|---|---|
| `TreeWrappers` | `treewrapper.py` | a class over a `Repo` |
| `JsonWrapper` | `json_wrapper.py` | a class over a `TreeWrapper` |
| `SearchFunctions` | `search_functions.py` | the operator registry and `exists` |
| `GitDb` | `gitdb/__init__.py` | the classes `GitDB` and `Table`, and the methods their operations are built from |
| `Fields` | `fields.py` | the field values and their constructors and checks |
| `OGitM` | `ogitm.py` | the classes `MetaModel` and `Model` |

Supporting modules model what those files rely on:

- `Store`: the layout of the data tree, and pure functions over it for the
  index edits and for `find`.
- `Git`: the repository history, holding commits with parents and a head.
- `FileSystem`: `os.path.join`, `pygit2.init_repository` and
  `shutil.rmtree`, over a map from paths to repositories.
- `Json` and `JsonStrings`: the subset of the `json` codec the store uses.
- `Numerals`: `str(int)` and `int(str)`.
- `SortedSets`: one fixed iteration order for a set of ids.
- `Base`: `Option`, `Result` and the exception kinds.

Several behaviours of the code as written are modelled exactly as they are:

- `update` calls `list.pop(d_id)`, which removes the bucket entry at
  position `d_id`, not the entry equal to `d_id`. `Store.UpdatePopsByPosition`
  shows a document that cannot be updated because of it.
- `_find_complex` calls each operator with six arguments, but `exists` takes
  four. Every dictionary search term therefore raises `TypeError` (or
  `KeyError` for an unknown operator).
- `drop(name, force=True)` returns without deleting anything.
- `drop` removes the name from a decoded copy of the registry and never
  writes the registry back.
- `table(name)` writes the registry entry but does not commit it.
- `revert_to_state` and `revert_steps` move head but keep any working tree.

## Model

| member | source | states |
|---|---|---|
| Numerals.PyIntRoundTrip | ogitm/gitdb/__init__.py:119-129 | `int(str(i)) == i` for every integer, so the counter `_get_next_id` writes reads back as the same id |
| Numerals.IntToStringInjective | ogitm/gitdb/__init__.py:335 | distinct ids have distinct decimal texts |
| JsonStrings.EscapeCharRoundTrip | ogitm/gitdb/json_wrapper.py:25-29 | every character's escape, whether a short escape, a printable character, `\uXXXX` or a surrogate pair, reads back as that character and leaves the following text untouched |
| JsonStrings.SurrogatePairRoundTrip | ogitm/gitdb/json_wrapper.py:25-29 | a character above U+FFFF, written as a surrogate pair of `\uXXXX` escapes, reads back as that one character |
| JsonStrings.EscapeRoundTrip | ogitm/gitdb/json_wrapper.py:25-29 | `json.loads` reads the body of a quoted string written by `json.dumps` back to exactly the original string, stopping at the closing quote |
| Json.Lookup | ogitm/gitdb/__init__.py:341-342 | `d.get(k)` finds a value exactly when `k` is a key of the dict |
| Json.Put | ogitm/gitdb/__init__.py:342 | `d[k] = v` adds `k` to the keys, makes `d[k]` equal `v`, puts a new key at the end and keeps the keys distinct |
| Json.PutOthers | ogitm/gitdb/__init__.py:342 | `d[k] = v` leaves the value of every other key unchanged |
| Json.NumberRoundTrip | ogitm/gitdb/json_wrapper.py:25-29 | the text of any integer, negative or not, reads back as that integer and leaves the delimiter after it |
| Json.StringRoundTrip | ogitm/gitdb/json_wrapper.py:25-29 | a quoted string reads back as the same string |
| Json.ArrayRoundTrip | ogitm/gitdb/json_wrapper.py:25-29 | a dumped list reads back as the same list, element by element |
| Json.ObjectRoundTrip | ogitm/gitdb/json_wrapper.py:25-29 | a dumped dict without repeated keys reads back as the same dict, with its keys in the same order |
| Json.ValueRoundTrip | ogitm/gitdb/json_wrapper.py:25-29 | any valid value that `json.dumps` writes, followed by a delimiter, reads back as that value |
| Json.LoadsDumps | ogitm/gitdb/json_wrapper.py:25-29 | `json.loads(json.dumps(v)) == v`, so a wrapped mapping returns what was stored |
| Json.LoadsValid | ogitm/gitdb/json_wrapper.py:25-26 | whatever `json.loads` returns has no dict with a repeated key, at any depth |
| Json.Loads | ogitm/gitdb/json_wrapper.py:25-26 | the only way `json.loads` fails is a decode error |
| Json.Dumps | ogitm/gitdb/json_wrapper.py:28-29 | `json.dumps` writes non-empty text that does not start with whitespace; `LoadsDumps` reads it back |
| Json.DumpsInjective | ogitm/gitdb/__init__.py:339-342 | distinct values have distinct JSON texts, so distinct values fall into distinct index buckets |
| SortedSets.SortedIds | ogitm/gitdb/__init__.py:492-494 | lists exactly the ids of the set, in strictly ascending order |
| Git.Repo.CreateCommit | ogitm/gitdb/treewrapper.py:89-91 | appends one commit holding the tree, with the old head as parent, and moves head to it |
| Git.Repo.Reset | ogitm/gitdb/treewrapper.py:128 | moves head to an existing commit and leaves the commits alone; a commit that does not exist is a KeyError and head stays |
| Git.Walk | ogitm/gitdb/treewrapper.py:134-140 | the commit `revert_steps` stops at exists and is no later than the start |
| Git.WalkLandsOnAncestor | ogitm/gitdb/treewrapper.py:134-140 | with `n >= 0` steps and at least `n` ancestors, the walk lands on the `n`-th ancestor; with fewer ancestors or negative `n` it lands on the root commit |
| FileSystem.JoinParts | ogitm/gitdb/__init__.py:69 | `os.path.join(a, b)` is `b` when `b` is absolute; otherwise the result starts with all of `a` and ends with all of `b` |
| FileSystem.JoinEndsDiffer | ogitm/gitdb/__init__.py:135-140 | joining relative names with different endings gives different paths, so a table's `data` and `meta` repositories and the `__meta__` registry never coincide |
| FileSystem.Disk.InitRepository | ogitm/gitdb/__init__.py:136 | returns the repository already at the path unchanged, or creates an empty one there; no other path changes |
| FileSystem.Disk.RemoveTree | ogitm/gitdb/__init__.py:96-97 | removes exactly the repositories at or under the directory, keeps the rest unchanged, and reports whether it removed any |
| TreeWrappers.TreeWrapper.constructor | ogitm/gitdb/treewrapper.py:9-14 | commits the head tree (the empty tree in a new repository) as the initial state on top of the old head; the wrapper starts clean |
| TreeWrappers.TreeWrapper.GetTree | ogitm/gitdb/treewrapper.py:116-122 | nothing only in an empty repository; a valid wrapper always has a tree to base a save on, which is the mapping reads see while clean and the tree last copied from head while dirty |
| TreeWrappers.TreeWrapper.GetParents | ogitm/gitdb/treewrapper.py:101-105 | no parent in an empty repository, otherwise exactly the head commit |
| TreeWrappers.TreeWrapper.NewWorkingTree | ogitm/gitdb/treewrapper.py:107-114 | the working tree and the last saved tree become the head tree, and the tracked names become its names; reads see the same mapping as before |
| TreeWrappers.TreeWrapper.SetItem | ogitm/gitdb/treewrapper.py:16-22 | the visible mapping becomes the old one with `name` set to `text`; the wrapper is dirty afterwards |
| TreeWrappers.TreeWrapper.Item | ogitm/gitdb/treewrapper.py:24-42 | succeeds exactly when the name is visible and returns its text; otherwise KeyError |
| TreeWrappers.TreeWrapper.Get | ogitm/gitdb/treewrapper.py:71-75 | the text the visible mapping holds for the name, or None when the name is not visible |
| TreeWrappers.TreeWrapper.DelItem | ogitm/gitdb/treewrapper.py:44-49 | removes the name from the visible mapping; fails with KeyError exactly when the name was not visible, yet still leaves the wrapper dirty |
| TreeWrappers.TreeWrapper.Contains | ogitm/gitdb/treewrapper.py:51-59 | `name in w` exactly when `w[name]` succeeds |
| TreeWrappers.TreeWrapper.ItemsList | ogitm/gitdb/treewrapper.py:61-69 | the listed names are exactly the names a read finds, clean or dirty |
| TreeWrappers.TreeWrapper.Clear | ogitm/gitdb/treewrapper.py:77-82 | the visible mapping and the listed names become empty |
| TreeWrappers.TreeWrapper.Save | ogitm/gitdb/treewrapper.py:84-94 | appends one commit of the visible tree on top of head, moves head to it, returns to clean, and reads see the same mapping |
| TreeWrappers.TreeWrapper.Rollback | ogitm/gitdb/treewrapper.py:96-99 | drops the working tree without touching the repository; reads come from head again |
| TreeWrappers.TreeWrapper.SaveState | ogitm/gitdb/treewrapper.py:124-125 | the head commit, which exists |
| TreeWrappers.TreeWrapper.RevertToState | ogitm/gitdb/treewrapper.py:127-128 | moves head to an existing commit, or fails with KeyError and keeps head; the commits are unchanged |
| TreeWrappers.TreeWrapper.RevertSteps | ogitm/gitdb/treewrapper.py:130-140 | moves head to the commit `Walk` names for the old head and the step count, keeping the commits; the loop is proved against `Walk` |
| TreeWrappers.SaveAndRevert | ogitm/gitdb/treewrapper.py:124-128 | `revert_to_state(save_state())` leaves head where it was |
| JsonWrapper.JsonDictWrapper.constructor | ogitm/gitdb/json_wrapper.py:19-20 | wraps the given mapping |
| JsonWrapper.JsonDictWrapper.Item | ogitm/gitdb/json_wrapper.py:25-26 | `json.loads` of the stored text; KeyError for a missing key |
| JsonWrapper.JsonDictWrapper.Get | ogitm/gitdb/json_wrapper.py:25-26 | the default only for a missing key; a stored text that is not JSON still raises the decode error |
| JsonWrapper.JsonDictWrapper.Contains | ogitm/gitdb/json_wrapper.py:25-26 | false for a missing key; for a present key it fails exactly when the stored text does not decode, and true implies the read succeeds |
| JsonWrapper.JsonDictWrapper.Len | ogitm/gitdb/json_wrapper.py:22-23 | the size of the wrapped mapping |
| JsonWrapper.JsonDictWrapper.Keys | ogitm/gitdb/json_wrapper.py:34-35 | exactly the keys of the wrapped mapping |
| JsonWrapper.JsonDictWrapper.SetItem | ogitm/gitdb/json_wrapper.py:28-29 | stores `json.dumps(v)` under `k`; reading `k` then gives `v`, and every other key reads as before |
| JsonWrapper.JsonDictWrapper.DelItem | ogitm/gitdb/json_wrapper.py:31-32 | removes the key from the wrapped mapping; KeyError exactly when it was missing; afterwards the key is neither readable nor listed |
| JsonWrapper.JsonDictWrapper.Save | ogitm/gitdb/json_wrapper.py:37-38 | forwarded `save`: one commit of the visible tree on top of head |
| JsonWrapper.JsonDictWrapper.Rollback | ogitm/gitdb/json_wrapper.py:37-38 | forwarded `rollback`: reads come from head again |
| JsonWrapper.JsonDictWrapper.ItemsList | ogitm/gitdb/json_wrapper.py:37-38 | forwarded `items_list`: the same names as iteration |
| JsonWrapper.JsonDictWrapper.SaveState | ogitm/gitdb/json_wrapper.py:37-38 | forwarded `save_state`: the head commit |
| JsonWrapper.JsonDictWrapper.RevertToState | ogitm/gitdb/json_wrapper.py:37-38 | forwarded `revert_to_state`: head moves to an existing commit, or KeyError |
| JsonWrapper.JsonDictWrapper.RevertSteps | ogitm/gitdb/json_wrapper.py:37-38 | forwarded `revert_steps`: head moves to the commit `Walk` names |
| SearchFunctions.SearchFunction.constructor | ogitm/gitdb/search_functions.py:12-21 | once the module is loaded, `get('exists')` answers the `exists` operator and `get` of any other name raises KeyError |
| SearchFunctions.SearchFunction.Add | ogitm/gitdb/search_functions.py:5-18 | after `add(name)(f)`, `get(name)` answers `f`, replacing an earlier entry, and `get` of every other name answers as before |
| SearchFunctions.BucketItems | ogitm/gitdb/search_functions.py:24-25 | `list.extend` accepts a list, dict or string bucket and raises TypeError for any other; a list contributes its items |
| SearchFunctions.ExistsSpec | ogitm/gitdb/search_functions.py:21-30 | an index that is not a dict is an AttributeError; an answer needs iterable buckets and an `exists` key in the term; every answered value is hashable, and a false flag answers only ids of the table |
| SearchFunctions.ExistsOp | ogitm/gitdb/search_functions.py:21-30 | the loop over the buckets computes exactly `ExistsSpec` |
| SearchFunctions.CollectStopsAtError | ogitm/gitdb/search_functions.py:24-25 | once a bucket is not iterable, the later buckets never matter |
| SearchFunctions.CollectUnion | ogitm/gitdb/search_functions.py:24-25 | the gathered list holds exactly the items of all buckets |
| SearchFunctions.ExistsTrueIsUnion | ogitm/gitdb/search_functions.py:27-28 | with a true flag `exists` answers the union of all buckets |
| SearchFunctions.ExistsFalseIsComplement | ogitm/gitdb/search_functions.py:27-30 | the false-flag answer holds only ids of the table, is disjoint from the true-flag answer, and together they cover every id of the table |
| Store.DocKeyNotIndexKey | ogitm/gitdb/__init__.py:335-340 | a document name is never an index name |
| Store.DocKeyInjective | ogitm/gitdb/__init__.py:335 | distinct ids are stored under distinct names |
| Store.IndexKeyInjective | ogitm/gitdb/__init__.py:340 | distinct fields have distinct index names |
| Store.LoadOrStored | ogitm/gitdb/__init__.py:341 | a name holding the `json.dumps` text of a value reads back through `data_tree.get(name, default)` as that value, whatever the default |
| Store.PopPosition | ogitm/gitdb/__init__.py:381 | `list.pop(i)` removes a position exactly when `-len <= i < len`, namely `i` or `i + len` |
| Store.BucketEdit | ogitm/gitdb/__init__.py:377-390 | appending to a list bucket adds the id at the end, and appending to anything else is an AttributeError; popping a list bucket removes exactly the entry at position `id` (from the end when negative), leaving one entry fewer, or raises IndexError when that position does not exist; popping a dict bucket is a KeyError |
| Store.UpdatePopsByPosition | ogitm/gitdb/__init__.py:377-381 | when document 1 alone holds value `v` in field `f`, the bucket of `v` is `[1]` and updating document 1 raises IndexError, because `pop(d_id)` removes a position, not the id |
| Store.IndexEdit | ogitm/gitdb/__init__.py:339-343 | `setdefault(json.dumps(val), []).append(id)` adds the value's text to the index keys, leaves every other bucket alone and appends the id to the value's bucket |
| Store.IndexStepFrame | ogitm/gitdb/__init__.py:340-343 | one turn of the index loop writes the index of its field and no other name |
| Store.IndexAll | ogitm/gitdb/__init__.py:338-343 | the index loop keeps every name of the data tree and never changes a stored document |
| Store.IndexAllFrame | ogitm/gitdb/__init__.py:338-343 | the index loop writes only the indexes of the fields it visits |
| Store.IndexStepStores | ogitm/gitdb/__init__.py:341-343 | after a turn of the index loop, the field's index decodes to the edited index |
| Store.AppendStepIndexes | ogitm/gitdb/__init__.py:342-343 | after an appending turn, the field's index lists the id under the value's text |
| Store.IndexAllAppends | ogitm/gitdb/__init__.py:338-343 | an appending index loop that finishes lists the id under every field's value |
| Store.InsertData | ogitm/gitdb/__init__.py:334-343 | `insert` writes the document's text under `doc-{id}` even when indexing stops early, removes no name and changes no other document |
| Store.UpdateData | ogitm/gitdb/__init__.py:373-390 | `update` writes the new document's text under `doc-{id}` even when an index edit fails, removes no name and changes no other document; an old document that is not a dict is an AttributeError |
| Store.InsertStoresAndIndexes | ogitm/gitdb/__init__.py:334-343 | `insert` stores the document so that it reads back; when it finishes, every field indexes the id; a document that is not a dict fails with AttributeError |
| Store.UpdateStoresAndIndexes | ogitm/gitdb/__init__.py:369-390 | `update` stores the new document so that it reads back; when it finishes, every field of the new document indexes the id |
| Store.Universe | ogitm/gitdb/__init__.py:478-479 | the ids of all `doc-` names; ValueError exactly when some such name does not end in an integer |
| Store.UniverseRoundTrip | ogitm/gitdb/__init__.py:478-479 | every stored id is in the universe, and for names written as `doc-{id}` the universe is exactly the stored ids |
| Store.IdsIn | ogitm/gitdb/__init__.py:516 | `set(bucket)` restricted to ids: exactly the ints the bucket holds |
| Store.SimpleIds | ogitm/gitdb/__init__.py:514-516 | `_find_simple`: the ids in the value's bucket, and the empty set when there is no bucket |
| Store.ComplexIds | ogitm/gitdb/__init__.py:518-525 | `_find_complex` always fails: KeyError for an unknown first operator, otherwise TypeError from the six-argument call |
| Store.ClauseIds | ogitm/gitdb/__init__.py:483-490 | a dictionary search term always fails |
| Store.Matching | ogitm/gitdb/__init__.py:481-492 | the reduced intersection holds only ids of the table |
| Store.MatchingIsIntersection | ogitm/gitdb/__init__.py:481-492 | an id matches exactly when it is in the table and every clause admits it |
| Store.ComplexClauseFails | ogitm/gitdb/__init__.py:486-487 | a `where` with a dictionary term never succeeds |
| Store.Fetch | ogitm/gitdb/__init__.py:494 | one pair per id, in order, each holding the stored document read back; it fails exactly where a document is missing or does not decode |
| Store.Find | ogitm/gitdb/__init__.py:460-494 | a document name that does not end in an integer is a ValueError; the pairs ascend strictly by id, and each holds the stored document read back |
| Store.FindSound | ogitm/gitdb/__init__.py:460-494 | every pair `find` returns is a stored document of the table that every clause admits |
| Store.FindComplete | ogitm/gitdb/__init__.py:460-494 | every document of the table that every clause admits is in the answer |
| Store.FetchSortedCovers | ogitm/gitdb/__init__.py:492-494 | fetching a set's ids in their listing order lists each of them |
| Store.FindAllDocuments | ogitm/gitdb/__init__.py:478-494 | with no clauses, `find` lists every stored document |
| Store.FindIds | ogitm/gitdb/__init__.py:432-444 | `find_ids` fails exactly when `find` does, and lists the ids of its pairs in order |
| Store.FindItems | ogitm/gitdb/__init__.py:446-458 | `find_items` fails exactly when `find` does, and lists the documents of its pairs in order |
| Store.FindOne | ogitm/gitdb/__init__.py:496-512 | `find_one` is None exactly when `find` finds nothing, otherwise its first pair |
| GitDb.NextIdOf | ogitm/gitdb/__init__.py:119-129 | 0 without a counter, otherwise one more than the integer the counter holds; ValueError exactly when the counter is not an integer |
| GitDb.NextIdFollows | ogitm/gitdb/__init__.py:119-129 | once an id is recorded, the next id is exactly one larger |
| GitDb.NextIdOfFresh | ogitm/gitdb/__init__.py:122-124 | a table without a counter hands out 0 first |
| GitDb.IdKey | ogitm/gitdb/__init__.py:425 | `'doc-{id}'` of an int id is that id's document name, and a bool id also formats to a document name |
| GitDb.Table.NextId | ogitm/gitdb/__init__.py:119-129 | returns the next id, records its text in the meta tree and commits it; a counter that is not an integer fails with nothing changed |
| GitDb.IndexField | ogitm/gitdb/__init__.py:338-343 | one turn of the index loop: the data tree becomes the next step of `IndexAll`, or is unchanged on an error |
| GitDb.IndexFields | ogitm/gitdb/__init__.py:338-343 | the index loop leaves exactly the tree and the error `IndexAll` describes |
| GitDb.StoreDocument | ogitm/gitdb/__init__.py:335-343 | the data tree becomes the one `InsertData` describes |
| GitDb.ReplaceDocument | ogitm/gitdb/__init__.py:373-390 | the data tree becomes the one `UpdateData` describes, popping the old document's buckets then appending to the new one's |
| GitDb.OpenTree | ogitm/gitdb/__init__.py:136-137 | wraps the repository at the path, reusing an existing one; reads then see the tree of its head commit, and a new one starts empty |
| GitDb.Table.constructor | ogitm/gitdb/__init__.py:131-144 | opens or creates `data` and `meta` under the table's location, with no transaction open; new repositories start empty |
| GitDb.Table.Eq | ogitm/gitdb/__init__.py:146-147 | two tables are equal exactly when they are at the same location; a table equals itself |
| GitDb.TableEqIsEquivalence | ogitm/gitdb/__init__.py:146-147 | table equality is an equivalence that holds exactly when the locations are equal |
| GitDb.Table.Insert | ogitm/gitdb/__init__.py:312-347 | takes the next id, leaves the data tree `InsertData` describes, and `get` of the new id returns the document; it commits only outside a transaction and only on success |
| GitDb.Table.Update | ogitm/gitdb/__init__.py:349-395 | ValueError for a missing document, a decode error for an unreadable one; otherwise it leaves the data tree `UpdateData` describes, `get` returns the new document, and it commits outside a transaction |
| GitDb.Table.Get | ogitm/gitdb/__init__.py:410-430 | TypeError for an id that is not an int; ValueError for a missing document; otherwise the decoded document |
| GitDb.Table.Save | ogitm/gitdb/__init__.py:397-408 | one commit of the visible data tree on top of head |
| GitDb.Table.BeginTransaction | ogitm/gitdb/__init__.py:157-177 | ValueError, with nothing changed, exactly inside `transaction()` or with a transaction already open; otherwise a transaction is open |
| GitDb.Table.Commit | ogitm/gitdb/__init__.py:179-204 | succeeds exactly outside `transaction()` with a transaction open; it then closes the transaction and commits the data tree; otherwise ValueError with nothing changed |
| GitDb.Table.Rollback | ogitm/gitdb/__init__.py:206-231 | succeeds exactly outside `transaction()` with a transaction open; it then closes the transaction and drops the working data tree; otherwise ValueError |
| GitDb.Table.TransactionEnter | ogitm/gitdb/__init__.py:250-251 | entering the block begins a transaction and marks it context-managed, with the same refusals as `begin_transaction` |
| GitDb.Table.TransactionExit | ogitm/gitdb/__init__.py:252-260 | leaving normally commits the data tree; leaving by an exception rolls back, leaves the history unchanged and re-raises; either way no transaction stays open |
| GitDb.Table.SaveState | ogitm/gitdb/__init__.py:294-310 | the head of the data repository |
| GitDb.Table.RevertToState | ogitm/gitdb/__init__.py:279-292 | the data repository's head moves to an existing commit, or KeyError; the commits are unchanged |
| GitDb.Table.RevertSteps | ogitm/gitdb/__init__.py:262-277 | the data repository's head moves to the commit `Walk` names |
| GitDb.Table.Find | ogitm/gitdb/__init__.py:460-494 | the store's `find` over the data tree the handle reads, with the registered operators |
| GitDb.Table.FindIds | ogitm/gitdb/__init__.py:432-444 | the store's `find_ids` over the data tree the handle reads |
| GitDb.Table.FindItems | ogitm/gitdb/__init__.py:446-458 | the store's `find_items` over the data tree the handle reads |
| GitDb.Table.FindOne | ogitm/gitdb/__init__.py:496-512 | the store's `find_one` over the data tree the handle reads |
| GitDb.InsertSeenAfterCommit | ogitm/gitdb/__init__.py:345-346 | with two handles on one table, a document inserted through the first inside a transaction is not seen by the second, clean handle until the first commits, and is read back through it afterwards |
| GitDb.InsertHiddenAfterRollback | tests/test_gitdb.py:150-155 | with two handles on one table, a document inserted through the first inside a transaction that the first then rolls back is seen by neither handle: both read what the clean handle read before the insert |
| GitDb.IdsAcrossHandles | tests/test_gitdb.py:119-129 | two handles on one table share its id counter: an insert through the second after one through the first gets the next id |
| GitDb.Register | ogitm/gitdb/__init__.py:63-66 | the name is listed afterwards; a list keeps all its items as a prefix and gains at most one; any other registry value is returned unchanged; fails exactly when membership cannot be tested or a non-list would need an append |
| GitDb.RegisterIdempotent | ogitm/gitdb/__init__.py:63-66 | registering a name twice is registering it once |
| GitDb.RegisterKeepsListed | ogitm/gitdb/__init__.py:63-66 | registering a name unlists no other name |
| GitDb.RegisterValid | ogitm/gitdb/__init__.py:63-68 | a registry that was read from JSON stays storable after registering |
| GitDb.TableListAfter | ogitm/gitdb/__init__.py:59-66 | a reserved name other than the default table is a ValueError; on success the new list lists the name |
| GitDb.Listed | ogitm/gitdb/__init__.py:65 | `name in tables` tests list membership, dict keys or substrings (the empty name is in every string) and is a TypeError for any other registry value |
| GitDb.FreshRegistryOpens | ogitm/gitdb/__init__.py:42 | a new database registers the default table as the only table |
| GitDb.OpenRegisters | ogitm/gitdb/__init__.py:63-68 | the registry `table(name)` writes lists the name |
| GitDb.OpenTwiceSameList | ogitm/gitdb/__init__.py:63-68 | opening the same table again writes the same list |
| GitDb.DropPlan | ogitm/gitdb/__init__.py:86-95 | reserved names are a ValueError; with `force` nothing is ever deleted; deletion is planned only for a listed name |
| GitDb.DropAfterOpen | ogitm/gitdb/__init__.py:44-100 | a table that `table(name)` registered can be dropped without `force` |
| GitDb.RegisterName | ogitm/gitdb/__init__.py:59-68 | the registry step of `table(name)`: the `table_list` entry becomes the new list's text, or nothing changes on an error |
| GitDb.OpenRegistry | ogitm/gitdb/__init__.py:39-41 | opens or creates `__meta__` and wraps it; an existing repository is reused and its committed tree is what the registry shows; a new registry starts empty |
| GitDb.RegisterAndOpen | ogitm/gitdb/__init__.py:44-69 | `table(name)`: on an error nothing changes; otherwise the registry is written uncommitted and a table at `location/name` is opened, distinct from the registry |
| GitDb.GitDB.Open | ogitm/gitdb/__init__.py:37-51 | opens the registry and the default table; reopening a location reuses the `__meta__` repository and the default table's data and meta repositories already on disk; it succeeds exactly when the stored table list accepts the default table, and the registry then shows the stored tree with that list written |
| GitDb.GitDB.GetTable | ogitm/gitdb/__init__.py:44-72 | `table(name)` and `db[name]`: the errors of `TableListAfter`; otherwise a new handle at `location/name` that reuses the table's data and meta repositories already on disk, with the registry written but not committed |
| GitDb.GitDB.Drop | ogitm/gitdb/__init__.py:74-100 | the errors of `DropPlan`; when deletion is planned, exactly the repositories under `location/name` are removed, and a directory with nothing to remove is a ValueError; the registry is never written back |
| GitDb.GitDB.Insert | ogitm/gitdb/__init__.py:102-103 | `db.insert` acts on the default table with the same results and effects as the table's own method, and the database stays valid |
| GitDb.GitDB.Update | ogitm/gitdb/__init__.py:102-103 | `db.update` acts on the default table with the same results and effects as the table's own method, and the database stays valid |
| GitDb.GitDB.Get | ogitm/gitdb/__init__.py:102-103 | `db.get` acts on the default table with the same results and effects as the table's own method, and the database stays valid |
| GitDb.GitDB.Save | ogitm/gitdb/__init__.py:102-103 | `db.save` acts on the default table with the same results and effects as the table's own method, and the database stays valid |
| GitDb.GitDB.BeginTransaction | ogitm/gitdb/__init__.py:102-103 | `db.begin_transaction` acts on the default table with the same results and effects as the table's own method, and the database stays valid |
| GitDb.GitDB.Commit | ogitm/gitdb/__init__.py:102-103 | `db.commit` acts on the default table with the same results and effects as the table's own method, and the database stays valid |
| GitDb.GitDB.Rollback | ogitm/gitdb/__init__.py:102-103 | `db.rollback` acts on the default table with the same results and effects as the table's own method, and the database stays valid |
| GitDb.GitDB.TransactionEnter | ogitm/gitdb/__init__.py:102-103 | entering `db.transaction()` acts on the default table with the same results and effects as the table's own method, and the database stays valid |
| GitDb.GitDB.TransactionExit | ogitm/gitdb/__init__.py:102-103 | leaving `db.transaction()` acts on the default table with the same results and effects as the table's own method, and the database stays valid |
| GitDb.GitDB.SaveState | ogitm/gitdb/__init__.py:102-103 | `db.save_state` acts on the default table with the same results and effects as the table's own method, and the database stays valid |
| GitDb.GitDB.RevertToState | ogitm/gitdb/__init__.py:102-103 | `db.revert_to_state` acts on the default table with the same results and effects as the table's own method, and the database stays valid |
| GitDb.GitDB.RevertSteps | ogitm/gitdb/__init__.py:102-103 | `db.revert_steps` acts on the default table with the same results and effects as the table's own method, and the database stays valid |
| GitDb.GitDB.Find | ogitm/gitdb/__init__.py:102-103 | `db.find` acts on the default table with the same results and effects as the table's own method, and the database stays valid |
| GitDb.GitDB.FindIds | ogitm/gitdb/__init__.py:102-103 | `db.find_ids` acts on the default table with the same results and effects as the table's own method, and the database stays valid |
| GitDb.GitDB.FindItems | ogitm/gitdb/__init__.py:102-103 | `db.find_items` acts on the default table with the same results and effects as the table's own method, and the database stays valid |
| GitDb.GitDB.FindOne | ogitm/gitdb/__init__.py:102-103 | `db.find_one` acts on the default table with the same results and effects as the table's own method, and the database stays valid |
| Fields.NewBase | ogitm/fields.py:10-15 | TypeError exactly when a keyword other than `nullable`, `coerce` and the subclass's own is left; `nullable` defaults to true and takes its truthiness; a missing `coerce` is the identity |
| Fields.NewString | ogitm/fields.py:35-44 | `String(**kw)`: TypeError exactly for an unknown keyword; a missing or None `regex` always matches; nullability and the default coercion as in `BaseField` |
| Fields.NewInteger | ogitm/fields.py:61-64 | `Integer(**kw)`: TypeError exactly for an unknown keyword; `min` and `max` are None exactly when absent or None |
| Fields.Coerce | ogitm/fields.py:21-25 | a result is what the coerce function returned, or the value itself when the function raised ValueError; it fails exactly when the coerce object is not callable (TypeError) or the function raised another exception, which propagates; it never raises ValueError itself |
| Fields.TypeCheck | ogitm/fields.py:27-31 | true exactly when the value has the type, or is None on a nullable field |
| Fields.Search | ogitm/fields.py:54-55 | AttributeError exactly when the regex is an object without `search` |
| Fields.StringCheck | ogitm/fields.py:46-57 | true exactly when the coerced value is a string the regex finds, or None on a nullable field; an error exactly when coercion fails or the search raises |
| Fields.Less | ogitm/fields.py:76-78 | `val < min` is defined exactly for an int against a number; anything else is a TypeError |
| Fields.Greater | ogitm/fields.py:80-82 | `val > max` is defined exactly for an int against a number; anything else is a TypeError |
| Fields.IntegerCheck | ogitm/fields.py:66-84 | a coercion error propagates; a value that is not an int and not None fails; None passes only on a nullable field without bounds and is a TypeError with bounds; an int passes exactly within the inclusive bounds; a non-numeric `min` is a TypeError |
| Fields.Check | ogitm/fields.py:46-84 | `field.check(val)`: a coercion error propagates; true only for a coerced value of the field's type or None on a nullable field; a bool never passes an Integer field |
| Fields.StringNone | ogitm/fields.py:46-57 | None passes a String field exactly when the field is nullable |
| Fields.IntegerRejectsBool | ogitm/fields.py:73-74 | a bool never passes an Integer field |
| OGitM.FieldAttrsExact | ogitm/ogitm.py:8-16 | the recorded attributes are exactly the field attributes of the class body, in order |
| OGitM.MetaModel.constructor | ogitm/ogitm.py:6-20 | `type_attributes` starts empty, so `get_attributes` of any class raises KeyError |
| OGitM.MetaModel.New | ogitm/ogitm.py:8-20 | creates a new class with the given name and body; `get_attributes` of it then answers the field attributes of the body in order, and of every other class what it answered before; the loop is proved against `FieldAttrs` |
| OGitM.ToSetSpec | ogitm/ogitm.py:29-34 | `to_set` holds every keyword argument under its own name |
| OGitM.CheckAllPass | ogitm/ogitm.py:36-42 | the second loop passes exactly when every field's check returns true; otherwise it fails with ValueError or with the exception a check raised |
| OGitM.AssignedSpec | ogitm/ogitm.py:36-42 | the attributes set are exactly the field names, each with the supplied value or None |
| OGitM.InitOutcome | ogitm/ogitm.py:25-42 | a failed lookup of the class's fields propagates; success needs every keyword to name a declared field |
| OGitM.Model.Init | ogitm/ogitm.py:25-42 | the outcome is `InitOutcome`; on success every field is set to the supplied value or None, on top of the earlier attributes |
| OGitM.InitPass | ogitm/ogitm.py:25-42 | `Model(**kwargs)` succeeds exactly when every keyword names a field and every field accepts its value |
| OGitM.MissingRequiredFails | ogitm/ogitm.py:36-42 | omitting a non-nullable field whose coercion leaves None alone makes construction fail |

## Left out

- The pygit2 internals are not modelled: blob hashing, tree builders, signatures, commit messages and object ids. A commit is its tree and its parent, and a state is the commit's position in the history.
- `revert_steps` walks the history in `GIT_SORT_TIME` order. The model follows the parent chain from head, which is that order for the linear histories this code creates.
- A soft reset is modelled as moving head. Nothing else is attached to it here.
- Tree builders reject some entry names; that validation is not modelled.
- `os.path.join` is modelled for two components with `/` as separator. Path normalisation is not modelled.
- `shutil.rmtree` is modelled as removing repositories from a map of paths. A directory with no repository under it is the OSError that `drop` turns into ValueError; other causes of OSError (permissions, a path that is an ordinary file) are not modelled.
- Floats are not modelled, so documents, bounds and comparisons with floats are left out.
- JSON is modelled for `json.dumps` with its default separators and `ensure_ascii`. `json.loads` is modelled for the text `json.dumps` writes (null, booleans, integers without fraction or exponent, strings, lists, dicts). Texts Python's `json.loads` accepts but the model rejects are left out: floats, exponents, `NaN`, `Infinity` and lone surrogate escapes all decode to an error here.
- `int(s)` is modelled for an optional sign and decimal digits. Surrounding whitespace, underscores and non-ASCII digits are not modelled.
- Python iterates sets in an unspecified order. `find` is modelled as listing the ids in ascending order, and `items_list` as a set of names.
- The `doc_id` / `doc` arguments of `revert_steps` and `revert_to_state` are not modelled. The per-document revert, `_revert_steps_doc`, does nothing in the source.
- JsonWrapper.JsonDictWrapper.Len: gives the size of the wrapped mapping as a generic mapping would have it. `TreeWrapper` itself defines no `__len__`, so in the source `len` of a wrapper around a `TreeWrapper` raises TypeError.
- JsonWrapper.JsonDictWrapper.Keys: gives the wrapped mapping's keys as a set. `TreeWrapper` defines no `__iter__`, so in the source `self._d.__iter__()` on a wrapped `TreeWrapper` raises AttributeError.
- `__getattr__` forwarding is modelled for the methods the store calls on `JsonDictWrapper` (forwarded to `TreeWrapper`) and for every public operation of `Table` on `GitDB` (forwarded to the default table). Lookup of arbitrary attributes, such as the private ones, is not modelled.
- In `exists` and `find`, Python's sets identify `True` with `1` and `False` with `0`. The model keeps them apart; the difference cannot arise from the id buckets `insert` writes, which hold only ints.
- `update` is modelled for int ids only. An id of another type formats a document name the model does not cover.
- `drop` on a directory that contains the database's own `__meta__` repository is outside the model.
- A regular expression engine is a parameter (`SearchEngine`). `re.compile` errors and the regex language itself are not modelled.
- A `coerce` callable is modelled as a function from JSON values to a value or an exception. Callables that return objects other than JSON values, or that have side effects, are not modelled.
- A user-supplied regex object with a `search` method is modelled by whether its result is None.
- Integer bounds are modelled as ints or bools. Comparison with other numeric types or with objects that define ordering is not modelled.
- The `bases` argument of `MetaModel.__new__` and inheritance of fields between model classes are not modelled.
- `MetaModel.get_attributes` is keyed by the instance's class. An instance of `Model` itself (whose attribute dict the metaclass also records) is modelled like any other class.
- `Model.__init__` may fail after setting some attributes. The object is then discarded by the raise, so the model states the attributes only on success.
- `Model.save` does nothing in the source and is not modelled.
- Concurrency and the on-disk format of git objects are not modelled.
- The older copies `ogitm/gitdb.py`, `ogitm/treewrapper.py` and `ogitm/gitdb/gitdb.py` are not part of this model; the package `ogitm/gitdb/` supersedes them.
