/** `JsonDictWrapper`: a mapping view that stores every value as its JSON
    text in a wrapped `TreeWrapper` and decodes on every read.  It keeps no
    state of its own; everything else is forwarded to the wrapped object. */
module JsonWrapper {
  import opened Base
  import opened Git
  import opened Json
  import opened TreeWrappers

  class JsonDictWrapper {
    const inner: TreeWrapper

    ghost predicate Valid()
      reads this, inner, inner.repo
    {
      inner.Valid()
    }

    constructor (d: TreeWrapper)
      ensures inner == d
    {
      inner := d;
    }

    /** `w[k]`: decodes the stored text; a missing key is KeyError, text that
        is not JSON is the decode error. */
    function Item(k: string): (r: Result<Json>)
      reads this, inner, inner.repo
      requires Valid()
      ensures k !in inner.Visible() ==> r == Err(KeyError)
      ensures k in inner.Visible() ==> r == Loads(inner.Visible()[k])
    {
      match inner.Item(k)
      case Ok(text) => Loads(text)
      case Err(e) => Err(e)
    }

    /** `w.get(k, default)` (from `Mapping`): the default replaces a KeyError
        only; a decode error still propagates. */
    function Get(k: string, default: Json): (r: Result<Json>)
      reads this, inner, inner.repo
      requires Valid()
      ensures k !in inner.Visible() ==> r == Ok(default)
      ensures k in inner.Visible() ==> r == Loads(inner.Visible()[k])
    {
      var r := Item(k);
      if r == Err(KeyError) then Ok(default) else r
    }

    /** `k in w` (from `Mapping`): reads the value, so stored text that is
        not JSON makes the membership test itself fail. */
    function Contains(k: string): (r: Result<bool>)
      reads this, inner, inner.repo
      requires Valid()
      ensures k !in inner.Visible() ==> r == Ok(false)
      ensures k in inner.Visible() ==> (r.Ok? <==> Loads(inner.Visible()[k]).Ok?)
      ensures r == Ok(true) ==> Item(k).Ok?
    {
      var r := Item(k);
      if r.Ok? then Ok(true)
      else if r.error == KeyError then Ok(false)
      else Err(r.error)
    }

    /** `len(w)`: the size of the wrapped mapping. */
    function Len(): (n: nat)
      reads this, inner, inner.repo
      requires Valid()
      ensures n == |inner.Visible()|
    {
      assert inner.ItemsList() == inner.Visible().Keys;
      |inner.ItemsList()|
    }

    /** `iter(w)`: the keys of the wrapped mapping. */
    function Keys(): (ks: set<string>)
      reads this, inner, inner.repo
      requires Valid()
      ensures forall k :: k in ks <==> k in inner.Visible()
    {
      inner.ItemsList()
    }

    /** `w[k] = v`: stores `json.dumps(v)`; reading it back gives `v`. */
    method SetItem(k: string, v: Json)
      requires Valid() && ValidJson(v)
      modifies inner
      ensures Valid() && unchanged(inner.repo) && inner.working.Some?
      ensures inner.Visible() == old(inner.Visible())[k := Dumps(v)]
      ensures Item(k) == Ok(v)
      ensures forall k' :: k' != k ==> Item(k') == old(Item(k'))
    {
      inner.SetItem(k, Dumps(v));
      LoadsDumps(v);
    }

    /** `del w[k]`: deletes on the wrapped mapping. */
    method DelItem(k: string) returns (o: Outcome)
      requires Valid()
      modifies inner
      ensures Valid() && unchanged(inner.repo) && inner.working.Some?
      ensures o == Pass <==> k in old(inner.Visible())
      ensures o.Fail? ==> o.error == KeyError
      ensures inner.Visible() == old(inner.Visible()) - {k}
      ensures Item(k) == Err(KeyError) && k !in Keys()
    {
      o := inner.DelItem(k);
    }

    // Forwarded by `__getattr__`.

    method Save()
      requires Valid()
      modifies inner, inner.repo
      ensures Valid() && inner.working == None
      ensures inner.repo.history.commits == old(inner.repo.history.commits) + [Commit(old(inner.Visible()), old(inner.repo.history.head))]
      ensures inner.repo.history.head == Some(|old(inner.repo.history.commits)|)
      ensures inner.Visible() == old(inner.Visible())
    {
      inner.Save();
    }

    method Rollback()
      requires Valid()
      modifies inner
      ensures Valid() && unchanged(inner.repo) && inner.working == None
      ensures inner.Visible() == inner.repo.HeadTree()
    {
      inner.Rollback();
    }

    function ItemsList(): (names: set<string>)
      reads this, inner, inner.repo
      requires Valid()
      ensures names == Keys()
    {
      inner.ItemsList()
    }

    function SaveState(): (state: nat)
      reads this, inner, inner.repo
      requires Valid()
      ensures Some(state) == inner.repo.history.head
    {
      inner.SaveState()
    }

    method RevertToState(state: nat) returns (o: Outcome)
      requires Valid()
      modifies inner.repo
      ensures Valid() && inner.repo.history.commits == old(inner.repo.history.commits)
      ensures state < |inner.repo.history.commits| ==> o == Pass && inner.repo.history.head == Some(state)
      ensures state >= |inner.repo.history.commits| ==> o == Fail(KeyError) && inner.repo.history.head == old(inner.repo.history.head)
    {
      o := inner.RevertToState(state);
    }

    method RevertSteps(steps: int)
      requires Valid()
      modifies inner.repo
      ensures Valid() && inner.repo.history.commits == old(inner.repo.history.commits)
      ensures inner.repo.history.head == Some(Walk(inner.repo.history.commits, old(inner.repo.history.head.value), steps))
    {
      inner.RevertSteps(steps);
    }
  }
}
