/** `TreeWrapper`: a string-to-string mapping kept in a git repository.

    A wrapper is *clean* when it has no working tree: reads then come from
    the tree of the head commit.  The first edit makes it *dirty*: it copies
    the head tree into a working tree (remembering that tree as the last saved
    one) and from then on every read and write goes to the working tree until
    `save` commits it or `rollback` throws it away. */
module TreeWrappers {
  import opened Base
  import opened Git

  class TreeWrapper {
    const repo: Repo
    /** `_working_tree`: the tree builder of the dirty state. */
    var working: Option<Tree>
    /** `_last_saved_tree`: the head tree the working tree was copied from. */
    var lastSaved: Option<Tree>
    /** `_working_contents`: the names in the working tree. */
    var contents: set<string>

    ghost predicate Valid()
      reads this, repo
    {
      repo.history.head.Some?
      && (working.None? ==> lastSaved.None? && contents == {})
      && (working.Some? ==> lastSaved.Some? && contents == working.value.Keys)
    }

    /** The mapping every read sees. */
    ghost function Visible(): Tree
      reads this, repo
      requires Valid()
    {
      if working.Some? then working.value else repo.HeadTree()
    }

    /** `TreeWrapper(repo)`: commits the head tree (the empty tree in a new
        repository) as "Initial State", so the repository is never empty
        afterwards. */
    constructor (r: Repo)
      modifies r
      ensures Valid() && repo == r && working == None
      ensures r.history.commits == old(r.history.commits)
                + [Commit(if old(r.history.head).Some? then old(r.HeadTree()) else map[], old(r.history.head))]
      ensures r.history.head == Some(|old(r.history.commits)|)
      ensures Visible() == if old(r.history.head).Some? then old(r.HeadTree()) else map[]
    {
      repo := r;
      working := None;
      lastSaved := None;
      contents := {};
      new;
      var tree: Tree := if r.history.head.Some? then r.HeadTree() else map[];
      var _ := r.CreateCommit(tree, r.history.head);
    }

    /** `_get_tree()`: nothing in an empty repository, the head tree when
        clean, the last saved tree when dirty. */
    function GetTree(): (t: Option<Tree>)
      reads this, repo
      ensures repo.history.head.None? ==> t == None
      ensures repo.history.head.Some? && working.None? ==> t == Some(repo.HeadTree())
      ensures repo.history.head.Some? && working.Some? ==> t == lastSaved
      ensures Valid() ==> t.Some? && (working.None? ==> t.value == Visible())
    {
      if repo.history.head.None? then None
      else if working.None? then Some(repo.HeadTree())
      else lastSaved
    }

    /** `_get_parents()`: the head commit, or no parent in an empty
        repository. */
    function GetParents(): (ps: seq<nat>)
      reads this, repo
      ensures |ps| <= 1
      ensures ps == [] <==> repo.history.head.None?
      ensures repo.history.head.Some? ==> ps == [repo.history.head.value] && ps[0] < |repo.history.commits|
    {
      if repo.history.head.None? then [] else [repo.history.head.value]
    }

    /** `_new_working_tree()` on a clean wrapper: the working tree starts as
        a copy of the head tree, and its names are the tracked contents. */
    method NewWorkingTree()
      requires Valid() && working.None?
      modifies this
      ensures Valid() && unchanged(repo)
      ensures working == Some(repo.HeadTree()) && lastSaved == Some(repo.HeadTree())
      ensures contents == repo.HeadTree().Keys
      ensures Visible() == old(Visible())
    {
      lastSaved := GetTree();
      working := lastSaved;
      contents := repo.HeadTree().Keys;
    }

    /** `w[name] = text`. */
    method SetItem(name: string, text: string)
      requires Valid()
      modifies this
      ensures Valid() && unchanged(repo) && working.Some?
      ensures Visible() == old(Visible())[name := text]
      ensures old(working).Some? ==> lastSaved == old(lastSaved)
      ensures old(working).None? ==> lastSaved == Some(repo.HeadTree())
    {
      if working.None? {
        NewWorkingTree();
      }
      working := Some(working.value[name := text]);
      contents := contents + {name};
    }

    /** `w[name]`: KeyError when the name is not in the visible tree. */
    function Item(name: string): (r: Result<string>)
      reads this, repo
      requires Valid()
      ensures r.Ok? <==> name in Visible()
      ensures r.Ok? ==> r.value == Visible()[name]
      ensures r.Err? ==> r.error == KeyError
    {
      if working.Some? then
        if name in working.value then Ok(working.value[name]) else Err(KeyError)
      else
        var tree := repo.HeadTree();
        if name in tree then Ok(tree[name]) else Err(KeyError)
    }

    /** `w.get(name)`: the text, or `None` where `w[name]` raises KeyError. */
    function Get(name: string): (r: Option<string>)
      reads this, repo
      requires Valid()
      ensures r == if name in Visible() then Some(Visible()[name]) else None
    {
      match Item(name)
      case Ok(text) => Some(text)
      case Err(_) => None
    }

    /** `del w[name]`: the working tree is seeded even when the name is
        missing, and the KeyError comes from the tree builder. */
    method DelItem(name: string) returns (o: Outcome)
      requires Valid()
      modifies this
      ensures Valid() && unchanged(repo) && working.Some?
      ensures o == Pass <==> name in old(Visible())
      ensures o.Fail? ==> o.error == KeyError
      ensures Visible() == old(Visible()) - {name}
    {
      if working.None? {
        NewWorkingTree();
      }
      if name in working.value {
        working := Some(working.value - {name});
        contents := contents - {name};
        o := Pass;
      } else {
        o := Fail(KeyError);
      }
    }

    /** `name in w`: the working tree decides when dirty, the head tree when
        clean. */
    function Contains(name: string): (b: bool)
      reads this, repo
      requires Valid()
      ensures b <==> Item(name).Ok?
    {
      if working.None? then name in repo.HeadTree() else name in working.value
    }

    /** `items_list()`: the head tree's names when clean, the tracked names
        when dirty; either way, exactly the names a read finds.  (The list's
        order is not modelled.) */
    function ItemsList(): (names: set<string>)
      reads this, repo
      requires Valid()
      ensures forall n :: n in names <==> Contains(n)
    {
      if working.None? then repo.HeadTree().Keys else contents
    }

    /** `clear()`: empties the visible mapping. */
    method Clear()
      requires Valid()
      modifies this
      ensures Valid() && unchanged(repo) && working == Some(map[])
      ensures Visible() == map[] && ItemsList() == {}
    {
      if working.None? {
        NewWorkingTree();
      }
      working := Some(map[]);
      contents := {};
    }

    /** `save()`: commits the visible tree on top of the head (a clean
        wrapper commits the head tree again) and returns to clean. */
    method Save()
      requires Valid()
      modifies this, repo
      ensures Valid() && working == None
      ensures repo.history.commits == old(repo.history.commits) + [Commit(old(Visible()), old(repo.history.head))]
      ensures repo.history.head == Some(|old(repo.history.commits)|)
      ensures Visible() == old(Visible())
    {
      if working.None? {
        NewWorkingTree();
      }
      var _ := repo.CreateCommit(working.value, repo.history.head);
      working := None;
      lastSaved := None;
      contents := {};
    }

    /** `rollback()`: drops the working tree; the repository is untouched and
        reads come from head again. */
    method Rollback()
      requires Valid()
      modifies this
      ensures Valid() && unchanged(repo) && working == None
      ensures Visible() == repo.HeadTree()
    {
      working := None;
      lastSaved := None;
      contents := {};
    }

    /** `save_state()`: the head commit. */
    function SaveState(): (state: nat)
      reads this, repo
      requires Valid()
      ensures state < |repo.history.commits| && Some(state) == repo.history.head
    {
      repo.history.head.value
    }

    /** `revert_to_state(state)`: moves head; a working tree is kept as it
        is. */
    method RevertToState(state: nat) returns (o: Outcome)
      requires Valid()
      modifies repo
      ensures Valid() && repo.history.commits == old(repo.history.commits)
      ensures state < |repo.history.commits| ==> o == Pass && repo.history.head == Some(state)
      ensures state >= |repo.history.commits| ==> o == Fail(KeyError) && repo.history.head == old(repo.history.head)
    {
      o := repo.Reset(state);
    }

    /** `revert_steps(steps)`: walks the history from head and resets to the
        commit at position `steps` of the walk, or to the last commit walked
        when the history is shorter; a working tree is kept as it is. */
    method RevertSteps(steps: int)
      requires Valid()
      modifies repo
      ensures Valid() && repo.history.commits == old(repo.history.commits)
      ensures repo.history.head == Some(Walk(repo.history.commits, old(repo.history.head.value), steps))
    {
      var c: nat := repo.history.head.value;
      var i := 0;
      while i != steps && repo.history.commits[c].parent.Some?
        invariant c < |repo.history.commits|
        invariant Walk(repo.history.commits, c, steps - i) == Walk(repo.history.commits, repo.history.head.value, steps)
        decreases c
      {
        c := repo.history.commits[c].parent.value;
        i := i + 1;
      }
      var _ := repo.Reset(c);
    }
  }

  // ------------------------------------------------------------- properties

  /** `revert_to_state(save_state())` on an unchanged history restores the
      saved head. */
  method SaveAndRevert(w: TreeWrapper) returns (state: nat)
    requires w.Valid()
    modifies w.repo
    ensures w.Valid() && w.repo.history.head == old(w.repo.history.head) && state == w.SaveState()
  {
    state := w.SaveState();
    var o := w.RevertToState(state);
  }
}
