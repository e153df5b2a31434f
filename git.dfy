/** The part of a git repository the tree wrapper relies on: a history of
    commits, each holding a flat tree of named text blobs and the commit it
    was made on top of, and a head pointer.  Commit ids are positions in the
    history; blob and tree hashing is not part of the model. */
module Git {
  import opened Base

  /** A flat git tree: entry name to blob text. */
  type Tree = map<string, string>

  datatype Commit = Commit(tree: Tree, parent: Option<nat>)

  /** Every parent was committed before its child, so following parents
      always ends at a root commit. */
  ghost predicate ParentsBefore(commits: seq<Commit>) {
    forall i :: 0 <= i < |commits| && commits[i].parent.Some? ==> commits[i].parent.value < i
  }

  /** What a repository records: its commits and the commit head points
      at. */
  datatype History = History(commits: seq<Commit>, head: Option<nat>)

  /** A repository has a head exactly when it has commits, head names one
      of them, and parents come first. */
  ghost predicate Consistent(h: History) {
    (h.head.None? <==> h.commits == [])
    && (h.head.Some? ==> h.head.value < |h.commits|)
    && ParentsBefore(h.commits)
  }

  type RepoHistory = h: History | Consistent(h) witness History([], None)

  /** A repository opened (or created) by `pygit2.init_repository` at
      `path`.  Several wrappers may hold the same repository; each sees what
      the others commit. */
  class Repo {
    const path: string
    var history: RepoHistory

    /** A freshly initialised repository has no commits (`is_empty`). */
    constructor (path: string)
      ensures this.path == path && history == History([], None)
    {
      this.path := path;
      history := History([], None);
    }

    /** The tree of the commit head points at. */
    function HeadTree(): Tree
      reads this
      requires history.head.Some?
    {
      history.commits[history.head.value].tree
    }

    /** `create_commit('refs/heads/master', …, tree, parents)`: git refuses
        to move the branch unless the first parent is its current tip, so the
        parent passed is the head itself. */
    method CreateCommit(tree: Tree, parent: Option<nat>) returns (id: nat)
      requires parent == history.head
      modifies this
      ensures id == |old(history.commits)|
      ensures history == History(old(history.commits) + [Commit(tree, old(history.head))], Some(id))
    {
      id := |history.commits|;
      history := History(history.commits + [Commit(tree, parent)], Some(id));
    }

    /** `reset(oid, GIT_RESET_SOFT)`: moves head to an existing commit; an
        unknown commit is the KeyError pygit2 raises for a missing object. */
    method Reset(target: nat) returns (o: Outcome)
      modifies this
      ensures history.commits == old(history.commits)
      ensures target < |history.commits| ==> o == Pass && history.head == Some(target)
      ensures target >= |history.commits| ==> o == Fail(KeyError) && history.head == old(history.head)
    {
      if target < |history.commits| {
        history := History(history.commits, Some(target));
        o := Pass;
      } else {
        o := Fail(KeyError);
      }
    }
  }

  // ------------------------------------------------------------ history walk

  /** The commit `revert_steps` stops at: from `c`, follow parents `steps`
      times, or as far as the history goes.  A negative count never reaches
      zero and walks to the root. */
  function Walk(commits: seq<Commit>, c: nat, steps: int): (r: nat)
    requires ParentsBefore(commits) && c < |commits|
    ensures r < |commits| && r <= c
    decreases c
  {
    if steps == 0 then c
    else
      match commits[c].parent
      case None => c
      case Some(p) => Walk(commits, p, steps - 1)
  }

  /** The `k`-th ancestor of `c` (its 0-th ancestor is `c` itself), if the
      history is that long; defined from the far end. */
  function Ancestor(commits: seq<Commit>, c: nat, k: nat): (r: Option<nat>)
    requires ParentsBefore(commits) && c < |commits|
    ensures r.Some? ==> r.value < |commits|
  {
    if k == 0 then Some(c)
    else
      match Ancestor(commits, c, k - 1)
      case None => None
      case Some(a) => commits[a].parent
  }

  /** The root commit reached from `c` by following parents. */
  function Root(commits: seq<Commit>, c: nat): (r: nat)
    requires ParentsBefore(commits) && c < |commits|
    ensures r <= c && commits[r].parent.None?
    decreases c
  {
    match commits[c].parent
    case None => c
    case Some(p) => Root(commits, p)
  }

  /** Ancestors can also be taken one parent at a time from the near end. */
  lemma {:induction false} AncestorStep(commits: seq<Commit>, c: nat, k: nat)
    requires ParentsBefore(commits) && c < |commits| && k > 0
    ensures Ancestor(commits, c, k)
      == match commits[c].parent
         case None => None
         case Some(p) => Ancestor(commits, p, k - 1)
  {
    if k > 1 {
      AncestorStep(commits, c, k - 1);
    }
  }

  /** `revert_steps(n)` with `n >= 0` lands on the `n`-th ancestor when the
      history is that long, and on the root otherwise; a negative `n` always
      lands on the root. */
  lemma {:induction false} WalkLandsOnAncestor(commits: seq<Commit>, c: nat, steps: int)
    requires ParentsBefore(commits) && c < |commits|
    ensures steps >= 0 && Ancestor(commits, c, steps).Some? ==>
              Walk(commits, c, steps) == Ancestor(commits, c, steps).value
    ensures (steps < 0 || Ancestor(commits, c, steps).None?) ==>
              Walk(commits, c, steps) == Root(commits, c)
    decreases c
  {
    if steps != 0 {
      if steps > 0 {
        AncestorStep(commits, c, steps);
      }
      match commits[c].parent
      case None =>
      case Some(p) =>
        WalkLandsOnAncestor(commits, p, steps - 1);
    }
  }
}
