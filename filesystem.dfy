/** The part of the filesystem the database touches: directories are
    strings, and the only things stored in them are git repositories, kept
    by the path they were initialised at. */
module FileSystem {
  import opened Base
  import opened Git

  /** `os.path.join(a, b)` for two components: an absolute `b` replaces
      `a`; otherwise a separator goes between them unless `a` is empty or
      already ends with one. */
  function Join(a: string, b: string): string {
    if |b| > 0 && b[0] == '/' then b
    else if a == "" || a[|a| - 1] == '/' then a + b
    else a + "/" + b
  }

  /** An absolute second component is the whole result; a relative one is
      kept as the tail, after the whole first component. */
  lemma {:induction false} JoinParts(a: string, b: string)
    ensures |b| > 0 && b[0] == '/' ==> Join(a, b) == b
    ensures !(|b| > 0 && b[0] == '/') ==>
              |Join(a, b)| >= |a| + |b| && Join(a, b)[..|a|] == a && Join(a, b)[|Join(a, b)| - |b|..] == b
  {
  }

  /** Two relative names whose endings differ (the shorter one is not the
      tail of the longer) never join to the same path, whatever they are
      joined to. */
  lemma {:induction false} JoinEndsDiffer(a: string, x: string, b: string, y: string)
    requires x != "" && x[0] != '/' && y != "" && y[0] != '/'
    requires |y| <= |x| && x[|x| - |y|..] != y
    ensures Join(a, x) != Join(b, y)
  {
    JoinParts(a, x);
    JoinParts(b, y);
    var p, q := Join(a, x), Join(b, y);
    assert p[|p| - |y|..] == p[|p| - |x|..][|x| - |y|..] == x[|x| - |y|..];
  }

  /** Whether `path` is `dir` itself or lies inside it. */
  predicate Under(path: string, dir: string) {
    path == dir
    || (dir != "" && var d := if dir[|dir| - 1] == '/' then dir else dir + "/";
        |d| <= |path| && path[..|d|] == d)
  }

  /** The repositories on disk, by the path each was initialised at. */
  class Disk {
    var repos: map<string, Repo>

    /** Every repository is kept under its own path, so repositories at
        different paths are different objects. */
    ghost predicate Valid()
      reads this
    {
      forall p :: p in repos ==> repos[p].path == p
    }

    constructor ()
      ensures Valid() && repos == map[]
    {
      repos := map[];
    }

    /** The repository already at `path`, if any. */
    function Existing(path: string): (rs: set<Repo>)
      reads this
      ensures path in repos ==> rs == {repos[path]}
      ensures path !in repos ==> rs == {}
      ensures Valid() ==> forall r :: r in rs ==> r.path == path
    {
      if path in repos then {repos[path]} else {}
    }

    /** `pygit2.init_repository(path, bare=True)`: opens the repository at
        `path`, or creates an empty one there. */
    method InitRepository(path: string) returns (r: Repo)
      requires Valid()
      modifies this
      ensures Valid() && r.path == path && path in repos && repos[path] == r
      ensures path in old(repos) ==> r == old(repos)[path] && repos == old(repos)
      ensures path !in old(repos) ==> fresh(r) && r.history == History([], None)
                                      && repos == old(repos)[path := r]
    {
      if path in repos {
        r := repos[path];
      } else {
        r := new Repo(path);
        repos := repos[path := r];
      }
    }

    /** `shutil.rmtree(dir)`: removes every repository inside `dir`; a
        directory holding nothing is an error (`removed` is false). */
    method RemoveTree(dir: string) returns (removed: bool)
      requires Valid()
      modifies this
      ensures Valid()
      ensures removed <==> exists p :: p in old(repos) && Under(p, dir)
      ensures forall p :: p in repos <==> p in old(repos) && !Under(p, dir)
      ensures forall p :: p in repos ==> repos[p] == old(repos)[p]
    {
      removed := exists p :: p in repos && Under(p, dir);
      repos := map p | p in repos && !Under(p, dir) :: repos[p];
    }
  }
}
