/** Listing a finite set of integers in ascending order. */
module SortedSets {

  /** The least element of a non-empty set of ids. */
  function SetMin(s: set<int>): (m: int)
    requires s != {}
    ensures m in s && forall x :: x in s ==> m <= x
  {
    MinExists(s);
    var m :| m in s && forall x :: x in s ==> m <= x;
    m
  }

  lemma {:induction false} MinExists(s: set<int>)
    requires s != {}
    ensures exists m :: m in s && forall x :: x in s ==> m <= x
    decreases |s|
  {
    if forall x :: x !in s {
      assert false;
    }
    var y :| y in s;
    if s != {y} {
      var rest := s - {y};
      MinExists(rest);
      var m :| m in rest && forall x :: x in rest ==> m <= x;
      var lo := if y < m then y else m;
      forall x | x in s ensures lo <= x { if x != y { assert x in rest; } }
      assert lo in s;
    }
  }

  /** The elements in ascending order. */
  function SortedIds(s: set<int>): (r: seq<int>)
    ensures forall i :: i in s <==> i in r
    ensures forall a, b :: 0 <= a < b < |r| ==> r[a] < r[b]
    decreases |s|
  {
    if s == {} then []
    else
      var m := SetMin(s);
      var rest := SortedIds(s - {m});
      [m] + rest
  }
}
