/** Python's `sorted` on a set of integers. */
module SortedSets {
  predicate Ascending(r: seq<int>) {
    forall i, j :: 0 <= i < j < |r| ==> r[i] < r[j]
  }

  lemma NonEmpty(s: set<int>)
    ensures s == {} || exists x :: x in s
  {
    if forall x :: x !in s {
      assert s == {};
    }
  }

  lemma {:induction false} MinExists(s: set<int>)
    requires s != {}
    ensures exists m :: m in s && forall x :: x in s ==> m <= x
  {
    NonEmpty(s);
    var m :| m in s;
    if s - {m} != {} {
      MinExists(s - {m});
      var k :| k in s - {m} && forall x :: x in s - {m} ==> k <= x;
      assert forall x :: x in s ==> x == m || x in s - {m};
      assert (if m <= k then m else k) in s;
    } else {
      assert forall x :: x in s ==> x == m || x in s - {m};
    }
  }

  function Min(s: set<int>): (m: int)
    requires s != {}
    ensures m in s && forall x :: x in s ==> m <= x
  {
    MinExists(s);
    var m :| m in s && forall x :: x in s ==> m <= x;
    m
  }

  function Sorted(s: set<int>): (r: seq<int>)
    ensures Ascending(r) && (forall x :: x in r <==> x in s) && |r| == |s|
  {
    if s == {} then []
    else
      var m := Min(s);
      var rest := Sorted(s - {m});
      [m] + rest
  }
}
