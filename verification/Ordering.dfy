/** Ascending enumeration of finite sets of numbers. */
module Ordering {
  lemma {:induction false} Smallest(s: set<nat>) returns (m: nat)
    requires s != {}
    ensures m in s && forall x :: x in s ==> m <= x
    decreases |s|
  {
    var y :| y in s;
    if s == {y} {
      m := y;
    } else {
      assert s - {y} != {};
      var z := Smallest(s - {y});
      m := if z < y then z else y;
      assert forall x :: x in s ==> x == y || x in s - {y};
    }
  }

  lemma SmallestExists(s: set<nat>)
    requires s != {}
    ensures exists m :: m in s && forall x :: x in s ==> m <= x
  {
    var m := Smallest(s);
  }

  function Least(s: set<nat>): (m: nat)
    requires s != {}
    ensures m in s && forall x :: x in s ==> m <= x
  {
    SmallestExists(s);
    var m :| m in s && forall x :: x in s ==> m <= x;
    m
  }

  /** The elements of `s`, in ascending order. */
  function Sorted(s: set<nat>): (r: seq<nat>)
    ensures forall x :: x in r <==> x in s
    ensures forall i, j :: 0 <= i < j < |r| ==> r[i] < r[j]
    decreases |s|
  {
    if s == {} then [] else [Least(s)] + Sorted(s - {Least(s)})
  }
}
