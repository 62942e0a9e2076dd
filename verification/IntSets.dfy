/** Finite sets of integers: a non-empty one has a member, and a least one. */
module IntSets {
  lemma SomeMember(s: set<int>)
    ensures s == {} || exists x :: x in s
  {
    if forall x :: x !in s { assert s == {}; }
  }

  lemma {:induction false} SomeLeast(s: set<int>) returns (least: int)
    requires s != {}
    ensures least in s && forall x :: x in s ==> least <= x
    decreases |s|
  {
    SomeMember(s);
    least :| least in s;
    var rest := s - {least};
    assert forall x :: x in s ==> x == least || x in rest;
    if rest != {} {
      var other := SomeLeast(rest);
      if other < least { least := other; }
    }
  }
}
