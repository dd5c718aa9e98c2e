/** Facts about finite sets. */
module Sets {

  lemma SomeMember(s: set<int>)
    ensures s == {} || exists x :: x in s
  {
    if forall x :: x !in s {
      assert s == {};
    }
  }

  lemma {:induction false} SubsetSize<T>(a: set<T>, b: set<T>)
    requires a <= b
    ensures |a| <= |b|
  {
    if a != {} {
      var x :| x in a;
      SubsetSize(a - {x}, b - {x});
    }
  }

  lemma SameSet(a: set<int>, b: set<int>)
    requires forall x :: x in a <==> x in b
    ensures a == b
  {
    forall x
      ensures x in a <==> x in b
    {
    }
  }

  lemma SameMap<V>(a: map<int, V>, b: map<int, V>)
    requires forall x :: x in a <==> x in b
    requires forall x :: x in a ==> a[x] == b[x]
    ensures a == b
  {
    forall x
      ensures x in a <==> x in b
    {
    }
    forall x | x in a
      ensures a[x] == b[x]
    {
    }
  }
}
