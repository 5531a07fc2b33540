/** Picking elements out of non-empty sets of numbers. */
module Sets {

  lemma EmptySet<T>(s: set<T>)
    requires forall x :: x !in s
    ensures s == {}
  {
  }

  lemma NonEmpty(s: set<int>)
    requires s != {}
    ensures exists x :: x in s
  {
    if !(exists x :: x in s) {
      EmptySet(s);
    }
  }
}
