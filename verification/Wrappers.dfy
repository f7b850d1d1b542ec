/** Types and set facts shared by several components. */
module Wrappers {
  datatype Option<+T> = None | Some(value: T)

  lemma Any<T>(s: set<T>) returns (x: T)
    requires s != {}
    ensures x in s
  {
    x :| x in s;
  }

  lemma Outside<T>(a: set<T>, b: set<T>) returns (x: T)
    requires !(a <= b)
    ensures x in a && x !in b
  {
    assert (forall y <- a :: y in b) ==> a <= b;
    x :| x in a && x !in b;
  }

  lemma Larger<T>(a: set<T>, b: set<T>)
    requires a <= b
    ensures |a| <= |b|
    ensures a != b ==> |a| < |b|
  {
    assert b == a + (b - a);
    if a != b {
      var x :| x in b - a;
      assert |b| == |a| + |b - a|;
    }
  }
}
