/** Definitions shared by the models. */
module Common {

  /** A value that may be absent; `None` stands for a rejected or failed call. */
  datatype Option<T> = None | Some(value: T)

  /** A subset is no larger than its superset, and as large only when they are equal. */
  lemma SubsetSize<T>(a: set<T>, b: set<T>)
    requires a <= b
    ensures |a| <= |b|
    ensures |a| == |b| <==> a == b
  {
    if a != b {
      assert |b - a| > 0;
      assert b == a + (b - a);
    }
  }
}
