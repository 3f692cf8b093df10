/** What several modules share. */
module Common {

  datatype Option<T> = None | Some(value: T)

  function Pow2(k: nat): (r: nat)
    ensures r > 0
  {
    if k == 0 then 1 else 2 * Pow2(k - 1)
  }

  /** A part of a finite set is no larger, and smaller unless it is the whole. */
  lemma PartIsSmaller<T>(a: set<T>, b: set<T>)
    requires a <= b
    ensures |a| <= |b|
    ensures a != b ==> |a| < |b|
  {
    assert b == a + (b - a);
    assert |b| == |a| + |b - a|;
    if a != b {
      var x :| x in b && x !in a;
      assert x in b - a;
    }
  }
}
