/** Small vocabulary shared by every module of the model. */
module Prelude {

  /** A value that may be absent: the source's NULL pointers and -1 indices. */
  datatype Option<+T> = None | Some(value: T)

  /** No value occurs twice. */
  ghost predicate Distinct<T>(s: seq<T>) {
    forall i, j :: 0 <= i < j < |s| ==> s[i] != s[j]
  }

  ghost predicate NoHigher(v: seq<nat>, t: nat) { t + 1 < |v| && v[t + 1] <= v[t] }

  /** What never rises from one entry to the next ends no higher than it began. */
  lemma {:induction false} NeverHigher(v: seq<nat>, k: nat)
    requires k < |v| && forall t :: 0 <= t < k ==> NoHigher(v, t)
    ensures v[k] <= v[0]
  {
    if k > 0 {
      NeverHigher(v, k - 1);
      assert NoHigher(v, k - 1);
    }
  }
}
