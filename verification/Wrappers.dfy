/** What the modules share: an optional value, and the size of a set of small numbers. */
module Wrappers {
  datatype Option<+T> = None | Some(value: T)

  lemma {:induction false} SetFits(s: set<int>, n: nat)
    requires forall k :: k in s ==> 0 <= k < n
    ensures |s| <= n
  {
    if n == 0 {
      assert forall k :: k !in s;
      assert s == {};
    } else {
      SetFits(s - {n - 1}, n - 1);
    }
  }
}
