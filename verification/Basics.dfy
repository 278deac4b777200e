/** Options and "first match" searches, shared by every table of the library. */
module Basics {

  datatype Option<+T> = None | Some(value: T)

  /** The index of the first element satisfying `p`: what every table search of the library returns. */
  function FirstIndex<T>(s: seq<T>, p: T -> bool): (r: Option<nat>)
    ensures r.Some? ==> r.value < |s| && p(s[r.value]) && forall k | 0 <= k < r.value :: !p(s[k])
    ensures r.None? ==> forall k | 0 <= k < |s| :: !p(s[k])
  {
    if s == [] then None
    else if p(s[0]) then Some(0)
    else
      var rest := FirstIndex(s[1..], p);
      assert forall k | 1 <= k < |s| :: s[k] == s[1..][k - 1];
      if rest.None? then None else Some(rest.value + 1)
  }

  /** The search finds `i` exactly when `i` is the first match, and nothing exactly when there is none. */
  lemma FirstIndexExactly<T>(s: seq<T>, p: T -> bool, i: nat)
    ensures FirstIndex(s, p) == Some(i) <==> i < |s| && p(s[i]) && forall k | 0 <= k < i :: !p(s[k])
    ensures FirstIndex(s, p) == None <==> forall k | 0 <= k < |s| :: !p(s[k])
  {
    var r := FirstIndex(s, p);
    if i < |s| && p(s[i]) && forall k | 0 <= k < i :: !p(s[k]) {
      assert r.Some?;
    }
  }

  /** The search depends only on where the predicate holds. */
  lemma FirstIndexSame<T>(s: seq<T>, p: T -> bool, q: T -> bool)
    requires forall x | x in s :: p(x) == q(x)
    ensures FirstIndex(s, p) == FirstIndex(s, q)
  {
  }
}
