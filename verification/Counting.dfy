/** The pigeonhole principle. */
module Counting {

  predicate NoRepeats(s: seq<nat>) { forall i, j | 0 <= i < j < |s| :: s[i] != s[j] }

  lemma {:induction false} Pigeonhole(s: seq<nat>, n: nat)
    requires NoRepeats(s) && forall v | v in s :: v < n
    ensures |s| <= n
    decreases n
  {
    if s == [] { return; }
    assert s[0] in s && n > 0;
    if n - 1 in s {
      var i :| 0 <= i < |s| && s[i] == n - 1;
      var t := s[..i] + s[i + 1..];
      forall v | v in t ensures v < n - 1 {
        var k :| 0 <= k < |t| && t[k] == v;
        var l := if k < i then k else k + 1;
        assert t[k] == s[l] && s[l] in s && s[l] != s[i];
      }
      Pigeonhole(t, n - 1);
    } else {
      Pigeonhole(s, n - 1);
    }
  }
}
