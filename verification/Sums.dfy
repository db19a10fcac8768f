/** Sums over sequences of naturals, and how one update moves them. The state
    machines count with them: one entry per worker or per channel, where a step
    changes one entry and the lemmas say what that does to the total, without
    unfolding the rest of the sequence. */
module Sums {
  function Sum(s: seq<nat>): nat {
    if s == [] then 0 else Sum(s[..|s| - 1]) + s[|s| - 1]
  }

  lemma {:induction false} SumUpdate(s: seq<nat>, i: nat, v: nat)
    requires i < |s|
    ensures Sum(s[i := v]) == Sum(s) - s[i] + v
  {
    var n := |s| - 1;
    if i == n {
      assert s[i := v][..n] == s[..n];
    } else {
      assert s[i := v][..n] == s[..n][i := v];
      SumUpdate(s[..n], i, v);
    }
  }

  /** Raising every entry by at most c raises the sum by at most c each. */
  lemma {:induction false} SumRaised(s: seq<nat>, t: seq<nat>, c: nat)
    requires |s| == |t| && forall i :: 0 <= i < |s| ==> t[i] <= s[i] + c
    ensures Sum(t) <= Sum(s) + c * |s|
  {
    if s != [] {
      var n := |s| - 1;
      SumRaised(s[..n], t[..n], c);
      assert c * |s| == c * n + c;
    }
  }

  lemma {:induction false} SumZero(s: seq<nat>)
    requires forall i :: 0 <= i < |s| ==> s[i] == 0
    ensures Sum(s) == 0
  {
    if s != [] {
      SumZero(s[..|s| - 1]);
    }
  }
}
