/** Pigeonhole arguments. */
module Counting {

  ghost predicate Distinct<T>(s: seq<T>) {
    forall i, j :: 0 <= i < j < |s| ==> s[i] != s[j]
  }

  ghost function Below(k: nat): (s: set<nat>)
    ensures forall i: nat :: i in s <==> i < k
    ensures |s| == k
  {
    if k == 0 then {} else Below(k - 1) + {k - 1}
  }

  lemma {:induction false} SubsetSize<T>(a: set<T>, b: set<T>)
    ensures a <= b ==> |a| <= |b|
  {
    if a <= b {
      assert b == a + (b - a);
      assert |b| == |a| + |b - a|;
    }
  }

  lemma {:induction false} DistinctSize<T>(s: seq<T>)
    requires Distinct(s)
    ensures |set x | x in s| == |s|
  {
    var all := set x | x in s;
    if |s| > 0 {
      var init, last := s[..|s| - 1], s[|s| - 1];
      var before := set x | x in init;
      DistinctSize(init);
      assert last !in init;
      assert s == init + [last];
      assert all == before + {last};
      assert |all| == |before| + 1;
    } else {
      assert all == {};
    }
  }

  /** `k` distinct numbers below `k` are all of them. */
  lemma {:induction false} DistinctHitsAll(s: seq<nat>, k: nat, i: nat)
    requires Distinct(s) && |s| == k && i < k
    requires forall n :: 0 <= n < k ==> s[n] < k
    ensures i in s
  {
    var hit := set x | x in s;
    var others := Below(k) - {i};
    DistinctSize(s);
    assert Below(k) == others + {i};
    assert |others| == k - 1;
    if i !in s {
      assert hit <= others;
      SubsetSize(hit, others);
      assert false;
    }
  }
}
