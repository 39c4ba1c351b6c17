/** Finite sets of positions. */
module Sets {
  function Range(n: nat, m: nat): (r: set<nat>)
    requires n <= m
    ensures |r| == m - n && forall i :: i in r <==> n <= i < m
    decreases m
  {
    if n == m then {} else Range(n, m - 1) + {m - 1}
  }

  lemma SubsetSize<T>(a: set<T>, b: set<T>)
    requires a <= b
    ensures |a| <= |b|
  {
    assert b == a + (b - a);
  }

  lemma Latest(s: set<nat>) returns (u: nat)
    requires s != {}
    ensures u in s && forall i :: i in s ==> i <= u
  {
    u :| u in s;
    while exists i :: i in s && u < i
      invariant u in s
      decreases |set i | i in s && u < i|
    {
      var v :| v in s && u < v;
      assert (set i | i in s && v < i) <= (set i | i in s && u < i) - {v};
      SubsetSize(set i | i in s && v < i, (set i | i in s && u < i) - {v});
      u := v;
    }
  }

  lemma Earliest(s: set<nat>, most: nat) returns (first: nat)
    requires s != {} && forall i :: i in s ==> i <= most
    ensures first in s && forall i :: i in s ==> first <= i
  {
    var some: nat :| some in s;
    first := 0;
    while first !in s
      invariant forall i :: i in s ==> first <= i <= most
      decreases some - first
    {
      first := first + 1;
    }
  }

  /** The positions hold pairwise different values. */
  ghost predicate Apart(values: seq<int>, at: set<nat>) {
    forall i, j :: i in at && j in at && i < |values| && j < |values| && values[i] == values[j] ==> i == j
  }

  /** There are as many values as positions exactly when no two positions share one. */
  lemma {:induction false} ImageSize(values: seq<int>, at: set<nat>, image: set<int>)
    requires forall i :: i in at ==> i < |values|
    requires image == set i | i in at && i < |values| :: values[i]
    ensures |image| <= |at| && (|image| == |at| <==> Apart(values, at))
  {
    if at == {} {
      assert image == {};
    } else {
      var i :| i in at;
      var rest := at - {i};
      var others := set j | j in rest && j < |values| :: values[j];
      assert image == others + {values[i]};
      ImageSize(values, rest, others);
      if values[i] in others {
        assert image == others && !Apart(values, at);
      } else {
        assert Apart(values, at) <==> Apart(values, rest);
      }
    }
  }
}
