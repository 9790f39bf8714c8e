/** Counting arguments over finite sets of ids. */
module Finite {

  /** The ids below `n`. */
  ghost function Below(n: nat): (s: set<nat>)
    ensures |s| == n
    ensures forall i :: i in s <==> 0 <= i < n
  {
    if n == 0 then {} else Below(n - 1) + {n - 1}
  }

  lemma {:induction false} SubsetSize(a: set<nat>, b: set<nat>)
    requires a <= b
    ensures |a| <= |b|
    decreases a
  {
    if x :| x in a { SubsetSize(a - {x}, b - {x}); }
  }

  ghost function Elems(l: seq<nat>): set<nat> { set v | v in l }

  lemma {:induction false} SetOfDistinct(l: seq<nat>)
    requires forall i, j :: 0 <= i < j < |l| ==> l[i] != l[j]
    ensures |Elems(l)| == |l|
    decreases |l|
  {
    if |l| == 0 {
      assert Elems(l) == {};
    } else {
      var k, v := l[..|l| - 1], l[|l| - 1];
      SetOfDistinct(k);
      assert l == k + [v];
      assert Elems(l) == Elems(k) + {v};
    }
  }

  /** Distinct ids below `n` that leave out `x` are fewer than `n`. */
  lemma {:induction false} Pigeonhole(l: seq<nat>, n: nat, x: nat)
    requires x < n && x !in l
    requires forall i :: 0 <= i < |l| ==> l[i] < n
    requires forall i, j :: 0 <= i < j < |l| ==> l[i] != l[j]
    ensures |l| < n
  {
    SetOfDistinct(l);
    SubsetSize(Elems(l), Below(n) - {x});
  }
}
