/**
 Weighted and unweighted quorums of mosaic/safety.py, and the weight sums every committee in the repository uses.
 */
module Quorums {
  import opened Results
  import opened Sums

  type WeightMap = map<string, nat>

  /** Sum of the weights of the members of s; names without a weight count nothing. */
  ghost function Weight(w: WeightMap, s: set<string>): nat {
    SumOverNonNegative(w, s);
    SumOver(w, s)
  }

  ghost function Total(w: WeightMap): nat { Weight(w, w.Keys) }

  /** The strict two-thirds threshold shared by the protocol, the membership snapshot and the committee. */
  ghost function Threshold(w: WeightMap): nat { 2 * Total(w) / 3 + 1 }

  lemma WeightRemove(w: WeightMap, s: set<string>, x: string)
    requires x in s
    ensures Weight(w, s) == (if x in w then w[x] else 0) + Weight(w, s - {x})
  {
    SumOverRemove(w, s, x);
  }

  lemma {:induction false} WeightUnion(w: WeightMap, a: set<string>, b: set<string>)
    requires a !! b
    ensures Weight(w, a + b) == Weight(w, a) + Weight(w, b)
  {
    if a == {} {
      assert a + b == b;
    } else {
      var x := Pick(a);
      WeightRemove(w, a, x);
      WeightRemove(w, a + b, x);
      assert a + b - {x} == (a - {x}) + b;
      WeightUnion(w, a - {x}, b);
    }
  }

  lemma WeightMonotone(w: WeightMap, a: set<string>, b: set<string>)
    requires a <= b
    ensures Weight(w, a) <= Weight(w, b)
  {
    WeightUnion(w, a, b - a);
    assert a + (b - a) == b;
  }

  lemma {:induction false} WeightIgnoresStrangers(w: WeightMap, s: set<string>)
    ensures Weight(w, s) == Weight(w, s * w.Keys)
  {
    if s != {} {
      var x := Pick(s);
      WeightRemove(w, s, x);
      WeightIgnoresStrangers(w, s - {x});
      if x in w {
        WeightRemove(w, s * w.Keys, x);
        assert (s - {x}) * w.Keys == s * w.Keys - {x};
      } else {
        assert (s - {x}) * w.Keys == s * w.Keys;
      }
    }
  }

  lemma {:induction false} PositiveWeight(w: WeightMap, s: set<string>)
    requires Weight(w, s) > 0
    ensures exists x :: x in s && x in w && w[x] > 0
  {
    if s != {} {
      var x := Pick(s);
      WeightRemove(w, s, x);
      if !(x in w && w[x] > 0) { PositiveWeight(w, s - {x}); }
    }
  }

  /** Two sets inside the committee overlap in at least what their weights exceed the total by. */
  lemma InclusionExclusion(w: WeightMap, a: set<string>, b: set<string>)
    requires a <= w.Keys && b <= w.Keys
    ensures Weight(w, a) + Weight(w, b) <= Total(w) + Weight(w, a * b)
  {
    WeightUnion(w, a - b, a * b);
    assert (a - b) + a * b == a;
    WeightUnion(w, a - b, b);
    WeightMonotone(w, (a - b) + b, w.Keys);
  }

  /** Quorums meet in more than a third of the weight. */
  lemma QuorumsMeet(w: WeightMap, a: set<string>, b: set<string>)
    requires a <= w.Keys && b <= w.Keys
    requires Weight(w, a) >= Threshold(w) && Weight(w, b) >= Threshold(w)
    ensures 3 * Weight(w, a * b) > Total(w)
  {
    InclusionExclusion(w, a, b);
  }

  /** What is left of a set after taking the Byzantine members out. */
  lemma HonestRest(w: WeightMap, both: set<string>, byzantine: set<string>)
    ensures Weight(w, both - byzantine) + Weight(w, byzantine) >= Weight(w, both)
  {
    WeightUnion(w, both - byzantine, both * byzantine);
    assert (both - byzantine) + both * byzantine == both;
    WeightMonotone(w, both * byzantine, byzantine);
  }

  /** With Byzantine weight at most a third, two quorums share an honest member of positive weight. */
  lemma HonestIntersection(w: WeightMap, a: set<string>, b: set<string>, byzantine: set<string>)
    returns (h: string)
    requires Weight(w, a) >= Threshold(w) && Weight(w, b) >= Threshold(w)
    requires 3 * Weight(w, byzantine) <= Total(w)
    ensures h in a && h in b && h in w && h !in byzantine && w[h] > 0
  {
    hide Weight;
    var a', b' := a * w.Keys, b * w.Keys;
    WeightIgnoresStrangers(w, a);
    WeightIgnoresStrangers(w, b);
    QuorumsMeet(w, a', b');
    HonestRest(w, a' * b', byzantine);
    PositiveWeight(w, a' * b' - byzantine);
    h :| h in a' * b' - byzantine && h in w && w[h] > 0;
  }

  // ----- The checks of the safety module

  ghost predicate GuardsPass(w: WeightMap, a: set<string>, b: set<string>, byzantine: set<string>) {
    && a <= w.Keys && b <= w.Keys && byzantine <= w.Keys
    && 3 * Weight(w, byzantine) <= Total(w)
    && 3 * Weight(w, a) > 2 * Total(w) && 3 * Weight(w, b) > 2 * Total(w)
  }

  ghost predicate WeightedHonestIntersection(w: WeightMap, a: set<string>, b: set<string>, byzantine: set<string>) {
    GuardsPass(w, a, b, byzantine) && Weight(w, a * b - byzantine) > 0
  }

  /** The weighted check is never false once its guards pass. */
  lemma WeightedCheckAlwaysHolds(w: WeightMap, a: set<string>, b: set<string>, byzantine: set<string>)
    ensures WeightedHonestIntersection(w, a, b, byzantine) <==> GuardsPass(w, a, b, byzantine)
  {
    if GuardsPass(w, a, b, byzantine) {
      InclusionExclusion(w, a, b);
      HonestRest(w, a * b, byzantine);
    }
  }

  /** Reaching the integer threshold is the same as exceeding two thirds. */
  lemma ThresholdIsStrict(w: WeightMap, s: set<string>)
    ensures Weight(w, s) >= Threshold(w) <==> 3 * Weight(w, s) > 2 * Total(w)
  {}

  function FaultBound(n: nat): nat
    requires n >= 1
  {
    (n - 1) / 3
  }

  function QuorumSize(n: nat): nat
    requires n >= 1
  {
    2 * FaultBound(n) + 1
  }

  ghost function Range(lo: int, hi: int): (r: set<int>)
    ensures forall x :: x in r <==> lo <= x < hi
    ensures |r| == if lo <= hi then hi - lo else 0
    decreases hi - lo
  {
    if lo < hi then Range(lo, hi - 1) + {hi - 1} else {}
  }

  /** Admissible arguments of the unweighted check: inside the committee, large enough, few enough faults. */
  ghost predicate UnweightedGuards(n: nat, a: set<int>, b: set<int>, byzantine: set<int>)
    requires n >= 1
  {
    && a <= Range(0, n) && b <= Range(0, n) && byzantine <= Range(0, n)
    && |byzantine| <= FaultBound(n) && |a| >= QuorumSize(n) && |b| >= QuorumSize(n)
  }

  ghost predicate UnweightedHonestIntersection(n: nat, a: set<int>, b: set<int>, byzantine: set<int>)
    requires n >= 1
  {
    UnweightedGuards(n, a, b, byzantine) && a * b - byzantine != {}
  }

  lemma SubsetSize(a: set<int>, b: set<int>)
    requires a <= b
    ensures |a| <= |b|
  {
    assert b == a + (b - a);
  }

  lemma CountsMeet(n: nat, a: set<int>, b: set<int>)
    requires a <= Range(0, n) && b <= Range(0, n)
    ensures |a * b| >= |a| + |b| - n
  {
    SubsetSize(a + b, Range(0, n));
  }

  /** For n == 3f + 1 two quorums always keep a common member outside the Byzantine set. */
  lemma UnweightedHolds(n: nat, a: set<int>, b: set<int>, byzantine: set<int>)
    requires n % 3 == 1 && UnweightedGuards(n, a, b, byzantine)
    ensures UnweightedHonestIntersection(n, a, b, byzantine)
  {
    hide Range;
    CountsMeet(n, a, b);
    if a * b - byzantine == {} {
      assert forall x :: x in a * b ==> x !in a * b - byzantine;
      SubsetSize(a * b, byzantine);
    }
  }

  /** For n == 3f + 2 and n == 3f + 3 the first and the last 2f + 1 members share Byzantine members only. */
  lemma UnweightedFails(n: nat) returns (a: set<int>, b: set<int>, byzantine: set<int>)
    requires n >= 1 && n % 3 != 1
    ensures UnweightedGuards(n, a, b, byzantine) && !UnweightedHonestIntersection(n, a, b, byzantine)
  {
    hide Range;
    var q := QuorumSize(n);
    a, b, byzantine := Range(0, q), Range(n - q, n), Range(n - q, q);
    assert a * b - byzantine == {};
  }

  /** The 2f + 1 quorum guarantees an honest common member exactly for committees of size 3f + 1. */
  lemma UnweightedExact(n: nat)
    requires n >= 1
    ensures (forall a, b, byzantine :: UnweightedGuards(n, a, b, byzantine) ==>
                                       UnweightedHonestIntersection(n, a, b, byzantine)) <==> n % 3 == 1
  {
    hide UnweightedGuards, UnweightedHonestIntersection;
    if n % 3 == 1 {
      forall a, b, byzantine | UnweightedGuards(n, a, b, byzantine)
        ensures UnweightedHonestIntersection(n, a, b, byzantine)
      {
        UnweightedHolds(n, a, b, byzantine);
      }
    } else {
      var a, b, byzantine := UnweightedFails(n);
    }
  }
}
