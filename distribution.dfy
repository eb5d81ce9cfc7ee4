/** The Markov chain on a ladder of levels, as mathematics.

    A distribution p gives the probability mass at each level (index 0 is
    level 1). The transition probabilities u give, for every level but the
    top, the chance of moving up one level in an attempt; |u| == |p| - 1.
    One step moves the fraction u[i] of the mass at level i to level i + 1
    when u[i] > 0, and leaves everything else where it is. */
module Distribution {

  /** Total mass, summed from the lowest level up. */
  function Sum(s: seq<real>): real
  {
    if s == [] then 0.0 else Sum(s[..|s| - 1]) + s[|s| - 1]
  }

  /** The transition probabilities belong to a ladder with |p| levels. */
  predicate Fits(p: seq<real>, u: seq<real>) {
    |p| >= 1 && |u| == |p| - 1
  }

  predicate AreProbabilities(u: seq<real>) {
    forall k :: 0 <= k < |u| ==> 0.0 <= u[k] <= 1.0
  }

  predicate NonNegative(p: seq<real>) {
    forall i :: 0 <= i < |p| ==> 0.0 <= p[i]
  }

  /** No mass below index j. */
  predicate EmptyBelow(p: seq<real>, j: int) {
    forall i :: 0 <= i < j && i < |p| ==> p[i] == 0.0
  }

  /** The distribution that puts all mass on index j of n levels. */
  function Unit(n: nat, j: nat): seq<real>
    requires j < n
  {
    seq(n, i => if i == j then 1.0 else 0.0)
  }

  /** Mass that leaves index i for index i + 1 in one step: nothing from the
      top level or from a level whose probability is not positive. */
  function Out(p: seq<real>, u: seq<real>, i: int): real
    requires Fits(p, u) && 0 <= i < |p|
  {
    if i < |u| && u[i] > 0.0 then p[i] * u[i] else 0.0
  }

  /** Mass that arrives at index i from index i - 1 in one step. */
  function In(p: seq<real>, u: seq<real>, i: int): real
    requires Fits(p, u) && 0 <= i < |p|
  {
    if i > 0 then Out(p, u, i - 1) else 0.0
  }

  /** One upgrade attempt applied to the whole distribution. */
  function Step(p: seq<real>, u: seq<real>): (q: seq<real>)
    requires Fits(p, u)
    ensures |q| == |p|
  {
    seq(|p|, i requires 0 <= i < |p| => p[i] - Out(p, u, i) + In(p, u, i))
  }

  /** n upgrade attempts. */
  function Run(p: seq<real>, u: seq<real>, n: nat): (q: seq<real>)
    requires Fits(p, u)
    ensures |q| == |p|
  {
    if n == 0 then p else Step(Run(p, u, n - 1), u)
  }

  // ---------------------------------------------------------------- mass

  /** The mass of the lowest k levels after a step is their mass before,
      less what crossed from level k - 1 to level k. */
  lemma {:induction false} StepPrefixSum(p: seq<real>, u: seq<real>, k: nat)
    requires Fits(p, u) && 1 <= k <= |p|
    ensures Sum(Step(p, u)[..k]) == Sum(p[..k]) - Out(p, u, k - 1)
  {
    var q := Step(p, u);
    if k == 1 {
      assert q[..1][..0] == [];
      assert p[..1][..0] == [];
    } else {
      StepPrefixSum(p, u, k - 1);
      assert q[..k][..k - 1] == q[..k - 1];
      assert p[..k][..k - 1] == p[..k - 1];
    }
  }

  /** A step conserves total mass exactly. */
  lemma StepConservesMass(p: seq<real>, u: seq<real>)
    requires Fits(p, u)
    ensures Sum(Step(p, u)) == Sum(p)
  {
    StepPrefixSum(p, u, |p|);
    assert Step(p, u)[..|p|] == Step(p, u);
    assert p[..|p|] == p;
  }

  lemma {:induction false} RunConservesMass(p: seq<real>, u: seq<real>, n: nat)
    requires Fits(p, u)
    ensures Sum(Run(p, u, n)) == Sum(p)
  {
    if n > 0 {
      RunConservesMass(p, u, n - 1);
      StepConservesMass(Run(p, u, n - 1), u);
    }
  }

  lemma {:induction false} UnitPrefixSum(n: nat, j: nat, k: nat)
    requires j < n && k <= n
    ensures Sum(Unit(n, j)[..k]) == if j < k then 1.0 else 0.0
  {
    if k > 0 {
      UnitPrefixSum(n, j, k - 1);
      assert Unit(n, j)[..k][..k - 1] == Unit(n, j)[..k - 1];
    }
  }

  /** The starting distribution holds total mass 1. */
  lemma UnitMass(n: nat, j: nat)
    requires j < n
    ensures Sum(Unit(n, j)) == 1.0
  {
    UnitPrefixSum(n, j, n);
    assert Unit(n, j)[..n] == Unit(n, j);
  }

  // ---------------------------------------------------------- positivity

  lemma OutBounds(p: seq<real>, u: seq<real>, i: int)
    requires Fits(p, u) && AreProbabilities(u) && 0 <= i < |p| && 0.0 <= p[i]
    ensures 0.0 <= Out(p, u, i) <= p[i]
  {
    if i < |u| && u[i] > 0.0 {
      assert p[i] * u[i] <= p[i] * 1.0;
    }
  }

  /** With probabilities in [0, 1], a step keeps every level non-negative. */
  lemma StepNonNegative(p: seq<real>, u: seq<real>)
    requires Fits(p, u) && AreProbabilities(u) && NonNegative(p)
    ensures NonNegative(Step(p, u))
  {
    forall i | 0 <= i < |p|
      ensures 0.0 <= Step(p, u)[i]
    {
      OutBounds(p, u, i);
      if i > 0 { OutBounds(p, u, i - 1); }
    }
  }

  lemma {:induction false} RunNonNegative(p: seq<real>, u: seq<real>, n: nat)
    requires Fits(p, u) && AreProbabilities(u) && NonNegative(p)
    ensures NonNegative(Run(p, u, n))
  {
    if n > 0 {
      RunNonNegative(p, u, n - 1);
      StepNonNegative(Run(p, u, n - 1), u);
    }
  }

  // --------------------------------------------------------- upward flow

  /** Mass never moves down: the mass of the lowest k levels never grows in
      a step, for every k. */
  lemma StepNeverLowers(p: seq<real>, u: seq<real>, k: nat)
    requires Fits(p, u) && NonNegative(p) && k <= |p|
    ensures Sum(Step(p, u)[..k]) <= Sum(p[..k])
  {
    if k > 0 {
      StepPrefixSum(p, u, k);
      assert 0.0 <= p[k - 1];
    }
  }

  lemma {:induction false} RunNeverLowers(p: seq<real>, u: seq<real>, n: nat, k: nat)
    requires Fits(p, u) && AreProbabilities(u) && NonNegative(p) && k <= |p|
    ensures Sum(Run(p, u, n)[..k]) <= Sum(p[..k])
  {
    if n > 0 {
      RunNeverLowers(p, u, n - 1, k);
      RunNonNegative(p, u, n - 1);
      StepNeverLowers(Run(p, u, n - 1), u, k);
    }
  }

  /** The top level and every level whose probability is 0 keep all of
      their mass; they can only gain. */
  lemma StuckLevelKeepsMass(p: seq<real>, u: seq<real>, i: int)
    requires Fits(p, u) && AreProbabilities(u) && NonNegative(p) && 0 <= i < |p|
    requires i == |p| - 1 || u[i] == 0.0
    ensures Step(p, u)[i] >= p[i]
  {
    if i > 0 { OutBounds(p, u, i - 1); }
  }

  /** Levels that hold no mass keep holding none when everything below them
      is empty too: nothing flows into them from above. */
  lemma StepKeepsEmptyBelow(p: seq<real>, u: seq<real>, j: int)
    requires Fits(p, u) && EmptyBelow(p, j)
    ensures EmptyBelow(Step(p, u), j)
  {
  }

  lemma {:induction false} RunKeepsEmptyBelow(p: seq<real>, u: seq<real>, n: nat, j: int)
    requires Fits(p, u) && EmptyBelow(p, j)
    ensures EmptyBelow(Run(p, u, n), j)
  {
    if n > 0 {
      RunKeepsEmptyBelow(p, u, n - 1, j);
      StepKeepsEmptyBelow(Run(p, u, n - 1), u, j);
    }
  }

  // ------------------------------------------------------ special ladders

  predicate AllZero(u: seq<real>) {
    forall k :: 0 <= k < |u| ==> u[k] == 0.0
  }

  /** With every probability 0 the distribution never changes. */
  lemma {:induction false} RunWithoutUpgrades(p: seq<real>, u: seq<real>, n: nat)
    requires Fits(p, u) && AllZero(u)
    ensures Run(p, u, n) == p
  {
    if n > 0 {
      RunWithoutUpgrades(p, u, n - 1);
      assert Step(p, u) == p;
    }
  }

  /** Every probability from index j upward is 1. */
  predicate CertainFrom(u: seq<real>, j: nat) {
    forall k :: j <= k < |u| ==> u[k] == 1.0
  }

  function Min(a: int, b: int): int {
    if a < b then a else b
  }

  /** With certain upgrades, all mass at index j climbs one level per step
      until it reaches the top. */
  lemma StepUnitClimbs(u: seq<real>, n: nat, j: nat, i: nat)
    requires |u| == n - 1 && j <= i < n && CertainFrom(u, j)
    ensures Step(Unit(n, i), u) == Unit(n, Min(i + 1, n - 1))
  {
    var p, q := Unit(n, i), Step(Unit(n, i), u);
    var r := Unit(n, Min(i + 1, n - 1));
    forall k | 0 <= k < n
      ensures q[k] == r[k]
    {
      if k == i && i < n - 1 {
        assert Out(p, u, k) == 1.0;
      }
    }
  }

  lemma {:induction false} RunUnitClimbs(u: seq<real>, n: nat, j: nat, m: nat)
    requires |u| == n - 1 && j < n && CertainFrom(u, j)
    ensures Run(Unit(n, j), u, m) == Unit(n, Min(j + m, n - 1))
  {
    if m > 0 {
      RunUnitClimbs(u, n, j, m - 1);
      StepUnitClimbs(u, n, j, Min(j + m - 1, n - 1));
    }
  }

  /** With every probability from the start level upward equal to 1, the
      whole mass reaches the top level after (levels - start) steps. */
  lemma CertainUpgradesReachTop(u: seq<real>, levels: nat, start: nat)
    requires 1 <= start <= levels && |u| == levels - 1 && CertainFrom(u, start - 1)
    ensures Run(Unit(levels, start - 1), u, levels - start) == Unit(levels, levels - 1)
  {
    RunUnitClimbs(u, levels, start - 1, levels - start);
  }
}
