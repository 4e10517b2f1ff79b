/**
 Largest-remainder apportionment: one specification and the two allocators that meet it,
 one in cents (services/allocation_workspace.py) and one in milliunits
 (services/category_resolution.py). Weights are whole multiples of a common unit.
 */
module Apportionment {
  import opened Prelude

  function Sum(s: seq<int>): int {
    if s == [] then 0 else Sum(s[..|s| - 1]) + s[|s| - 1]
  }

  function FloorShare(target: nat, weight: nat, total: nat): nat
    requires total > 0
  {
    (target * weight) / total
  }

  function Fraction(target: nat, weight: nat, total: nat): nat
    requires total > 0
  {
    (target * weight) % total
  }

  /** Lane i is served before lane j: the larger fraction, the earlier lane on a tie. */
  predicate ServedBefore(fracs: seq<int>, i: nat, j: nat)
    requires i < |fracs| && j < |fracs|
  {
    fracs[i] > fracs[j] || (fracs[i] == fracs[j] && i < j)
  }

  function Floors(target: nat, weights: seq<nat>): (f: seq<int>)
    requires Sum(weights) > 0
    ensures |f| == |weights|
  {
    seq(|weights|, i requires 0 <= i < |weights| => FloorShare(target, weights[i], Sum(weights)))
  }

  function Fractions(target: nat, weights: seq<nat>): (f: seq<int>)
    requires Sum(weights) > 0
    ensures |f| == |weights|
  {
    seq(|weights|, i requires 0 <= i < |weights| => Fraction(target, weights[i], Sum(weights)))
  }

  /**
   The specification: the shares sum to the target, each is its floor or one more, and
   the lanes that got one more are served before those that did not.
   */
  ghost predicate LargestRemainder(target: nat, weights: seq<nat>, shares: seq<int>)
    requires Sum(weights) > 0
  {
    var floors, fracs := Floors(target, weights), Fractions(target, weights);
    && |shares| == |weights|
    && Sum(shares) == target
    && (forall i | 0 <= i < |shares| :: floors[i] <= shares[i] <= floors[i] + 1)
    && (forall i, j | 0 <= i < |shares| && 0 <= j < |shares| && shares[i] > floors[i] && shares[j] == floors[j] ::
          ServedBefore(fracs, i, j))
  }

  /** Equal weights when no weight is positive. */
  function Effective(weights: seq<nat>): (w: seq<nat>)
    ensures |w| == |weights|
    ensures weights != [] ==> Sum(w) > 0
  {
    SumNonNegative(weights);
    SumOfOnes(|weights|);
    if Sum(weights) > 0 then weights else Ones(|weights|)
  }

  function Ones(n: nat): seq<nat> { seq(n, _ => 1) }

  // ---------- sums ----------

  lemma {:induction false} SumNonNegative(s: seq<int>)
    requires forall i | 0 <= i < |s| :: s[i] >= 0
    ensures Sum(s) >= 0
  {
    if s != [] {
      SumNonNegative(s[..|s| - 1]);
    }
  }

  lemma {:induction false} SumOfOnes(n: nat)
    ensures Sum(Ones(n)) == n
  {
    if n > 0 {
      SumOfOnes(n - 1);
      assert Ones(n)[..n - 1] == Ones(n - 1);
    }
  }

  lemma {:induction false} SumUpdate(s: seq<int>, i: nat, x: int)
    requires i < |s|
    ensures Sum(s[i := x]) == Sum(s) - s[i] + x
  {
    var n := |s| - 1;
    if i == n {
      assert s[i := x][..n] == s[..n];
    } else {
      SumUpdate(s[..n], i, x);
      assert s[i := x][..n] == s[..n][i := x];
    }
  }

  lemma {:induction false} SumScaled(a: seq<int>, b: seq<int>, c: seq<int>, p: int, q: int)
    requires |a| == |b| == |c|
    requires forall i | 0 <= i < |a| :: c[i] == p * a[i] - q * b[i]
    ensures Sum(c) == p * Sum(a) - q * Sum(b)
  {
    if a != [] {
      var n := |a| - 1;
      SumScaled(a[..n], b[..n], c[..n], p, q);
      ScaledStep(Sum(a[..n]), a[n], Sum(b[..n]), b[n], p, q);
    }
  }

  lemma ScaledStep(sumA: int, a: int, sumB: int, b: int, p: int, q: int)
    ensures p * (sumA + a) - q * (sumB + b) == (p * sumA - q * sumB) + (p * a - q * b)
  {
  }

  lemma SumSnoc(s: seq<int>, x: int)
    ensures Sum(s + [x]) == Sum(s) + x
  {
    assert (s + [x])[..|s|] == s;
  }

  lemma {:induction false} ZeroSumOfNonNegatives(s: seq<int>, i: nat)
    requires i < |s| && Sum(s) <= 0
    requires forall k | 0 <= k < |s| :: s[k] >= 0
    ensures s[i] == 0
  {
    var n := |s| - 1;
    SumNonNegative(s[..n]);
    if i < n {
      ZeroSumOfNonNegatives(s[..n], i);
    }
  }

  lemma {:induction false} SumsCross(s: seq<int>, t: seq<int>, i: nat) returns (j: nat)
    requires |s| == |t| && i < |s| && s[i] > t[i] && Sum(s) <= Sum(t)
    ensures j < |s| && s[j] < t[j]
  {
    if k: nat :| k < |s| && s[k] < t[k] {
      j := k;
    } else {
      var d := seq(|s|, k requires 0 <= k < |s| => s[k] - t[k]);
      SumScaled(s, t, d, 1, 1);
      ZeroSumOfNonNegatives(d, i);
      j := i;
    }
  }

  lemma ShareParts(target: nat, weights: seq<nat>, i: nat)
    requires Sum(weights) > 0 && i < |weights|
    ensures var total := Sum(weights);
            && target * weights[i] == total * Floors(target, weights)[i] + Fractions(target, weights)[i]
            && 0 <= Fractions(target, weights)[i] < total
  {
    DivMod(target * weights[i], Sum(weights));
  }

  // ---------- what the specification implies ----------

  /** There is at most one largest-remainder allocation. */
  lemma LargestRemainderIsUnique(target: nat, weights: seq<nat>, s: seq<int>, t: seq<int>)
    requires Sum(weights) > 0
    requires LargestRemainder(target, weights, s) && LargestRemainder(target, weights, t)
    ensures s == t
  {
    var fracs := Fractions(target, weights);
    if i :| 0 <= i < |s| && s[i] != t[i] {
      var a, b := if s[i] > t[i] then s else t, if s[i] > t[i] then t else s;
      var j := SumsCross(a, b, i);
      assert ServedBefore(fracs, i, j) && ServedBefore(fracs, j, i);
    }
  }

  /** How far a share is from its exact quota, in units of 1/total. */
  lemma ShareGap(target: nat, weights: seq<nat>, s: seq<int>, i: nat)
    requires Sum(weights) > 0 && i < |weights|
    requires LargestRemainder(target, weights, s)
    ensures var total, frac := Sum(weights), Fractions(target, weights)[i];
            && 0 <= frac < total
            && total * s[i] - target * weights[i]
               == (if s[i] > Floors(target, weights)[i] then total else 0) - frac
  {
    hide FloorShare, Fraction, Sum;
    ShareParts(target, weights, i);
    var total, floor := Sum(weights), Floors(target, weights)[i];
    assert total * (floor + 1) == total * floor + total;
    assert s[i] == floor || s[i] == floor + 1;
  }

  /** Only a lane with a fraction is rounded up, so a lane whose quota is whole gets exactly that. */
  lemma WholeQuotaIsExact(target: nat, weights: seq<nat>, s: seq<int>, i: nat)
    requires Sum(weights) > 0 && i < |weights|
    requires LargestRemainder(target, weights, s)
    requires Fractions(target, weights)[i] == 0
    ensures s[i] == Floors(target, weights)[i]
  {
    hide FloorShare, Fraction, Sum;
    var total := Sum(weights);
    var floors, fracs := Floors(target, weights), Fractions(target, weights);
    if s[i] > floors[i] {
      var d := seq(|s|, k requires 0 <= k < |s| => (if s[k] > floors[k] then total else 0) - fracs[k]);
      forall k | 0 <= k < |s|
        ensures d[k] >= 0 && d[k] == total * s[k] - target * weights[k]
      {
        ShareGap(target, weights, s, k);
        if s[k] == floors[k] {
          assert ServedBefore(fracs, i, k);
        }
      }
      SumScaled(s, weights, d, total, target);
      ZeroSumOfNonNegatives(d, i);
    }
  }

  /** Each share is the floor or the ceiling of its exact quota: it is less than one unit away. */
  lemma ShareIsFloorOrCeiling(target: nat, weights: seq<nat>, s: seq<int>, i: nat)
    requires Sum(weights) > 0 && i < |weights|
    requires LargestRemainder(target, weights, s)
    ensures var total := Sum(weights);
            -total < total * s[i] - target * weights[i] < total && s[i] >= 0
  {
    hide Sum, Fraction;
    ShareGap(target, weights, s, i);
    if Fractions(target, weights)[i] == 0 {
      WholeQuotaIsExact(target, weights, s, i);
    }
    FloorNonNegative(target, weights[i], Sum(weights));
  }

  lemma FloorNonNegative(target: nat, weight: nat, total: nat)
    requires total > 0
    ensures FloorShare(target, weight, total) >= 0
  {
  }

  /** A lane without weight gets nothing. */
  lemma ZeroWeightGetsNothing(target: nat, weights: seq<nat>, s: seq<int>, i: nat)
    requires Sum(weights) > 0 && i < |weights| && weights[i] == 0
    requires LargestRemainder(target, weights, s)
    ensures s[i] == 0
  {
    WholeQuotaIsExact(target, weights, s, i);
  }

  lemma FloorMonotone(target: nat, w: nat, w': nat, total: nat)
    requires total > 0 && w <= w'
    ensures FloorShare(target, w, total) <= FloorShare(target, w', total)
  {
    var x, y := target * w, target * w';
    ProductNonNegative(target, w' - w);
    assert y == x + target * (w' - w);
    var d := x / total - y / total;
    DivMod(x, total);
    DivMod(y, total);
    assert d * total == (x / total) * total - (y / total) * total;
    MultipleIsLarge(d, total);
  }

  /** A heavier lane, or an equal and earlier one, never gets less. */
  lemma HeavierNeverGetsLess(target: nat, weights: seq<nat>, s: seq<int>, i: nat, j: nat)
    requires Sum(weights) > 0 && i < |weights| && j < |weights|
    requires LargestRemainder(target, weights, s)
    requires weights[i] > weights[j] || (weights[i] == weights[j] && i <= j)
    ensures s[i] >= s[j]
  {
    var total := Sum(weights);
    var floors, fracs := Floors(target, weights), Fractions(target, weights);
    FloorMonotone(target, weights[j], weights[i], total);
    if floors[i] == floors[j] && s[j] > floors[j] && s[i] == floors[i] {
      assert ServedBefore(fracs, j, i);
      ShareParts(target, weights, i);
      ShareParts(target, weights, j);
      ProductNonNegative(target, weights[i] - weights[j]);
      assert target * weights[i] == target * weights[j] + target * (weights[i] - weights[j]);
      // then both fractions are equal, and s[j] was served only if j comes first
      assert fracs[i] >= fracs[j];
      if weights[i] > weights[j] {
        assert target * (weights[i] - weights[j]) == 0;
        TargetIsZero(target, weights[i] - weights[j]);
        WholeQuotaIsExact(target, weights, s, j);
      }
    }
  }

  lemma TargetIsZero(target: nat, d: nat)
    requires target * d == 0 && d > 0
    ensures target == 0
  {
    if target > 0 {
      MultipleIsLarge(target, d);
    }
  }

  // ---------- the shared steps of both allocators ----------

  ghost predicate IsPermutation(order: seq<nat>, n: nat) {
    && |order| == n
    && (forall k | 0 <= k < n :: order[k] < n)
    && (forall i, j | 0 <= i < j < n :: order[i] != order[j])
    && (forall x: nat | x < n :: Among(order, n, x))
  }

  /** x is one of the first r lanes of the order. */
  ghost predicate Among(order: seq<nat>, r: nat, x: nat)
    requires r <= |order|
  {
    exists k | 0 <= k < r :: order[k] == x
  }

  ghost predicate InServingOrder(order: seq<nat>, fracs: seq<int>)
    requires forall k | 0 <= k < |order| :: order[k] < |fracs|
  {
    forall a, b | 0 <= a < b < |order| :: ServedBefore(fracs, order[a], order[b])
  }

  function IdentityOrder(n: nat): (order: seq<nat>)
    ensures IsPermutation(order, n)
    ensures forall i | 0 <= i < n :: order[i] == i
  {
    var order: seq<nat> := seq(n, i => i);
    assert forall x: nat | x < n :: Among(order, n, x) by {
      forall x: nat | x < n ensures Among(order, n, x) {
        assert order[x] == x;
      }
    }
    order
  }

  /** sorted(..., reverse=True) on the fractions: descending and stable. */
  method StableDescending(fracs: seq<int>) returns (order: seq<nat>)
    ensures IsPermutation(order, |fracs|) && InServingOrder(order, fracs)
  {
    order := [];
    for i := 0 to |fracs|
      invariant IsPermutation(order, i) && InServingOrder(order, fracs)
    {
      var p := i;
      while p > 0 && fracs[order[p - 1]] < fracs[i]
        invariant 0 <= p <= i
        invariant forall k | p <= k < i :: fracs[order[k]] < fracs[i]
      {
        p := p - 1;
      }
      InsertKeepsOrder(order, fracs, i, p);
      order := order[..p] + [i] + order[p..];
    }
  }

  lemma InsertKeepsOrder(order: seq<nat>, fracs: seq<int>, i: nat, p: nat)
    requires i < |fracs| && p <= i
    requires IsPermutation(order, i) && InServingOrder(order, fracs)
    requires forall k | p <= k < i :: fracs[order[k]] < fracs[i]
    requires p > 0 ==> fracs[order[p - 1]] >= fracs[i]
    ensures IsPermutation(order[..p] + [i] + order[p..], i + 1)
    ensures InServingOrder(order[..p] + [i] + order[p..], fracs)
  {
    var o := order[..p] + [i] + order[p..];
    assert o[p] == i;
    var n := i + 1;
    forall x: nat | x < n ensures Among(o, n, x) {
      if x < i {
        assert Among(order, i, x);
        var k :| 0 <= k < i && order[k] == x;
        assert o[if k < p then k else k + 1] == x;
      }
    }
    forall a, b | 0 <= a < b < |o| ensures ServedBefore(fracs, o[a], o[b]) {
      if b == p && a < p - 1 {
        assert ServedBefore(fracs, order[a], order[p - 1]);
      }
    }
  }

  lemma {:induction false} SumBelow(s: seq<int>, bound: nat)
    requires forall i | 0 <= i < |s| :: 0 <= s[i] < bound
    ensures 0 <= Sum(s) && Sum(s) + |s| <= bound * |s|
  {
    if s != [] {
      var n := |s| - 1;
      SumBelow(s[..n], bound);
      assert bound * |s| == bound * n + bound;
    }
  }

  lemma RemainderFits(target: int, total: nat, floorSum: int, fracSum: int, n: nat)
    requires total > 0 && n > 0
    requires fracSum == target * total - total * floorSum
    requires 0 <= fracSum < total * n
    ensures 0 <= target - floorSum < n && total * (target - floorSum) == fracSum
  {
    var r := target - floorSum;
    assert total * r == total * target - total * floorSum;
    MultipleIsLarge(r, total);
    assert (r - n) * total == total * r - total * n;
    MultipleIsLarge(r - n, total);
  }

  /** The floors leave less than one unit for each lane. */
  lemma FloorsSum(target: nat, weights: seq<nat>)
    requires Sum(weights) > 0
    ensures 0 <= target - Sum(Floors(target, weights)) < |weights|
  {
    hide FloorShare, Fraction, Sum;
    var total, n := Sum(weights), |weights|;
    var floors, fracs := Floors(target, weights), Fractions(target, weights);
    forall i | 0 <= i < n
      ensures fracs[i] == target * weights[i] - total * floors[i] && 0 <= fracs[i] < total
    {
      ShareParts(target, weights, i);
    }
    SumScaled(weights, floors, fracs, target, total);
    SumBelow(fracs, total);
    NonEmptyIfPositive(weights);
    RemainderFits(target, total, Sum(floors), Sum(fracs), n);
  }

  lemma NonEmptyIfPositive(s: seq<int>)
    requires Sum(s) > 0
    ensures |s| > 0
  {
  }

  /** Adds one unit to each of the first r lanes of the serving order, in place. */
  method ServeRemainder(values: array<int>, order: seq<nat>, r: nat)
    requires IsPermutation(order, values.Length) && r <= values.Length
    modifies values
    ensures forall i | 0 <= i < values.Length :: values[i] == old(values[i]) + if Among(order, r, i) then 1 else 0
    ensures Sum(values[..]) == old(Sum(values[..])) + r
  {
    for k := 0 to r
      invariant forall i | 0 <= i < values.Length :: values[i] == old(values[i]) + if Among(order, k, i) then 1 else 0
      invariant Sum(values[..]) == old(Sum(values[..])) + k
    {
      forall i | 0 <= i < values.Length
        ensures Among(order, k + 1, i) <==> Among(order, k, i) || i == order[k]
      {
      }
      var before := values[..];
      SumUpdate(before, order[k], before[order[k]] + 1);
      values[order[k]] := values[order[k]] + 1;
      assert values[..] == before[order[k] := before[order[k]] + 1];
    }
  }

  /** Floors plus one for the first lanes of the serving order meet the specification. */
  lemma ServedIsLargestRemainder(target: nat, weights: seq<nat>, order: seq<nat>, r: nat, shares: seq<int>)
    requires Sum(weights) > 0 && |shares| == |weights| && r <= |weights|
    requires IsPermutation(order, |weights|) && InServingOrder(order, Fractions(target, weights))
    requires forall i | 0 <= i < |shares| ::
               shares[i] == Floors(target, weights)[i] + if Among(order, r, i) then 1 else 0
    requires Sum(shares) == target
    ensures LargestRemainder(target, weights, shares)
  {
    hide FloorShare, Fraction;
    var floors, fracs := Floors(target, weights), Fractions(target, weights);
    forall i, j | 0 <= i < |shares| && 0 <= j < |shares| && shares[i] > floors[i] && shares[j] == floors[j]
      ensures ServedBefore(fracs, i, j)
    {
      assert Among(order, r, i);
      var a :| 0 <= a < r && order[a] == i;
      assert Among(order, |order|, j);
      var b :| 0 <= b < |order| && order[b] == j;
    }
  }

  method SumOf(s: seq<int>) returns (t: int)
    ensures t == Sum(s)
  {
    t := 0;
    for i := 0 to |s|
      invariant t == Sum(s[..i])
    {
      assert s[..i + 1][..i] == s[..i];
      t := t + s[i];
    }
    assert s[..|s|] == s;
  }

  // ---------- the two allocators ----------

  function Magnitudes(weights: seq<int>): (w: seq<nat>)
    ensures |w| == |weights|
  {
    seq(|weights|, i requires 0 <= i < |weights| => Abs(weights[i]))
  }

  /** What _largest_remainder_allocation returns: cents, with no money out when there is none to give. */
  ghost predicate AllocatesCents(target: int, weights: seq<int>, shares: seq<int>) {
    && |shares| == |weights|
    && (target <= 0 ==> forall i | 0 <= i < |shares| :: shares[i] == 0)
    && (target > 0 && weights != [] ==> LargestRemainder(target, Effective(Magnitudes(weights)), shares))
  }

  /** _largest_remainder_allocation, on a target already in cents. */
  method LargestRemainderAllocation(target: int, weights: seq<int>) returns (shares: seq<int>)
    ensures AllocatesCents(target, weights, shares)
  {
    var n := |weights|;
    if n == 0 {
      return [];
    }
    if target <= 0 {
      return seq(n, _ => 0);
    }
    var normalized := Magnitudes(weights);
    SumNonNegative(normalized);
    var weightSum := SumOf(normalized);
    var values := new int[n];
    if weightSum <= 0 {
      var base := target / n;
      var remainder := target - base * n;
      forall i | 0 <= i < n {
        values[i] := base;
      }
      EqualShares(target, n, base, values[..]);
      var order := IdentityOrder(n);
      ServeRemainder(values, order, remainder);
      ServedIsLargestRemainder(target, Ones(n), order, remainder, values[..]);
      return values[..];
    }
    forall i | 0 <= i < n {
      values[i] := FloorShare(target, normalized[i], weightSum);
    }
    assert values[..] == Floors(target, normalized);
    var floorSum := SumOf(values[..]);
    FloorsSum(target, normalized);
    var order := StableDescending(Fractions(target, normalized));
    ServeRemainder(values, order, target - floorSum);
    ServedIsLargestRemainder(target, normalized, order, target - floorSum, values[..]);
    shares := values[..];
  }

  /** The equal split is the largest-remainder split of equal weights. */
  lemma EqualShares(target: nat, n: nat, base: nat, shares: seq<int>)
    requires n > 0 && base == target / n && |shares| == n
    requires forall i | 0 <= i < n :: shares[i] == base
    ensures Sum(Ones(n)) == n
    ensures shares == Floors(target, Ones(n))
    ensures Sum(shares) == base * n && 0 <= target - base * n < n
    ensures forall i, j | 0 <= i < j < n :: ServedBefore(Fractions(target, Ones(n)), i, j)
  {
    SumOfOnes(n);
    DivMod(target, n);
    var zeros := seq(n, _ => 0);
    forall i | 0 <= i < n ensures shares[i] == base * Ones(n)[i] - 0 * zeros[i] {
    }
    SumScaled(Ones(n), zeros, shares, base, 0);
  }

  /** A weight that is not a finite number is None; only positive weights count. */
  function CleanWeights(weights: seq<Option<int>>): (w: seq<nat>)
    ensures |w| == |weights|
  {
    seq(|weights|, i requires 0 <= i < |weights| =>
      if weights[i].Some? && weights[i].value > 0 then weights[i].value else 0)
  }

  /** _distribute_milliunits, on a total in milliunits; a negative total is refused. */
  method DistributeMilliunits(total: int, weights: seq<Option<int>>) returns (r: Result<seq<int>, string>)
    ensures weights == [] ==> r == Ok([])
    ensures weights != [] ==> (r.Err? <==> total < 0)
    ensures weights != [] && total >= 0 ==> LargestRemainder(total, Effective(CleanWeights(weights)), r.value)
  {
    var n := |weights|;
    if n == 0 {
      return Ok([]);
    }
    if total < 0 {
      return Err("negative amount");
    }
    var clean := CleanWeights(weights);
    SumNonNegative(clean);
    var wsum := SumOf(clean);
    if wsum <= 0 {
      clean := Ones(n);
      SumOfOnes(n);
      wsum := n;
    }
    var floors := new int[n];
    forall i | 0 <= i < n {
      floors[i] := FloorShare(total, clean[i], wsum);
    }
    assert floors[..] == Floors(total, clean);
    var floorSum := SumOf(floors[..]);
    FloorsSum(total, clean);
    var order := StableDescending(Fractions(total, clean));
    ServeRemainder(floors, order, Max(total - floorSum, 0));
    ServedIsLargestRemainder(total, clean, order, total - floorSum, floors[..]);
    r := Ok(floors[..]);
  }

  /** On the same positive target and positive weights the two allocators agree. */
  lemma AllocatorsAgree(target: nat, weights: seq<int>, cents: seq<int>, milliunits: seq<int>)
    requires weights != [] && target > 0
    requires forall i | 0 <= i < |weights| :: weights[i] >= 0
    requires AllocatesCents(target, weights, cents)
    requires var wrapped := seq(|weights|, i requires 0 <= i < |weights| => Some(weights[i]));
             LargestRemainder(target, Effective(CleanWeights(wrapped)), milliunits)
    ensures cents == milliunits
  {
    var wrapped := seq(|weights|, i requires 0 <= i < |weights| => Some(weights[i]));
    assert CleanWeights(wrapped) == Magnitudes(weights);
    LargestRemainderIsUnique(target, Effective(Magnitudes(weights)), cents, milliunits);
  }

  // ---------- what the allocators promise for the weights they are given ----------

  /** Shares of the target in proportion to the weights, which are not negative and not all zero. */
  ghost predicate Proportional(target: nat, weights: seq<int>, shares: seq<int>) {
    && |shares| == |weights| && Sum(shares) == target
    && (forall i | 0 <= i < |shares| ::
          shares[i] >= 0 && -Sum(weights) < Sum(weights) * shares[i] - target * weights[i] < Sum(weights))
    && (forall i, j | 0 <= i < |shares| && 0 <= j < |shares| && HeavierOrEarlier(weights, i, j) ::
          shares[i] >= shares[j])
    && (forall i | 0 <= i < |shares| && weights[i] == 0 :: shares[i] == 0)
  }

  predicate HeavierOrEarlier(weights: seq<int>, i: nat, j: nat)
    requires i < |weights| && j < |weights|
  {
    weights[i] > weights[j] || (weights[i] == weights[j] && i <= j)
  }

  /** Shares that differ by at most one unit, the larger ones first. */
  ghost predicate Even(target: nat, shares: seq<int>) {
    && Sum(shares) == target
    && forall i, j | 0 <= i <= j < |shares| :: shares[i] - 1 <= shares[j] <= shares[i]
  }

  lemma LargestRemainderIsProportional(target: nat, weights: seq<nat>, shares: seq<int>)
    requires Sum(weights) > 0 && LargestRemainder(target, weights, shares)
    ensures Proportional(target, weights, shares)
  {
    hide Sum, LargestRemainder;
    assert |shares| == |weights| && Sum(shares) == target by {
      SharesOfAll(target, weights, shares);
    }
    forall i | 0 <= i < |shares|
      ensures shares[i] >= 0 && -Sum(weights) < Sum(weights) * shares[i] - target * weights[i] < Sum(weights)
      ensures weights[i] == 0 ==> shares[i] == 0
    {
      ShareIsFloorOrCeiling(target, weights, shares, i);
      if weights[i] == 0 {
        ZeroWeightGetsNothing(target, weights, shares, i);
      }
    }
    forall i, j | 0 <= i < |shares| && 0 <= j < |shares| && HeavierOrEarlier(weights, i, j)
      ensures shares[i] >= shares[j]
    {
      HeavierNeverGetsLess(target, weights, shares, i, j);
    }
  }

  lemma SharesOfAll(target: nat, weights: seq<nat>, shares: seq<int>)
    requires Sum(weights) > 0 && LargestRemainder(target, weights, shares)
    ensures |shares| == |weights| && Sum(shares) == target
  {
  }

  lemma OnesShareEvenly(target: nat, n: nat, shares: seq<int>)
    requires n > 0 && Sum(Ones(n)) == n && LargestRemainder(target, Ones(n), shares)
    ensures Even(target, shares)
  {
    hide Sum, FloorShare, Fraction;
    var floors := Floors(target, Ones(n));
    forall i, j | 0 <= i <= j < |shares| ensures shares[i] - 1 <= shares[j] <= shares[i] {
      assert floors[i] == floors[j];
      HeavierNeverGetsLess(target, Ones(n), shares, i, j);
    }
  }

  lemma EffectiveIs(weights: seq<nat>)
    requires weights != []
    ensures Sum(weights) > 0 ==> Effective(weights) == weights
    ensures Sum(weights) == 0 ==> Effective(weights) == Ones(|weights|) && Sum(Ones(|weights|)) == |weights|
  {
    SumOfOnes(|weights|);
  }

  lemma EffectiveShares(target: nat, weights: seq<nat>, shares: seq<int>)
    requires weights != [] && LargestRemainder(target, Effective(weights), shares)
    ensures |shares| == |weights|
    ensures Sum(weights) > 0 ==> Proportional(target, weights, shares)
    ensures Sum(weights) == 0 ==> Even(target, shares)
  {
    hide Sum, LargestRemainder;
    SumNonNegative(weights);
    EffectiveIs(weights);
    SharesOfAll(target, Effective(weights), shares);
    if Sum(weights) > 0 {
      LargestRemainderIsProportional(target, weights, shares);
    } else {
      OnesShareEvenly(target, |weights|, shares);
    }
  }

  /** The cent allocator, on its own weights: proportional shares, even ones when every weight is zero. */
  lemma CentsAreProportional(target: nat, weights: seq<int>, shares: seq<int>)
    requires target > 0 && weights != [] && AllocatesCents(target, weights, shares)
    requires forall i | 0 <= i < |weights| :: weights[i] >= 0
    ensures Sum(weights) > 0 ==> Proportional(target, weights, shares)
    ensures Sum(weights) == 0 ==> Even(target, shares)
  {
    hide Sum, LargestRemainder;
    assert Magnitudes(weights) == weights;
    EffectiveShares(target, weights, shares);
  }

  /** The sign of a weight does not matter to it. */
  lemma SignsDoNotMatter(target: int, weights: seq<int>, unsigned: seq<int>, shares: seq<int>)
    requires |weights| == |unsigned|
    requires forall i | 0 <= i < |weights| :: unsigned[i] >= 0 && weights[i] in {unsigned[i], -unsigned[i]}
    ensures AllocatesCents(target, weights, shares) <==> AllocatesCents(target, unsigned, shares)
  {
    assert Magnitudes(weights) == Magnitudes(unsigned);
  }

  /** What a weight counts for: a missing or negative one for nothing. */
  predicate CountsFor(weight: Option<int>, counted: int) {
    if weight.Some? && weight.value > 0 then counted == weight.value else counted == 0
  }

  /** The milliunit allocator, on its own weights. */
  lemma MilliunitsAreProportional(total: nat, weights: seq<Option<int>>, counted: seq<int>, shares: seq<int>)
    requires weights != [] && LargestRemainder(total, Effective(CleanWeights(weights)), shares)
    requires |counted| == |weights| && forall i | 0 <= i < |weights| :: CountsFor(weights[i], counted[i])
    ensures Sum(counted) > 0 ==> Proportional(total, counted, shares)
    ensures Sum(counted) == 0 ==> Even(total, shares)
  {
    hide Sum, LargestRemainder;
    assert CleanWeights(weights) == counted;
    EffectiveShares(total, counted, shares);
  }
}
