/** Per-client bitrate estimates with a running mean and a lazily repaired minimum
    and maximum. */
module BitrateEstimator {
  import opened Common

  type ClientID = string
  type Estimates = map<ClientID, nat>

  /** Sums below this bound are exact in a float64. */
  const EXACT := 0x20_0000_0000_0000

  ghost function Sum(m: Estimates): nat {
    if m == map[] then 0
    else
      var k :| k in m;
      m[k] + Sum(m - {k})
  }

  lemma {:induction false} SumWithout(m: Estimates, k: ClientID)
    requires k in m
    ensures Sum(m) == m[k] + Sum(m - {k})
    decreases |m|
  {
    var j :| j in m && Sum(m) == m[j] + Sum(m - {j});
    if j != k {
      SumWithout(m - {j}, k);
      SumWithout(m - {k}, j);
      assert m - {j} - {k} == m - {k} - {j};
    }
  }

  lemma SumWith(m: Estimates, k: ClientID, x: nat)
    ensures Sum(m[k := x]) == Sum(m) - (if k in m then m[k] else 0) + x
  {
    SumWithout(m[k := x], k);
    assert m[k := x] - {k} == m - {k};
    if k in m {
      SumWithout(m, k);
    } else {
      assert m - {k} == m;
    }
  }

  /** The least estimate, or 0 when there is none. */
  predicate IsMin(m: Estimates, x: nat) {
    if m == map[] then x == 0
    else (exists k :: k in m && m[k] == x) && forall k | k in m :: x <= m[k]
  }

  /** The greatest estimate, or 0 when there is none. */
  predicate IsMax(m: Estimates, x: nat) {
    if m == map[] then x == 0
    else (exists k :: k in m && m[k] == x) && forall k | k in m :: m[k] <= x
  }

  /** The mean rounded down, or 0 when there is none. */
  ghost function Mean(m: Estimates): nat {
    if m == map[] then 0 else Sum(m) / |m|
  }

  predicate AllPositive(m: Estimates) {
    forall k | k in m :: m[k] > 0
  }

  lemma MulStep(n: nat, x: nat)
    ensures (n + 1) * x == n * x + x
  {
  }

  lemma {:induction false} SumBounds(m: Estimates, lo: nat, hi: nat)
    requires forall k | k in m :: lo <= m[k] <= hi
    ensures |m| * lo <= Sum(m) <= |m| * hi
    decreases |m|
  {
    if m != map[] {
      var k :| k in m;
      var n := |m - {k}|;
      SumWithout(m, k);
      SumBounds(m - {k}, lo, hi);
      MulStep(n, lo);
      MulStep(n, hi);
      assert |m| == n + 1;
    }
  }

  /** The mean lies between the least and the greatest estimate. */
  lemma MeanBetween(m: Estimates, lo: nat, hi: nat)
    requires IsMin(m, lo) && IsMax(m, hi)
    ensures lo <= Mean(m) <= hi
  {
    if m != map[] {
      SumBounds(m, lo, hi);
      DivBounds(Sum(m), |m|, lo, hi);
    }
  }

  lemma DivBounds(s: nat, n: nat, lo: nat, hi: nat)
    requires n > 0 && n * lo <= s <= n * hi
    ensures lo <= s / n <= hi
  {
    var q := s / n;
    assert n * q <= s < n * (q + 1);
    MulLess(n, lo, q + 1);
    assert n * (hi + 1) == n * hi + n;
    MulLess(n, q, hi + 1);
  }

  /** A new or changed estimate that was neither the least nor the greatest. */
  lemma MinMaxWith(m: Estimates, lo: nat, hi: nat, k: ClientID, x: nat)
    requires IsMin(m, lo) && IsMax(m, hi) && AllPositive(m) && x > 0
    requires k in m ==> m[k] != lo && m[k] != hi
    ensures IsMin(m[k := x], if lo == 0 || x < lo then x else lo)
    ensures IsMax(m[k := x], if hi == 0 || x > hi then x else hi)
  {
    var u := m[k := x];
    assert k in u && u[k] == x;
    if m != map[] {
      var a :| a in m && m[a] == lo;
      var b :| b in m && m[b] == hi;
      assert u[a] == lo && u[b] == hi;
    }
  }

  /** Dropping an estimate that was neither the least nor the greatest. */
  lemma MinMaxWithout(m: Estimates, lo: nat, hi: nat, k: ClientID)
    requires IsMin(m, lo) && IsMax(m, hi) && k in m && m[k] != lo && m[k] != hi
    ensures IsMin(m - {k}, lo) && IsMax(m - {k}, hi)
  {
    var u := m - {k};
    var a :| a in m && m[a] == lo;
    var b :| b in m && m[b] == hi;
    assert a in u && u[a] == lo && b in u && u[b] == hi;
  }

  /** The estimates of all clients but those still to be looked at. */
  function Seen(m: Estimates, rest: set<ClientID>): Estimates {
    m - rest
  }

  lemma SeenGrows(m: Estimates, rest: set<ClientID>, k: ClientID)
    requires k in m && k in rest
    ensures Seen(m, rest - {k}) == Seen(m, rest)[k := m[k]]
  {
  }

  /** The least and the greatest estimate, in one pass over the map. */
  method MinMax(m: Estimates) returns (min: nat, max: nat)
    requires AllPositive(m)
    ensures IsMin(m, min) && IsMax(m, max)
  {
    min, max := 0, 0;
    var rest := m.Keys;
    assert Seen(m, rest) == map[];
    while rest != {}
      invariant rest <= m.Keys
      invariant IsMin(Seen(m, rest), min) && IsMax(Seen(m, rest), max)
      decreases rest
    {
      var k :| k in rest;
      var est := m[k];
      MinMaxWith(Seen(m, rest), min, max, k, est);
      SeenGrows(m, rest, k);
      if min == 0 || est < min {
        min := est;
      }
      if max == 0 || est > max {
        max := est;
      }
      rest := rest - {k};
    }
    assert Seen(m, {}) == m;
  }

  class BitrateEstimator {
    var min: nat
    var max: nat
    var avg: nat
    var needsMinMaxRecalc: bool
    var totalBitrate: int
    var estimatesByClientID: Estimates

    constructor ()
      ensures Valid() && estimatesByClientID == map[]
    {
      min, max, avg, needsMinMaxRecalc, totalBitrate := 0, 0, 0, false, 0;
      estimatesByClientID := map[];
    }

    /** The total is exact and the mean is always current; the minimum and the maximum
        are, unless they are marked for repair. */
    ghost predicate Valid()
      reads this
    {
      && AllPositive(estimatesByClientID)
      && totalBitrate == Sum(estimatesByClientID) < EXACT && avg == Mean(estimatesByClientID)
      && (!needsMinMaxRecalc ==> IsMin(estimatesByClientID, min) && IsMax(estimatesByClientID, max))
    }

    method Feed(clientID: ClientID, estimatedBitrate: nat)
      requires Valid() && estimatedBitrate > 0
      requires Sum(estimatesByClientID) + estimatedBitrate < EXACT
      modifies this
      ensures Valid() && estimatesByClientID == old(estimatesByClientID)[clientID := estimatedBitrate]
    {
      ghost var before := estimatesByClientID;
      SumWith(before, clientID, estimatedBitrate);
      Replace(clientID, estimatedBitrate);
      Include(estimatedBitrate, before, clientID);
      RecalculateAvg();
    }

    /** Replaces a client's estimate, and marks the minimum and the maximum for repair
        if it was one of them. */
    method Replace(clientID: ClientID, estimatedBitrate: nat)
      requires totalBitrate == Sum(estimatesByClientID) && AllPositive(estimatesByClientID) && estimatedBitrate > 0
      modifies this`estimatesByClientID, this`totalBitrate, this`needsMinMaxRecalc
      ensures estimatesByClientID == old(estimatesByClientID)[clientID := estimatedBitrate]
      ensures totalBitrate == Sum(estimatesByClientID) && AllPositive(estimatesByClientID)
      ensures var m := old(estimatesByClientID);
        needsMinMaxRecalc <==> old(needsMinMaxRecalc) || (clientID in m && (m[clientID] == min || m[clientID] == max))
    {
      var ok := clientID in estimatesByClientID;
      var oldEstimatedBitrate := if ok then estimatesByClientID[clientID] else 0;
      SumWith(estimatesByClientID, clientID, estimatedBitrate);
      estimatesByClientID := estimatesByClientID - {clientID};
      if ok && (oldEstimatedBitrate == min || oldEstimatedBitrate == max) {
        needsMinMaxRecalc := true;
      }
      totalBitrate := totalBitrate - oldEstimatedBitrate + estimatedBitrate;
      estimatesByClientID := estimatesByClientID[clientID := estimatedBitrate];
      assert estimatesByClientID == old(estimatesByClientID)[clientID := estimatedBitrate];
    }

    /** Takes a new estimate into account in the minimum and the maximum. */
    method Include(estimatedBitrate: nat, ghost before: Estimates, ghost clientID: ClientID)
      requires AllPositive(before) && estimatedBitrate > 0
      requires !needsMinMaxRecalc ==>
        && IsMin(before, min) && IsMax(before, max)
        && (clientID in before ==> before[clientID] != min && before[clientID] != max)
      modifies this`min, this`max
      ensures var after := before[clientID := estimatedBitrate];
        !needsMinMaxRecalc ==> IsMin(after, min) && IsMax(after, max)
    {
      if !needsMinMaxRecalc {
        MinMaxWith(before, min, max, clientID, estimatedBitrate);
      }
      if min == 0 || estimatedBitrate < min {
        min := estimatedBitrate;
      }
      if max == 0 || estimatedBitrate > max {
        max := estimatedBitrate;
      }
    }

    method RecalculateAvg()
      requires estimatesByClientID != map[] && totalBitrate == Sum(estimatesByClientID)
      modifies this`avg
      ensures avg == Mean(estimatesByClientID)
    {
      avg := totalBitrate / |estimatesByClientID|;
    }

    method RemoveClientBitrate(clientID: ClientID)
      requires Valid()
      modifies this
      ensures Valid() && estimatesByClientID == old(estimatesByClientID) - {clientID}
    {
      if clientID !in estimatesByClientID {
        assert estimatesByClientID - {clientID} == estimatesByClientID;
        return;
      }
      ghost var before := estimatesByClientID;
      var oldEstimate := estimatesByClientID[clientID];
      SumWithout(before, clientID);
      estimatesByClientID := estimatesByClientID - {clientID};
      totalBitrate := totalBitrate - oldEstimate;
      if oldEstimate == min || oldEstimate == max {
        needsMinMaxRecalc := true;
      }
      if !needsMinMaxRecalc {
        MinMaxWithout(before, min, max, clientID);
      }
      if |estimatesByClientID| > 0 {
        RecalculateAvg();
      } else {
        assert estimatesByClientID == map[];
        avg := 0;
      }
    }

    method RecalculateMinMax()
      requires Valid()
      modifies this`min, this`max, this`needsMinMaxRecalc
      ensures Valid() && !needsMinMaxRecalc
    {
      var lo, hi := MinMax(estimatesByClientID);
      min, max, needsMinMaxRecalc := lo, hi, false;
    }

    method Min() returns (r: nat)
      requires Valid()
      modifies this`min, this`max, this`needsMinMaxRecalc
      ensures Valid() && IsMin(estimatesByClientID, r)
    {
      if needsMinMaxRecalc {
        RecalculateMinMax();
      }
      r := min;
    }

    method Max() returns (r: nat)
      requires Valid()
      modifies this`min, this`max, this`needsMinMaxRecalc
      ensures Valid() && IsMax(estimatesByClientID, r)
    {
      if needsMinMaxRecalc {
        RecalculateMinMax();
      }
      r := max;
    }

    method Avg() returns (r: nat)
      requires Valid()
      modifies this`min, this`max, this`needsMinMaxRecalc
      ensures Valid() && r == Mean(estimatesByClientID)
      ensures IsMin(estimatesByClientID, min) && IsMax(estimatesByClientID, max) && min <= r <= max
    {
      if needsMinMaxRecalc {
        RecalculateMinMax();
      }
      MeanBetween(estimatesByClientID, min, max);
      r := avg;
    }
  }
}
