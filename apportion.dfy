/** Percentage reconciliation shared, line for line, by `calculatePercentage`
    (termui/stats.go) and `adjustPercentsTo100` (stats.go): each of the four
    buckets (accepted, rejected, modified, added) starts at its truncated
    percentage, then single points go to not-yet-raised buckets, one per
    round, until the four sum to 100.

    Which bucket a round raises is decided by a key compared with `>`, so
    ties go to the earlier bucket. As written the key is the fractional
    part of the raw rate `count/total`; the evidently intended key is the
    fractional part of the percentage `100*count/total` (largest-remainder
    apportionment). Both are modelled; the statistics classes use the first,
    as the program does. */
module Apportionment {

  function Sum4(s: seq<int>): int
    requires |s| == 4
  {
    s[0] + s[1] + s[2] + s[3]
  }

  /** `int(rate * 100)` for a non-negative rate `count/total`. */
  function Trunc(count: nat, total: nat): nat
    requires total > 0
  {
    (100 * count) / total
  }

  function Truncs(counts: seq<nat>, total: nat): (t: seq<int>)
    requires |counts| == 4 && total > 0
    ensures |t| == 4 && forall i :: 0 <= i < 4 ==> t[i] == Trunc(counts[i], total)
  {
    [Trunc(counts[0], total), Trunc(counts[1], total), Trunc(counts[2], total), Trunc(counts[3], total)]
  }

  /** The quantity whose fractional part orders the buckets. */
  datatype KeyKind =
    | RawRate           // `rate - math.Floor(rate)`, as written
    | PercentRemainder  // the same of `rate * 100`, as intended

  function Frac(x: real): real
  {
    x - x.Floor as real
  }

  function Key(kind: KeyKind, count: nat, total: nat): real
    requires total > 0
  {
    match kind
    case RawRate => Frac(count as real / total as real)
    case PercentRemainder => Frac(100.0 * count as real / total as real)
  }

  /** Bucket `i` wins a round against bucket `j`: a strictly larger key,
      or an equal key and an earlier position. */
  predicate Precedes(kind: KeyKind, counts: seq<nat>, total: nat, i: int, j: int)
    requires |counts| == 4 && total > 0 && 0 <= i < 4 && 0 <= j < 4
  {
    Key(kind, counts[i], total) > Key(kind, counts[j], total)
    || (Key(kind, counts[i], total) == Key(kind, counts[j], total) && i < j)
  }

  /** What the reconciliation promises: the four percents sum to 100, each
      is its truncated value or one more, and every raised bucket wins
      against every bucket that was not raised. */
  ghost predicate Apportioned(kind: KeyKind, counts: seq<nat>, total: nat, p: seq<int>)
    requires |counts| == 4 && total > 0
  {
    && |p| == 4
    && Sum4(p) == 100
    && (forall i :: 0 <= i < 4 ==> p[i] == Trunc(counts[i], total) || p[i] == Trunc(counts[i], total) + 1)
    && (forall i, j :: 0 <= i < 4 && 0 <= j < 4 && p[i] > Trunc(counts[i], total) && p[j] == Trunc(counts[j], total)
          ==> Precedes(kind, counts, total, i, j))
  }

  lemma MulMonotone(x: int, y: int, t: int)
    requires t > 0 && x * t < y * t
    ensures x < y
  {
  }

  lemma MulDistributes(a: int, b: int, c: int, d: int, t: int)
    ensures (a + b + c + d) * t == a * t + b * t + c * t + d * t
  {
  }

  lemma TruncBounds(count: nat, total: nat)
    requires total > 0
    ensures Trunc(count, total) * total <= 100 * count < Trunc(count, total) * total + total
  {
  }

  /** When the counts add up to the total, the truncated percents fall
      short of 100 by at most 3 points, so a round always finds a bucket
      that has not been raised yet. */
  lemma {:induction false} TruncDeficit(counts: seq<nat>, total: nat)
    requires |counts| == 4 && total > 0 && Sum4(counts) == total
    ensures 97 <= Sum4(Truncs(counts, total)) <= 100
  {
    var t := Truncs(counts, total);
    var s := Sum4(t);
    TruncBounds(counts[0], total);
    TruncBounds(counts[1], total);
    TruncBounds(counts[2], total);
    TruncBounds(counts[3], total);
    MulDistributes(t[0], t[1], t[2], t[3], total);
    assert s * total <= 100 * total;
    assert 100 * total < s * total + 4 * total;
    MulDistributes(s, 4, 0, 0, total);
    MulMonotone(100, s + 4, total);
    if s > 100 {
      MulMonotone(100, s, total);
      assert false;
    }
  }

  /** The inner loop: the first not-yet-raised bucket with the largest
      key, or -1 when every bucket has been raised. */
  method PickBucket(kind: KeyKind, counts: seq<nat>, total: nat, p: seq<int>) returns (maxId: int)
    requires |counts| == 4 && |p| == 4 && total > 0
    ensures maxId == -1 <==> forall i :: 0 <= i < 4 ==> p[i] > Trunc(counts[i], total)
    ensures maxId != -1 ==> 0 <= maxId < 4 && p[maxId] <= Trunc(counts[maxId], total)
    ensures maxId != -1 ==> forall j :: 0 <= j < 4 && j != maxId && p[j] <= Trunc(counts[j], total)
                              ==> Precedes(kind, counts, total, maxId, j)
  {
    maxId := -1;
    for i := 0 to 4
      invariant maxId == -1 <==> forall k :: 0 <= k < i ==> p[k] > Trunc(counts[k], total)
      invariant maxId != -1 ==> 0 <= maxId < i && p[maxId] <= Trunc(counts[maxId], total)
      invariant maxId != -1 ==> forall j :: 0 <= j < i && j != maxId && p[j] <= Trunc(counts[j], total)
                                  ==> Precedes(kind, counts, total, maxId, j)
    {
      if Trunc(counts[i], total) - p[i] < 0 {
        continue;
      }
      if maxId == -1 {
        maxId := i;
        continue;
      }
      if Key(kind, counts[i], total) > Key(kind, counts[maxId], total) {
        maxId := i;
      }
    }
  }

  /** The outer loop: raise the picked bucket until the sum is 100. */
  method Reconcile(kind: KeyKind, counts: seq<nat>, total: nat) returns (p: seq<int>)
    requires |counts| == 4 && total > 0 && Sum4(counts) == total
    ensures Apportioned(kind, counts, total, p)
  {
    p := Truncs(counts, total);
    TruncDeficit(counts, total);
    while Sum4(p) < 100
      invariant |p| == 4 && Sum4(p) <= 100
      invariant forall i :: 0 <= i < 4 ==> p[i] == Trunc(counts[i], total) || p[i] == Trunc(counts[i], total) + 1
      invariant forall i, j :: 0 <= i < 4 && 0 <= j < 4 && p[i] > Trunc(counts[i], total) && p[j] == Trunc(counts[j], total)
                  ==> Precedes(kind, counts, total, i, j)
      decreases 100 - Sum4(p)
    {
      var maxId := PickBucket(kind, counts, total, p);
      assert maxId != -1;
      p := p[maxId := p[maxId] + 1];
    }
  }

  /** Where one of two four-part splits of the same sum is larger, the
      other is larger somewhere else. */
  lemma Compensating(p: seq<int>, q: seq<int>, i: int) returns (j: int)
    requires |p| == 4 && |q| == 4 && Sum4(p) == Sum4(q) && 0 <= i < 4 && p[i] > q[i]
    ensures 0 <= j < 4 && j != i && q[j] > p[j]
  {
    j := if q[0] > p[0] then 0 else if q[1] > p[1] then 1 else if q[2] > p[2] then 2 else 3;
  }

  /** In an apportionment, a raised bucket wins against every bucket that
      was not raised. */
  lemma RaisedWins(kind: KeyKind, counts: seq<nat>, total: nat, p: seq<int>, i: int, j: int)
    requires |counts| == 4 && total > 0 && 0 <= i < 4 && 0 <= j < 4
    requires Apportioned(kind, counts, total, p)
    requires p[i] > Trunc(counts[i], total) && p[j] == Trunc(counts[j], total)
    ensures Precedes(kind, counts, total, i, j)
  {
  }

  /** A bucket is raised in one apportionment only if it is raised in
      every other. */
  lemma {:induction false} RaisedAgree(kind: KeyKind, counts: seq<nat>, total: nat, p: seq<int>, q: seq<int>, i: int)
    requires |counts| == 4 && total > 0 && 0 <= i < 4
    requires Apportioned(kind, counts, total, p) && Apportioned(kind, counts, total, q)
    ensures p[i] <= q[i]
  {
    if p[i] > q[i] {
      // as both sum to 100, some j has q[j] > p[j]; then p ranks i before
      // j and q ranks j before i
      var j := Compensating(p, q, i);
      RaisedWins(kind, counts, total, p, i, j);
      RaisedWins(kind, counts, total, q, j, i);
      assert false;
    }
  }

  /** The promise leaves no freedom: two apportionments of the same
      counts are equal. */
  lemma {:induction false} ApportionedUnique(kind: KeyKind, counts: seq<nat>, total: nat, p: seq<int>, q: seq<int>)
    requires |counts| == 4 && total > 0
    requires Apportioned(kind, counts, total, p) && Apportioned(kind, counts, total, q)
    ensures p == q
  {
    forall i | 0 <= i < 4
      ensures p[i] == q[i]
    {
      RaisedAgree(kind, counts, total, p, q, i);
      RaisedAgree(kind, counts, total, q, p, i);
    }
  }

  lemma RealMulMonotone(x: real, y: real, t: real)
    requires t > 0.0 && x * t <= y * t
    ensures x <= y
  {
  }

  /** The exact percentage `100*count/total` lies in [Trunc, Trunc + 1). */
  lemma ExactPercentBounds(count: nat, total: nat)
    requires total > 0
    ensures var x := 100.0 * count as real / total as real;
            Trunc(count, total) as real <= x < Trunc(count, total) as real + 1.0 && x.Floor == Trunc(count, total)
  {
    var x := 100.0 * count as real / total as real;
    var t := total as real;
    var tr := Trunc(count, total);
    TruncBounds(count, total);
    assert x * t == 100.0 * count as real;
    assert (tr * total) as real == tr as real * t;
    RealMulMonotone(tr as real, x, t);
    assert (tr as real + 1.0) * t == (tr * total + total) as real;
    if x >= tr as real + 1.0 {
      RealMulMonotone(tr as real + 1.0, x, t);
      assert false;
    }
  }

  /** Every displayed percent is less than one point below, and at most
      one point above, the exact percentage. */
  lemma {:induction false} ApportionedNearQuota(kind: KeyKind, counts: seq<nat>, total: nat, p: seq<int>, i: int)
    requires |counts| == 4 && total > 0 && 0 <= i < 4
    requires Apportioned(kind, counts, total, p)
    ensures var x := 100.0 * counts[i] as real / total as real;
            x - 1.0 < p[i] as real <= x + 1.0
  {
    ExactPercentBounds(counts[i], total);
    var x := 100.0 * counts[i] as real / total as real;
    var tr := Trunc(counts[i], total);
    assert tr as real <= x < tr as real + 1.0;
    assert p[i] == tr || p[i] == tr + 1;
    assert (tr + 1) as real == tr as real + 1.0;
  }

  /** Under the intended key a raised bucket never has a smaller remainder
      (the points truncation dropped) than a bucket left alone: this is
      largest-remainder apportionment. */
  lemma {:induction false} LargestRemainder(counts: seq<nat>, total: nat, p: seq<int>, i: int, j: int)
    requires |counts| == 4 && total > 0 && 0 <= i < 4 && 0 <= j < 4
    requires Apportioned(PercentRemainder, counts, total, p)
    requires p[i] > Trunc(counts[i], total) && p[j] == Trunc(counts[j], total)
    ensures 100.0 * counts[i] as real / total as real - Trunc(counts[i], total) as real
         >= 100.0 * counts[j] as real / total as real - Trunc(counts[j], total) as real
  {
    ExactPercentBounds(counts[i], total);
    ExactPercentBounds(counts[j], total);
    assert Precedes(PercentRemainder, counts, total, i, j);
  }

  /** Three equal thirds and an empty bucket give
      34, 33, 33, 0 under either key (the tie goes to the first bucket). */
  lemma ThirdsExample(kind: KeyKind, p: seq<int>)
    requires Apportioned(kind, [1, 1, 1, 0], 3, p)
    ensures p == [34, 33, 33, 0]
  {
    var c: seq<nat> := [1, 1, 1, 0];
    assert Truncs(c, 3) == [33, 33, 33, 0];
    assert Key(kind, 1, 3) == 1.0 / 3.0 by {
      assert (1.0 / 3.0).Floor == 0;
      assert (100.0 / 3.0).Floor == 33;
    }
    assert Key(kind, 0, 3) == 0.0;
    assert !Precedes(kind, c, 3, 1, 0) && !Precedes(kind, c, 3, 2, 0) && !Precedes(kind, c, 3, 3, 0);
  }

  /** As written: with 4, 1, 1 and 2 of 8 (exactly 50%, 12.5%, 12.5% and
      25%) the raw-rate key raises the largest bucket, so an exact 50% is
      shown as 51%. */
  lemma RawRateMisrounds(p: seq<int>)
    requires Apportioned(RawRate, [4, 1, 1, 2], 8, p)
    ensures p == [51, 12, 12, 25]
  {
    var c: seq<nat> := [4, 1, 1, 2];
    assert Truncs(c, 8) == [50, 12, 12, 25];
    assert Key(RawRate, 4, 8) == 0.5 by { assert (4.0 / 8.0).Floor == 0; }
    assert Key(RawRate, 1, 8) == 0.125 by { assert (1.0 / 8.0).Floor == 0; }
    assert Key(RawRate, 2, 8) == 0.25 by { assert (2.0 / 8.0).Floor == 0; }
    assert !Precedes(RawRate, c, 8, 1, 0) && !Precedes(RawRate, c, 8, 2, 0) && !Precedes(RawRate, c, 8, 3, 0);
  }

  /** Corrected: the same counts give 50, 13, 12, 25: an exact
      percentage is never raised, and of the two equal remainders the
      first bucket gets the point. */
  lemma LargestRemainderRounds(p: seq<int>)
    requires Apportioned(PercentRemainder, [4, 1, 1, 2], 8, p)
    ensures p == [50, 13, 12, 25]
  {
    var c: seq<nat> := [4, 1, 1, 2];
    assert Truncs(c, 8) == [50, 12, 12, 25];
    assert Key(PercentRemainder, 4, 8) == 0.0 by { assert (400.0 / 8.0).Floor == 50; }
    assert Key(PercentRemainder, 1, 8) == 0.5 by { assert (100.0 / 8.0).Floor == 12; }
    assert Key(PercentRemainder, 2, 8) == 0.0 by { assert (200.0 / 8.0).Floor == 25; }
    assert !Precedes(PercentRemainder, c, 8, 0, 1) && !Precedes(PercentRemainder, c, 8, 2, 1);
    assert !Precedes(PercentRemainder, c, 8, 3, 1);
  }
}
