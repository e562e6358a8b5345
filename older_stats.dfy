/** The earlier statistics revision (stats.go): precision from the
    rejections alone, the same truncate-then-bump percentages, and a line
    that leaves recall and additions unreported. */
module AdjustedStats {
  import opened Basics
  import opened Annotations
  import Apportionment

  /** `precision`: one minus the share of rejections; `None` where the
      float division by a zero total gives no number. */
  function Precision(rejected: nat, total: nat): (r: Option<real>)
    ensures r.None? <==> total == 0
    ensures r.Some? ==> r.value * total as real == (total - rejected) as real
    ensures r.Some? && rejected <= total ==> 0.0 <= r.value <= 1.0
  {
    if total == 0 then None else Some(1.0 - rejected as real / total as real)
  }

  /** `%d%%`. */
  function Percent(n: int): (s: string)
    ensures |s| >= 2 && s[|s| - 1] == '%' && s[..|s| - 1] == IntToString(n)
  {
    IntToString(n) + "%"
  }

  /** The statistics line of this revision, coloured with the
      `;40;2m` attributes; additions take the colour of NotAssigned. */
  function StatsLine(precision: string, recall: string, acc: string, rej: string, mod: string, add: string): string
  {
    "Precision: " + precision + ", Recall: " + recall + " | "
    + [Esc] + "[" + NatToString(Color(Accepted)) + ";40;2mAcc. " + acc + " "
    + [Esc] + "[" + NatToString(Color(NotName)) + ";40;2mRej. " + rej + " "
    + [Esc] + "[" + NatToString(Color(Species)) + ";40;2mMod. " + mod + " "
    + [Esc] + "[" + NatToString(Color(NotAssigned)) + ";40;2mAdd. " + add + " " + [Esc] + "[0m"
  }

  class Stats {
    var acceptedCount: int
    var rejectedCount: int
    var modifiedCount: int
    var addedCount: int
    var total: int

    var acceptedPercent: int
    var rejectedPercent: int
    var modifiedPercent: int
    var addedPercent: int

    /** The total is the sum of the four counters; the bumping loop needs
        this to stop. */
    ghost predicate Valid()
      reads this
    {
      && acceptedCount >= 0 && rejectedCount >= 0 && modifiedCount >= 0 && addedCount >= 0
      && total == acceptedCount + rejectedCount + modifiedCount + addedCount
    }

    function Counts(): (c: seq<nat>)
      reads this
      requires Valid()
      ensures |c| == 4 && Apportionment.Sum4(c) == total
    {
      [acceptedCount, rejectedCount, modifiedCount, addedCount]
    }

    function Percents(): seq<int>
      reads this
    {
      [acceptedPercent, rejectedPercent, modifiedPercent, addedPercent]
    }

    constructor (accepted: nat, rejected: nat, modified: nat, added: nat)
      ensures Valid() && Counts() == [accepted, rejected, modified, added]
      ensures Percents() == [0, 0, 0, 0]
    {
      acceptedCount, rejectedCount, modifiedCount, addedCount := accepted, rejected, modified, added;
      total := accepted + rejected + modified + added;
      acceptedPercent, rejectedPercent, modifiedPercent, addedPercent := 0, 0, 0, 0;
    }

    /** `adjustPercentsTo100`: nothing happens without counts; otherwise
        the four percents become the apportionment of the counts. */
    method AdjustPercentsTo100()
      requires Valid()
      modifies this
      ensures Valid() && Counts() == old(Counts())
      ensures total == 0 ==> Percents() == old(Percents())
      ensures total > 0 ==> Apportionment.Apportioned(Apportionment.RawRate, Counts(), total, Percents())
    {
      if total == 0 {
        return;
      }
      var p := Apportionment.Reconcile(Apportionment.RawRate, Counts(), total);
      acceptedPercent, rejectedPercent, modifiedPercent, addedPercent := p[0], p[1], p[2], p[3];
    }

    /** `format`: "n/a" everywhere without counts; otherwise precision and
        three reconciled percents. Recall and additions are "n/a" in both
        cases. */
    method Format(fixed2: real -> string) returns (s: string)
      requires Valid()
      modifies this
      ensures Valid() && Counts() == old(Counts())
      ensures total == 0 ==> s == StatsLine("n/a", "n/a", "n/a", "n/a", "n/a", "n/a")
      ensures total > 0 ==>
        && Apportionment.Apportioned(Apportionment.RawRate, Counts(), total, Percents())
        && s == StatsLine(fixed2(Precision(rejectedCount, total).value), "n/a",
             Percent(acceptedPercent), Percent(rejectedPercent), Percent(modifiedPercent), "n/a")
    {
      var precision, acc, rej, mod := "n/a", "n/a", "n/a", "n/a";
      if total > 0 {
        AdjustPercentsTo100();
        precision := fixed2(Precision(rejectedCount, total).value);
        acc, rej, mod := Percent(acceptedPercent), Percent(rejectedPercent), Percent(modifiedPercent);
      }
      s := StatsLine(precision, "n/a", acc, rej, mod, "n/a");
    }
  }
}

/** The oldest statistics revision (Stats.go): every rate is computed on
    demand from the counters, and the ones not yet implemented answer -1. */
module RateStats {
  import Apportionment

  datatype Stats = Stats(acceptedCount: nat, rejectedCount: nat, modifiedCount: nat, addedCount: nat, total: nat)

  /** `int(float32(count) / float32(total) * 100)`, 0 without a total:
      the percentage truncated toward zero. */
  function Rate(count: nat, total: nat): (r: int)
    ensures total == 0 ==> r == 0
    ensures total > 0 ==> r >= 0 && r * total <= 100 * count < (r + 1) * total
  {
    if total == 0 then 0 else (100 * count) / total
  }

  function AcceptedRate(s: Stats): int { Rate(s.acceptedCount, s.total) }

  function RejectedRate(s: Stats): int { Rate(s.rejectedCount, s.total) }

  function ModifiedRate(s: Stats): int { Rate(s.modifiedCount, s.total) }

  /** `addedRate`: 0 without a total, else the placeholder -1. */
  function AddedRate(s: Stats): (r: int)
    ensures r == 0 <==> s.total == 0
    ensures r != 0 ==> r == -1
  {
    if s.total == 0 then 0 else -1
  }

  /** `precision` of this revision: the share of rejections, 0 without a
      total. */
  function Precision(s: Stats): (r: real)
    ensures s.total == 0 ==> r == 0.0
    ensures s.total > 0 ==> r * s.total as real == s.rejectedCount as real
  {
    if s.total == 0 then 0.0 else s.rejectedCount as real / s.total as real
  }

  /** `recall`: 0 without a total, else the placeholder -1. */
  function Recall(s: Stats): (r: real)
    ensures r == 0.0 <==> s.total == 0
    ensures r != 0.0 ==> r == -1.0
  {
    if s.total == 0 then 0.0 else -1.0
  }

  /** The rates of this revision are the truncated percentages the later
      revisions start their apportionment from; when the total is the sum
      of the counters, the three reported rates leave at most the added
      share plus 3 points short of 100. */
  lemma RatesAreTruncations(s: Stats)
    requires s.total > 0
    requires s.total == s.acceptedCount + s.rejectedCount + s.modifiedCount + s.addedCount
    ensures AcceptedRate(s) == Apportionment.Trunc(s.acceptedCount, s.total)
    ensures RejectedRate(s) == Apportionment.Trunc(s.rejectedCount, s.total)
    ensures ModifiedRate(s) == Apportionment.Trunc(s.modifiedCount, s.total)
    ensures var reported := AcceptedRate(s) + RejectedRate(s) + ModifiedRate(s);
      reported + Apportionment.Trunc(s.addedCount, s.total) <= 100 &&
      reported + Apportionment.Trunc(s.addedCount, s.total) >= 97
  {
    var c := [s.acceptedCount, s.rejectedCount, s.modifiedCount, s.addedCount];
    assert Apportionment.Sum4(c) == s.total;
    Apportionment.TruncDeficit(c, s.total);
    assert Apportionment.Truncs(c, s.total) == [AcceptedRate(s), RejectedRate(s), ModifiedRate(s), Apportionment.Trunc(s.addedCount, s.total)];
  }
}
