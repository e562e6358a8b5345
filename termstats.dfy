/** The statistics line of the terminal curator (termui/stats.go): the
    per-word verdict flags, the counters filled from them, precision and
    recall, the percentages forced to sum to 100, and the formatted line. */
module TermStats {
  import opened Basics
  import opened Annotations
  import Apportionment

  /** What the reviewed occurrences of one name string say about it. */
  datatype WordState = WordState(accepted: bool, rejected: bool, modified: bool, doubtful: bool)

  /** The four counters of the statistics line. */
  datatype Counter = AcceptedCounter | RejectedCounter | ModifiedCounter | AddedCounter

  /** The counters a word lands in: a doubtful word (one the finder was
      unsure of) counts only as "added", and only when it was accepted or
      given a rank; any other word counts once per flag it carries. */
  predicate CountsIn(c: Counter, w: WordState)
  {
    match c
    case AcceptedCounter => !w.doubtful && w.accepted
    case RejectedCounter => !w.doubtful && w.rejected
    case ModifiedCounter => !w.doubtful && w.modified
    case AddedCounter => w.doubtful && (w.accepted || w.modified)
  }

  ghost function Words(ws: map<string, WordState>, c: Counter): set<string>
  {
    set k | k in ws && CountsIn(c, ws[k])
  }

  /** `precision`: accepted over accepted, rejected and modified; `None`
      where the float division is 0/0 and gives NaN. */
  function Precision(accepted: nat, rejected: nat, modified: nat): (r: Option<real>)
    ensures r.None? <==> accepted + rejected + modified == 0
    ensures r.Some? ==> 0.0 <= r.value <= 1.0
    ensures r.Some? ==> r.value * (accepted + rejected + modified) as real == accepted as real
  {
    if accepted + rejected + modified == 0 then None
    else Some(accepted as real / (accepted + rejected + modified) as real)
  }

  /** `recall`: accepted over accepted and added; `None` for 0/0. */
  function Recall(accepted: nat, added: nat): (r: Option<real>)
    ensures r.None? <==> accepted + added == 0
    ensures r.Some? ==> 0.0 <= r.value <= 1.0
    ensures r.Some? ==> r.value * (accepted + added) as real == accepted as real
  {
    if accepted + added == 0 then None
    else Some(accepted as real / (accepted + added) as real)
  }

  /** `%3d%%`: the number right-aligned in three columns, then `%`. */
  function Percent3(n: int): (s: string)
    ensures 0 <= n < 1000 ==> |s| == 4
    ensures |s| >= 2 && s[|s| - 1] == '%'
    ensures 0 <= n < 1000 ==>
      var digits := NatToString(n);
      && s[3 - |digits|..3] == digits
      && forall i :: 0 <= i < 3 - |digits| ==> s[i] == ' '
  {
    var digits := IntToString(n);
    (if |digits| < 3 then seq(3 - |digits|, _ => ' ') else []) + digits + "%"
  }

  /** `%.2f` of a ratio; NaN prints as "NaN". The decimal rendering of a
      float is supplied by the caller. */
  function Fixed2(r: Option<real>, fixed2: real -> string): string
  {
    match r
    case None => "NaN"
    case Some(x) => fixed2(x)
  }

  /** The statistics line: precision, recall, then the four percentages,
      each coloured as its annotation. */
  function StatsLine(precision: string, recall: string, acc: string, rej: string, mod: string, add: string): string
  {
    "Precision: " + precision + ", Recall: " + recall + " | "
    + [Esc] + "[" + NatToString(Color(Accepted)) + ";1mAcc. " + acc + " "
    + [Esc] + "[" + NatToString(Color(NotName)) + ";1mRej. " + rej + " "
    + [Esc] + "[" + NatToString(Color(Species)) + ";1mMod. " + mod + " "
    + [Esc] + "[" + NatToString(Color(Doubtful)) + ";1mAdd. " + add + " " + [Esc] + "[0m"
  }

  class Stats {
    var acceptedCount: int
    var rejectedCount: int
    var modifiedCount: int
    var addedCount: int
    var total: int

    var acceptedPercent: int
    var rejectedPercent: int
    var modifiedPercent: int
    var addedPercent: int

    /** Every increment of a counter increments `total` with it. */
    ghost predicate Valid()
      reads this
    {
      && acceptedCount >= 0 && rejectedCount >= 0 && modifiedCount >= 0 && addedCount >= 0
      && total == acceptedCount + rejectedCount + modifiedCount + addedCount
    }

    function Counts(): (c: seq<nat>)
      reads this
      requires Valid()
      ensures |c| == 4 && Apportionment.Sum4(c) == total
    {
      [acceptedCount, rejectedCount, modifiedCount, addedCount]
    }

    function Percents(): seq<int>
      reads this
    {
      [acceptedPercent, rejectedPercent, modifiedPercent, addedPercent]
    }

    /** `var stats Stats`: everything zero. */
    constructor ()
      ensures Valid() && total == 0
      ensures Percents() == [0, 0, 0, 0]
    {
      acceptedCount, rejectedCount, modifiedCount, addedCount, total := 0, 0, 0, 0, 0;
      acceptedPercent, rejectedPercent, modifiedPercent, addedPercent := 0, 0, 0, 0;
    }

    /** `updateStats`: visit every word once and bump the counters its
        flags select. */
    method UpdateStats(ws: map<string, WordState>)
      requires Valid()
      modifies this
      ensures Valid()
      ensures acceptedCount == old(acceptedCount) + |Words(ws, AcceptedCounter)|
      ensures rejectedCount == old(rejectedCount) + |Words(ws, RejectedCounter)|
      ensures modifiedCount == old(modifiedCount) + |Words(ws, ModifiedCounter)|
      ensures addedCount == old(addedCount) + |Words(ws, AddedCounter)|
      ensures Percents() == old(Percents())
    {
      var accepted, rejected, modified, added := CountWords(ws);
      acceptedCount := acceptedCount + accepted;
      rejectedCount := rejectedCount + rejected;
      modifiedCount := modifiedCount + modified;
      addedCount := addedCount + added;
      total := total + accepted + rejected + modified + added;
    }

    /** `calculatePercentage`: nothing happens without counts; otherwise
        the four percents become the apportionment of the counts. */
    method CalculatePercentage()
      requires Valid()
      modifies this
      ensures Valid() && Counts() == old(Counts())
      ensures total == 0 ==> Percents() == old(Percents())
      ensures total > 0 ==> Apportionment.Apportioned(Apportionment.RawRate, Counts(), total, Percents())
    {
      if total == 0 {
        return;
      }
      var p := Apportionment.Reconcile(Apportionment.RawRate, Counts(), total);
      acceptedPercent, rejectedPercent, modifiedPercent, addedPercent := p[0], p[1], p[2], p[3];
    }

    /** `format`: zeros when nothing was counted, otherwise the ratios and
        the reconciled percents. */
    method Format(fixed2: real -> string) returns (s: string)
      requires Valid()
      modifies this
      ensures Valid() && Counts() == old(Counts())
      ensures total == 0 ==> s == StatsLine("0.00", "0.00", "  0%", "  0%", "  0%", "  0%")
      ensures total > 0 ==>
        && Apportionment.Apportioned(Apportionment.RawRate, Counts(), total, Percents())
        && s == StatsLine(
             Fixed2(Precision(acceptedCount, rejectedCount, modifiedCount), fixed2),
             Fixed2(Recall(acceptedCount, addedCount), fixed2),
             Percent3(acceptedPercent), Percent3(rejectedPercent),
             Percent3(modifiedPercent), Percent3(addedPercent))
    {
      if total == 0 {
        s := StatsLine("0.00", "0.00", "  0%", "  0%", "  0%", "  0%");
      } else {
        CalculatePercentage();
        s := StatsLine(
          Fixed2(Precision(acceptedCount, rejectedCount, modifiedCount), fixed2),
          Fixed2(Recall(acceptedCount, addedCount), fixed2),
          Percent3(acceptedPercent), Percent3(rejectedPercent),
          Percent3(modifiedPercent), Percent3(addedPercent));
      }
    }
  }

  /** The statistics part of `renderStats`: a zero record, counted over
      the word states, then formatted. */
  method Tally(ws: map<string, WordState>, fixed2: real -> string) returns (stats: Stats, line: string)
    ensures fresh(stats) && stats.Valid()
    ensures stats.acceptedCount == |Words(ws, AcceptedCounter)| && stats.rejectedCount == |Words(ws, RejectedCounter)|
    ensures stats.modifiedCount == |Words(ws, ModifiedCounter)| && stats.addedCount == |Words(ws, AddedCounter)|
    ensures stats.total == 0 ==> line == StatsLine("0.00", "0.00", "  0%", "  0%", "  0%", "  0%")
    ensures stats.total > 0 ==>
      && Apportionment.Apportioned(Apportionment.RawRate, stats.Counts(), stats.total, stats.Percents())
      && line == StatsLine(
           Fixed2(Precision(stats.acceptedCount, stats.rejectedCount, stats.modifiedCount), fixed2),
           Fixed2(Recall(stats.acceptedCount, stats.addedCount), fixed2),
           Percent3(stats.acceptedPercent), Percent3(stats.rejectedPercent),
           Percent3(stats.modifiedPercent), Percent3(stats.addedPercent))
  {
    stats := new Stats();
    stats.UpdateStats(ws);
    line := stats.Format(fixed2);
  }

  /** The loop of `updateStats`: one visit per word, in any order. */
  method CountWords(ws: map<string, WordState>) returns (accepted: nat, rejected: nat, modified: nat, added: nat)
    ensures accepted == |Words(ws, AcceptedCounter)| && rejected == |Words(ws, RejectedCounter)|
    ensures modified == |Words(ws, ModifiedCounter)| && added == |Words(ws, AddedCounter)|
  {
    accepted, rejected, modified, added := 0, 0, 0, 0;
    var rest := ws.Keys;
    while rest != {}
      invariant rest <= ws.Keys
      invariant accepted == |Words(ws, AcceptedCounter) - rest|
      invariant rejected == |Words(ws, RejectedCounter) - rest|
      invariant modified == |Words(ws, ModifiedCounter) - rest|
      invariant added == |Words(ws, AddedCounter) - rest|
      decreases rest
    {
      var k :| k in rest;
      var w := ws[k];
      CountStep(ws, AcceptedCounter, rest, k);
      CountStep(ws, RejectedCounter, rest, k);
      CountStep(ws, ModifiedCounter, rest, k);
      CountStep(ws, AddedCounter, rest, k);
      if w.doubtful {
        if w.accepted || w.modified {
          added := added + 1;
        }
      } else {
        if w.accepted {
          accepted := accepted + 1;
        }
        if w.rejected {
          rejected := rejected + 1;
        }
        if w.modified {
          modified := modified + 1;
        }
      }
      rest := rest - {k};
    }
  }

  /** Taking one key out of the unvisited set adds it to the visited part
      of a counter's words exactly when the word lands in that counter. */
  lemma CountStep(ws: map<string, WordState>, c: Counter, rest: set<string>, k: string)
    requires k in rest && rest <= ws.Keys
    ensures |Words(ws, c) - (rest - {k})| == |Words(ws, c) - rest| + (if CountsIn(c, ws[k]) then 1 else 0)
  {
    var counted := Words(ws, c);
    if CountsIn(c, ws[k]) {
      assert counted - (rest - {k}) == (counted - rest) + {k};
    } else {
      assert counted - (rest - {k}) == counted - rest;
    }
  }

  /** Each word adds to the total once per counter it lands in, and a
      doubtful word never lands in the accepted, rejected or modified
      counters. */
  lemma CountersDisjointFromAdded(ws: map<string, WordState>)
    ensures Words(ws, AddedCounter) !! Words(ws, AcceptedCounter)
    ensures Words(ws, AddedCounter) !! Words(ws, RejectedCounter)
    ensures Words(ws, AddedCounter) !! Words(ws, ModifiedCounter)
    ensures Words(ws, AcceptedCounter) + Words(ws, RejectedCounter) + Words(ws, ModifiedCounter) + Words(ws, AddedCounter) <= ws.Keys
  {
  }
}
