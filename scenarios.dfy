/** The propagation scenarios of gntagger_test.go, replayed on the
    propagation rule: twelve names from a book on molluscs, three
    doubtful "Venus" and two "Gastropoda" among them. */
module Scenarios {
  import opened Annotations
  import opened Occurrences

  function Name(name: string, odds: real, a: Annotation): Occurrence
  {
    Occurrence(name, "", odds, 0, 0, a)
  }

  /** The test names; the ones the finder scored low are Doubtful. */
  function TestNames(): (ns: seq<Occurrence>)
    ensures |ns| == 12
  {
    [ Name("Gastropoda", 211.35, NotAssigned),
      Name("Amphineura", 9327.30, NotAssigned),
      Name("Scaphopoda", 10292.20, NotAssigned),
      Name("Pelecypoda", 10292.20, NotAssigned),
      Name("Cephalopoda", 12336.64, NotAssigned),
      Name("Octopus", 37.21, Doubtful),
      Name("Miiricea muricata", 462914.03, NotAssigned),
      Name("Venus", 16.35, Doubtful),
      Name("Venus", 16.35, Doubtful),
      Name("Venus", 16.35, Doubtful),
      Name("Mollusca", 340.20, NotAssigned),
      Name("Gastropoda", 211.00, NotAssigned) ]
  }

  /** The loading state is the pristine one: a name is Doubtful exactly
      when its odds make it doubtful under the default configuration. */
  lemma TestNamesPristine(j: nat)
    requires j < 12
    ensures TestNames()[j].annotation == Reverted(TestNames()[j], DefaultGnTagger)
  {
  }

  /** The test's loop that accepts every name before the edge. */
  function AcceptBefore(ns: seq<Occurrence>, edge: nat): (r: seq<Occurrence>)
    ensures |r| == |ns|
    ensures forall j :: 0 <= j < |ns| ==> r[j].(annotation := ns[j].annotation) == ns[j]
    ensures forall j :: 0 <= j < |ns| ==> r[j].annotation == if j < edge then Accepted else ns[j].annotation
  {
    seq(|ns|, j requires 0 <= j < |ns| => if j < edge then ns[j].(annotation := Accepted) else ns[j])
  }

  /** `IsDoubtful`: odds above OddsHigh are not doubtful, odds 10 are,
      and odds 0 (no score) are not. */
  lemma IsDoubtfulExamples(o: Occurrence)
    ensures o.odds > DefaultGnTagger.oddsHigh ==> !IsDoubtful(o, DefaultGnTagger)
    ensures IsDoubtful(o.(odds := 10.0), DefaultGnTagger)
    ensures !IsDoubtful(o.(odds := 0.0), DefaultGnTagger)
  {
  }

  /** "Updates Doubtful Venus to NotName all the way": NotName on the
      first Venus at the edge reaches the two later ones and not Mollusca;
      then changing the second Venus to Accepted sends the third back to
      Doubtful. Any tolerance behind the edge gives the same result. */
  lemma VenusScenario(lookBack: nat)
    ensures var gnt := DefaultGnTagger;
      var ns := AcceptBefore(TestNames(), 7);
      var s1 := Updated(ns, 7, NotName, 7, lookBack, gnt);
      var s2 := Updated(s1, 8, Accepted, 8, lookBack, gnt);
      && ns[8].annotation == Doubtful && ns[9].annotation == Doubtful && ns[10].annotation == NotAssigned
      && s1[7].annotation == NotName && s1[8].annotation == NotName && s1[9].annotation == NotName
      && s1[10].annotation == NotAssigned
      && s2[8].annotation == Accepted && s2[9].annotation == Doubtful && s2[10].annotation == NotAssigned
  {
    var gnt := DefaultGnTagger;
    var ns := AcceptBefore(TestNames(), 7);
    var s1 := Updated(ns, 7, NotName, 7, lookBack, gnt);
    assert ns[7].annotation == Doubtful;
    UpdatedCopiesFreshDecision(ns, 7, NotName, 7, lookBack, gnt, 8);
    UpdatedCopiesFreshDecision(ns, 7, NotName, 7, lookBack, gnt, 9);
    assert s1[9].odds == 16.35;
    UpdatedRevertsChangedDecision(s1, 8, Accepted, 8, lookBack, gnt, 9);
  }

  /** "Updates NotAssigned Gastropoda to Accepted all the way": accepting
      the first Gastropoda reaches the last name; rejecting it afterwards
      sends the last name back to NotAssigned, its odds being above
      OddsHigh. Mollusca is never touched. */
  lemma GastropodaScenario(lookBack: nat)
    ensures var gnt := DefaultGnTagger;
      var s1 := Updated(TestNames(), 0, Accepted, 0, lookBack, gnt);
      var s2 := Updated(s1, 0, NotName, 0, lookBack, gnt);
      && TestNames()[0].annotation == NotAssigned && TestNames()[11].annotation == NotAssigned
      && s1[0].annotation == Accepted && s1[10].annotation == NotAssigned && s1[11].annotation == Accepted
      && s2[0].annotation == NotName && s2[10].annotation == NotAssigned && s2[11].annotation == NotAssigned
  {
    var gnt := DefaultGnTagger;
    var s1 := Updated(TestNames(), 0, Accepted, 0, lookBack, gnt);
    UpdatedCopiesFreshDecision(TestNames(), 0, Accepted, 0, lookBack, gnt, 11);
    assert s1[11].odds == 211.00;
    UpdatedRevertsChangedDecision(s1, 0, NotName, 0, lookBack, gnt, 11);
  }

  /** The Gastropoda round trip restores every other name: reversal
      undoes propagation on the test data. */
  lemma GastropodaRoundTrip(lookBack: nat, j: nat)
    requires 0 < j < 12
    ensures var gnt := DefaultGnTagger;
      Updated(Updated(TestNames(), 0, Accepted, 0, lookBack, gnt), 0, NotName, 0, lookBack, gnt)[j] == TestNames()[j]
  {
    forall k | 0 < k < 12 && TestNames()[k].name == TestNames()[0].name
      ensures TestNames()[k].annotation == Reverted(TestNames()[k], DefaultGnTagger)
    {
      TestNamesPristine(k);
    }
    ReversalUndoesPropagation(TestNames(), 0, Accepted, NotName, 0, lookBack, DefaultGnTagger);
  }
}
