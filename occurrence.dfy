/** The name records the curator walks through, the configuration record
    of gntagger.go, the doubtfulness test, and the same-name propagation
    rule applied by `Names.UpdateAnnotations`.

    The file that implements `UpdateAnnotations` is not part of this model;
    the rule below is the one pinned by the scenarios and the comment in
    gntagger_test.go:70-141. */
module Occurrences {
  import opened Annotations

  /** One name found in the processed text, as the finder records it,
      with the verdict the operator (or propagation) gave it. */
  datatype Occurrence = Occurrence(
    name: string,
    kind: string,
    odds: real,
    offsetStart: int,
    offsetEnd: int,
    annotation: Annotation)

  /** `GnTagger`: the configuration record. */
  datatype GnTagger = GnTagger(bayes: bool, oddsHigh: real, oddsLow: real, express: bool)

  /** `NewGnTagger`: OddsHigh 100, OddsLow 1, express mode on. */
  const DefaultGnTagger: GnTagger := GnTagger(false, 100.0, 1.0, true)

  /** `IsDoubtful`: scored (odds 0 means "no score") and below OddsHigh. */
  predicate IsDoubtful(o: Occurrence, gnt: GnTagger): (b: bool)
    ensures o.odds == 0.0 ==> !b
    ensures o.odds >= gnt.oddsHigh ==> !b
    ensures o.odds != 0.0 && o.odds < gnt.oddsHigh ==> b
  {
    o.odds != 0.0 && o.odds < gnt.oddsHigh
  }

  /** What a duplicate goes back to when an earlier decision is reversed. */
  function Reverted(o: Occurrence, gnt: GnTagger): Annotation
  {
    if IsDoubtful(o, gnt) then Doubtful else NotAssigned
  }

  /** Propagation happens only near the edge (the furthest name reviewed,
      with a tolerance of `lookBack` names) and only for the two binary
      verdicts. */
  predicate Propagates(cur: int, a: Annotation, edge: int, lookBack: nat)
  {
    cur >= edge - lookBack && (a == NotName || a == Accepted)
  }

  /** The store after giving the name at `cur` the verdict `a`: later
      names with the same string copy a fresh decision (the old verdict
      was NotAssigned or Doubtful) or are reverted (a decision is being
      changed). */
  function Updated(ns: seq<Occurrence>, cur: nat, a: Annotation, edge: int, lookBack: nat, gnt: GnTagger)
    : (r: seq<Occurrence>)
    requires cur < |ns|
    ensures |r| == |ns| && r[cur].annotation == a
    ensures forall j :: 0 <= j < |ns| ==> r[j] == ns[j].(annotation := r[j].annotation)
    ensures forall j :: 0 <= j < cur ==> r[j] == ns[j]
    ensures forall j :: 0 <= j < |ns| && ns[j].name != ns[cur].name ==> r[j] == ns[j]
  {
    var was := ns[cur].annotation;
    seq(|ns|, j requires 0 <= j < |ns| =>
      if j == cur then ns[j].(annotation := a)
      else if Propagates(cur, a, edge, lookBack) && j > cur && ns[j].name == ns[cur].name then
        ns[j].(annotation := if was == NotAssigned || was == Doubtful then a else Reverted(ns[j], gnt))
      else ns[j])
  }

  /** The name itself always takes the new verdict; only annotations
      change; only later names with the identical string change, and only
      when the guard allows it. */
  lemma UpdatedFrame(ns: seq<Occurrence>, cur: nat, a: Annotation, edge: int, lookBack: nat, gnt: GnTagger, j: nat)
    requires cur < |ns| && j < |ns|
    ensures |Updated(ns, cur, a, edge, lookBack, gnt)| == |ns|
    ensures Updated(ns, cur, a, edge, lookBack, gnt)[cur].annotation == a
    ensures Updated(ns, cur, a, edge, lookBack, gnt)[j] == ns[j].(annotation := Updated(ns, cur, a, edge, lookBack, gnt)[j].annotation)
    ensures j != cur && (j < cur || ns[j].name != ns[cur].name || !Propagates(cur, a, edge, lookBack))
            ==> Updated(ns, cur, a, edge, lookBack, gnt)[j] == ns[j]
  {
  }

  /** A fresh decision (from NotAssigned or Doubtful) is copied to every
      later name with the same string. */
  lemma UpdatedCopiesFreshDecision(ns: seq<Occurrence>, cur: nat, a: Annotation, edge: int, lookBack: nat, gnt: GnTagger, j: nat)
    requires cur < j < |ns| && ns[j].name == ns[cur].name
    requires Propagates(cur, a, edge, lookBack)
    requires ns[cur].annotation in {NotAssigned, Doubtful}
    ensures Updated(ns, cur, a, edge, lookBack, gnt)[j].annotation == a
  {
  }

  /** Changing a decision (from anything else) reverts every later name
      with the same string to Doubtful or NotAssigned by its odds. */
  lemma UpdatedRevertsChangedDecision(ns: seq<Occurrence>, cur: nat, a: Annotation, edge: int, lookBack: nat, gnt: GnTagger, j: nat)
    requires cur < j < |ns| && ns[j].name == ns[cur].name
    requires Propagates(cur, a, edge, lookBack)
    requires ns[cur].annotation !in {NotAssigned, Doubtful}
    ensures Updated(ns, cur, a, edge, lookBack, gnt)[j].annotation == (if IsDoubtful(ns[j], gnt) then Doubtful else NotAssigned)
  {
  }

  /** A later name is "pristine" when its verdict is still the one it had
      at load time: Doubtful exactly when its odds make it doubtful. */
  ghost predicate LaterDuplicatesPristine(ns: seq<Occurrence>, cur: nat, gnt: GnTagger)
    requires cur < |ns|
  {
    forall j :: cur < j < |ns| && ns[j].name == ns[cur].name ==> ns[j].annotation == Reverted(ns[j], gnt)
  }

  /** Reversal undoes propagation: deciding a name and then changing the
      decision at the same place leaves every other name as it was. */
  lemma {:induction false} ReversalUndoesPropagation(
    ns: seq<Occurrence>, cur: nat, a: Annotation, b: Annotation, edge: int, lookBack: nat, gnt: GnTagger)
    requires cur < |ns|
    requires ns[cur].annotation in {NotAssigned, Doubtful}
    requires Propagates(cur, a, edge, lookBack) && Propagates(cur, b, edge, lookBack)
    requires LaterDuplicatesPristine(ns, cur, gnt)
    ensures var twice := Updated(Updated(ns, cur, a, edge, lookBack, gnt), cur, b, edge, lookBack, gnt);
            |twice| == |ns| && twice[cur] == ns[cur].(annotation := b) &&
            forall j :: 0 <= j < |ns| && j != cur ==> twice[j] == ns[j]
  {
    var once := Updated(ns, cur, a, edge, lookBack, gnt);
    var twice := Updated(once, cur, b, edge, lookBack, gnt);
    forall j | 0 <= j < |ns| && j != cur
      ensures twice[j] == ns[j]
    {
      if j > cur && ns[j].name == ns[cur].name {
        assert once[j] == ns[j].(annotation := a);
        assert twice[j] == once[j].(annotation := Reverted(once[j], gnt));
      }
    }
  }
}
