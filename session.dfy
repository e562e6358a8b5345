/** The curation session of the terminal curator (termui/gui.go): the
    package-level state (current name, furthest reviewed name, autosave
    counter, express mode, centre offset of the names pane) gathered into
    one `Session` object over the array of found names.

    Drawing is reduced to what it computes: the slice of names shown, the
    window of text around the current name, and the statistics line. */
module Curation {
  import opened Basics
  import opened Annotations
  import opened Occurrences
  import opened Viewport
  import opened TermStats

  /** Every 30th render of the names pane saves the names. */
  const AutosaveEvery: nat := 30

  /** The autosave counter after one render of the names pane. */
  function Tick(count: nat): (r: nat)
    ensures r < AutosaveEvery
    ensures r == 0 <==> count + 1 >= AutosaveEvery
    ensures r != 0 ==> r == count + 1
  {
    if count + 1 >= AutosaveEvery then 0 else count + 1
  }

  /** The annotation each verdict key sets: Space, `y`, `s`, `g`, `u`. */
  function KeyAnnotation(key: char): (r: Option<Annotation>)
    ensures r.Some? <==> key in {' ', 'y', 's', 'g', 'u'}
    ensures r.Some? ==> r.value in {NotName, Accepted, Species, Genus, Uninomial}
    ensures r == Some(Accepted) <==> key == 'y'
    ensures r == Some(NotName) <==> key == ' '
    ensures r == Some(Species) <==> key == 's'
    ensures r == Some(Genus) <==> key == 'g'
    ensures r == Some(Uninomial) <==> key == 'u'
  {
    match key
    case ' ' => Some(NotName)
    case 'y' => Some(Accepted)
    case 's' => Some(Species)
    case 'g' => Some(Genus)
    case 'u' => Some(Uninomial)
    case _ => None
  }

  /** A name express mode passes over: neither NotAssigned nor Doubtful. */
  predicate Decided(o: Occurrence)
  {
    !In(o.annotation, [NotAssigned, Doubtful])
  }

  /** How far `listForward` moves before express mode: not at all from
      the last name or from a Doubtful one (captured before the verdict is
      set), one name otherwise. */
  function Step(count: nat, cur: nat, was: Annotation): (r: nat)
    ensures r <= 1
    ensures cur < count ==> cur + r < count
    ensures r == 0 ==> cur == count - 1 || was == Doubtful
  {
    if cur == count - 1 || was == Doubtful then 0 else 1
  }

  /** The express-mode loop as written: from `from`, pass every decided
      name; nothing stops it at the end of the list. */
  function SkipDecided(ns: seq<Occurrence>, from: nat): (k: nat)
    requires from <= |ns|
    ensures from <= k <= |ns|
    ensures forall i :: from <= i < k ==> Decided(ns[i])
    ensures k < |ns| ==> !Decided(ns[k])
    decreases |ns| - from
  {
    if from == |ns| || !Decided(ns[from]) then from else SkipDecided(ns, from + 1)
  }

  /** Where `listForward` leaves the cursor, as written. */
  function ForwardAsWritten(ns: seq<Occurrence>, cur: nat, was: Annotation, express: bool): (k: int)
    requires cur < |ns|
    ensures cur <= k <= |ns|
    ensures !express ==> k < |ns|
    ensures forall i :: cur < i < k ==> Decided(ns[i])
  {
    var step := Step(|ns|, cur, was);
    if express && step > 0 then SkipDecided(ns, cur + step) else cur + step
  }

  /** Where `listForward` should leave the cursor: as written, but never
      past the last name. */
  function Forward(ns: seq<Occurrence>, cur: nat, was: Annotation, express: bool): (k: nat)
    requires cur < |ns|
    ensures k < |ns|
  {
    var k := ForwardAsWritten(ns, cur, was, express);
    if k > |ns| - 1 then |ns| - 1 else k
  }

  /** Express mode as written runs off the end of the list exactly when
      every name after the cursor is decided: the cursor then equals the
      number of names and the next lookup of the current name fails. */
  lemma ForwardAsWrittenOverruns(ns: seq<Occurrence>, cur: nat, was: Annotation)
    requires cur < |ns| - 1 && was != Doubtful
    ensures ForwardAsWritten(ns, cur, was, true) == |ns| <==> forall i :: cur < i < |ns| ==> Decided(ns[i])
  {
    if forall i :: cur < i < |ns| ==> Decided(ns[i]) {
      SkipReachesEnd(ns, cur + 1);
    }
  }

  lemma {:induction false} SkipReachesEnd(ns: seq<Occurrence>, from: nat)
    requires from <= |ns|
    requires forall i :: from <= i < |ns| ==> Decided(ns[i])
    ensures SkipDecided(ns, from) == |ns|
    decreases |ns| - from
  {
    if from < |ns| {
      SkipReachesEnd(ns, from + 1);
    }
  }

  /** Two accepted names, cursor on the first, express mode on: the
      cursor lands on index 2 of a two-name list. */
  lemma ForwardOverrunExample()
    ensures var o := Occurrence("Venus", "Uninomial", 16.35, 0, 4, Accepted);
            var ns := [o, o.(name := "Mollusca")];
            ForwardAsWritten(ns, 0, Accepted, true) == 2 == |ns|
  {
    var o := Occurrence("Venus", "Uninomial", 16.35, 0, 4, Accepted);
    var ns := [o, o.(name := "Mollusca")];
    assert Decided(ns[1]);
  }

  /** The corrected move: never backwards, stays put on the last name and
      on a Doubtful one, passes only decided names in express mode and
      stops on the first undecided name or on the last one. */
  lemma ForwardMoves(ns: seq<Occurrence>, cur: nat, was: Annotation, express: bool)
    requires cur < |ns|
    ensures var k := Forward(ns, cur, was, express);
      && cur <= k
      && (cur == |ns| - 1 || was == Doubtful ==> k == cur)
      && (!express && cur < |ns| - 1 && was != Doubtful ==> k == cur + 1)
      && (express && cur < |ns| - 1 && was != Doubtful ==>
            && cur < k
            && (forall i :: cur < i < k ==> Decided(ns[i]))
            && (k == |ns| - 1 || !Decided(ns[k])))
  {
  }

  /** The four flags of a `WordState`. */
  datatype Flag = AcceptedFlag | RejectedFlag | ModifiedFlag | DoubtfulFlag

  function FlagOf(w: WordState, f: Flag): bool
  {
    match f
    case AcceptedFlag => w.accepted
    case RejectedFlag => w.rejected
    case ModifiedFlag => w.modified
    case DoubtfulFlag => w.doubtful
  }

  /** The flag one reviewed occurrence raises: its verdict for the first
      three, its odds for `doubtful`. */
  predicate Raises(o: Occurrence, f: Flag, gnt: GnTagger)
  {
    match f
    case AcceptedFlag => o.annotation == Accepted
    case RejectedFlag => o.annotation == NotName
    case ModifiedFlag => o.annotation in {Uninomial, Genus, Species}
    case DoubtfulFlag => IsDoubtful(o, gnt)
  }

  /** `WordState` flags of one more reviewed occurrence: the `switch` on
      its verdict, then the odds test. Flags are only ever raised. */
  function Mark(w: WordState, o: Occurrence, gnt: GnTagger): (r: WordState)
    ensures forall f :: FlagOf(r, f) == (FlagOf(w, f) || Raises(o, f, gnt))
  {
    var w1 := match o.annotation
      case NotName => w.(rejected := true)
      case Accepted => w.(accepted := true)
      case Uninomial => w.(modified := true)
      case Genus => w.(modified := true)
      case Species => w.(modified := true)
      case _ => w;
    if IsDoubtful(o, gnt) then w1.(doubtful := true) else w1
  }

  const NoFlags: WordState := WordState(false, false, false, false)

  /** The word states `renderStats` gathers from a run of names, keyed by
      name string. */
  function Aggregate(ns: seq<Occurrence>, gnt: GnTagger): (ws: map<string, WordState>)
    ensures forall i :: 0 <= i < |ns| ==> ns[i].name in ws
  {
    if |ns| == 0 then map[]
    else
      var ws := Aggregate(ns[..|ns| - 1], gnt);
      var o := ns[|ns| - 1];
      ws[o.name := Mark(if o.name in ws then ws[o.name] else NoFlags, o, gnt)]
  }

  /** One entry per distinct name string of the run. */
  lemma {:induction false} AggregateKeys(ns: seq<Occurrence>, gnt: GnTagger)
    ensures Aggregate(ns, gnt).Keys == set i | 0 <= i < |ns| :: ns[i].name
  {
    if |ns| > 0 {
      var init := ns[..|ns| - 1];
      AggregateKeys(init, gnt);
      assert forall i :: 0 <= i < |init| ==> init[i] == ns[i];
      assert (set i | 0 <= i < |ns| :: ns[i].name) == (set i | 0 <= i < |init| :: init[i].name) + {ns[|ns| - 1].name};
    }
  }

  /** Each flag of a word records whether some reviewed occurrence of that
      word raises it. */
  lemma {:induction false} AggregateFlag(ns: seq<Occurrence>, gnt: GnTagger, n: string, f: Flag)
    requires n in Aggregate(ns, gnt)
    ensures FlagOf(Aggregate(ns, gnt)[n], f) <==> exists i :: 0 <= i < |ns| && ns[i].name == n && Raises(ns[i], f, gnt)
  {
    var init := ns[..|ns| - 1];
    var o := ns[|ns| - 1];
    var ws := Aggregate(init, gnt);
    assert forall i :: 0 <= i < |init| ==> init[i] == ns[i];
    if n in ws {
      AggregateFlag(init, gnt, n, f);
    } else {
      assert FlagOf(NoFlags, f) == false;
      AggregateKeys(init, gnt);
    }
    if n == o.name {
      if Raises(o, f, gnt) {
        assert ns[|ns| - 1].name == n && Raises(ns[|ns| - 1], f, gnt);
      }
    }
  }

  /** What a render call hands the terminal: the slice of the names pane
      and the window of the text pane. */
  datatype Render = Render(slice: NamesSlice, view: TextWindow, color: int)

  class Session {
    /** `names.Data.Names`: only the annotations change. */
    const names: array<Occurrence>
    /** `text.Processed`, the wrapped text the offsets point into. */
    const text: seq<char>
    /** How far behind the furthest reviewed name a verdict still
        propagates. */
    const lookBack: nat

    var gnt: GnTagger
    /** `names.Data.Meta.CurrentName`. */
    var currentName: int
    /** `lastReviewedNameIndex`. */
    var lastReviewed: int
    var saveCount: int
    /** `nameViewCenterOffset`. */
    var centerOffset: int
    /** What the last save wrote: the names and the cursor. */
    var savedNames: seq<Occurrence>
    var savedCurrent: int

    ghost predicate Valid()
      reads this, names
    {
      && names.Length > 0
      && 0 <= currentName < names.Length
      && 0 <= lastReviewed < names.Length
      && 0 <= saveCount < AutosaveEvery
      && centerOffset >= 0
      && forall i :: 0 <= i < names.Length ==> 0 <= names[i].offsetStart <= names[i].offsetEnd < |text|
    }

    /** The session right after the names were loaded. */
    constructor (ns: seq<Occurrence>, processed: seq<char>, config: GnTagger, tolerance: nat, current: int)
      requires |ns| > 0 && 0 <= current < |ns|
      requires forall i :: 0 <= i < |ns| ==> 0 <= ns[i].offsetStart <= ns[i].offsetEnd < |processed|
      ensures Valid() && fresh(names)
      ensures names[..] == ns && text == processed && gnt == config && lookBack == tolerance
      ensures currentName == current && lastReviewed == 0 && saveCount == 0 && centerOffset == 0
    {
      names := new Occurrence[|ns|](i requires 0 <= i < |ns| => ns[i]);
      text := processed;
      gnt := config;
      lookBack := tolerance;
      currentName := current;
      lastReviewed := 0;
      saveCount := 0;
      centerOffset := 0;
      savedNames := ns;
      savedCurrent := current;
    }

    /** `Names.UpdateAnnotations`: the current name takes `a`; later
        names with the same string follow the propagation rule. */
    method UpdateAnnotations(a: Annotation, edge: int)
      requires Valid()
      modifies names
      ensures Valid()
      ensures names[..] == Updated(old(names[..]), currentName, a, edge, lookBack, gnt)
    {
      ghost var target := Updated(names[..], currentName, a, edge, lookBack, gnt);
      var cur := currentName;
      var was := names[cur].annotation;
      var name := names[cur].name;
      names[cur] := names[cur].(annotation := a);
      if Propagates(cur, a, edge, lookBack) {
        var j := cur + 1;
        while j < names.Length
          invariant cur + 1 <= j <= names.Length
          invariant forall k :: 0 <= k < j ==> names[k] == target[k]
          invariant forall k :: j <= k < names.Length ==> names[k] == old(names[k])
        {
          if names[j].name == name {
            var next := if was == NotAssigned || was == Doubtful then a else Reverted(names[j], gnt);
            names[j] := names[j].(annotation := next);
          }
          j := j + 1;
        }
      }
      assert names[..] == target;
    }

    /** `save`: the names and the cursor go to disk. */
    method Save()
      modifies this
      ensures savedNames == names[..] && savedCurrent == currentName
      ensures currentName == old(currentName) && lastReviewed == old(lastReviewed)
      ensures saveCount == old(saveCount) && centerOffset == old(centerOffset) && gnt == old(gnt)
    {
      savedNames := names[..];
      savedCurrent := currentName;
    }

    /** `renderNamesView`: count the render (saving every 30th), fix the
        centre offset for the pane height, and show the names around the
        cursor. */
    method RenderNamesView(maxY: nat) returns (s: NamesSlice)
      requires Valid()
      modifies this
      ensures Valid()
      ensures saveCount == Tick(old(saveCount))
      ensures old(saveCount) + 1 >= AutosaveEvery ==> savedNames == names[..] && savedCurrent == currentName
      ensures old(saveCount) + 1 < AutosaveEvery ==> savedNames == old(savedNames) && savedCurrent == old(savedCurrent)
      ensures centerOffset == CenterOffset(Window(maxY))
      ensures currentName == old(currentName) && lastReviewed == old(lastReviewed) && gnt == old(gnt)
      ensures s.left <= currentName < s.right <= names.Length
      ensures NameLineRow(s, currentName) == centerOffset + 1
    {
      saveCount := saveCount + 1;
      if saveCount >= AutosaveEvery {
        Save();
        saveCount := 0;
      }
      var w := Window(maxY);
      centerOffset := CenterOffset(w);
      s := NamesSliceOf(currentName, names.Length, w);
    }

    /** `renderTextView`: the text around the current name, scrolled so
        that its first line lands on the row of the name's line in the
        names pane. */
    method RenderTextView(maxY: nat) returns (v: TextWindow, color: int)
      requires Valid()
      ensures var o := names[currentName];
        && -1 <= v.left < o.offsetStart && o.offsetEnd < v.right <= |text|
        && v.before <= centerOffset + 1
        && (v.left >= 0 ==> v.before == centerOffset + 1)
        && v.padBefore + v.before == centerOffset + 1
        && v.after == Newlines(text[o.offsetEnd + 1 .. v.right])
      ensures color == Color(names[currentName].annotation)
    {
      var o := names[currentName];
      v := TextWindowOf(text, o.offsetStart, o.offsetEnd, centerOffset, maxY);
      color := Color(o.annotation);
    }

    /** `setKey`: give the current name a verdict, then redraw both panes.
        The furthest reviewed name is the propagation edge. */
    method SetKey(a: Annotation, maxY: nat) returns (r: Render)
      requires Valid()
      modifies this, names
      ensures Valid()
      ensures names[..] == Updated(old(names[..]), currentName, a, old(lastReviewed), lookBack, gnt)
      ensures currentName == old(currentName) && lastReviewed == old(lastReviewed) && gnt == old(gnt)
      ensures saveCount == Tick(old(saveCount))
      ensures old(saveCount) + 1 >= AutosaveEvery ==> savedNames == names[..] && savedCurrent == currentName
      ensures old(saveCount) + 1 < AutosaveEvery ==> savedNames == old(savedNames) && savedCurrent == old(savedCurrent)
      ensures centerOffset == CenterOffset(Window(maxY))
      ensures NameLineRow(r.slice, currentName) == r.view.padBefore + r.view.before
    {
      UpdateAnnotations(a, lastReviewed);
      var s := RenderNamesView(maxY);
      var v, c := RenderTextView(maxY);
      r := Render(s, v, c);
    }

    /** `listForward`: accept a name nobody has judged, move on (not from
        the last name or a Doubtful one), pass decided names in express
        mode, and push the furthest reviewed name forward. */
    method ListForward(maxY: nat) returns (r: Render)
      requires Valid()
      modifies this, names
      ensures Valid()
      ensures old(names[currentName].annotation) == NotAssigned ==>
        names[..] == Updated(old(names[..]), old(currentName), Accepted, old(lastReviewed), lookBack, gnt)
      ensures old(names[currentName].annotation) != NotAssigned ==> names[..] == old(names[..])
      ensures currentName == Forward(names[..], old(currentName), old(names[currentName].annotation), gnt.express)
      ensures lastReviewed == if currentName > old(lastReviewed) then currentName else old(lastReviewed)
      ensures gnt == old(gnt)
      ensures saveCount == if old(names[currentName].annotation) == NotAssigned then Tick(Tick(old(saveCount))) else Tick(old(saveCount))
      ensures centerOffset == CenterOffset(Window(maxY))
      ensures NameLineRow(r.slice, currentName) == r.view.padBefore + r.view.before
    {
      var cur := currentName;
      var was := names[cur].annotation;
      if was == NotAssigned {
        var _ := SetKey(Accepted, maxY);
      }
      MoveForward(was);
      var s := RenderNamesView(maxY);
      var v, c := RenderTextView(maxY);
      r := Render(s, v, c);
    }

    /** The cursor move of `listForward`, given the verdict the current
        name had before it was accepted. */
    method MoveForward(was: Annotation)
      requires Valid()
      modifies this
      ensures Valid()
      ensures currentName == Forward(names[..], old(currentName), was, gnt.express)
      ensures lastReviewed == if currentName > old(lastReviewed) then currentName else old(lastReviewed)
      ensures gnt == old(gnt) && saveCount == old(saveCount) && centerOffset == old(centerOffset)
      ensures savedNames == old(savedNames) && savedCurrent == old(savedCurrent)
    {
      var next := NextName(was);
      currentName := next;
      if currentName > lastReviewed {
        lastReviewed := currentName;
      }
    }

    /** The step of `listForward` and, in express mode, the skip over
        decided names. */
    method NextName(was: Annotation) returns (next: int)
      requires Valid()
      ensures next == Forward(names[..], currentName, was, gnt.express)
    {
      var step := if currentName == names.Length - 1 || was == Doubtful then 0 else 1;
      next := currentName + step;
      if gnt.express && step > 0 {
        next := ExpressTarget(next);
      }
    }

    /** The express-mode loop of `listForward`: from `from`, pass every
        name that is neither NotAssigned nor Doubtful, stopping at the
        last name. */
    method ExpressTarget(from: int) returns (k: int)
      requires Valid() && 0 < from < names.Length
      ensures k == if SkipDecided(names[..], from) > names.Length - 1 then names.Length - 1 else SkipDecided(names[..], from)
    {
      k := from;
      while k < names.Length && Decided(names[k])
        invariant from <= k <= names.Length
        invariant SkipDecided(names[..], k) == SkipDecided(names[..], from)
        decreases names.Length - k
      {
        k := k + 1;
      }
      if k > names.Length - 1 {
        k := names.Length - 1;
      }
    }

    /** `listBack`: one name back, unless already on the first; nothing
        else changes but the redraw. */
    method ListBack(maxY: nat) returns (r: Option<Render>)
      requires Valid()
      modifies this
      ensures Valid()
      ensures old(currentName) == 0 ==>
        && r.None? && currentName == 0 && saveCount == old(saveCount) && centerOffset == old(centerOffset)
        && savedNames == old(savedNames) && savedCurrent == old(savedCurrent)
      ensures old(currentName) > 0 ==>
        && r.Some? && currentName == old(currentName) - 1 && saveCount == Tick(old(saveCount))
        && centerOffset == CenterOffset(Window(maxY))
        && (old(saveCount) + 1 >= AutosaveEvery ==> savedNames == names[..] && savedCurrent == currentName)
        && (old(saveCount) + 1 < AutosaveEvery ==> savedNames == old(savedNames) && savedCurrent == old(savedCurrent))
      ensures lastReviewed == old(lastReviewed) && gnt == old(gnt)
      ensures r.Some? ==> NameLineRow(r.value.slice, currentName) == r.value.view.padBefore + r.value.view.before
    {
      if currentName == 0 {
        return None;
      }
      currentName := currentName - 1;
      var s := RenderNamesView(maxY);
      var v, c := RenderTextView(maxY);
      r := Some(Render(s, v, c));
    }

    /** `express` (F4): switch express mode. */
    method ToggleExpress()
      requires Valid()
      modifies this
      ensures Valid()
      ensures gnt == old(gnt).(express := !old(gnt).express)
      ensures currentName == old(currentName) && lastReviewed == old(lastReviewed) && saveCount == old(saveCount)
      ensures centerOffset == old(centerOffset) && savedNames == old(savedNames) && savedCurrent == old(savedCurrent)
    {
      gnt := gnt.(express := !gnt.express);
    }

    /** The loop of `renderStats`: the word states of names 0 to the
        furthest reviewed one. */
    method WordStates() returns (ws: map<string, WordState>)
      requires Valid()
      ensures ws == Aggregate(names[..lastReviewed + 1], gnt)
    {
      ws := map[];
      var i := 0;
      while i <= lastReviewed
        invariant 0 <= i <= lastReviewed + 1
        invariant ws == Aggregate(names[..i], gnt)
      {
        var o := names[i];
        assert names[..i + 1][..i] == names[..i];
        var w := if o.name in ws then ws[o.name] else NoFlags;
        ghost var w0 := w;
        match o.annotation {
          case NotName => w := w.(rejected := true);
          case Accepted => w := w.(accepted := true);
          case Uninomial => w := w.(modified := true);
          case Genus => w := w.(modified := true);
          case Species => w := w.(modified := true);
          case _ =>
        }
        if o.odds != 0.0 && o.odds < gnt.oddsHigh {
          w := w.(doubtful := true);
        }
        assert w == Mark(w0, o, gnt);
        ws := ws[o.name := w];
        i := i + 1;
      }
      assert names[..lastReviewed + 1] == names[..i];
    }

    /** `renderStats`: count the word states and format the statistics
        line. */
    method RenderStats(fixed2: real -> string) returns (ws: map<string, WordState>, stats: Stats, line: string)
      requires Valid()
      ensures ws == Aggregate(names[..lastReviewed + 1], gnt)
      ensures fresh(stats) && stats.Valid()
      ensures stats.acceptedCount == |Words(ws, AcceptedCounter)| && stats.rejectedCount == |Words(ws, RejectedCounter)|
      ensures stats.modifiedCount == |Words(ws, ModifiedCounter)| && stats.addedCount == |Words(ws, AddedCounter)|
      ensures stats.total == 0 ==> line == StatsLine("0.00", "0.00", "  0%", "  0%", "  0%", "  0%")
      ensures stats.total > 0 ==> Apportionment.Apportioned(Apportionment.RawRate, stats.Counts(), stats.total, stats.Percents())
      ensures stats.total > 0 ==> line == StatsLine(
        Fixed2(Precision(stats.acceptedCount, stats.rejectedCount, stats.modifiedCount), fixed2),
        Fixed2(Recall(stats.acceptedCount, stats.addedCount), fixed2),
        Percent3(stats.acceptedPercent), Percent3(stats.rejectedPercent),
        Percent3(stats.modifiedPercent), Percent3(stats.addedPercent))
    {
      ws := WordStates();
      stats, line := Tally(ws, fixed2);
    }
  }
}
