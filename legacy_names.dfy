/** The older annotation revision of names.go: annotations looked up in
    a table by a search loop, an extra "NotAssigned" alias, its own colour
    table (Doubtful is light grey) and the four display lines of a name. */
module LegacyNames {
  import opened Basics
  import opened Annotations

  /** The fields of a finder record that names.go reads; the annotation
      is still the serialised string. */
  datatype FinderName = FinderName(name: string, kind: string, odds: real, annotation: string)

  /** Finder output: the names and the `Meta.CurrentName` cursor. */
  datatype FinderOutput = FinderOutput(names: seq<FinderName>, currentName: int)

  /** First index of `s` in `table` at or after `from`. */
  function IndexOf(table: seq<string>, s: string, from: nat): (r: Option<nat>)
    requires from <= |table|
    ensures r.Some? ==> from <= r.value < |table| && table[r.value] == s
    ensures r.Some? ==> forall j :: from <= j < r.value ==> table[j] != s
    ensures r.None? ==> forall j :: from <= j < |table| ==> table[j] != s
    decreases |table| - from
  {
    if from == |table| then None
    else if table[from] == s then Some(from)
    else IndexOf(table, s, from + 1)
  }

  /** `annotationOfName`: the alias "NotAssigned", else the index of the
      string in the table, else an error. */
  function AnnotationOfName(s: string): (r: Result<Annotation>)
    ensures s == "NotAssigned" ==> r == Ok(NotAssigned)
    ensures s != "NotAssigned" ==> (r.Ok? <==> s in Names)
    ensures s != "NotAssigned" && r.Ok? ==> Names[Code(r.value)] == s
    ensures r.Err? ==> r.message == "annotation name " + s + " isn't supported"
  {
    if s == "NotAssigned" then Ok(NotAssigned)
    else
      match IndexOf(Names, s, 0)
      case Some(i) => Ok(OfCode(i))
      case None => Err("annotation name " + s + " isn't supported")
  }

  /** `name()` inverts the lookup on each of the seven table strings, and
      "" is NotAssigned. */
  lemma AnnotationOfNameRoundTrip(a: Annotation)
    ensures AnnotationOfName(String(a)) == Ok(a)
    ensures AnnotationOfName("") == Ok(NotAssigned)
  {
    assert String(a) == Names[Code(a)];
    assert String(a) != "NotAssigned";
    var r := AnnotationOfName(String(a));
    assert r.Ok? && Names[Code(r.value)] == Names[Code(a)];
    assert Code(r.value) == Code(a);
    assert OfCode(Code(a)) == a && OfCode(Code(r.value)) == r.value;
  }

  /** `color()` of this revision. */
  function LegacyColor(a: Annotation): (c: int)
    ensures c == 32 <==> a == Accepted
    ensures c == 31 <==> a == NotName
    ensures c == 37 <==> a == Doubtful
    ensures c == 35 <==> a in {Uninomial, Genus, Species}
    ensures c == 33 <==> a == NotAssigned
  {
    match a
    case Accepted => 32
    case NotName => 31
    case Doubtful => 37
    case Species => 35
    case Genus => 35
    case Uninomial => 35
    case NotAssigned => 33
  }

  /** `formatString()`: the "Annot:" line with this revision's colours. */
  function FormatString(a: Annotation): (line: string)
    ensures |line| == 21 + |String(a)|
    ensures line[..2] == [Esc] + "[" && line[2..4] == NatToString(LegacyColor(a))
    ensures line[4..17] == ";40;2mAnnot: "
    ensures line[17..] == String(a) + [Esc] + "[0m"
  {
    var color := NatToString(LegacyColor(a));
    assert |color| == 2;
    [Esc] + "[" + color + ";40;2mAnnot: " + String(a) + [Esc] + "[0m"
  }

  /** The annotation can be read back from this revision's line too: the
      two colour tables differ only in the two-digit code. */
  lemma FormatStringRoundTrip(a: Annotation)
    ensures AnnotationOfFormat(FormatString(a)) == Some(a)
  {
    var f := FormatString(a);
    assert f[17..|f| - 4] == String(a);
    NewAnnotationOfString(a);
  }

  /** `nameStrings`: the four lines that show one name in the names pane.
      The decimal logarithm of the odds is formatted by `logOdds` (Go's
      `%0.2f` of `math.Log10`). */
  function NameStrings(n: FinderName, current: bool, i: nat, total: nat, logOdds: real -> string)
    : (r: Result<seq<string>>)
    ensures r.Err? <==> AnnotationOfName(n.annotation).Err?
    ensures r.Err? ==> r.message == AnnotationOfName(n.annotation).message
    ensures r.Ok? ==> |r.value| == 4
    ensures r.Ok? ==> r.value[0] == "    " + NatToString(i + 1) + "/" + NatToString(total)
    ensures r.Ok? ==> r.value[1] == if n.odds != 0.0 then "Log Odds: " + logOdds(n.odds) else "Type: " + n.kind
    ensures r.Ok? ==> r.value[2] == "Name: " + (if current then [Esc] + "[43;30;1m" + n.name + [Esc] + "[0m" else n.name)
    ensures r.Ok? ==> r.value[3] == FormatString(AnnotationOfName(n.annotation).value)
  {
    var nameString := if current then [Esc] + "[43;30;1m" + n.name + [Esc] + "[0m" else n.name;
    var line0 := "    " + NatToString(i + 1) + "/" + NatToString(total);
    var line1 := if n.odds != 0.0 then "Log Odds: " + logOdds(n.odds) else "Type: " + n.kind;
    var line2 := "Name: " + nameString;
    match AnnotationOfName(n.annotation)
    case Err(msg) => Err(msg)
    case Ok(a) => Ok([line0, line1, line2, FormatString(a)])
  }

  /** `currentName`: the record under the cursor (Go panics when the
      cursor is out of range). */
  function CurrentName(d: FinderOutput): (n: FinderName)
    requires 0 <= d.currentName < |d.names|
    ensures n in d.names
  {
    d.names[d.currentName]
  }
}
