/** The closed set of curation verdicts of annotation/annotation.go: the
    enum, its string table, parsing, the terminal colour table, the
    formatted "Annot:" line and the membership test. */
module Annotations {
  import opened Basics

  /** The seven verdicts, declared in the order of their integer codes. */
  datatype Annotation = NotAssigned | NotName | Accepted | Uninomial | Genus | Species | Doubtful

  /** The integer codes Go gives the enum (`iota`); `String` is only
      defined on them. */
  type AnnotationCode = i: int | 0 <= i < 7

  function Code(a: Annotation): AnnotationCode
  {
    match a
    case NotAssigned => 0
    case NotName => 1
    case Accepted => 2
    case Uninomial => 3
    case Genus => 4
    case Species => 5
    case Doubtful => 6
  }

  function OfCode(i: AnnotationCode): (a: Annotation)
    ensures Code(a) == i
  {
    [NotAssigned, NotName, Accepted, Uninomial, Genus, Species, Doubtful][i]
  }

  /** The serialised names; the empty string stands for NotAssigned. */
  const Names: seq<string> := ["", "NotName", "Accepted", "Uninomial", "Genus", "Species", "Doubtful"]

  /** `names[a]`. */
  function String(a: Annotation): (r: string)
    ensures r in Names
    ensures r == "" <==> a == NotAssigned
  {
    Names[Code(a)]
  }

  /** `namesMap`: what the start-up loop over the table builds. */
  function NamesMap(): (m: map<string, Annotation>)
    ensures forall i: AnnotationCode :: Names[i] in m && m[Names[i]] == OfCode(i)
    ensures forall s :: s in m ==> s in Names
  {
    map[Names[0] := OfCode(0), Names[1] := OfCode(1), Names[2] := OfCode(2), Names[3] := OfCode(3),
        Names[4] := OfCode(4), Names[5] := OfCode(5), Names[6] := OfCode(6)]
  }

  /** Parses a serialised annotation; Go answers -1 and an error for an
      unknown string. */
  function NewAnnotation(s: string): (r: Result<Annotation>)
    ensures r.Ok? <==> s in Names
    ensures r.Ok? ==> String(r.value) == s
    ensures r.Err? ==> r.message == "Annotation name '" + s + "' does not exist."
  {
    var m := NamesMap();
    if s in m then Ok(m[s]) else Err("Annotation name '" + s + "' does not exist.")
  }

  /** The integer Go returns beside the error: the code, or -1. */
  function ReturnedCode(r: Result<Annotation>): int
  {
    if r.Ok? then Code(r.value) else -1
  }

  /** Every annotation survives printing and parsing. */
  lemma NewAnnotationOfString(a: Annotation)
    ensures NewAnnotation(String(a)) == Ok(a)
  {
    assert String(a) == Names[Code(a)];
    assert OfCode(Code(a)) == a;
  }

  /** Parsing then printing gives back the accepted string. */
  lemma StringOfNewAnnotation(s: string)
    requires NewAnnotation(s).Ok?
    ensures String(NewAnnotation(s).value) == s
  {
  }

  /** The empty string is NotAssigned; the constant's own name is not a
      serialised value; anything else is refused with code -1. */
  lemma NewAnnotationEdgeCases(s: string)
    ensures NewAnnotation("") == Ok(NotAssigned)
    ensures NewAnnotation("NotAssigned").Err?
    ensures s !in Names ==> ReturnedCode(NewAnnotation(s)) == -1
  {
    NewAnnotationOfString(NotAssigned);
  }

  /** Terminal colour of an annotation (ANSI foreground code). */
  function Color(a: Annotation): (c: int)
    ensures c == 32 <==> a == Accepted
    ensures c == 31 <==> a == NotName
    ensures c == 34 <==> a == Doubtful
    ensures c == 35 <==> a in {Uninomial, Genus, Species}
    ensures c == 33 <==> a == NotAssigned
  {
    match a
    case Accepted => 32
    case NotName => 31
    case Doubtful => 34
    case Species => 35
    case Genus => 35
    case Uninomial => 35
    case NotAssigned => 33
  }

  const Esc: char := '\U{1B}'

  /** The "Annot:" line drawn under every name. */
  function Format(a: Annotation): (r: string)
    ensures |r| == 21 + |String(a)|
    ensures r[..2] == [Esc, '['] && r[4..17] == ";40;2mAnnot: "
    ensures DecimalValue(r[2..4]) == Color(a)
    ensures r[17..|r| - 4] == String(a) && r[|r| - 4..] == [Esc] + "[0m"
  {
    var d := NatToString(Color(a));
    NatToStringValue(Color(a));
    var pre := [Esc] + "[" + d + ";40;2mAnnot: ";
    var r := pre + String(a) + [Esc] + "[0m";
    assert |pre| == 17 && pre[2..4] == d;
    assert r == pre + (String(a) + ([Esc] + "[0m"));
    r
  }

  /** Reads the annotation back from an "Annot:" line: the text between
      the 17-character prefix and the 4-character reset. */
  function AnnotationOfFormat(line: string): Option<Annotation>
  {
    if |line| < 21 then None
    else
      match NewAnnotation(line[17..|line| - 4])
      case Ok(a) => Some(a)
      case Err(_) => None
  }

  /** The formatted line determines the annotation it was made from. */
  lemma FormatRoundTrip(a: Annotation)
    ensures AnnotationOfFormat(Format(a)) == Some(a)
  {
    var f := Format(a);
    assert |NatToString(Color(a))| == 2;
    assert f[17..|f| - 4] == String(a);
    NewAnnotationOfString(a);
  }

  /** `a.In(list...)`: a linear search with early return. */
  function In(a: Annotation, list: seq<Annotation>): (r: bool)
    ensures r <==> a in list
  {
    if list == [] then false
    else if a == list[0] then true
    else In(a, list[1..])
  }
}
