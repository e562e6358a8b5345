/** The width-35 expectation of private_test.go, replayed on `WrapOf`:
    the first three wrapped lines of a mixed English and Russian text. */
module WrapScenario {
  import opened TextPrep

  /** The input of the test. */
  function TestText(): string
  {
    "This is a text that has English " + "and Russian.\n" + "Например, мы вводим большое " +
    ("количество русских    знаков в  " +
     "Unicode and see if it works.\nIn case of very long words they " +
     "should-occupy-one-line-and-go-over-the-limit. " +
     "Lets say we have a CR \r\n " +
     "as well and the end does not have a new line........" +
     "....................")
  }

  /** The expected first 96 bytes: 73 runes. */
  function TestOutput(): string
  {
    "This is a text that has English " + "\n" + "and Russian.\n" + "Например, мы вводим большое"
  }

  /** `Feed` only ever appends to what was written. */
  lemma FeedOutGrows(st: WrapState, c: char, width: int)
    ensures st.out <= Feed(st, c, width).out
  {
  }

  /** Reading more input only appends to what was written. */
  lemma {:induction false} RunOutGrows(b: seq<char>, c: seq<char>, width: int)
    ensures Run(b, width).out <= Run(b + c, width).out
    decreases |c|
  {
    if c == [] {
      assert b + c == b;
    } else {
      var c', r := c[..|c| - 1], c[|c| - 1];
      assert b + c == (b + c') + [r];
      RunOutGrows(b, c', width);
      RunSnoc(b + c', r, width);
      FeedOutGrows(Run(b + c', width), r, width);
    }
  }

  /** One word and the separator after it, read with nothing held. */
  lemma WordStep(b: seq<char>, w: seq<char>, c: char, width: int)
    requires Run(b, width).word == []
    requires forall i :: 0 <= i < |w| ==> !IsSpace(w[i])
    requires IsSpace(c)
    ensures Run(b + w + [c], width) == Separate(Run(b, width).(word := w), c, width)
  {
    var st := Run(b, width);
    RunWord(b, w, width);
    assert st.word + w == w;
    assert Run(b + w, width) == st.(word := w);
    RunSnoc(b + w, c, width);
  }

  /** A word of at least one rune followed by one space. */
  predicate SpacedWord(s: seq<char>)
  {
    |s| >= 2 && s[|s| - 1] == ' ' && forall i :: 0 <= i < |s| - 1 ==> !IsSpace(s[i])
  }

  /** The pieces written one after another. */
  function Joined(ps: seq<seq<char>>): seq<char>
  {
    if ps == [] then [] else ps[0] + Joined(ps[1..])
  }

  /** A word that fits on the current line is written with the space
      after it, and the column moves past both. */
  lemma FitStep(b: seq<char>, out: seq<char>, line: int, s: seq<char>, width: int)
    requires Run(b, width) == WrapState(out, [], line)
    requires SpacedWord(s) && line + |s| <= width
    ensures Run(b + s, width) == WrapState(out + s, [], line + |s|)
  {
    var w := s[..|s| - 1];
    assert s == w + [' '];
    assert b + w + [' '] == b + s;
    assert out + [] + w + [' '] == out + s;
    assert forall i :: 0 <= i < |w| ==> !IsSpace(w[i]);
    WordStep(b, w, ' ', width);
  }

  /** Concatenation regrouped. */
  lemma Assoc(a: seq<char>, x: seq<char>, y: seq<char>)
    ensures a + x + y == a + (x + y)
  {
  }

  /** Words that all fit on the current line are copied unchanged. */
  lemma {:induction false} FitWords(b: seq<char>, out: seq<char>, line: int, ps: seq<seq<char>>, width: int)
    requires Run(b, width) == WrapState(out, [], line)
    requires forall k :: 0 <= k < |ps| ==> SpacedWord(ps[k])
    requires line + |Joined(ps)| <= width
    ensures Run(b + Joined(ps), width) == WrapState(out + Joined(ps), [], line + |Joined(ps)|)
    decreases |ps|
  {
    if ps == [] {
      assert b + Joined(ps) == b && out + Joined(ps) == out;
    } else {
      var s, rest := ps[0], Joined(ps[1..]);
      assert Joined(ps) == s + rest;
      FitStep(b, out, line, s, width);
      FitWords(b + s, out + s, line + |s|, ps[1..], width);
      Assoc(b, s, rest);
      Assoc(out, s, rest);
    }
  }

  /** Joining one more piece in front. */
  lemma JoinedCons(p: seq<char>, ps: seq<seq<char>>)
    ensures Joined([p] + ps) == p + Joined(ps)
  {
    assert ([p] + ps)[1..] == ps;
  }

  /** The words of the first line, joined. */
  lemma FirstPieces()
    ensures Joined(["This ", "is ", "a ", "text ", "that ", "has ", "English "])
      == "This " + ("is " + ("a " + ("text " + ("that " + ("has " + "English ")))))
  {
    var ps: seq<seq<char>> := ["English "];
    assert Joined(ps) == "English " by { assert ps[1..] == []; }
    JoinedCons("has ", ps);
    ps := ["has "] + ps;
    JoinedCons("that ", ps);
    ps := ["that "] + ps;
    JoinedCons("text ", ps);
    ps := ["text "] + ps;
    JoinedCons("a ", ps);
    ps := ["a "] + ps;
    JoinedCons("is ", ps);
    ps := ["is "] + ps;
    JoinedCons("This ", ps);
    ps := ["This "] + ps;
    assert ps == ["This ", "is ", "a ", "text ", "that ", "has ", "English "];
  }

  /** The first line of the test's text, word by word. */
  lemma FirstConcat()
    ensures "This " + ("is " + ("a " + ("text " + ("that " + ("has " + "English ")))))
      == "This is a text that has English "
  {
  }

  /** The first line of the test's text is those words. */
  lemma FirstWords()
    ensures Joined(["This ", "is ", "a ", "text ", "that ", "has ", "English "])
      == "This is a text that has English "
  {
    FirstPieces();
    FirstConcat();
  }

  /** The first seven words fit on the first line at width 35. */
  lemma FirstLine(b: seq<char>)
    requires b == "This is a text that has English "
    ensures Run(b, 35) == WrapState(b, [], 32)
  {
    var ps := ["This ", "is ", "a ", "text ", "that ", "has ", "English "];
    FirstWords();
    FitWords([], [], 0, ps, 35);
    assert [] + b == b;
  }

  /** A word that reaches the width is moved to a new line. */
  lemma BreakStep(b: seq<char>, out: seq<char>, line: int, s: seq<char>, width: int)
    requires Run(b, width) == WrapState(out, [], line)
    requires SpacedWord(s) && line + |s| - 1 >= width
    ensures Run(b + s, width) == WrapState(out + "\n" + s, [], |s|)
  {
    var w := s[..|s| - 1];
    assert s == w + [' '];
    assert b + w + [' '] == b + s;
    assert out + ['\n'] + w + [' '] == out + "\n" + s;
    assert forall i :: 0 <= i < |w| ==> !IsSpace(w[i]);
    WordStep(b, w, ' ', width);
  }

  /** A word that fits, ended by a newline, ends the line. */
  lemma LineEndStep(b: seq<char>, out: seq<char>, line: int, s: seq<char>, width: int)
    requires Run(b, width) == WrapState(out, [], line)
    requires |s| >= 2 && s[|s| - 1] == '\n' && forall i :: 0 <= i < |s| - 1 ==> !IsSpace(s[i])
    requires line + |s| <= width
    ensures Run(b + s, width) == WrapState(out + s, [], 0)
  {
    var w := s[..|s| - 1];
    assert s == w + ['\n'];
    assert b + w + ['\n'] == b + s;
    assert out + [] + w + ['\n'] == out + s;
    assert forall i :: 0 <= i < |w| ==> !IsSpace(w[i]);
    WordStep(b, w, '\n', width);
  }

  /** "and" no longer fits: a newline is inserted before it; the newline
      after "Russian." starts the third line. */
  lemma SecondLine(a: seq<char>, out: seq<char>)
    requires Run(a, 35) == WrapState(out, [], 32)
    ensures Run(a + "and Russian.\n", 35) == WrapState(out + "\n" + "and Russian.\n", [], 0)
  {
    BreakStep(a, out, 32, "and ", 35);
    LineEndStep(a + "and ", out + "\n" + "and ", 4, "Russian.\n", 35);
    assert "and " + "Russian.\n" == "and Russian.\n";
    Assoc(a, "and ", "Russian.\n");
    Assoc(out + "\n", "and ", "Russian.\n");
  }

  /** The words of the third line, joined. */
  lemma ThirdWords()
    ensures Joined(["Например, ", "мы ", "вводим ", "большое "]) == "Например, мы вводим большое "
  {
    var ps: seq<seq<char>> := ["большое "];
    assert Joined(ps) == "большое " by { assert ps[1..] == []; }
    JoinedCons("вводим ", ps);
    ps := ["вводим "] + ps;
    JoinedCons("мы ", ps);
    ps := ["мы "] + ps;
    JoinedCons("Например, ", ps);
    ps := ["Например, "] + ps;
    assert ps == ["Например, ", "мы ", "вводим ", "большое "];
    assert "Например, " + ("мы " + ("вводим " + "большое ")) == "Например, мы вводим большое ";
  }

  /** The four Russian words fit on the third line. */
  lemma ThirdLine(a: seq<char>, out: seq<char>)
    requires Run(a, 35) == WrapState(out, [], 0)
    ensures Run(a + "Например, мы вводим большое ", 35) == WrapState(out + "Например, мы вводим большое ", [], 28)
  {
    var ps := ["Например, ", "мы ", "вводим ", "большое "];
    ThirdWords();
    FitWords(a, out, 0, ps, 35);
  }

  /** The three lines the test expects, with the space after the last word. */
  lemma Head()
    ensures Run("This is a text that has English " + "and Russian.\n" + "Например, мы вводим большое ", 35).out
      == TestOutput() + " "
  {
    var l1, l2, l3 := "This is a text that has English ", "and Russian.\n", "Например, мы вводим большое ";
    FirstLine(l1);
    SecondLine(l1, l1);
    ThirdLine(l1 + l2, l1 + "\n" + l2);
    assert l3 == "Например, мы вводим большое" + " ";
    Assoc(l1 + "\n" + l2, "Например, мы вводим большое", " ");
  }

  /** `wrap(t, 35)` begins with the three lines the test expects. */
  lemma WrapWidth35()
    ensures |WrapOf(TestText(), 35)| >= 73
    ensures WrapOf(TestText(), 35)[..73] == TestOutput()
  {
    var h := "This is a text that has English " + "and Russian.\n" + "Например, мы вводим большое ";
    var t := TestText();
    var rest := t[|h|..];
    assert t == h + rest;
    Head();
    RunOutGrows(h, rest, 35);
    var o := TestOutput();
    assert |o| == 73;
    assert o <= Run(t, 35).out;
  }
}
