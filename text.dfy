/** Text preparation (text.go): the printable-rune filter, the greedy
    word wrap, the output directory and file paths, and the error
    collection of a `Text`. Texts are sequences of runes; the UTF-8
    decoding of the raw bytes is not part of this model. */
module TextPrep {
  import opened Basics

  /** `unicode.IsSpace`: the Unicode White_Space property. */
  predicate IsSpace(c: char)
  {
    || ('\t' <= c <= '\r') || c == ' ' || c == '\U{85}' || c == '\U{A0}'
    || c == '\U{1680}' || ('\U{2000}' <= c <= '\U{200A}')
    || c == '\U{2028}' || c == '\U{2029}' || c == '\U{202F}' || c == '\U{205F}' || c == '\U{3000}'
  }

  // ---------------------------------------------------------------------
  // printableBytes

  /** The runes `printableBytes` keeps: printable or white space, but
      neither carriage return nor vertical tab. `unicode.IsPrint` is
      supplied by the caller. */
  predicate Keep(c: char, isPrint: char -> bool)
  {
    (isPrint(c) || IsSpace(c)) && c != '\r' && c != '\U{B}'
  }

  function Printable(b: seq<char>, isPrint: char -> bool): (r: seq<char>)
    ensures |r| <= |b|
    ensures forall i :: 0 <= i < |r| ==> Keep(r[i], isPrint)
  {
    if b == [] then []
    else Printable(b[..|b| - 1], isPrint) + (if Keep(b[|b| - 1], isPrint) then [b[|b| - 1]] else [])
  }

  /** `printableBytes`: one pass over the runes, copying the kept ones. */
  method PrintableBytes(b: seq<char>, isPrint: char -> bool) returns (target: seq<char>)
    ensures target == Printable(b, isPrint)
  {
    target := [];
    var i := 0;
    while i < |b|
      invariant 0 <= i <= |b|
      invariant target == Printable(b[..i], isPrint)
    {
      var c := b[i];
      assert b[..i + 1][..i] == b[..i];
      if Keep(c, isPrint) {
        target := target + [c];
      }
      i := i + 1;
    }
    assert b[..i] == b;
  }

  /** A text made only of kept runes passes the filter unchanged. */
  lemma {:induction false} PrintableKeepsKept(b: seq<char>, isPrint: char -> bool)
    requires forall i :: 0 <= i < |b| ==> Keep(b[i], isPrint)
    ensures Printable(b, isPrint) == b
  {
    if b != [] {
      PrintableKeepsKept(b[..|b| - 1], isPrint);
      assert b[..|b| - 1] + [b[|b| - 1]] == b;
    }
  }

  /** Filtering twice changes nothing. */
  lemma PrintableIdempotent(b: seq<char>, isPrint: char -> bool)
    ensures Printable(Printable(b, isPrint), isPrint) == Printable(b, isPrint)
  {
    PrintableKeepsKept(Printable(b, isPrint), isPrint);
  }

  /** The filter keeps every kept rune, in order: the result is a
      subsequence of the input that drops exactly the other runes. */
  lemma {:induction false} PrintableAppend(b: seq<char>, c: seq<char>, isPrint: char -> bool)
    ensures Printable(b + c, isPrint) == Printable(b, isPrint) + Printable(c, isPrint)
    decreases |c|
  {
    if c == [] {
      assert b + c == b;
    } else {
      var init := c[..|c| - 1];
      assert (b + c)[..|b + c| - 1] == b + init;
      PrintableAppend(b, init, isPrint);
    }
  }

  // ---------------------------------------------------------------------
  // wrap

  /** What `wrap` has written so far, the word it is holding back, and
      the column it believes it is at. */
  datatype WrapState = WrapState(out: seq<char>, word: seq<char>, line: int)

  const Nul: char := '\U{0}'

  /** A separator (white space, or the rune 0 read at the end): break
      before the held word when it does not fit, then write the word and
      the separator. */
  function Separate(st: WrapState, c: char, width: int): (r: WrapState)
    ensures var brk := |st.word| > 0 && st.line + |st.word| >= width;
      r.out == st.out + (if brk then ['\n'] else []) + st.word + [c] && r.word == []
    ensures c == '\n' ==> r.line == 0
  {
    var brk := |st.word| > 0 && st.line + |st.word| >= width;
    var line1 := if |st.word| == 0 then st.line + 1 else if brk then 0 else st.line;
    var line2 := if c == '\n' then 0 else line1 + |st.word| + 1;
    WrapState(st.out + (if brk then ['\n'] else []) + st.word + [c], [], line2)
  }

  /** One rune of input: a separator or one more rune of the word. */
  function Feed(st: WrapState, c: char, width: int): WrapState
  {
    if IsSpace(c) then Separate(st, c, width) else st.(word := st.word + [c])
  }

  function Run(b: seq<char>, width: int): WrapState
  {
    if b == [] then WrapState([], [], 0) else Feed(Run(b[..|b| - 1], width), b[|b| - 1], width)
  }

  /** A width that is not positive counts as 5. */
  function EffectiveWidth(width: int): int
  {
    if width <= 0 then 5 else width
  }

  /** The wrapped text: every rune fed, then the end of input handled as
      a separator that writes the rune 0. */
  function WrapOf(b: seq<char>, width: int): (r: seq<char>)
    ensures |r| >= 1 && r[|r| - 1] == Nul
  {
    Separate(Run(b, EffectiveWidth(width)), Nul, EffectiveWidth(width)).out
  }

  /** `wrap`. */
  method Wrap(b: seq<char>, width: int) returns (target: seq<char>)
    ensures target == WrapOf(b, width)
  {
    var w := width;
    if w <= 0 {
      w := 5;
    }
    var word: seq<char> := [];
    var endReached := false;
    target := [];
    var lineCursor := 0;
    var wordCursor := 0;
    var i := 0;
    while !endReached
      invariant 0 <= i <= |b|
      invariant w == EffectiveWidth(width)
      invariant !endReached ==> Run(b[..i], w) == WrapState(target, word, lineCursor) && wordCursor == |word|
      invariant endReached ==> target == WrapOf(b, width)
      decreases |b| - i, if endReached then 0 else 1
    {
      var c := Nul;
      if i == |b| {
        endReached := true;
        assert b[..i] == b;
      } else {
        c := b[i];
        assert b[..i + 1][..i] == b[..i];
        i := i + 1;
      }
      if IsSpace(c) || endReached {
        target, lineCursor := WriteWord(target, word, lineCursor, c, w);
        word := [];
        wordCursor := 0;
      } else {
        word := word + [c];
        wordCursor := wordCursor + 1;
      }
    }
  }

  /** The separator branch of `wrap`: break the line if the held word
      does not fit, then write the word and the separator. */
  method WriteWord(target: seq<char>, word: seq<char>, lineCursor: int, c: char, w: int)
    returns (target': seq<char>, lineCursor': int)
    ensures WrapState(target', [], lineCursor') == Separate(WrapState(target, word, lineCursor), c, w)
  {
    var wordCursor := |word|;
    target', lineCursor' := target, lineCursor;
    if wordCursor == 0 {
      lineCursor' := lineCursor' + 1;
    } else if lineCursor' + wordCursor >= w {
      target' := target' + ['\n'];
      lineCursor' := 0;
    }
    if c == '\n' {
      lineCursor' := 0;
    } else {
      lineCursor' := lineCursor' + wordCursor + 1;
    }
    target' := target' + word;
    target' := target' + [c];
  }

  /** `out` is `inp` with some newline runes inserted. */
  predicate Inserted(out: seq<char>, inp: seq<char>)
    decreases |out|
  {
    if out == [] then inp == []
    else
      (inp != [] && out[|out| - 1] == inp[|inp| - 1] && Inserted(out[..|out| - 1], inp[..|inp| - 1]))
      || (out[|out| - 1] == '\n' && Inserted(out[..|out| - 1], inp))
  }

  lemma {:induction false} InsertedAppend(out: seq<char>, inp: seq<char>, s: seq<char>)
    requires Inserted(out, inp)
    ensures Inserted(out + s, inp + s)
    decreases |s|
  {
    if s != [] {
      var init := s[..|s| - 1];
      InsertedAppend(out, inp, init);
      assert (out + s)[..|out + s| - 1] == out + init;
      assert (inp + s)[..|inp + s| - 1] == inp + init;
    } else {
      assert out + s == out && inp + s == inp;
    }
  }

  lemma InsertedNewline(out: seq<char>, inp: seq<char>)
    requires Inserted(out, inp)
    ensures Inserted(out + ['\n'], inp)
  {
    assert (out + ['\n'])[..|out|] == out;
  }

  /** A separator writes the held word and itself, after an optional
      break: newlines inserted into the input read so far. */
  lemma SeparateInserts(st: WrapState, done: seq<char>, c: char, width: int)
    requires Inserted(st.out, done)
    ensures Inserted(Separate(st, c, width).out, done + st.word + [c])
  {
    var brk := |st.word| > 0 && st.line + |st.word| >= width;
    var o1 := st.out + (if brk then ['\n'] else []);
    if brk {
      InsertedNewline(st.out, done);
    } else {
      assert o1 == st.out;
    }
    InsertedAppend(o1, done, st.word + [c]);
    assert done + (st.word + [c]) == done + st.word + [c];
    assert o1 + (st.word + [c]) == Separate(st, c, width).out;
  }

  /** What a run over `b` holds back and what it has written: the held
      word ends the input, and the written text is the rest of the input
      with newlines inserted. */
  predicate Holds(b: seq<char>, st: WrapState)
  {
    |st.word| <= |b| && st.word == b[|b| - |st.word|..] && Inserted(st.out, b[..|b| - |st.word|])
  }

  /** A separator empties the held word into the written text. */
  lemma SeparateHolds(init: seq<char>, st: WrapState, c: char, width: int)
    requires Holds(init, st)
    ensures Holds(init + [c], Separate(st, c, width))
  {
    var b := init + [c];
    var done := init[..|init| - |st.word|];
    assert init == done + st.word;
    assert b == done + st.word + [c];
    SeparateInserts(st, done, c, width);
    assert b[..|b|] == b;
  }

  /** Any other rune joins the held word. */
  lemma WordHolds(init: seq<char>, st: WrapState, c: char)
    requires Holds(init, st)
    ensures Holds(init + [c], st.(word := st.word + [c]))
  {
    var b := init + [c];
    var done := init[..|init| - |st.word|];
    assert init == done + st.word;
    assert b == done + (st.word + [c]);
    assert b[..|b| - |st.word + [c]|] == done;
  }

  lemma FeedHolds(init: seq<char>, st: WrapState, c: char, width: int)
    requires Holds(init, st)
    ensures Holds(init + [c], Feed(st, c, width))
  {
    if IsSpace(c) {
      SeparateHolds(init, st, c, width);
    } else {
      WordHolds(init, st, c);
    }
  }

  /** Held word and written text together are the input read so far with
      newlines inserted. */
  lemma {:induction false} RunInserts(b: seq<char>, width: int)
    ensures Holds(b, Run(b, width))
  {
    if b != [] {
      var init := b[..|b| - 1];
      RunInserts(init, width);
      FeedHolds(init, Run(init, width), b[|b| - 1], width);
      assert init + [b[|b| - 1]] == b;
    }
  }

  /** The wrapped text is the input followed by the rune 0, with newline
      runes inserted and nothing else changed. */
  lemma WrapOnlyInsertsNewlines(b: seq<char>, width: int)
    ensures Inserted(WrapOf(b, width), b + [Nul])
  {
    var w := EffectiveWidth(width);
    RunInserts(b, w);
    var st := Run(b, w);
    var k := |b| - |st.word|;
    var done := b[..k];
    assert b == done + st.word;
    SeparateInserts(st, done, Nul, w);
  }

  /** A non-positive width wraps like width 5. */
  lemma WrapDefaultWidth(b: seq<char>, width: int)
    requires width <= 0
    ensures WrapOf(b, width) == WrapOf(b, 5)
  {
  }

  /** Feeding one more rune. */
  lemma RunSnoc(b: seq<char>, c: char, width: int)
    ensures Run(b + [c], width) == Feed(Run(b, width), c, width)
  {
    assert (b + [c])[..|b|] == b;
  }

  /** A rune that is not white space joins the held word. */
  lemma FeedWordRune(st: WrapState, c: char, width: int)
    requires !IsSpace(c)
    ensures Feed(st, c, width) == st.(word := st.word + [c])
  {
  }

  /** Runes that are not white space only lengthen the held word. */
  lemma {:induction false} RunWord(b: seq<char>, w: seq<char>, width: int)
    requires forall i :: 0 <= i < |w| ==> !IsSpace(w[i])
    ensures Run(b + w, width) == Run(b, width).(word := Run(b, width).word + w)
  {
    if w == [] {
      assert b + w == b;
    } else {
      var w', c := w[..|w| - 1], w[|w| - 1];
      assert w == w' + [c];
      assert b + w == (b + w') + [c];
      RunWord(b, w', width);
      var st := Run(b + w', width);
      RunSnoc(b + w', c, width);
      FeedWordRune(st, c, width);
      assert st.word + [c] == Run(b, width).word + w;
    }
  }

  /** A word, a separator and a second word: the state `Run` reaches. */
  lemma RunTwoWords(w1: seq<char>, c: char, w2: seq<char>, width: int)
    requires forall i :: 0 <= i < |w1| ==> !IsSpace(w1[i])
    requires forall i :: 0 <= i < |w2| ==> !IsSpace(w2[i])
    requires IsSpace(c)
    ensures Run(w1 + [c] + w2, width) == Separate(WrapState([], w1, 0), c, width).(word := w2)
  {
    assert [] + w1 == w1;
    RunWord([], w1, width);
    var st := Run(w1, width);
    assert st == WrapState([], w1, 0);
    RunSnoc(w1, c, width);
    assert Run(w1 + [c], width) == Separate(st, c, width);
    RunWord(w1 + [c], w2, width);
  }

  /** Words are never split: "ab cd" at width 3 keeps "cd" whole on a new
      line and leaves the space that ended the first line in place. */
  lemma WrapExample()
    ensures WrapOf("ab cd", 3) == "ab \ncd" + [Nul]
  {
    RunTwoWords("ab", ' ', "cd", 3);
    assert "ab cd" == "ab" + [' '] + "cd";
  }

  /** A word longer than the width runs past it on its own line. */
  lemma WrapLongWord()
    ensures WrapOf("a bcd", 2) == "a \nbcd" + [Nul]
  {
    RunTwoWords("a", ' ', "bcd", 2);
    assert "a bcd" == "a" + [' '] + "bcd";
  }

  // ---------------------------------------------------------------------
  // Paths

  /** `filepath.Split`: everything up to and including the last '/', and
      the rest. */
  function SplitPath(path: string): (r: (string, string))
    ensures r.0 + r.1 == path
    ensures '/' !in r.1
    ensures r.0 != [] ==> r.0[|r.0| - 1] == '/'
    decreases |path|
  {
    if path == [] then ("", "")
    else if path[|path| - 1] == '/' then (path, "")
    else
      var (d, f) := SplitPath(path[..|path| - 1]);
      (d, f + [path[|path| - 1]])
  }

  /** `filepath.Join` of two elements, without the lexical clean-up of
      `filepath.Clean`. */
  function JoinPath(dir: string, name: string): string
  {
    if dir == [] then name
    else if dir[|dir| - 1] == '/' then dir + name
    else dir + "/" + name
  }

  /** `preparePath`: the directory the curator writes its files to. The
      split and the join cancel out: a given path gets "_gntagger"
      appended. */
  function PreparePath(path: string): (r: string)
    ensures path == "" ==> r == "./gntagger_input"
    ensures path != "" ==> r == path + "_gntagger"
  {
    if path == "" then "./gntagger_input"
    else
      var (d, f) := SplitPath(path);
      assert d + f == path;
      assert d + (f + "_gntagger") == path + "_gntagger";
      JoinPath(d, f + "_gntagger")
  }

  /** Splitting a directory (ending in '/') followed by a bare file name
      gives back the two. */
  lemma {:induction false} SplitPathOf(dir: string, file: string)
    requires dir == [] || dir[|dir| - 1] == '/'
    requires '/' !in file
    ensures SplitPath(dir + file) == (dir, file)
    decreases |file|
  {
    if file == [] {
      assert dir + file == dir;
      if dir != [] {
        assert SplitPath(dir) == (dir, "");
      }
    } else {
      var init := file[..|file| - 1];
      assert (dir + file)[..|dir + file| - 1] == dir + init;
      SplitPathOf(dir, init);
      assert init + [file[|file| - 1]] == file;
    }
  }

  /** A file directly under a directory gets its own output directory
      next to it, named after the file. */
  lemma PreparePathExample()
    ensures PreparePath("testdata/" + "seashells_book.txt") == "testdata/" + "seashells_book.txt" + "_gntagger"
  {
    var f := "seashells_book.txt";
    assert forall i :: 0 <= i < |f| ==> f[i] != '/';
    SplitPathOf("testdata/", f);
  }

  // ---------------------------------------------------------------------
  // The Text record

  /** The three files the curator writes. */
  datatype FileType = InputFile | NamesFile | MetaFile

  /** The file table `NewText` installs. */
  const FileTable: map<FileType, string> := map[InputFile := "input.txt", NamesFile := "names.json", MetaFile := "meta.json"]

  /** Checksum of the text, curator version, time of the last save. */
  datatype TextMeta = TextMeta(checksum: string, version: string, timestamp: string)

  class Text {
    const raw: seq<char>
    const path: string
    const files: map<FileType, string>
    const meta: TextMeta
    var processed: seq<char>
    /** Errors collected for display on exit, keyed by the digest of
        their message. */
    var errors: map<string, string>

    /** `NewText`: the output directory, the checksum and timestamp
        (computed by the caller: SHA-1 and the clock are not part of this
        model) and the file table. */
    constructor (data: seq<char>, inputPath: string, version: string, checksum: string, timestamp: string)
      ensures raw == data && path == PreparePath(inputPath)
      ensures meta == TextMeta(checksum, version, timestamp)
      ensures files == FileTable && errors == map[] && processed == []
    {
      raw := data;
      path := PreparePath(inputPath);
      meta := TextMeta(checksum, version, timestamp);
      files := FileTable;
      processed := [];
      errors := map[];
    }

    /** `FilePath`: the file of the given type inside the output
        directory. */
    function FilePath(f: FileType): (r: string)
      requires f in files
      ensures path <= r && |r| >= |files[f]| && r[|r| - |files[f]|..] == files[f]
      ensures |r| <= |path| + 1 + |files[f]|
      ensures path != "" ==> |r| > |files[f]| && r[|r| - |files[f]| - 1] == '/'
    {
      JoinPath(path, files[f])
    }

    /** `Process`: filter, then wrap at the terminal width (100 on
        Windows). */
    method Process(width: int, onWindows: bool, isPrint: char -> bool)
      modifies this
      ensures processed == WrapOf(Printable(raw, isPrint), if onWindows then 100 else width)
      ensures errors == old(errors)
    {
      var w := if onWindows then 100 else width;
      var printable := PrintableBytes(raw, isPrint);
      processed := Wrap(printable, w);
    }

    /** `AddError`: keep the first error of each message digest. */
    method AddError(message: string, digest: string -> string)
      modifies this
      ensures digest(message) in old(errors) ==> errors == old(errors)
      ensures digest(message) !in old(errors) ==> errors == old(errors)[digest(message) := message]
      ensures processed == old(processed)
    {
      var hash := digest(message);
      if hash !in errors {
        errors := errors[hash := message];
      }
    }

    /** `Errors`: one entry per stored error, in map order. */
    method Errors() returns (res: seq<string>)
      ensures |res| == |errors|
      ensures forall m :: m in res <==> m in errors.Values
    {
      res := [];
      var rest := errors.Keys;
      ghost var seen: set<string> := {};
      while rest != {}
        invariant rest !! seen && rest + seen == errors.Keys
        invariant |res| == |seen|
        invariant forall m :: m in res <==> exists k :: k in seen && errors[k] == m
        decreases rest
      {
        var k :| k in rest;
        res := res + [errors[k]];
        rest := rest - {k};
        seen := seen + {k};
      }
    }
  }

  /** The errors a run of `AddError` calls keeps. */
  function Collect(errs: map<string, string>, messages: seq<string>, digest: string -> string): map<string, string>
  {
    if messages == [] then errs
    else
      var before := Collect(errs, messages[..|messages| - 1], digest);
      var m := messages[|messages| - 1];
      if digest(m) in before then before else before[digest(m) := m]
  }

  /** With a digest that tells messages apart, the collection holds each
      distinct message exactly once. */
  lemma {:induction false} CollectDistinct(messages: seq<string>, digest: string -> string)
    requires forall a, b :: digest(a) == digest(b) ==> a == b
    ensures var errs := Collect(map[], messages, digest);
      && (forall k :: k in errs ==> digest(errs[k]) == k)
      && (forall m :: m in errs.Values <==> m in messages)
  {
    if messages != [] {
      var init := messages[..|messages| - 1];
      var m := messages[|messages| - 1];
      CollectDistinct(init, digest);
      var before := Collect(map[], init, digest);
      assert forall x :: x in messages <==> x in init || x == m;
      if digest(m) in before {
        assert before[digest(m)] == m;
        assert m in before.Values;
      } else {
        var after := before[digest(m) := m];
        forall x | x in before.Values
          ensures x in after.Values
        {
          var k :| k in before && before[k] == x;
          assert after[k] == x;
        }
        assert after[digest(m)] == m;
      }
    }
  }
}
