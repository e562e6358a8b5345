/** The window arithmetic of termui/gui.go: which names the names pane
    shows (`renderNamesView`) and which part of the text the text pane
    shows (`renderTextView`), both centred on the current name through one
    shared offset. */
module Viewport {
  import opened Basics

  /** `namesSliceWindow = (maxY - 2) / 4 / 2`: how many 4-line name blocks
      fit above (and below) the current one; Go's division truncates. */
  function Window(maxY: nat): (w: nat)
    ensures maxY < 10 ==> w == 0
    ensures maxY >= 2 ==> w == (maxY - 2) / 4 / 2
  {
    var q := GoDiv(maxY - 2, 4);
    assert q >= 0;
    GoDiv(q, 2)
  }

  /** `nameViewCenterOffset = (namesSliceWindow + 1) * 4 - 2`. */
  function CenterOffset(w: nat): nat
  {
    (w + 1) * 4 - 2
  }

  /** The names pane: names [left, right) are drawn after one blank line
      and `padBlocks` blank 4-line blocks. */
  datatype NamesSlice = NamesSlice(left: nat, right: nat, padBlocks: nat)

  /** Row of the "Name:" line (the third of each block) of the name at
      index `i`. */
  function NameLineRow(s: NamesSlice, i: int): int
  {
    1 + 4 * s.padBlocks + 4 * (i - s.left) + 2
  }

  /** `renderNamesView`'s slice bounds and padding. */
  function NamesSliceOf(cur: nat, total: nat, w: nat): (s: NamesSlice)
    requires cur < total
    ensures s.left <= cur < s.right <= total
    ensures s.right - s.left <= 2 * w + 1
    ensures w <= cur && cur + w < total ==> s.right - s.left == 2 * w + 1
    ensures NameLineRow(s, cur) == CenterOffset(w) + 1
  {
    var left := if cur - w < 0 then 0 else cur - w;
    var right := if cur + w + 1 > total then total else cur + w + 1;
    var pad := if w - cur > 0 then w - cur else 0;
    NamesSlice(left, right, pad)
  }

  /** Number of newline characters in `s`. */
  function Newlines(s: seq<char>): nat
  {
    if s == [] then 0 else Newlines(s[..|s| - 1]) + (if s[|s| - 1] == '\n' then 1 else 0)
  }

  lemma NewlinesBounded(s: seq<char>)
    ensures Newlines(s) <= |s|
  {
  }

  /** Counting one more character at the front. */
  lemma {:induction false} NewlinesCons(c: char, s: seq<char>)
    ensures Newlines([c] + s) == Newlines(s) + (if c == '\n' then 1 else 0)
  {
    if s != [] {
      assert ([c] + s)[..|[c] + s| - 1] == [c] + s[..|s| - 1];
      NewlinesCons(c, s[..|s| - 1]);
    }
  }

  /** The text pane: `text[left+1 : right]` is drawn after `padBefore`
      blank lines, with the name's span highlighted in `color`; `before`
      and `after` are the newlines the two scans counted. */
  datatype TextWindow = TextWindow(left: int, right: int, before: nat, after: nat, padBefore: nat, padAfter: nat)

  /** `renderTextView`'s two scans: backward from just before the name
      until the start of the text or more than `centerOffset` newlines,
      forward from just after the name until one character before the end
      of the text or `maxY/2 - 1` newlines. */
  method TextWindowOf(text: seq<char>, start: int, end: int, centerOffset: nat, maxY: nat)
    returns (v: TextWindow)
    requires 0 <= start <= end < |text|
    ensures -1 <= v.left < start && end < v.right <= |text|
    ensures v.before == Newlines(text[v.left + 1 .. start]) <= centerOffset + 1
    ensures v.left >= 0 ==> v.before == centerOffset + 1 && text[v.left + 1] == '\n'
    ensures v.padBefore + v.before == centerOffset + 1
    ensures v.after == Newlines(text[end + 1 .. v.right])
    ensures v.after <= if maxY / 2 - 1 > 0 then maxY / 2 - 1 else 0
    ensures v.right < |text| - 1 ==> v.after == if maxY / 2 - 1 > 0 then maxY / 2 - 1 else 0
    ensures v.padAfter == if v.after - centerOffset + 2 > 0 then v.after - centerOffset + 2 else 0
  {
    var cursorLeft, before := ScanBack(text, start, centerOffset);
    var cursorRight, after := ScanForward(text, end, maxY);
    var padBefore := centerOffset + 1 - before;
    var padAfter := if after - centerOffset + 2 > 0 then after - centerOffset + 2 else 0;
    v := TextWindow(cursorLeft, cursorRight, before, after, padBefore, padAfter);
  }

  /** The backward scan of `renderTextView`. */
  method ScanBack(text: seq<char>, start: int, centerOffset: nat) returns (cursorLeft: int, before: nat)
    requires 0 <= start < |text|
    ensures -1 <= cursorLeft < start
    ensures before == Newlines(text[cursorLeft + 1 .. start]) <= centerOffset + 1
    ensures cursorLeft >= 0 ==> before == centerOffset + 1 && text[cursorLeft + 1] == '\n'
  {
    cursorLeft := start - 1;
    before := 0;
    while cursorLeft >= 0 && before <= centerOffset
      invariant -1 <= cursorLeft < start
      invariant before == Newlines(text[cursorLeft + 1 .. start]) <= centerOffset + 1
      invariant cursorLeft + 1 < start && before == centerOffset + 1 ==> text[cursorLeft + 1] == '\n'
      decreases cursorLeft
    {
      NewlinesCons(text[cursorLeft], text[cursorLeft + 1 .. start]);
      assert text[cursorLeft .. start] == [text[cursorLeft]] + text[cursorLeft + 1 .. start];
      if text[cursorLeft] == '\n' {
        before := before + 1;
      }
      cursorLeft := cursorLeft - 1;
    }
  }

  /** The forward scan of `renderTextView`. */
  method ScanForward(text: seq<char>, end: int, maxY: nat) returns (cursorRight: int, after: nat)
    requires 0 <= end < |text|
    ensures end < cursorRight <= |text|
    ensures after == Newlines(text[end + 1 .. cursorRight])
    ensures after <= if maxY / 2 - 1 > 0 then maxY / 2 - 1 else 0
    ensures cursorRight < |text| - 1 ==> after == if maxY / 2 - 1 > 0 then maxY / 2 - 1 else 0
  {
    after := 0;
    cursorRight := end + 1;
    while cursorRight < |text| - 1 && after < maxY / 2 - 1
      invariant end + 1 <= cursorRight <= |text|
      invariant after == Newlines(text[end + 1 .. cursorRight])
      invariant after <= if maxY / 2 - 1 > 0 then maxY / 2 - 1 else 0
      decreases |text| - cursorRight
    {
      assert text[end + 1 .. cursorRight + 1][..cursorRight - end - 1] == text[end + 1 .. cursorRight];
      if text[cursorRight] == '\n' {
        after := after + 1;
      }
      cursorRight := cursorRight + 1;
    }
  }
}
