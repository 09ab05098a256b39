/** The text chunker: sentences, overlap tails and greedy packing. Strings are sequences of
    characters. */
module Chunker {
  import opened Bounds
  import opened Text

  const CHUNK_TARGET_TOKENS := 384
  const CHUNK_OVERLAP_TOKENS := 64

  /** About four characters to a token, rounded up, and at least one. */
  function EstimateTokens(text: string): (n: int)
    ensures n >= 1
  {
    Max(1, (|text| + 3) / 4)
  }

  /** The least number of tokens, at least one, that has room for four characters each. */
  lemma TokensHold(text: string)
    ensures var n := EstimateTokens(text); |text| <= 4 * n && (n == 1 || 4 * (n - 1) < |text|)
  {
  }

  // ---- Sentences ---------------------------------------------------------

  /** `\r\n` becomes `\n`. */
  function UnixLines(text: string): string {
    if |text| >= 2 && text[0] == '\r' && text[1] == '\n' then "\n" + UnixLines(text[2..])
    else if text == [] then []
    else [text[0]] + UnixLines(text[1..])
  }

  predicate EndsSentence(c: char) { c == '.' || c == '!' || c == '?' }

  /** How far a run of characters with the property goes on from `i`. */
  function SpacesEnd(text: string, i: nat): (e: nat)
    requires i <= |text|
    ensures i <= e <= |text| && AllSpace(text[i..e])
    ensures e == |text| || !IsSpace(text[e])
    decreases |text| - i
  {
    if i == |text| || !IsSpace(text[i]) then i
    else
      var e := SpacesEnd(text, i + 1);
      assert text[i..e] == [text[i]] + text[i + 1..e];
      e
  }

  function NewlinesEnd(text: string, i: nat): (e: nat)
    requires i <= |text|
    ensures i <= e <= |text| && (forall k | i <= k < e :: text[k] == '\n')
    ensures e == |text| || text[e] != '\n'
    decreases |text| - i
  {
    if i == |text| || text[i] != '\n' then i else NewlinesEnd(text, i + 1)
  }

  /** Where a separator that starts at `i` ends, or `i` when none starts there: white
      space after the end of a sentence, or a run of two or more newlines. */
  function SeparatorEnd(text: string, i: nat): (e: nat)
    requires i <= |text|
    ensures i <= e <= |text| && AllSpace(text[i..e])
  {
    if 0 < i < |text| && EndsSentence(text[i - 1]) && IsSpace(text[i]) then SpacesEnd(text, i)
    else if i + 1 < |text| && text[i] == '\n' && text[i + 1] == '\n' then NewlinesEnd(text, i)
    else i
  }

  predicate StartsSeparator(text: string, i: nat)
    requires i <= |text|
  {
    SeparatorEnd(text, i) > i
  }

  /** The pieces between separators, from `start` on, looking for the next at `i`. */
  function Pieces(text: string, start: nat, i: nat): (ps: seq<string>)
    requires start <= i <= |text|
    ensures ps != []
    decreases |text| - i
  {
    if i == |text| then [text[start..]]
    else if StartsSeparator(text, i) then
      var e := SeparatorEnd(text, i);
      [text[start..i]] + Pieces(text, e, e)
    else Pieces(text, start, i + 1)
  }

  function TrimAll(ps: seq<string>): seq<string> {
    if ps == [] then []
    else (if Trim(ps[0]) == "" then [] else [Trim(ps[0])]) + TrimAll(ps[1..])
  }

  function SplitSentences(text: string): seq<string> {
    var lines := UnixLines(text);
    TrimAll(Pieces(lines, 0, 0))
  }

  function Flatten(ps: seq<string>): string {
    if ps == [] then [] else ps[0] + Flatten(ps[1..])
  }

  lemma {:induction false} UnixLinesInk(text: string)
    ensures Ink(UnixLines(text)) == Ink(text)
  {
    hide IsSpace;
    if |text| >= 2 && text[0] == '\r' && text[1] == '\n' {
      UnixLinesInk(text[2..]);
      LineEndsAreSpace();
      assert text == [text[0], text[1]] + text[2..];
      InkConcat([text[0], text[1]], text[2..]);
      InkOfSpace([text[0], text[1]]);
      InkConcat("\n", UnixLines(text[2..]));
      InkOfSpace("\n");
    } else if text != [] {
      UnixLinesInk(text[1..]);
      InkConcat([text[0]], UnixLines(text[1..]));
      InkConcat([text[0]], text[1..]);
      assert text == [text[0]] + text[1..];
    }
  }

  lemma LineEndsAreSpace()
    ensures IsSpace('\r') && IsSpace('\n')
  {
  }

  lemma {:induction false} PiecesInk(text: string, start: nat, i: nat)
    requires start <= i <= |text|
    ensures Ink(Flatten(Pieces(text, start, i))) == Ink(text[start..])
    decreases |text| - i
  {
    hide IsSpace, Ink, SeparatorEnd;
    if i == |text| {
      assert Pieces(text, start, i)[1..] == [];
      assert text[start..] + [] == text[start..];
    } else if StartsSeparator(text, i) {
      var e := SeparatorEnd(text, i);
      PiecesInk(text, e, e);
      var rest := Pieces(text, e, e);
      assert Pieces(text, start, i)[1..] == rest;
      InkConcat(text[start..i], Flatten(rest));
      InkOfSpace(text[i..e]);
      InkConcat(text[i..e], text[e..]);
      assert text[i..e] + text[e..] == text[i..];
      InkConcat(text[start..i], text[i..]);
      assert text[start..i] + text[i..] == text[start..];
      assert [] + Ink(text[e..]) == Ink(text[e..]);
    } else {
      PiecesInk(text, start, i + 1);
    }
  }

  lemma {:induction false} TrimAllInk(ps: seq<string>)
    ensures Ink(Flatten(TrimAll(ps))) == Ink(Flatten(ps))
  {
    hide Ink, Trim;
    if ps != [] {
      TrimAllInk(ps[1..]);
      TrimKeepsInk(ps[0]);
      InkConcat(ps[0], Flatten(ps[1..]));
      InkConcat(Trim(ps[0]), Flatten(TrimAll(ps[1..])));
      if Trim(ps[0]) == "" {
        assert Ink("") == "" by { InkOfSpace(""); }
        assert [] + TrimAll(ps[1..]) == TrimAll(ps[1..]);
        assert "" + Flatten(TrimAll(ps[1..])) == Flatten(TrimAll(ps[1..]));
      } else {
        assert ([Trim(ps[0])] + TrimAll(ps[1..]))[1..] == TrimAll(ps[1..]);
      }
    }
  }

  /** Splitting keeps every character that is not white space, in order. */
  lemma SentencesKeepInk(text: string)
    ensures Ink(Flatten(SplitSentences(text))) == Ink(text)
  {
    hide Ink, Pieces, TrimAll, UnixLines;
    var lines := UnixLines(text);
    UnixLinesInk(text);
    PiecesInk(lines, 0, 0);
    assert lines[0..] == lines;
    TrimAllInk(Pieces(lines, 0, 0));
  }

  /** A sentence as the packer takes it: not empty, no white space at either end. */
  predicate IsSentence(s: string) { s != "" && Trimmed(s) }

  lemma {:induction false} TrimAllSentences(ps: seq<string>)
    ensures forall s | s in TrimAll(ps) :: IsSentence(s)
  {
    if ps != [] { TrimAllSentences(ps[1..]); }
  }

  lemma SentencesAreTrimmed(text: string)
    ensures forall s | s in SplitSentences(text) :: IsSentence(s)
  {
    TrimAllSentences(Pieces(UnixLines(text), 0, 0));
  }

  /** A separator could start before position `i` of the text. */
  predicate CutAt(text: string, i: int) {
    || (0 < i < |text| && EndsSentence(text[i - 1]) && IsSpace(text[i]))
    || (0 <= i < |text| - 1 && text[i] == '\n' && text[i + 1] == '\n')
  }

  lemma CutStartsSeparator(text: string, i: nat)
    requires i <= |text|
    ensures CutAt(text, i) <==> StartsSeparator(text, i)
  {
    hide IsSpace, EndsSentence;
  }

  ghost predicate Whole(s: string) { forall i :: !CutAt(s, i) }

  lemma PartOfWhole(text: string, a: nat, b: nat)
    requires a <= b <= |text| && (forall i | a <= i < b :: !CutAt(text, i))
    ensures Whole(text[a..b])
  {
    hide IsSpace, EndsSentence;
    forall i ensures !CutAt(text[a..b], i) {
      assert CutAt(text[a..b], i) ==> CutAt(text, a + i);
    }
  }

  lemma TrimIsPart(s: string) returns (a: nat, b: nat)
    ensures a <= b <= |s| && Trim(s) == s[a..b]
  {
    hide IsSpace;
    var t := TrimStart(s);
    a := |s| - |t|;
    b := a + |TrimEnd(t)|;
  }

  lemma {:induction false} PiecesWhole(text: string, start: nat, i: nat)
    requires start <= i <= |text| && (forall k | start <= k < i :: !CutAt(text, k))
    ensures forall p | p in Pieces(text, start, i) :: Whole(p)
    decreases |text| - i
  {
    hide CutAt, Whole, SeparatorEnd;
    if i == |text| {
      PartOfWhole(text, start, i);
      assert text[start..i] == text[start..];
    } else {
      CutStartsSeparator(text, i);
      if StartsSeparator(text, i) {
        PartOfWhole(text, start, i);
        PiecesWhole(text, SeparatorEnd(text, i), SeparatorEnd(text, i));
      } else {
        PiecesWhole(text, start, i + 1);
      }
    }
  }

  lemma {:induction false} TrimAllWhole(ps: seq<string>)
    requires forall p | p in ps :: Whole(p)
    ensures forall s | s in TrimAll(ps) :: Whole(s)
  {
    if ps != [] {
      hide CutAt, Trim;
      TrimAllWhole(ps[1..]);
      var a, b := TrimIsPart(ps[0]);
      assert Whole(ps[0]);
      PartOfWhole(ps[0], a, b);
    }
  }

  /** No sentence still holds a place to cut. */
  lemma SentencesAreWhole(text: string)
    ensures forall s | s in SplitSentences(text) :: Whole(s)
  {
    hide Whole;
    PiecesWhole(UnixLines(text), 0, 0);
    TrimAllWhole(Pieces(UnixLines(text), 0, 0));
  }

  lemma {:induction false} OnePiece(text: string, i: nat)
    requires i <= |text| && Whole(text)
    ensures Pieces(text, 0, i) == [text]
    decreases |text| - i
  {
    hide CutAt, SeparatorEnd;
    if i < |text| {
      CutStartsSeparator(text, i);
      OnePiece(text, i + 1);
    }
  }

  /** And a sentence without such a place is never cut. */
  lemma WholeStaysTogether(s: string)
    requires IsSentence(s) && Whole(s) && UnixLines(s) == s
    ensures SplitSentences(s) == [s]
  {
    hide Whole, Pieces, IsSpace;
    OnePiece(s, 0);
    assert TrimAll([s]) == [s] + TrimAll([s][1..]) && [s][1..] == [];
    assert [s] + [] == [s];
  }

  // ---- Where the text is cut ---------------------------------------------

  predicate NoLineEnds(text: string) { forall k | 0 <= k < |text| - 1 :: !(text[k] == '\r' && text[k + 1] == '\n') }

  /** `\r\n` becomes `\n` wherever it is, and nothing else changes. */
  lemma {:induction false} UnixLinesKeeps(text: string)
    requires NoLineEnds(text)
    ensures UnixLines(text) == text
  {
    if text != [] {
      assert text == [text[0]] + text[1..];
      UnixLinesKeeps(text[1..]);
    }
  }

  lemma {:induction false} UnixLinesAt(before: string, after: string)
    requires NoLineEnds(before + "\r")
    ensures UnixLines(before + "\r\n" + after) == before + "\n" + UnixLines(after)
  {
    var text := before + "\r\n" + after;
    if before == [] {
      assert text[2..] == after;
    } else {
      var rest := before[1..];
      assert (before + "\r")[0] == before[0] && (before + "\r")[1..] == rest + "\r";
      assert text[1..] == rest + "\r\n" + after && text[1] == (before + "\r")[1];
      UnixLinesAt(rest, after);
      assert before == [before[0]] + rest;
    }
  }

  lemma {:induction false} SpacesShift(text: string, e: nat, i: nat)
    requires e <= i <= |text|
    ensures SpacesEnd(text, i) == e + SpacesEnd(text[e..], i - e)
    decreases |text| - i
  {
    hide IsSpace;
    if i < |text| && IsSpace(text[i]) { SpacesShift(text, e, i + 1); }
  }

  lemma {:induction false} NewlinesShift(text: string, e: nat, i: nat)
    requires e <= i <= |text|
    ensures NewlinesEnd(text, i) == e + NewlinesEnd(text[e..], i - e)
    decreases |text| - i
  {
    if i < |text| && text[i] == '\n' { NewlinesShift(text, e, i + 1); }
  }

  /** Cutting goes on after a separator as it would begin there. */
  lemma {:induction false} PiecesShift(text: string, e: nat, start: nat, i: nat)
    requires e <= start <= i <= |text| && (e == 0 || !EndsSentence(text[e - 1]))
    ensures Pieces(text, start, i) == Pieces(text[e..], start - e, i - e)
    decreases |text| - i
  {
    hide SeparatorEnd;
    if i < |text| {
      SeparatorShift(text, e, i);
      var next := SeparatorEnd(text, i);
      if StartsSeparator(text, i) {
        PiecesShift(text, e, next, next);
        SliceShift(text, e, start, i);
      } else {
        PiecesShift(text, e, start, i + 1);
      }
    } else {
      SliceShift(text, e, start, i);
      assert text[start..i] == text[start..];
    }
  }

  lemma SliceShift(text: string, e: nat, a: nat, b: nat)
    requires e <= a <= b <= |text|
    ensures text[e..][a - e..b - e] == text[a..b]
  {
    var (left, right) := (text[e..][a - e..b - e], text[a..b]);
    assert |left| == |right|;
    forall k | 0 <= k < |left| ensures left[k] == right[k] { assert left[k] == text[e..][a - e + k]; }
  }

  lemma SeparatorShift(text: string, e: nat, i: nat)
    requires e <= i < |text| && (e == 0 || !EndsSentence(text[e - 1]))
    ensures SeparatorEnd(text, i) == e + SeparatorEnd(text[e..], i - e)
  {
    SpacesShift(text, e, i);
    NewlinesShift(text, e, i);
    hide IsSpace, EndsSentence, SpacesEnd, NewlinesEnd;
    var rest := text[e..];
    assert rest[i - e] == text[i] && (i + 1 < |text| ==> rest[i - e + 1] == text[i + 1]);
    assert i > e ==> rest[i - e - 1] == text[i - 1];
  }

  lemma {:induction false} PiecesUpTo(text: string, i: nat, j: nat)
    requires i <= j <= |text| && (forall k | i <= k < j :: !CutAt(text, k))
    ensures Pieces(text, 0, i) == Pieces(text, 0, j)
    decreases j - i
  {
    hide CutAt, SeparatorEnd;
    if i < j {
      CutStartsSeparator(text, i);
      PiecesUpTo(text, i + 1, j);
    }
  }

  /** The text is cut at the first place there is: after the end of a sentence all the white
      space goes, else all the newlines; what comes before is a sentence unless it is
      blank, and the rest is split in the same way. */
  lemma FirstCutSplits(text: string, i: nat) returns (e: nat)
    requires i < |text| && NoLineEnds(text) && CutAt(text, i) && forall k | 0 <= k < i :: !CutAt(text, k)
    ensures i < e <= |text| && AllSpace(text[i..e])
    ensures if i > 0 && text[i - 1] in ".!?" then e == |text| || !IsSpace(text[e])
            else (forall k | i <= k < e :: text[k] == '\n') && (e == |text| || text[e] != '\n')
    ensures SplitSentences(text)
            == (if Trim(text[..i]) == "" then [] else [Trim(text[..i])]) + SplitSentences(text[e..])
  {
    e := SeparatorEnd(text, i);
    CutStartsSeparator(text, i);
    SeparatorTakes(text, i);
    hide IsSpace, Trim, CutAt, SeparatorEnd, NoLineEnds, AllSpace, EndsSentence;
    LineEndsStay(text, e);
    UnixLinesKeeps(text);
    UnixLinesKeeps(text[e..]);
    PiecesUpTo(text, 0, i);
    PiecesShift(text, e, e, e);
    var rest := Pieces(text, e, e);
    assert Pieces(text, 0, i) == [text[..i]] + rest by { assert text[0..i] == text[..i]; }
    hide Pieces;
    assert ([text[..i]] + rest)[1..] == rest;
    assert text[e..][0..] == text[e..];
  }

  lemma LineEndsStay(text: string, e: nat)
    requires e <= |text| && NoLineEnds(text)
    ensures NoLineEnds(text[e..])
  {
  }

  /** A separator is white space to its end, and ends where its kind does. */
  lemma SeparatorTakes(text: string, i: nat)
    requires i < |text| && StartsSeparator(text, i)
    ensures var e := SeparatorEnd(text, i);
            && !EndsSentence(text[e - 1])
            && if i > 0 && text[i - 1] in ".!?" then e == |text| || !IsSpace(text[e])
               else (forall k | i <= k < e :: text[k] == '\n') && (e == |text| || text[e] != '\n')
  {
    var e := SeparatorEnd(text, i);
    LineEndsAreSpace();
    assert IsSpace(text[e - 1]) by { assert text[i..e][e - 1 - i] == text[e - 1]; }
    assert forall c: char :: EndsSentence(c) <==> c in ".!?";
    assert forall c: char | EndsSentence(c) :: !IsSpace(c);
    hide IsSpace, EndsSentence;
  }

  // ---- Overlap -----------------------------------------------------------

  predicate IsBoundary(c: char) { EndsSentence(c) || c == '\n' }

  /** The last boundary that is not the very last character, or -1. */
  method LastBoundaryIndex(window: string) returns (i: int)
    ensures i == LastBoundary(window)
  {
    i := |window| - 2;
    while i >= 0
      invariant -1 <= i || i == |window| - 2
      invariant forall k | i < k < |window| - 1 && 0 <= k :: !IsBoundary(window[k])
    {
      if IsBoundary(window[i]) {
        LastBoundaryIs(window, i);
        return;
      }
      i := i - 1;
    }
    LastBoundaryIs(window, -1);
    return -1;
  }

  function LastWhere(s: string, p: char -> bool, n: nat): (i: int)
    requires n <= |s|
    ensures -1 <= i < n && (i >= 0 ==> p(s[i])) && forall k | i < k < n :: !p(s[k])
  {
    if n == 0 then -1 else if p(s[n - 1]) then n - 1 else LastWhere(s, p, n - 1)
  }

  function LastBoundary(window: string): (i: int)
    ensures -1 <= i < Max(0, |window| - 1)
  {
    LastWhere(window, IsBoundary, Max(0, |window| - 1))
  }

  lemma LastBoundaryIs(window: string, i: int)
    requires -1 <= i < Max(0, |window| - 1)
    requires i >= 0 ==> IsBoundary(window[i])
    requires forall k | i < k < |window| - 1 && 0 <= k :: !IsBoundary(window[k])
    ensures i == LastBoundary(window)
  {
  }

  /** Where the repeated part of a window starts: after its last boundary when that
      lies in the second half, else after its last blank. */
  function TailStart(window: string): (from: nat)
    ensures from <= |window|
  {
    var cut := LastBoundary(window);
    if cut * 2 > |window| then cut + 1
    else
      var space := LastWhere(window, c => c == ' ', |window|);
      if space > 0 then space + 1 else 0
  }

  /** What the next chunk repeats of `text`. */
  function OverlapTail(text: string, overlapTokens: int): string {
    if overlapTokens <= 0 || text == "" then ""
    else
      var window := text[Max(0, |text| - overlapTokens * 4)..];
      Trim(window[TailStart(window)..])
  }

  /** The tail starts after the last boundary before the last character when that lies in the
      second half of the window, else after the last blank that is not its first character,
      and at the start of the window when there is neither. */
  lemma TailStartIs(window: string)
    ensures var from := TailStart(window);
            if exists k :: 0 <= k < |window| - 1 && 2 * k > |window| && window[k] in ".!?\n"
            then
              && 1 <= from < |window| && window[from - 1] in ".!?\n" && 2 * (from - 1) > |window|
              && forall k | from <= k < |window| - 1 :: window[k] !in ".!?\n"
            else if exists k :: 0 < k < |window| && window[k] == ' '
            then 1 < from <= |window| && window[from - 1] == ' ' && forall k | from <= k < |window| :: window[k] != ' '
            else from == 0
  {
    assert forall c: char :: IsBoundary(c) <==> c in ".!?\n";
    hide IsBoundary;
    var cut := LastBoundary(window);
    if k :| 0 <= k < |window| - 1 && 2 * k > |window| && window[k] in ".!?\n" { assert k <= cut; }
  }

  lemma TailStartsInside(window: string)
    requires window != "" && window[|window| - 1] != ' '
    ensures TailStart(window) < |window|
  {
    hide IsBoundary;
  }

  lemma BlankIsSpace()
    ensures IsSpace(' ')
  {
  }

  lemma TrimmedSuffix(s: string, from: nat)
    requires from < |s| && !IsSpace(s[|s| - 1])
    ensures var r := Trim(s[from..]);
            1 <= |r| <= |s| - from && r == s[|s| - |r|..] && Trimmed(r) && AllSpace(s[from..|s| - |r|])
  {
    hide IsSpace, TrimStart, Trim;
    var u := s[from..];
    assert u[|u| - 1] == s[|s| - 1];
    TrimKeepsEnd(u);
    var t := TrimStart(u);
    assert t == u[|u| - |t|..];
    assert t == s[|s| - |t|..];
    assert s[from..|s| - |t|] == u[..|u| - |t|];
  }

  /** The tail is an end of the text, of at most 4 characters a token; it is empty
      only when no overlap is asked for. It is all of the window of that length from the
      place where the tail starts, but for white space. */
  lemma TailIsSuffix(text: string, overlapTokens: int)
    requires IsSentence(text)
    ensures var tail := OverlapTail(text, overlapTokens);
            && Trimmed(tail) && |tail| <= |text| && tail == text[|text| - |tail|..]
            && |tail| <= Max(0, overlapTokens * 4)
            && (tail == "" <==> overlapTokens <= 0)
            && (overlapTokens > 0 ==>
                  var start := Max(0, |text| - 4 * overlapTokens);
                  var from := start + TailStart(text[start..]);
                  from <= |text| - |tail| && AllSpace(text[from..|text| - |tail|]))
  {
    hide IsSpace, TailStart, Trim, AllSpace;
    if overlapTokens > 0 {
      var start := Max(0, |text| - overlapTokens * 4);
      var window := text[start..];
      BlankIsSpace();
      TailStartsInside(window);
      assert window[TailStart(window)..] == text[start + TailStart(window)..];
      TrimmedSuffix(text, start + TailStart(window));
    }
  }
}
