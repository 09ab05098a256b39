/** The chunker's promise that only a sentence larger than the target gives a chunk larger
    than the target: for which targets and overlaps it holds, and where it fails. */
module ChunkPromise {
  import opened Options
  import opened Text
  import opened Chunker
  import opened Packing
  import opened ChunkBounds

  predicate AllFit(sentences: seq<string>, target: int) { forall s | s in sentences :: Fits(s, target) }

  predicate ChunksFit(ps: seq<Packed>, target: int) { forall p | p in ps :: Fits(p.Text(), target) }

  // ---- One chunk ---------------------------------------------------------

  /** A text fits when it has at most four characters a token of the target. */
  lemma FitsIff(text: string, target: int)
    requires target >= 1
    ensures Fits(text, target) <==> |text| <= 4 * target
  {
  }

  /** A chunk repeats something exactly when it is not the first and overlap is asked for. */
  lemma TailIff(sentences: seq<string>, target: int, overlap: int, i: nat)
    requires Sentences(sentences) && i < |PackAll(sentences, target, overlap)|
    ensures PackAll(sentences, target, overlap)[i].tail != "" <==> i > 0 && overlap > 0
  {
    hide PackAll, Packed.Text, OverlapTail, Trimmed;
    var ps := PackAll(sentences, target, overlap);
    ChunksChain(sentences, target, overlap);
    if i > 0 {
      TextTrimmed(ps[i - 1]);
      TailIsSuffix(ps[i - 1].Text(), overlap);
    } else {
      FirstTail(sentences, target, overlap);
    }
  }

  /** When all sentences fit, a chunk is over the target exactly when it repeats a tail,
      adds a single sentence, and the two with the blank between them are too long. */
  lemma OverTargetIff(sentences: seq<string>, target: int, overlap: int, i: nat)
    requires Sentences(sentences) && AllFit(sentences, target) && i < |PackAll(sentences, target, overlap)|
    ensures var p := PackAll(sentences, target, overlap)[i];
            !Fits(p.Text(), target)
            <==> i > 0 && overlap > 0 && |p.added| == 1 && |p.tail| + 1 + |p.added[0]| > 4 * target
  {
    hide PackAll, Packed.Text, OverlapTail, Trimmed, AllAdded;
    var ps := PackAll(sentences, target, overlap);
    var p := ps[i];
    ChunksFitOrAddOne(sentences, target, overlap);
    ChunksChain(sentences, target, overlap);
    PackingIsLossless(sentences, target, overlap);
    TailIff(sentences, target, overlap, i);
    assert p in ps && p.added != [];
    AddedComeFrom(ps, p, p.added[0]);
    assert Fits(p.added[0], target);
    FitsIff(p.Text(), target);
    if |p.added| == 1 {
      SingleText(p);
      assert p.Text() == if p.tail != "" then p.tail + " " + p.added[0] else p.added[0];
    }
  }

  lemma PartFits(p: Packed, s: string, target: int)
    requires s in p.added && Fits(p.Text(), target)
    ensures Fits(s, target)
  {
    hide Join;
    JoinLonger(if p.tail == "" then p.added else [p.tail] + p.added, s);
  }

  /** For any overlap and any list: all chunks fit exactly when all sentences fit and no
      lone sentence is too long for the tail before it. */
  lemma ChunksFitIff(sentences: seq<string>, target: int, overlap: int)
    requires Sentences(sentences)
    ensures var ps := PackAll(sentences, target, overlap);
            ChunksFit(ps, target)
            <==> AllFit(sentences, target)
                 && forall i | 0 < i < |ps| ::
                      overlap > 0 && |ps[i].added| == 1 ==> |ps[i].tail| + 1 + |ps[i].added[0]| <= 4 * target
  {
    hide PackAll, Packed.Text, AllAdded, EstimateTokens, Fits;
    var ps := PackAll(sentences, target, overlap);
    PackingIsLossless(sentences, target, overlap);
    AllInAdded(ps, target);
    if ChunksFit(ps, target) {
      forall p, s | p in ps && s in p.added ensures Fits(s, target) { PartFits(p, s, target); }
      assert AllFit(sentences, target);
    }
    if AllFit(sentences, target) {
      forall i | 0 <= i < |ps|
        ensures !Fits(ps[i].Text(), target)
                <==> i > 0 && overlap > 0 && |ps[i].added| == 1 && |ps[i].tail| + 1 + |ps[i].added[0]| > 4 * target
      {
        OverTargetIff(sentences, target, overlap, i);
      }
    }
  }

  /** Sentences that leave room for the overlap and a blank give chunks that fit. */
  lemma RoomForOverlap(sentences: seq<string>, target: int, overlap: int)
    requires Sentences(sentences) && overlap > 0 && (forall s | s in sentences :: |s| <= 4 * (target - overlap) - 1)
    ensures ChunksFit(PackAll(sentences, target, overlap), target)
  {
    hide PackAll, Packed.Text, OverlapTail, Trimmed, AllAdded, EstimateTokens;
    var ps := PackAll(sentences, target, overlap);
    forall s | s in sentences ensures Fits(s, target) {
      assert s != "";
      FitsIff(s, target);
    }
    PackingIsLossless(sentences, target, overlap);
    forall i | 0 <= i < |ps| ensures Fits(ps[i].Text(), target) {
      OverTargetIff(sentences, target, overlap, i);
      if i > 0 && |ps[i].added| == 1 {
        TailsRepeat(sentences, target, overlap, i);
        AddedComeFrom(ps, ps[i], ps[i].added[0]);
      }
    }
  }

  // ---- All texts -----------------------------------------------------------

  /** A sentence of exactly `target` tokens. */
  function FullSentence(target: int): (s: string)
    requires target >= 1
    ensures |s| == 4 * target && IsSentence(s)
    ensures forall i | 0 <= i < |s| :: s[i] == if i == |s| - 1 then '.' else 'a'
  {
    LettersAreInk();
    seq(4 * target - 1, _ => 'a') + "."
  }

  lemma LettersAreInk()
    ensures !IsSpace('a') && !IsSpace('.') && IsSpace(' ')
  {
  }

  lemma {:induction false} NoReturns(text: string)
    requires forall i | 0 <= i < |text| :: text[i] != '\r'
    ensures UnixLines(text) == text
  {
    if text != [] {
      NoReturns(text[1..]);
      assert text == [text[0]] + text[1..];
    }
  }

  /** Up to the next place to cut, the search only moves on. */
  lemma {:induction false} PiecesTo(text: string, start: nat, i: nat, k: nat)
    requires start <= i <= k <= |text| && forall j | i <= j < k :: !StartsSeparator(text, j)
    ensures Pieces(text, start, i) == Pieces(text, start, k)
    decreases k - i
  {
    hide StartsSeparator, SeparatorEnd;
    if i < k { PiecesTo(text, start, i + 1, k); }
  }

  /** A sentence without any white space in it. */
  ghost predicate OneWord(s: string) {
    s != "" && EndsSentence(s[|s| - 1]) && forall i | 0 <= i < |s| :: !IsSpace(s[i])
  }

  /** Two of them with a blank between are cut at the blank and nowhere else. */
  lemma TwoPieces(s: string)
    requires OneWord(s)
    ensures Pieces(s + " " + s, 0, 0) == [s] + [s]
  {
    var (n, text) := (|s|, s + " " + s);
    LettersAreInk();
    hide IsSpace, EndsSentence;
    forall j | 0 <= j < n ensures !StartsSeparator(text, j) {
      assert text[j] == s[j];
      NoCut(text, j);
    }
    forall j | n < j < |text| ensures !StartsSeparator(text, j) {
      assert text[j] == s[j - n - 1];
      NoCut(text, j);
    }
    assert text[n - 1] == s[n - 1] && text[n] == ' ' && text[n + 1] == s[0];
    OneBlank(text, n);
    hide StartsSeparator, SeparatorEnd;
    PiecesTo(text, 0, 0, n);
    PiecesTo(text, n + 1, n + 1, |text|);
    assert text[0..n] == s && text[n + 1..] == s;
  }

  /** Two full sentences with a blank between them are split into just these. */
  lemma TwoFullSentences(target: int)
    requires target >= 1
    ensures var s := FullSentence(target);
            SplitSentences(s + " " + s) == [s, s]
  {
    var s := FullSentence(target);
    LettersAreInk();
    assert OneWord(s);
    var text := s + " " + s;
    assert UnixLines(text) == text by {
      hide FullSentence;
      forall i | 0 <= i < |text| ensures text[i] != '\r' {
        assert text[i] == if i < |s| then s[i] else if i == |s| then ' ' else s[i - |s| - 1];
      }
      NoReturns(text);
    }
    hide IsSpace, FullSentence, OneWord, Pieces, UnixLines;
    TwoPieces(s);
    KeepBoth(s);
  }

  lemma NoCut(text: string, j: nat)
    requires j < |text| && !IsSpace(text[j])
    ensures !StartsSeparator(text, j)
  {
  }

  lemma OneBlank(text: string, n: nat)
    requires 0 < n && n + 1 < |text| && EndsSentence(text[n - 1]) && IsSpace(text[n]) && !IsSpace(text[n + 1])
    ensures StartsSeparator(text, n) && SeparatorEnd(text, n) == n + 1
  {
  }

  lemma KeepBoth(s: string)
    requires IsSentence(s)
    ensures TrimAll([s] + [s]) == [s, s]
  {
    hide IsSpace;
    assert [s, s][1..] == [s] && [s][1..] == [];
    assert [s] + [s] == [s, s];
    assert TrimAll([s]) == [s] + TrimAll([]);
  }

  /** They do not go into one chunk, and the second comes after a tail of the first. */
  lemma SecondIsOver(target: int, overlap: int)
    requires target >= 1 && overlap > 0
    ensures var s := FullSentence(target);
            AllFit([s, s], target) && !ChunksFit(PackAll([s, s], target, overlap), target)
  {
    hide FullSentence, OverlapTail, Trimmed, EstimateTokens;
    var s := FullSentence(target);
    FitsIff(s, target);
    FitsIff(s + " " + s, target);
    TextOfOne("", s);
    assert [s, s][1..] == [s] && [s][1..] == [];
    var ps := PackAll([s, s], target, overlap);
    var open := Packed("", [s]);
    assert open.Text() == s && !Fits(open.Text() + " " + s, target);
    assert ps == Pack(open, [s], target, overlap);
    assert Pack(Packed(OverlapTail(s, overlap), [s]), [], target, overlap) == [Packed(OverlapTail(s, overlap), [s])];
    assert ps == [Packed("", [s]), Packed(OverlapTail(s, overlap), [s])];
    OverTargetIff([s, s], target, overlap, 1);
    assert ps[1] in ps;
  }

  /** Whatever the text: if its sentences fit the target, so do its chunks. */
  ghost predicate KeepsPromise(target: int, overlap: int) {
    forall raw: string :: AllFit(SplitSentences(raw), target)
                          ==> ChunksFit(PackAll(SplitSentences(raw), target, overlap), target)
  }

  /** The same over every list of sentences. */
  ghost predicate KeepsPromiseOnLists(target: int, overlap: int) {
    forall ss: seq<string> :: Sentences(ss) && AllFit(ss, target) ==> ChunksFit(PackAll(ss, target, overlap), target)
  }

  /** The promise holds exactly without overlap (or for a target no sentence fits). */
  lemma PromiseHoldsIff(target: int, overlap: int)
    ensures KeepsPromiseOnLists(target, overlap) <==> overlap <= 0 || target < 1
    ensures KeepsPromise(target, overlap) <==> overlap <= 0 || target < 1
  {
    hide SplitSentences, PackAll, EstimateTokens, ChunksFit, AllFit;
    if overlap <= 0 || target < 1 {
      forall ss: seq<string> | Sentences(ss) && AllFit(ss, target)
        ensures ChunksFit(PackAll(ss, target, overlap), target)
      {
        HoldsWithoutOverlap(ss, target, overlap);
      }
      forall raw: string ensures Sentences(SplitSentences(raw)) { SentencesAreTrimmed(raw); }
    } else {
      var s := FullSentence(target);
      TwoFullSentences(target);
      SecondIsOver(target, overlap);
      var raw := s + " " + s;
      assert SplitSentences(raw) == [s, s];
      assert Sentences([s, s]);
    }
  }

  lemma HoldsWithoutOverlap(ss: seq<string>, target: int, overlap: int)
    requires Sentences(ss) && AllFit(ss, target) && (overlap <= 0 || target < 1)
    ensures ChunksFit(PackAll(ss, target, overlap), target)
  {
    if overlap <= 0 {
      hide PackAll, Packed.Text, EstimateTokens;
      FitIffSentencesFit(ss, target, overlap);
    } else {
      assert ss == [] || Fits(ss[0], target);
    }
  }

  /** In terms of the options: the promise holds exactly for an overlap of 0 or less or a
      target of 1 or less, so not for the defaults. */
  lemma OptionsKeepPromiseIff(targetTokens: Option<int>, overlapTokens: Option<int>)
    ensures KeepsPromise(Target(targetTokens), Overlap(targetTokens, overlapTokens))
            <==> overlapTokens.GetOr(CHUNK_OVERLAP_TOKENS) <= 0 || targetTokens.GetOr(CHUNK_TARGET_TOKENS) <= 1
    ensures !KeepsPromise(Target(None), Overlap(None, None))
  {
    hide KeepsPromise;
    PromiseHoldsIff(Target(targetTokens), Overlap(targetTokens, overlapTokens));
    PromiseHoldsIff(Target(None), Overlap(None, None));
  }
}
