/** Packing sentences into chunks: what the loop of the chunker produces, that it
    loses nothing, how large a chunk gets, and that without overlap no split is shorter. */
module Packing {
  import opened Bounds
  import opened Options
  import opened Text
  import opened Chunker

  datatype TextChunk = TextChunk(index: nat, text: string, tokens: int)

  /** A chunk before it is written out: what it repeats and the sentences it adds. */
  datatype Packed = Packed(tail: string, added: seq<string>) {
    function Text(): string { Join(if tail == "" then added else [tail] + added) }
  }

  /** The texts with one blank between them. */
  function Join(ss: seq<string>): string {
    if ss == [] then "" else if |ss| == 1 then ss[0] else Join(ss[..|ss| - 1]) + " " + ss[|ss| - 1]
  }

  predicate Fits(text: string, target: int) { EstimateTokens(text) <= target }

  /** Greedy: a sentence joins the open chunk while the result fits, else it opens
      the next chunk after the tail of this one. */
  function Pack(open: Packed, rest: seq<string>, target: int, overlap: int): (ps: seq<Packed>)
    ensures ps != []
    decreases |rest|
  {
    if rest == [] then [open]
    else if Fits(open.Text() + " " + rest[0], target)
    then Pack(open.(added := open.added + [rest[0]]), rest[1..], target, overlap)
    else [open] + Pack(Packed(OverlapTail(open.Text(), overlap), [rest[0]]), rest[1..], target, overlap)
  }

  function PackAll(sentences: seq<string>, target: int, overlap: int): seq<Packed> {
    if sentences == [] then [] else Pack(Packed("", [sentences[0]]), sentences[1..], target, overlap)
  }

  ghost predicate Sentences(ss: seq<string>) { forall s | s in ss :: IsSentence(s) }

  // ---- The loop ----------------------------------------------------------

  function Render(ps: seq<Packed>): (chunks: seq<TextChunk>)
    ensures |chunks| == |ps|
  {
    seq(|ps|, i requires 0 <= i < |ps| => TextChunk(i, ps[i].Text(), EstimateTokens(ps[i].Text())))
  }

  /** Chunks are numbered from 0 and carry the estimate of their text. */
  lemma ChunksNumbered(ps: seq<Packed>, i: nat)
    requires i < |ps|
    ensures var chunk := Render(ps)[i];
            && chunk.index == i && |chunk.text| <= 4 * chunk.tokens
            && chunk.tokens >= 1 && (chunk.tokens > 1 ==> 4 * (chunk.tokens - 1) < |chunk.text|)
  {
    TokensHold(ps[i].Text());
    hide Packed.Text;
  }

  function Target(targetTokens: Option<int>): int { targetTokens.GetOr(CHUNK_TARGET_TOKENS) }

  function Overlap(targetTokens: Option<int>, overlapTokens: Option<int>): int {
    Min(overlapTokens.GetOr(CHUNK_OVERLAP_TOKENS), Max(0, Target(targetTokens) - 1))
  }

  /** 384 and 64 tokens unless given, and the overlap always at least one token below a
      positive target, never above 0 below that. */
  lemma OptionsAre(target: int, overlap: int)
    ensures Target(None) == 384 && Overlap(None, None) == 64 && Target(Some(target)) == target
    ensures var kept := Overlap(Some(target), Some(overlap));
            kept == if overlap < target || overlap <= 0 then overlap else if target >= 1 then target - 1 else 0
  {
  }

  method ChunkText(raw: string, targetTokens: Option<int>, overlapTokens: Option<int>) returns (chunks: seq<TextChunk>)
    ensures chunks == Render(PackAll(SplitSentences(raw), Target(targetTokens), Overlap(targetTokens, overlapTokens)))
  {
    hide OverlapTail, SplitSentences, EstimateTokens, IsSentence, Trim, Render, SoFar, Pack;
    var target := targetTokens.GetOr(CHUNK_TARGET_TOKENS);
    var overlap := Min(overlapTokens.GetOr(CHUNK_OVERLAP_TOKENS), Max(0, target - 1));
    var sentences := SplitSentences(raw);
    SentencesAreTrimmed(raw);
    if |sentences| == 0 { return []; }
    chunks := [];
    var current := "";
    ghost var done: seq<Packed>, open := [], Packed("", []);
    NothingYet(sentences, target, overlap);
    var i := 0;
    while i < |sentences|
      invariant 0 <= i <= |sentences| && (current == "" <==> i == 0)
      invariant SoFar(done, open, current, sentences, i, target, overlap) && chunks == Render(done)
    {
      var sentence := sentences[i];
      var joined := if current != "" then current + " " + sentence else sentence;
      if current != "" && EstimateTokens(joined) > target {
        Flushed(done, open, current, sentences, i, target, overlap);
        var text := Trim(current);
        chunks := chunks + [TextChunk(|chunks|, text, EstimateTokens(text))];
        RenderNext(done, open);
        var tail := OverlapTail(text, overlap);
        done, open := done + [open], Packed(tail, [sentence]);
        current := if tail != "" then tail + " " + sentence else sentence;
      } else {
        Grown(done, open, current, sentences, i, target, overlap);
        open := open.(added := open.added + [sentence]);
        current := joined;
      }
      assert sentence != "" by { NotEmpty(sentence); }
      i := i + 1;
    }
    Finished(done, open, current, sentences, target, overlap);
    RenderNext(done, open);
    var text := Trim(current);
    if text != "" { chunks := chunks + [TextChunk(|chunks|, text, EstimateTokens(text))]; }
  }

  /** After `i` sentences: `done` chunks are out and `current` is the text of the open one. */
  ghost predicate SoFar(done: seq<Packed>, open: Packed, current: string, sentences: seq<string>, i: nat, target: int,
                        overlap: int)
    requires i <= |sentences|
  {
    if i == 0 then done == [] && open == Packed("", [])
    else
      && WellFormed(open) && current == open.Text()
      && PackAll(sentences, target, overlap) == done + Pack(open, sentences[i..], target, overlap)
  }

  lemma NothingYet(sentences: seq<string>, target: int, overlap: int)
    ensures SoFar([], Packed("", []), "", sentences, 0, target, overlap)
    ensures Render([]) == []
  {
  }

  lemma NotEmpty(s: string)
    requires IsSentence(s)
    ensures s != ""
  {
  }

  lemma RenderNext(done: seq<Packed>, open: Packed)
    ensures Render(done + [open]) == Render(done) + [TextChunk(|done|, open.Text(), EstimateTokens(open.Text()))]
  {
    hide EstimateTokens, Packed.Text;
  }

  lemma Grown(done: seq<Packed>, open: Packed, current: string, sentences: seq<string>, i: nat, target: int,
              overlap: int)
    requires i < |sentences| && Sentences(sentences) && (current == "" <==> i == 0)
    requires SoFar(done, open, current, sentences, i, target, overlap)
    requires current == "" || EstimateTokens(current + " " + sentences[i]) <= target
    ensures SoFar(done, open.(added := open.added + [sentences[i]]),
                  if current != "" then current + " " + sentences[i] else sentences[i],
                  sentences, i + 1, target, overlap)
  {
    hide OverlapTail, EstimateTokens, IsSpace, Packed.Text;
    assert IsSentence(sentences[i]);
    if i == 0 {
      assert [] + [sentences[0]] == [sentences[0]];
      TextOfOne("", sentences[0]);
    } else {
      TextGrows(open, sentences[i]);
      assert sentences[i..][1..] == sentences[i + 1..];
    }
  }

  lemma Flushed(done: seq<Packed>, open: Packed, current: string, sentences: seq<string>, i: nat, target: int,
                overlap: int)
    requires 0 < i < |sentences| && Sentences(sentences)
    requires SoFar(done, open, current, sentences, i, target, overlap)
    requires EstimateTokens(current + " " + sentences[i]) > target
    ensures Trim(current) == open.Text()
    ensures var tail := OverlapTail(open.Text(), overlap);
            SoFar(done + [open], Packed(tail, [sentences[i]]),
                  if tail != "" then tail + " " + sentences[i] else sentences[i],
                  sentences, i + 1, target, overlap)
  {
    hide OverlapTail, EstimateTokens, Trimmed, Packed.Text, Trim;
    assert IsSentence(sentences[i]);
    var tail := OverlapTail(open.Text(), overlap);
    TextTrimmed(open);
    TailIsSuffix(open.Text(), overlap);
    TextOfOne(tail, sentences[i]);
    assert sentences[i..][1..] == sentences[i + 1..];
    Regroup(done, open, Pack(Packed(tail, [sentences[i]]), sentences[i + 1..], target, overlap));
  }

  lemma Finished(done: seq<Packed>, open: Packed, current: string, sentences: seq<string>, target: int, overlap: int)
    requires sentences != [] && SoFar(done, open, current, sentences, |sentences|, target, overlap)
    ensures PackAll(sentences, target, overlap) == done + [open]
    ensures Trim(current) == open.Text() != ""
  {
    hide Trim, Packed.Text;
    TextTrimmed(open);
    assert sentences[|sentences|..] == [];
  }

  lemma Regroup(done: seq<Packed>, next: Packed, rest: seq<Packed>)
    ensures done + ([next] + rest) == (done + [next]) + rest
  {
  }

  /** A chunk under construction: a trimmed tail, if any, and at least one sentence. */
  ghost predicate WellFormed(p: Packed) { Trimmed(p.tail) && p.added != [] && Sentences(p.added) }

  lemma TextOfOne(tail: string, sentence: string)
    ensures Packed(tail, [sentence]).Text() == if tail != "" then tail + " " + sentence else sentence
  {
    assert [tail] + [sentence] == [tail, sentence] && [tail, sentence][..1] == [tail];
    assert Join([tail, sentence]) == Join([tail]) + " " + sentence;
  }

  lemma TextGrows(p: Packed, sentence: string)
    requires p.added != []
    ensures p.(added := p.added + [sentence]).Text() == p.Text() + " " + sentence
  {
    var parts := if p.tail == "" then p.added else [p.tail] + p.added;
    var more := if p.tail == "" then p.added + [sentence] else [p.tail] + (p.added + [sentence]);
    assert more == parts + [sentence] && more[..|more| - 1] == parts;
  }

  lemma {:induction false} JoinTrimmed(ss: seq<string>)
    requires ss != [] && Sentences(ss)
    ensures IsSentence(Join(ss))
  {
    hide IsSpace;
    if |ss| > 1 {
      JoinTrimmed(ss[..|ss| - 1]);
      assert ss[|ss| - 1] in ss;
    } else {
      assert ss[0] in ss;
    }
  }

  lemma TextTrimmed(p: Packed)
    requires WellFormed(p)
    ensures IsSentence(p.Text()) && Trim(p.Text()) == p.Text() != ""
  {
    hide IsSpace, Join;
    JoinTrimmed(if p.tail == "" then p.added else [p.tail] + p.added);
  }

  // ---- Nothing is lost ---------------------------------------------------

  function AllAdded(ps: seq<Packed>): seq<string> {
    if ps == [] then [] else ps[0].added + AllAdded(ps[1..])
  }

  lemma {:induction false} PackKeepsSentences(open: Packed, rest: seq<string>, target: int, overlap: int)
    ensures AllAdded(Pack(open, rest, target, overlap)) == open.added + rest
    decreases |rest|
  {
    hide Packed.Text, OverlapTail, Fits;
    if rest == [] {
      assert AllAdded([open]) == open.added + AllAdded([open][1..]);
    } else if Fits(open.Text() + " " + rest[0], target) {
      PackKeepsSentences(open.(added := open.added + [rest[0]]), rest[1..], target, overlap);
      assert rest == [rest[0]] + rest[1..];
    } else {
      var next := Packed(OverlapTail(open.Text(), overlap), [rest[0]]);
      PackKeepsSentences(next, rest[1..], target, overlap);
      var later := Pack(next, rest[1..], target, overlap);
      assert ([open] + later)[1..] == later;
      assert rest == [rest[0]] + rest[1..];
    }
  }

  /** The sentences the chunks add are the sentences given: whole, in order, once each. */
  lemma PackingIsLossless(sentences: seq<string>, target: int, overlap: int)
    ensures AllAdded(PackAll(sentences, target, overlap)) == sentences
  {
    hide Pack;
    if sentences != [] {
      PackKeepsSentences(Packed("", [sentences[0]]), sentences[1..], target, overlap);
      assert sentences == [sentences[0]] + sentences[1..];
    }
  }

  /** Every chunk adds a sentence, and repeats exactly the tail of the chunk before it. */
  ghost predicate Chained(ps: seq<Packed>, overlap: int) {
    && (forall i | 0 <= i < |ps| :: WellFormed(ps[i]))
    && (forall i | 0 < i < |ps| :: ps[i].tail == OverlapTail(ps[i - 1].Text(), overlap))
  }

  lemma {:induction false} PackChains(open: Packed, rest: seq<string>, target: int, overlap: int)
    requires WellFormed(open) && Sentences(rest)
    ensures var ps := Pack(open, rest, target, overlap);
            Chained(ps, overlap) && ps[0].tail == open.tail && open.added <= ps[0].added
    decreases |rest|
  {
    hide Packed.Text, OverlapTail, Fits, Trimmed, IsSentence;
    if rest != [] {
      assert IsSentence(rest[0]);
      if Fits(open.Text() + " " + rest[0], target) {
        PackChains(open.(added := open.added + [rest[0]]), rest[1..], target, overlap);
      } else {
        var next := Packed(OverlapTail(open.Text(), overlap), [rest[0]]);
        TextTrimmed(open);
        TailIsSuffix(open.Text(), overlap);
        PackChains(next, rest[1..], target, overlap);
        // The chunk after `open` carries the tail of `open`.
        assert Pack(next, rest[1..], target, overlap)[0].tail == OverlapTail(open.Text(), overlap);
      }
    }
  }

  lemma ChunksChain(sentences: seq<string>, target: int, overlap: int)
    requires Sentences(sentences)
    ensures Chained(PackAll(sentences, target, overlap), overlap)
    ensures sentences != [] ==> PackAll(sentences, target, overlap)[0].tail == ""
  {
    hide Pack, IsSpace;
    if sentences != [] {
      assert IsSentence(sentences[0]);
      PackChains(Packed("", [sentences[0]]), sentences[1..], target, overlap);
    }
  }

  /** A chunk's text without what it repeats of the chunk before. */
  function Stripped(chunks: seq<TextChunk>, i: nat, overlap: int): string
    requires i < |chunks|
  {
    var tail := if i == 0 then "" else OverlapTail(chunks[i - 1].text, overlap);
    if tail == "" || |tail| >= |chunks[i].text| then chunks[i].text else chunks[i].text[|tail| + 1..]
  }

  /** The text read back from the first `n` chunks alone. */
  function Recovered(chunks: seq<TextChunk>, n: nat, overlap: int): string
    requires n <= |chunks|
  {
    if n == 0 then ""
    else if n == 1 then Stripped(chunks, 0, overlap)
    else Recovered(chunks, n - 1, overlap) + " " + Stripped(chunks, n - 1, overlap)
  }

  lemma {:induction false} JoinConcat(a: seq<string>, b: seq<string>)
    requires a != [] && b != []
    ensures Join(a + b) == Join(a) + " " + Join(b)
    decreases |b|
  {
    var (init, last) := (b[..|b| - 1], b[|b| - 1]);
    JoinLast(a + init, last);
    assert a + b == a + init + [last] && b == init + [last];
    if |b| > 1 {
      JoinLast(init, last);
      hide Join;
      JoinConcat(a, init);
      assert Join(a) + " " + Join(init) + " " + last == Join(a) + " " + (Join(init) + " " + last);
    } else {
      assert a + init == a;
    }
  }

  lemma JoinLast(ss: seq<string>, last: string)
    requires ss != []
    ensures Join(ss + [last]) == Join(ss) + " " + last
  {
    assert (ss + [last])[..|ss|] == ss;
  }

  lemma StripsTail(ps: seq<Packed>, i: nat, overlap: int)
    requires i < |ps| && Chained(ps, overlap) && ps[0].tail == ""
    ensures Stripped(Render(ps), i, overlap) == Join(ps[i].added)
  {
    hide Join, OverlapTail, EstimateTokens;
    var p := ps[i];
    if p.tail != "" {
      JoinConcat([p.tail], p.added);
      assert Join([p.tail]) == p.tail by { JoinOne(p.tail); }
      assert p.Text() == p.tail + " " + Join(p.added);
      assert p.Text()[|p.tail| + 1..] == Join(p.added);
    }
  }

  lemma JoinOne(s: string)
    ensures Join([s]) == s
  {
  }

  lemma {:induction false} AllAddedNext(ps: seq<Packed>, n: nat)
    requires n < |ps|
    ensures AllAdded(ps[..n + 1]) == AllAdded(ps[..n]) + ps[n].added
  {
    if n > 0 {
      AllAddedNext(ps[1..], n - 1);
      assert ps[..n + 1][1..] == ps[1..][..n] && ps[..n][1..] == ps[1..][..n - 1];
    } else {
      assert ps[..1][1..] == [];
    }
  }

  lemma {:induction false} RecoversJoin(ps: seq<Packed>, n: nat, overlap: int)
    requires 0 < n <= |ps| && Chained(ps, overlap) && ps[0].tail == ""
    ensures AllAdded(ps[..n]) != [] && Recovered(Render(ps), n, overlap) == Join(AllAdded(ps[..n]))
  {
    hide Join, Stripped, OverlapTail, Render, Trimmed, IsSentence;
    AllAddedNext(ps, n - 1);
    StripsTail(ps, n - 1, overlap);
    assert WellFormed(ps[n - 1]);
    if n > 1 {
      RecoversJoin(ps, n - 1, overlap);
      JoinConcat(AllAdded(ps[..n - 1]), ps[n - 1].added);
    } else {
      assert ps[..0] == [];
      assert [] + ps[0].added == ps[0].added;
    }
  }

  lemma {:induction false} JoinInk(ss: seq<string>)
    ensures Ink(Join(ss)) == Ink(Flatten(ss))
  {
    hide Ink;
    if ss == [] {
    } else {
      var (init, last) := (ss[..|ss| - 1], ss[|ss| - 1]);
      FlattenNext(init, last);
      assert ss == init + [last];
      InkConcat(Flatten(init), last);
      if |ss| == 1 {
        assert Flatten(init) + last == last;
      } else {
        JoinInk(init);
        InkConcat(Join(init) + " ", last);
        InkConcat(Join(init), " ");
        BlankIsSpace();
        InkOfSpace(" ");
        assert Ink(Join(init)) + "" == Ink(Join(init));
      }
    }
  }

  lemma {:induction false} FlattenNext(ss: seq<string>, s: string)
    ensures Flatten(ss + [s]) == Flatten(ss) + s
  {
    if ss == [] {
      assert ([] + [s])[1..] == [];
      assert s + "" == s;
    } else {
      FlattenNext(ss[1..], s);
      assert (ss + [s])[1..] == ss[1..] + [s];
    }
  }

  /** End to end: the chunks alone give back the sentences, blank-separated, and with
      them every character of the raw text that is not white space. */
  lemma ChunksLoseNothing(raw: string, target: int, overlap: int)
    ensures var chunks := Render(PackAll(SplitSentences(raw), target, overlap));
            && Recovered(chunks, |chunks|, overlap) == Join(SplitSentences(raw))
            && Ink(Recovered(chunks, |chunks|, overlap)) == Ink(raw)
  {
    hide Ink, Join, PackAll, SplitSentences, Chained, Flatten;
    var sentences := SplitSentences(raw);
    var ps := PackAll(sentences, target, overlap);
    SentencesAreTrimmed(raw);
    ChunksChain(sentences, target, overlap);
    PackingIsLossless(sentences, target, overlap);
    assert ps[..|ps|] == ps;
    if ps == [] {
      NoChunks(sentences);
    } else {
      FirstTail(sentences, target, overlap);
      RecoversJoin(ps, |ps|, overlap);
    }
    JoinInk(sentences);
    SentencesKeepInk(raw);
  }

  lemma NoChunks(sentences: seq<string>)
    ensures AllAdded([]) == [] && Join([]) == ""
  {
  }

  lemma FirstTail(sentences: seq<string>, target: int, overlap: int)
    requires PackAll(sentences, target, overlap) != []
    ensures sentences != []
  {
  }
}
