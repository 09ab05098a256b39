/** How large chunks get, and that packing without overlap takes as few as any split. */
module ChunkBounds {
  import opened Bounds
  import opened Text
  import opened Chunker
  import opened Packing

  // ---- Size --------------------------------------------------------------

  /** A chunk either fits the target or adds a single sentence. */
  predicate Bounded(p: Packed, target: int) { Fits(p.Text(), target) || |p.added| == 1 }

  lemma {:induction false} PackBounds(open: Packed, rest: seq<string>, target: int, overlap: int)
    requires open.added != [] && Bounded(open, target)
    ensures forall p | p in Pack(open, rest, target, overlap) :: Bounded(p, target)
    decreases |rest|
  {
    hide Packed.Text, OverlapTail, EstimateTokens;
    if rest != [] {
      if Fits(open.Text() + " " + rest[0], target) {
        TextGrows(open, rest[0]);
        PackBounds(open.(added := open.added + [rest[0]]), rest[1..], target, overlap);
      } else {
        PackBounds(Packed(OverlapTail(open.Text(), overlap), [rest[0]]), rest[1..], target, overlap);
      }
    }
  }

  /** Only a chunk with a single new sentence can be larger than the target. */
  lemma ChunksFitOrAddOne(sentences: seq<string>, target: int, overlap: int)
    ensures forall p | p in PackAll(sentences, target, overlap) :: Bounded(p, target)
  {
    hide Pack;
    if sentences != [] { PackBounds(Packed("", [sentences[0]]), sentences[1..], target, overlap); }
  }

  lemma SingleText(p: Packed)
    requires |p.added| == 1
    ensures p.Text() == if p.tail != "" then p.tail + " " + p.added[0] else p.added[0]
  {
    TextOfOne(p.tail, p.added[0]);
    assert p.added == [p.added[0]];
  }

  lemma {:induction false} AddedComeFrom(ps: seq<Packed>, p: Packed, s: string)
    requires p in ps && s in p.added
    ensures s in AllAdded(ps)
  {
    if p != ps[0] { AddedComeFrom(ps[1..], p, s); }
  }

  /** When every sentence fits, a chunk exceeds the target by the overlap and one token
      at most. */
  lemma ChunksWithinOverlap(sentences: seq<string>, target: int, overlap: int, i: nat)
    requires Sentences(sentences) && (forall s | s in sentences :: Fits(s, target))
    requires i < |PackAll(sentences, target, overlap)|
    ensures EstimateTokens(PackAll(sentences, target, overlap)[i].Text()) <= target + Max(0, overlap) + 1
  {
    hide PackAll, Packed.Text, OverlapTail, Trimmed, AllAdded;
    var ps := PackAll(sentences, target, overlap);
    ChunksFitOrAddOne(sentences, target, overlap);
    ChunksChain(sentences, target, overlap);
    PackingIsLossless(sentences, target, overlap);
    assert Bounded(ps[i], target);
    if |ps[i].added| == 1 {
      SingleText(ps[i]);
      AddedComeFrom(ps, ps[i], ps[i].added[0]);
      if i > 0 {
        TextTrimmed(ps[i - 1]);
        TailIsSuffix(ps[i - 1].Text(), overlap);
      } else {
        FirstTail(sentences, target, overlap);
      }
    }
  }

  /** Every chunk after the first repeats a real end of the one before, when overlap is
      asked for: not empty and at most four characters a token. */
  lemma TailsRepeat(sentences: seq<string>, target: int, overlap: int, i: nat)
    requires Sentences(sentences) && overlap > 0 && 0 < i < |PackAll(sentences, target, overlap)|
    ensures var (before, p) := (PackAll(sentences, target, overlap)[i - 1].Text(),
                                PackAll(sentences, target, overlap)[i]);
            && 1 <= |p.tail| <= 4 * overlap && |p.tail| <= |before| && p.tail == before[|before| - |p.tail|..]
            && p.tail <= p.Text()
  {
    hide PackAll, Trimmed, OverlapTail, Join;
    var ps := PackAll(sentences, target, overlap);
    ChunksChain(sentences, target, overlap);
    TextTrimmed(ps[i - 1]);
    TailIsSuffix(ps[i - 1].Text(), overlap);
    assert WellFormed(ps[i]);
    JoinConcat([ps[i].tail], ps[i].added);
    JoinOne(ps[i].tail);
  }

  /** With overlap, a chunk can be too large although every sentence fits and the chunk
      adds only one: the repeated tail takes the room. */
  lemma OversizedChunkExample()
    ensures var sentences := ["aaaaaaa.", "bbbbbbb."];
            && (forall s | s in sentences :: Fits(s, 2))
            && PackAll(sentences, 2, 1) == [Packed("", ["aaaaaaa."]), Packed("aaa.", ["bbbbbbb."])]
            && !Fits(Packed("aaa.", ["bbbbbbb."]).Text(), 2)
  {
    var sentences := ["aaaaaaa.", "bbbbbbb."];
    assert sentences[1..] == ["bbbbbbb."] && sentences[1..][1..] == [];
    TextOfOne("", "aaaaaaa.");
    TextOfOne("aaa.", "bbbbbbb.");
    ExampleTail();
  }

  lemma ExampleTail()
    ensures OverlapTail("aaaaaaa.", 1) == "aaa."
  {
    hide IsSpace;
    var window := "aaa.";
    assert "aaaaaaa."[4..] == window;
    LastBoundaryIs(window, -1);
    assert LastWhere(window, c => c == ' ', 4) == -1;
    assert window[0..] == window;
    ExampleTrimmed();
  }

  lemma ExampleTrimmed()
    ensures Trimmed("aaa.")
  {
  }

  // ---- Without overlap ---------------------------------------------------

  /** All chunks fit exactly when all sentences do. */
  lemma FitIffSentencesFit(sentences: seq<string>, target: int, overlap: int)
    requires overlap <= 0
    ensures (forall p | p in PackAll(sentences, target, overlap) :: Fits(p.Text(), target))
            <==> (forall s | s in sentences :: Fits(s, target))
  {
    hide PackAll, Packed.Text;
    var ps := PackAll(sentences, target, overlap);
    PackingIsLossless(sentences, target, overlap);
    ChunksFitOrAddOne(sentences, target, overlap);
    NoTails(sentences, target, overlap);
    forall p | p in ps ensures Fits(p.Text(), target) <==> (forall s | s in p.added :: Fits(s, target)) {
      if |p.added| == 1 { SingleText(p); } else { PartsAreShorter(p, target); }
    }
    AllInAdded(ps, target);
  }

  lemma {:induction false} NoTailsFrom(open: Packed, rest: seq<string>, target: int, overlap: int)
    requires overlap <= 0 && open.tail == "" && open.added != []
    ensures forall p | p in Pack(open, rest, target, overlap) :: p.tail == "" && p.added != []
    decreases |rest|
  {
    hide Packed.Text, Fits;
    if rest != [] {
      if Fits(open.Text() + " " + rest[0], target) {
        NoTailsFrom(open.(added := open.added + [rest[0]]), rest[1..], target, overlap);
      } else {
        NoTailsFrom(Packed("", [rest[0]]), rest[1..], target, overlap);
      }
    }
  }

  lemma NoTails(sentences: seq<string>, target: int, overlap: int)
    requires overlap <= 0
    ensures forall p | p in PackAll(sentences, target, overlap) :: p.tail == "" && p.added != []
  {
    if sentences != [] { NoTailsFrom(Packed("", [sentences[0]]), sentences[1..], target, overlap); }
  }

  lemma {:induction false} JoinLonger(ss: seq<string>, s: string)
    requires s in ss
    ensures |s| <= |Join(ss)|
  {
    if |ss| > 1 && s != ss[|ss| - 1] { JoinLonger(ss[..|ss| - 1], s); }
  }

  lemma PartsAreShorter(p: Packed, target: int)
    requires p.tail == "" && Bounded(p, target) && |p.added| != 1
    ensures forall s | s in p.added :: Fits(s, target)
    ensures Fits(p.Text(), target)
  {
    hide Join;
    forall s | s in p.added ensures Fits(s, target) { JoinLonger(p.added, s); }
  }

  lemma {:induction false} AllInAdded(ps: seq<Packed>, target: int)
    ensures (forall s | s in AllAdded(ps) :: Fits(s, target))
            <==> (forall p | p in ps :: forall s | s in p.added :: Fits(s, target))
  {
    hide Fits;
    if ps != [] {
      AllInAdded(ps[1..], target);
      assert ps == [ps[0]] + ps[1..];
    }
  }

  // ---- Optimality --------------------------------------------------------

  /** A run of sentences that may be one chunk. */
  predicate Allowed(run: seq<string>, target: int) {
    run != [] && (|run| == 1 || Fits(Join(run), target))
  }

  function Concat(runs: seq<seq<string>>): seq<string> {
    if runs == [] then [] else runs[0] + Concat(runs[1..])
  }

  lemma {:induction false} EndOfAllowed(run: seq<string>, k: nat, target: int)
    requires Allowed(run, target) && k < |run|
    ensures Allowed(run[k..], target)
  {
    hide Join;
    if k > 0 {
      JoinConcat(run[..k], run[k..]);
      assert run[..k] + run[k..] == run;
    } else {
      assert run[0..] == run;
    }
  }

  lemma StartOfAllowed(run: seq<string>, k: nat, target: int)
    requires Allowed(run, target) && 0 < k <= |run|
    ensures Allowed(run[..k], target)
  {
    hide Join;
    if k < |run| {
      JoinConcat(run[..k], run[k..]);
      assert run[..k] + run[k..] == run;
    } else {
      assert run[..k] == run;
    }
  }

  /** The first chunk takes in at least the allowed run `g` it starts with. */
  lemma {:induction false} FirstChunkReaches(open: seq<string>, rest: seq<string>, g: seq<string>, target: int,
                                             overlap: int)
    returns (h: seq<string>, after: seq<string>)
    requires overlap <= 0 && open != [] && Allowed(g, target)
    requires g <= open + rest
    ensures open <= h && |g| <= |h| && h + after == open + rest
    ensures Pack(Packed("", open), rest, target, overlap) == [Packed("", h)] + PackAll(after, target, overlap)
    decreases |rest|
  {
    hide EstimateTokens, Join;
    if rest == [] {
      h, after := open, [];
    } else {
      var text := Packed("", open).Text() + " " + rest[0];
      var next := open + [rest[0]];
      TextGrows(Packed("", open), rest[0]);
      assert next + rest[1..] == open + rest;
      if Fits(text, target) {
        h, after := FirstChunkReaches(next, rest[1..], g, target, overlap);
      } else {
        h, after := open, rest;
        if |open| < |g| {
          assert g[..|next|] == next;
          StartOfAllowed(g, |next|, target);
          assert false;
        }
      }
    }
  }

  /** Greedy stays ahead: what it has left is an end of what any other split has left. */
  lemma {:induction false} StaysAhead(left: seq<string>, k: nat, runs: seq<seq<string>>, target: int, overlap: int)
    requires overlap <= 0 && (forall r | r in runs :: Allowed(r, target))
    requires k <= |Concat(runs)| && left == Concat(runs)[k..]
    ensures |PackAll(left, target, overlap)| <= |runs|
    decreases |runs|
  {
    hide Pack, Join, Fits;
    if left != [] {
      var (run, later) := (runs[0], Concat(runs[1..]));
      if k >= |run| {
        assert left == later[k - |run|..];
        StaysAhead(left, k - |run|, runs[1..], target, overlap);
      } else {
        var g := run[k..];
        EndOfAllowed(run, k, target);
        assert left == g + later;
        assert [left[0]] + left[1..] == left;
        var h, after := FirstChunkReaches([left[0]], left[1..], g, target, overlap);
        assert after == later[|h| - |g|..] by { assert after == left[|h|..]; }
        StaysAhead(after, |h| - |g|, runs[1..], target, overlap);
      }
    }
  }

  /** No way to cut the sentences into allowed runs has fewer runs than there are chunks. */
  lemma GreedyIsOptimal(sentences: seq<string>, runs: seq<seq<string>>, target: int, overlap: int)
    requires overlap <= 0
    requires Concat(runs) == sentences && (forall r | r in runs :: Allowed(r, target))
    ensures |PackAll(sentences, target, overlap)| <= |runs|
  {
    hide PackAll, Concat, Allowed;
    assert sentences[0..] == sentences;
    StaysAhead(sentences, 0, runs, target, overlap);
  }

  /** The chunks are such a split themselves. */
  lemma GreedyIsASplit(sentences: seq<string>, target: int, overlap: int)
    requires overlap <= 0
    ensures var ps := PackAll(sentences, target, overlap);
            var runs := seq(|ps|, i requires 0 <= i < |ps| => ps[i].added);
            Concat(runs) == sentences && forall r | r in runs :: Allowed(r, target)
  {
    hide PackAll, Join, EstimateTokens;
    var ps := PackAll(sentences, target, overlap);
    var runs := seq(|ps|, i requires 0 <= i < |ps| => ps[i].added);
    PackingIsLossless(sentences, target, overlap);
    ChunksFitOrAddOne(sentences, target, overlap);
    NoTails(sentences, target, overlap);
    SameConcat(ps, runs);
    forall i | 0 <= i < |runs| ensures Allowed(runs[i], target) { assert ps[i] in ps; assert Bounded(ps[i], target); }
  }

  lemma {:induction false} SameConcat(ps: seq<Packed>, runs: seq<seq<string>>)
    requires |ps| == |runs| && forall i | 0 <= i < |ps| :: runs[i] == ps[i].added
    ensures Concat(runs) == AllAdded(ps)
  {
    if ps != [] { SameConcat(ps[1..], runs[1..]); }
  }
}
