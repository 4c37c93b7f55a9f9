/** The streaming pitch analyser: samples arrive in chunks of any size, and a window of `w` samples
    is analysed every `h` samples. The detector itself is a parameter. */
module YinStreams {
  import opened ScoringTypes

  /** How many windows lie completely within the first `len` samples. */
  function WindowCount(w: nat, h: nat, len: nat): nat
    requires 0 < h <= w
  {
    if len < w then 0 else (len - w) / h + 1
  }

  lemma MulOrder(h: int, a: int, b: int)
    requires h >= 0 && a <= b
    ensures a * h <= b * h
  {
    assert (b - a) * h >= 0;
  }

  lemma NextMultiple(k: int, h: int)
    ensures (k + 1) * h == k * h + h
  {}

  /** Window `k` is counted exactly when it ends within the input. */
  lemma Reaches(w: nat, h: nat, len: nat, k: nat)
    requires 0 < h <= w
    ensures k < WindowCount(w, h, len) <==> k * h + w <= len
  {
    MulOrder(h, 0, k);
    if len >= w {
      var q := (len - w) / h;
      assert q * h <= len - w < q * h + h by { assert h * q == q * h; }
      NextMultiple(q, h);
      if k <= q { MulOrder(h, k, q); } else { MulOrder(h, q + 1, k); }
    }
  }

  lemma CountGrows(w: nat, h: nat, len: nat, n: nat)
    requires 0 < h <= w
    ensures WindowCount(w, h, len) <= WindowCount(w, h, len + n)
    ensures n <= h ==> WindowCount(w, h, len + n) <= WindowCount(w, h, len) + 1
  {
    hide WindowCount;
    var a, b := WindowCount(w, h, len), WindowCount(w, h, len + n);
    if a > 0 {
      Reaches(w, h, len, a - 1);
      Reaches(w, h, len + n, a - 1);
    }
    if b > 1 {
      NextMultiple(b - 2, h);
      Reaches(w, h, len + n, b - 1);
      Reaches(w, h, len, b - 2);
    }
  }

  /** The sliding window that starts `k` hops into the input. */
  function Window(x: seq<real>, w: nat, h: nat, k: nat): seq<real>
    requires k * h + w <= |x|
  {
    assert 0 <= k * h;
    x[k * h..k * h + w]
  }

  /** The analyses of the first `n` sliding windows of `x`. */
  function Analyses<R>(detect: seq<real> -> R, x: seq<real>, w: nat, h: nat, n: nat): (r: seq<R>)
    requires 0 < h <= w && n <= WindowCount(w, h, |x|)
    ensures |r| == n
    ensures forall k :: 0 <= k < n ==> k * h + w <= |x| && r[k] == detect(Window(x, w, h, k))
  {
    if n == 0 then []
    else
      Reaches(w, h, |x|, n - 1);
      Analyses(detect, x, w, h, n - 1) + [detect(Window(x, w, h, n - 1))]
  }

  function AllAnalyses<R>(detect: seq<real> -> R, x: seq<real>, w: nat, h: nat): seq<R>
    requires 0 < h <= w
  {
    Analyses(detect, x, w, h, WindowCount(w, h, |x|))
  }

  /** Windows that are complete stay as they are when samples are added. */
  lemma {:induction false} AnalysesExtend<R>(detect: seq<real> -> R, x: seq<real>, y: seq<real>, w: nat, h: nat, n: nat)
    requires 0 < h <= w && n <= WindowCount(w, h, |x|)
    ensures n <= WindowCount(w, h, |x + y|)
    ensures Analyses(detect, x, w, h, n) == Analyses(detect, x + y, w, h, n)
    decreases n
  {
    hide WindowCount;
    CountGrows(w, h, |x|, |y|);
    if n > 0 {
      AnalysesExtend(detect, x, y, w, h, n - 1);
      Reaches(w, h, |x|, n - 1);
      assert Window(x + y, w, h, n - 1) == Window(x, w, h, n - 1);
    }
  }

  /** What `process` hands back for `samples` after `history`: the last window it completed. */
  function Returned<R>(detect: seq<real> -> R, history: seq<real>, samples: seq<real>, w: nat, h: nat): Option<R>
    requires 0 < h <= w
  {
    var a, b := WindowCount(w, h, |history|), WindowCount(w, h, |history + samples|);
    if b <= a then None else Some(AllAnalyses(detect, history + samples, w, h)[b - 1])
  }

  /** What `finish` hands back: the rest, padded with zeros to a full window. */
  function Padded<R>(detect: seq<real> -> R, x: seq<real>, w: nat, h: nat): Option<R>
    requires 0 < h <= w
  {
    RestFits(w, h, |x|);
    var rest := x[WindowCount(w, h, |x|) * h..];
    if rest == [] then None else Some(detect(rest + seq(w - |rest|, _ => 0.0)))
  }

  /** Fewer than a window's samples are left over. */
  lemma RestFits(w: nat, h: nat, len: nat)
    requires 0 < h <= w
    ensures 0 <= WindowCount(w, h, len) * h <= len < WindowCount(w, h, len) * h + w
  {
    hide WindowCount;
    Reaches(w, h, len, WindowCount(w, h, len));
    var n := WindowCount(w, h, len);
    if n > 0 {
      Reaches(w, h, len, n - 1);
      assert (n - 1) * h + h == n * h;
    }
    assert n * h >= 0;
  }

  /** The state of `process` between two windows: the first `|all|` windows of `x` are analysed,
      `first` of them before this call. */
  ghost predicate Analysed<R>(
    detect: seq<real> -> R, x: seq<real>, w: nat, h: nat, first: nat, all: seq<R>, overlap: seq<real>,
    last: Option<R>)
    requires 0 < h <= w
  {
    && first <= |all| <= WindowCount(w, h, |x|)
    && all == Analyses(detect, x, w, h, |all|)
    && Remains(x, |all| * h, overlap)
    && last == if |all| == first then None else Some(all[|all| - 1])
  }

  ghost predicate Remains(x: seq<real>, from: int, overlap: seq<real>) {
    0 <= from <= |x| && overlap == x[from..]
  }

  lemma AnalysedStarts<R>(
    detect: seq<real> -> R, history: seq<real>, samples: seq<real>, w: nat, h: nat, all: seq<R>,
    overlap: seq<real>)
    requires 0 < h <= w
    requires all == AllAnalyses(detect, history, w, h) && Remains(history, WindowCount(w, h, |history|) * h, overlap)
    ensures Analysed(detect, history + samples, w, h, |all|, all, overlap + samples, None)
  {
    hide WindowCount, Analyses;
    AnalysesExtend(detect, history, samples, w, h, |all|);
  }

  lemma AnalysedStep<R>(
    detect: seq<real> -> R, x: seq<real>, w: nat, h: nat, first: nat, all: seq<R>, overlap: seq<real>,
    last: Option<R>)
    requires 0 < h <= w && Analysed(detect, x, w, h, first, all, overlap, last) && |overlap| >= w
    ensures Analysed(detect, x, w, h, first, all + [detect(overlap[..w])], overlap[h..], Some(detect(overlap[..w])))
  {
    hide WindowCount;
    NextMultiple(|all|, h);
    Reaches(w, h, |x|, |all|);
    assert overlap[..w] == Window(x, w, h, |all|);
  }

  lemma AnalysedEnds<R>(
    detect: seq<real> -> R, history: seq<real>, samples: seq<real>, w: nat, h: nat, all: seq<R>,
    overlap: seq<real>, last: Option<R>)
    requires 0 < h <= w && |overlap| < w
    requires Analysed(detect, history + samples, w, h, WindowCount(w, h, |history|), all, overlap, last)
    ensures all == AllAnalyses(detect, history + samples, w, h)
    ensures Remains(history + samples, WindowCount(w, h, |history + samples|) * h, overlap)
    ensures last == Returned(detect, history, samples, w, h)
  {
    hide WindowCount, Window, Analyses;
    Reaches(w, h, |history + samples|, |all|);
  }

  class YinStream<R> {
    const windowSize: nat
    const hopSize: nat
    const detect: seq<real> -> R
    var overlap: seq<real>
    /** Every sample since the start, or since the last `finish`. */
    ghost var history: seq<real>
    /** Every analysis made of it. */
    ghost var analysed: seq<R>

    ghost predicate Valid()
      reads this
    {
      && 0 < hopSize <= windowSize
      && Remains(history, WindowCount(windowSize, hopSize, |history|) * hopSize, overlap)
      && analysed == AllAnalyses(detect, history, windowSize, hopSize)
      && |overlap| < windowSize
    }

    constructor (windowSize: nat, hopSize: nat, detect: seq<real> -> R)
      requires 0 < hopSize <= windowSize
      ensures Valid() && history == []
      ensures this.windowSize == windowSize && this.hopSize == hopSize && this.detect == detect
    {
      this.windowSize, this.hopSize, this.detect := windowSize, hopSize, detect;
      overlap, history, analysed := [], [], [];
    }

    /** Appends the samples and analyses every window they complete. */
    method Process(samples: seq<real>) returns (lastResult: Option<R>)
      requires Valid()
      modifies this
      ensures Valid() && history == old(history) + samples && |overlap| < windowSize
      ensures analysed == AllAnalyses(detect, history, windowSize, hopSize)
      ensures lastResult == Returned(detect, old(history), samples, windowSize, hopSize)
    {
      if samples == [] {
        assert history + [] == history;
        return None;
      }
      hide Analysed, WindowCount, Returned, AllAnalyses, Remains;
      ghost var first := |analysed|;
      AnalysedStarts(detect, history, samples, windowSize, hopSize, analysed, overlap);
      history := history + samples;
      overlap := overlap + samples;
      lastResult := None;
      while |overlap| >= windowSize
        invariant history == old(history) + samples
        invariant Analysed(detect, history, windowSize, hopSize, first, analysed, overlap, lastResult)
        decreases |overlap|
      {
        AnalysedStep(detect, history, windowSize, hopSize, first, analysed, overlap, lastResult);
        lastResult := Some(detect(overlap[..windowSize]));
        analysed := analysed + [detect(overlap[..windowSize])];
        overlap := overlap[hopSize..];
      }
      AnalysedEnds(detect, old(history), samples, windowSize, hopSize, analysed, overlap, lastResult);
    }

    /** Analyses what is left, padded with zeros, and starts afresh. */
    method Finish() returns (result: Option<R>)
      requires Valid()
      modifies this
      ensures Valid() && history == []
      ensures result == Padded(detect, old(history), windowSize, hopSize)
    {
      history, analysed := [], [];
      if overlap == [] { return None; }
      var window := overlap + seq(windowSize - |overlap|, _ => 0.0);
      overlap := [];
      result := Some(detect(window));
    }
  }

  // ----- Chunking does not matter ---------------------------------------------------------------

  function Concat(chunks: seq<seq<real>>): seq<real> {
    if chunks == [] then [] else Concat(chunks[..|chunks| - 1]) + chunks[|chunks| - 1]
  }

  /** Everything handed back while the chunks are processed one after the other. */
  function Results<R>(detect: seq<real> -> R, chunks: seq<seq<real>>, w: nat, h: nat): seq<R>
    requires 0 < h <= w
  {
    if chunks == [] then []
    else
      var front := chunks[..|chunks| - 1];
      Results(detect, front, w, h) +
      match Returned(detect, Concat(front), chunks[|chunks| - 1], w, h) case None => [] case Some(r) => [r]
  }

  /** How many windows a chunk completes after the chunks in `front`. */
  function Completed(front: seq<seq<real>>, chunk: seq<real>, w: nat, h: nat): int
    requires 0 < h <= w
  {
    WindowCount(w, h, |Concat(front) + chunk|) - WindowCount(w, h, |Concat(front)|)
  }

  /** No call completes more than one window. */
  ghost predicate OneEach(chunks: seq<seq<real>>, w: nat, h: nat)
    requires 0 < h <= w
  {
    forall i :: 0 <= i < |chunks| ==> Completed(chunks[..i], chunks[i], w, h) <= 1
  }

  lemma OneEachNext(chunks: seq<seq<real>>, w: nat, h: nat)
    requires 0 < h <= w && chunks != []
    ensures var front, last := chunks[..|chunks| - 1], chunks[|chunks| - 1];
            OneEach(chunks, w, h) <==> OneEach(front, w, h) && Completed(front, last, w, h) <= 1
  {
    hide Completed;
    var front := chunks[..|chunks| - 1];
    assert forall i :: 0 <= i < |front| ==> chunks[i] == front[i] && chunks[..i] == front[..i];
  }

  /** A call that completes at most one window hands back every analysis it makes. */
  lemma OneKept<R>(detect: seq<real> -> R, x: seq<real>, y: seq<real>, w: nat, h: nat)
    requires 0 < h <= w && WindowCount(w, h, |x + y|) <= WindowCount(w, h, |x|) + 1
    ensures AllAnalyses(detect, x + y, w, h) ==
            AllAnalyses(detect, x, w, h) + match Returned(detect, x, y, w, h) case None => [] case Some(r) => [r]
  {
    CountGrows(w, h, |x|, |y|);
    AnalysesExtend(detect, x, y, w, h, WindowCount(w, h, |x|));
  }

  lemma HopKeepsAll<R>(detect: seq<real> -> R, x: seq<real>, y: seq<real>, w: nat, h: nat)
    requires 0 < h <= w && |y| <= h
    ensures AllAnalyses(detect, x + y, w, h) ==
            AllAnalyses(detect, x, w, h) + match Returned(detect, x, y, w, h) case None => [] case Some(r) => [r]
  {
    CountGrows(w, h, |x|, |y|);
    OneKept(detect, x, y, w, h);
  }

  /** Main result: as many results are handed back as analyses are made if and only if no call completes
      more than one window; then they are the analyses of exactly the sliding windows of the input. */
  lemma {:induction false} NothingDroppedExactly<R>(detect: seq<real> -> R, chunks: seq<seq<real>>, w: nat, h: nat)
    requires 0 < h <= w
    ensures |Results(detect, chunks, w, h)| <= |AllAnalyses(detect, Concat(chunks), w, h)|
    ensures |Results(detect, chunks, w, h)| == |AllAnalyses(detect, Concat(chunks), w, h)| <==> OneEach(chunks, w, h)
    ensures OneEach(chunks, w, h) ==> Results(detect, chunks, w, h) == AllAnalyses(detect, Concat(chunks), w, h)
    decreases |chunks|
  {
    hide WindowCount, OneEach;
    if chunks == [] {
      NoChunks(w, h);
    } else {
      var front, last := chunks[..|chunks| - 1], chunks[|chunks| - 1];
      NothingDroppedExactly(detect, front, w, h);
      OneEachNext(chunks, w, h);
      CountGrows(w, h, |Concat(front)|, |last|);
      if Completed(front, last, w, h) <= 1 { OneKept(detect, Concat(front), last, w, h); }
    }
  }

  lemma NoChunks(w: nat, h: nat)
    requires 0 < h <= w
    ensures WindowCount(w, h, |Concat([])|) == 0 && OneEach([], w, h)
  {}

  /** In particular nothing is dropped, whatever the chunking, when no call feeds more than one hop. */
  lemma {:induction false} HopsDropNothing<R>(detect: seq<real> -> R, chunks: seq<seq<real>>, w: nat, h: nat)
    requires 0 < h <= w && forall i :: 0 <= i < |chunks| ==> |chunks[i]| <= h
    ensures Results(detect, chunks, w, h) == AllAnalyses(detect, Concat(chunks), w, h)
  {
    hide WindowCount, Results, AllAnalyses;
    forall i | 0 <= i < |chunks|
      ensures Completed(chunks[..i], chunks[i], w, h) <= 1
    {
      CountGrows(w, h, |Concat(chunks[..i])|, |chunks[i]|);
    }
    NothingDroppedExactly(detect, chunks, w, h);
  }

  // ----- What is analysed ------------------------------------------------------------------------

  /** Main result: the analyses are those of the windows that end within the input, the k-th starting `k`
      hops into it. */
  lemma SlidingWindows<R>(detect: seq<real> -> R, x: seq<real>, w: nat, h: nat, k: nat)
    requires 0 < h <= w
    ensures 0 <= k * h && (k < |AllAnalyses(detect, x, w, h)| <==> k * h + w <= |x|)
    ensures k * h + w <= |x| ==> AllAnalyses(detect, x, w, h)[k] == detect(x[k * h..k * h + w])
  {
    MulOrder(h, 0, k);
    Reaches(w, h, |x|, k);
    hide WindowCount;
  }

  /** Main result: a call hands back the analysis of the last window that ends within what was fed so far,
      if that window did not end within what was fed before. */
  lemma LastWindowReturned<R>(detect: seq<real> -> R, history: seq<real>, samples: seq<real>, w: nat, h: nat, k: nat)
    requires 0 < h <= w
    ensures var x := history + samples;
            && 0 <= k * h
            && (|x| < w ==> Returned(detect, history, samples, w, h) == None)
            && (k * h + w <= |x| < k * h + h + w ==>
                  Returned(detect, history, samples, w, h) ==
                    if k * h + w <= |history| then None else Some(detect(x[k * h..k * h + w])))
  {
    var x := history + samples;
    SlidingWindows(detect, x, w, h, k);
    NextMultiple(k, h);
    Reaches(w, h, |x|, k + 1);
    Reaches(w, h, |x|, k);
    Reaches(w, h, |history|, k);
    CountGrows(w, h, |history|, |samples|);
    if |x| >= w { hide WindowCount; }
  }

  /** The rest of `x` from index `from` on, filled up with silence to the length of a window. */
  ghost predicate IsPadding(x: seq<real>, from: int, w: nat, window: seq<real>) {
    && 0 <= from <= |x| && |window| == w
    && forall i :: 0 <= i < w ==> window[i] == if from + i < |x| then x[from + i] else 0.0
  }

  /** Main result: at the end what no window started with is analysed, followed by silence up to the length
      of a window. */
  lemma RestPadded<R>(detect: seq<real> -> R, x: seq<real>, w: nat, h: nat, k: nat, window: seq<real>)
    requires 0 < h <= w && |x| < k * h + w && (k > 0 ==> (k - 1) * h + w <= |x|)
    requires IsPadding(x, k * h, w, window)
    ensures Padded(detect, x, w, h) == if k * h == |x| then None else Some(detect(window))
  {
    hide WindowCount, IsPadding, Padded;
    AllStarted(w, h, |x|, k);
    PaddedFrom(detect, x, w, h, k * h, window);
  }

  lemma PaddedFrom<R>(detect: seq<real> -> R, x: seq<real>, w: nat, h: nat, from: int, window: seq<real>)
    requires 0 < h <= w && from == WindowCount(w, h, |x|) * h && |x| < from + w && IsPadding(x, from, w, window)
    ensures Padded(detect, x, w, h) == if from == |x| then None else Some(detect(window))
  {
    hide WindowCount, IsPadding;
    PaddingIs(x, from, w, window);
    assert 0 <= from <= |x| by { RestFits(w, h, |x|); }
  }

  lemma AllStarted(w: nat, h: nat, len: nat, k: nat)
    requires 0 < h <= w && len < k * h + w && (k > 0 ==> (k - 1) * h + w <= len)
    ensures WindowCount(w, h, len) == k
  {
    Reaches(w, h, len, k);
    if k > 0 { Reaches(w, h, len, k - 1); }
    hide WindowCount;
  }

  lemma PaddingIs(x: seq<real>, from: int, w: nat, window: seq<real>)
    requires IsPadding(x, from, w, window) && |x| < from + w
    ensures window == x[from..] + seq(w - |x[from..]|, _ => 0.0)
  {}
}
