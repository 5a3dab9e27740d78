/** Which lines of an example are found in the segments that annotating it gives. */
module Coverage {
  import opened GoStrings
  import opened Wrappers
  import opened Annotate

  // ---- Segments ------------------------------------------------------------------------------

  /** The segment is code, and line `k` is one of its lines. */
  predicate Spans(segment: Segment, k: int) {
    segment.Code? && segment.begin <= k <= segment.end
  }

  /** How many segments span line `k`. */
  function Spanning(segments: seq<Segment>, k: int): nat {
    if segments == [] then 0
    else Spanning(segments[..|segments| - 1], k) + if Spans(segments[|segments| - 1], k) then 1 else 0
  }

  lemma {:induction false} SpanningBoth(a: seq<Segment>, b: seq<Segment>, k: int)
    ensures Spanning(a + b, k) == Spanning(a, k) + Spanning(b, k)
  {
    if b == [] {
      assert a + b == a;
    } else {
      SpanningBoth(a, b[..|b| - 1], k);
      assert (a + b)[..|a + b| - 1] == a + b[..|b| - 1];
    }
  }

  /** A code segment consists of the lines that it says it does. */
  predicate Honest(lines: seq<string>, segment: Segment) {
    segment.Code? ==>
      && 0 <= segment.begin <= segment.end < |lines|
      && SplitLines(segment.code) == lines[segment.begin..segment.end + 1]
  }

  predicate AllHonest(lines: seq<string>, segments: seq<Segment>) {
    forall i :: 0 <= i < |segments| ==> Honest(lines, segments[i])
  }

  predicate AreLines(lines: seq<string>) {
    forall k :: 0 <= k < |lines| ==> '\n' !in lines[k]
  }

  // ---- Chunks --------------------------------------------------------------------------------

  /** A chunk is dropped exactly if all of its lines are blank. */
  lemma ChunkDroppedIff(lines: seq<string>, begin: nat, end: nat)
    requires begin <= end <= |lines|
    ensures Chunk(lines, begin, end) == [] <==> forall k :: begin <= k < end ==> Blank(lines[k])
  {
    var chunk := lines[begin..end];
    BlankJoin(chunk);
    assert forall k :: begin <= k < end ==> lines[k] == chunk[k - begin];
    assert forall i :: 0 <= i < |chunk| ==> chunk[i] == lines[begin + i];
    hide Blank, Join;
  }

  lemma ChunkIsHonest(lines: seq<string>, begin: nat, end: nat)
    requires begin <= end <= |lines| && AreLines(lines)
    ensures AllHonest(lines, Chunk(lines, begin, end))
  {
    var chunk := lines[begin..end];
    if chunk != [] {
      JoinThenSplit(chunk);
    }
    hide Join, SplitLines;
  }

  /** A line that is not blank is in the chunk that it falls into. */
  lemma ChunkSpans(lines: seq<string>, begin: nat, end: nat, k: nat)
    requires begin <= end <= |lines| && k < |lines| && !Blank(lines[k])
    ensures Spanning(Chunk(lines, begin, end), k) == if begin <= k < end then 1 else 0
  {
    ChunkDroppedIff(lines, begin, end);
    var chunk := Chunk(lines, begin, end);
    assert chunk == [] || chunk[..|chunk| - 1] == [];
    hide Blank, Join;
  }

  // ---- All segments --------------------------------------------------------------------------

  lemma {:induction false} InterleavedIsHonest(lines: seq<string>, lineMap: seq<int>, annotations: seq<Annotation>, j: nat)
    requires |lineMap| <= |lines| && j <= |annotations| && AreLines(lines)
    ensures AllHonest(lines, Interleaved(lines, lineMap, annotations, j))
  {
    if j > 0 {
      InterleavedIsHonest(lines, lineMap, annotations, j - 1);
      ChunkIsHonest(lines, Placed(lineMap, annotations, j - 1), Placed(lineMap, annotations, j));
      hide Honest, Chunk, Placed;
    }
  }

  /** Every code segment holds the lines of the source that it is numbered with. */
  lemma MergedIsHonest(lines: seq<string>, lineMap: seq<int>, annotations: seq<Annotation>)
    requires |lineMap| <= |lines| && InOrder(annotations) && AreLines(lines)
    ensures AllHonest(lines, Merged(lines, lineMap, annotations))
  {
    InterleavedIsHonest(lines, lineMap, annotations, |annotations|);
    if TailStart(annotations) < |lines| {
      ChunkIsHonest(lines, TailStart(annotations), |lines|);
    }
    hide Honest, Chunk, Interleaved;
  }

  lemma SpanningThree(a: seq<Segment>, b: seq<Segment>, annotation: Annotation, k: int)
    ensures Spanning(a + b + [Output(annotation)], k) == Spanning(a, k) + Spanning(b, k)
  {
    SpanningBoth(a, b, k);
    assert (a + b + [Output(annotation)])[..|a + b|] == a + b;
  }

  function One(b: bool): nat {
    if b then 1 else 0
  }

  /** A line that is not blank is in one of the segments up to annotation `j` if it has been placed by
      then, and in none if not. */
  predicate SpannedUpTo(lines: seq<string>, lineMap: seq<int>, annotations: seq<Annotation>, j: nat, k: nat)
    requires |lineMap| <= |lines| && j <= |annotations|
  {
    Spanning(Interleaved(lines, lineMap, annotations, j), k) == One(k < Placed(lineMap, annotations, j))
  }

  lemma {:induction false} InterleavedSpans(lines: seq<string>, lineMap: seq<int>, annotations: seq<Annotation>, j: nat, k: nat)
    requires |lineMap| <= |lines| && j <= |annotations| && k < |lines| && !Blank(lines[k])
    ensures SpannedUpTo(lines, lineMap, annotations, j, k)
  {
    hide Blank;
    if j == 0 {
      NothingPlaced(lines, lineMap, annotations);
    } else {
      InterleavedSpans(lines, lineMap, annotations, j - 1, k);
      SpansOneMore(lines, lineMap, annotations, j, k);
    }
  }

  lemma SpansOneMore(lines: seq<string>, lineMap: seq<int>, annotations: seq<Annotation>, j: nat, k: nat)
    requires |lineMap| <= |lines| && 0 < j <= |annotations| && k < |lines| && !Blank(lines[k])
    requires SpannedUpTo(lines, lineMap, annotations, j - 1, k)
    ensures SpannedUpTo(lines, lineMap, annotations, j, k)
  {
    OneMore(lines, lineMap, annotations, j - 1);
    hide Interleaved, Chunk, Placed, Blank, Spanning;
    var begin, end := Placed(lineMap, annotations, j - 1), Placed(lineMap, annotations, j);
    ChunkSpans(lines, begin, end, k);
    SpanningThree(Interleaved(lines, lineMap, annotations, j - 1), Chunk(lines, begin, end), annotations[j - 1], k);
  }

  /** A line that is not blank is spanned once if it has been placed, and once more if it is behind the
      program line of the last annotation. */
  lemma MergedSpans(lines: seq<string>, lineMap: seq<int>, annotations: seq<Annotation>, k: nat)
    requires |lineMap| <= |lines| && InOrder(annotations) && k < |lines| && !Blank(lines[k])
    ensures Spanning(Merged(lines, lineMap, annotations), k)
         == One(k < Placed(lineMap, annotations, |annotations|)) + One(TailStart(annotations) <= k)
  {
    InterleavedSpans(lines, lineMap, annotations, |annotations|, k);
    var start := TailStart(annotations);
    if start < |lines| {
      ChunkSpans(lines, start, |lines|, k);
    }
    hide Interleaved, Chunk, Placed, Blank;
    SpanningBoth(Interleaved(lines, lineMap, annotations, |annotations|), Remaining(lines, start), k);
  }

  /** The segments between two annotations span exactly the lines that are not blank and for which the
      second one is the first annotation at or past the line that they became. */
  lemma SpannedInFrontOf(lines: seq<string>, lineMap: seq<int>, annotations: seq<Annotation>, j: nat, k: nat)
    requires |lineMap| <= |lines| && NonDecreasing(lineMap) && InOrder(annotations)
    requires j < |annotations| && k < |lineMap| && !Blank(lines[k])
    ensures Spanning(PlacedMore(lines, lineMap, annotations, j), k) == 1 <==>
            && lineMap[k] <= annotations[j].line
            && forall i :: 0 <= i < j ==> annotations[i].line < lineMap[k]
  {
    PlacedBeforeFirstAtOrPast(lineMap, annotations, j, k);
    ChunkSpans(lines, Placed(lineMap, annotations, j), Placed(lineMap, annotations, j + 1), k);
    hide Blank, Chunk, Placed;
  }

  // ---- Where the code is ---------------------------------------------------------------------

  /** The annotations among the segments. */
  function Outputs(segments: seq<Segment>): seq<Annotation> {
    if segments == [] then []
    else
      var last := segments[|segments| - 1];
      Outputs(segments[..|segments| - 1]) + if last.Output? then [last.annotation] else []
  }

  /** How many segments that span line `k` have exactly `j` annotations in front of them. */
  function SpanningAt(segments: seq<Segment>, j: int, k: int): nat {
    if segments == [] then 0
    else
      var init := segments[..|segments| - 1];
      SpanningAt(init, j, k) + if Spans(segments[|segments| - 1], k) && |Outputs(init)| == j then 1 else 0
  }

  lemma {:induction false} OutputsBoth(a: seq<Segment>, b: seq<Segment>)
    ensures Outputs(a + b) == Outputs(a) + Outputs(b)
  {
    if b == [] {
      assert a + b == a;
    } else {
      OutputsBoth(a, b[..|b| - 1]);
      assert (a + b)[..|a + b| - 1] == a + b[..|b| - 1];
    }
  }

  lemma {:induction false} SpanningAtBoth(a: seq<Segment>, b: seq<Segment>, j: int, k: int)
    ensures SpanningAt(a + b, j, k) == SpanningAt(a, j, k) + SpanningAt(b, j - |Outputs(a)|, k)
  {
    if b == [] {
      assert a + b == a;
    } else {
      var init := b[..|b| - 1];
      SpanningAtBoth(a, init, j, k);
      OutputsBoth(a, init);
      assert (a + b)[..|a + b| - 1] == a + init;
    }
  }

  /** The annotations among the segments are those that were merged, in order. */
  lemma {:induction false} InterleavedOutputs(lines: seq<string>, lineMap: seq<int>, annotations: seq<Annotation>, n: nat)
    requires |lineMap| <= |lines| && n <= |annotations|
    ensures Outputs(Interleaved(lines, lineMap, annotations, n)) == annotations[..n]
  {
    hide Chunk;
    if n > 0 {
      InterleavedOutputs(lines, lineMap, annotations, n - 1);
      ChunkOutputs(lines, Placed(lineMap, annotations, n - 1), Placed(lineMap, annotations, n));
      BehindOutput(Interleaved(lines, lineMap, annotations, n - 1), PlacedMore(lines, lineMap, annotations, n - 1),
                   annotations[n - 1], 0, 0);
      UpToOneMore(annotations, n);
    }
  }

  lemma MergedOutputs(lines: seq<string>, lineMap: seq<int>, annotations: seq<Annotation>)
    requires |lineMap| <= |lines| && InOrder(annotations)
    ensures Outputs(Merged(lines, lineMap, annotations)) == annotations
  {
    var n, start := |annotations|, TailStart(annotations);
    InterleavedOutputs(lines, lineMap, annotations, n);
    RemainingOutputs(lines, start);
    OutputsBoth(Interleaved(lines, lineMap, annotations, n), Remaining(lines, start));
    assert annotations[..n] + [] == annotations;
    hide Interleaved, Remaining;
  }

  lemma RemainingOutputs(lines: seq<string>, start: nat)
    ensures Outputs(Remaining(lines, start)) == []
  {
    hide Chunk;
    if start < |lines| {
      ChunkOutputs(lines, start, |lines|);
    }
  }

  lemma ChunkAt(lines: seq<string>, begin: nat, end: nat, j: int, k: nat)
    requires begin <= end <= |lines| && k < |lines| && !Blank(lines[k])
    ensures SpanningAt(Chunk(lines, begin, end), j, k) == if j == 0 && begin <= k < end then 1 else 0
  {
    ChunkDroppedIff(lines, begin, end);
    var chunk := Chunk(lines, begin, end);
    assert chunk == [] || chunk[..|chunk| - 1] == [];
    hide Blank, Join;
  }

  /** Line `k` goes in front of annotation `j`. */
  predicate GoesTo(lineMap: seq<int>, annotations: seq<Annotation>, j: int, k: nat) {
    0 <= j < |annotations| && Placed(lineMap, annotations, j) <= k < Placed(lineMap, annotations, j + 1)
  }

  /** A line that is not blank is where it goes. */
  predicate InPlace(segments: seq<Segment>, lineMap: seq<int>, annotations: seq<Annotation>, n: nat, j: int, k: nat) {
    SpanningAt(segments, j, k) == One(j < n && GoesTo(lineMap, annotations, j, k))
  }

  lemma {:induction false} InterleavedAt(lines: seq<string>, lineMap: seq<int>, annotations: seq<Annotation>,
                                         n: nat, j: int, k: nat)
    requires |lineMap| <= |lines| && n <= |annotations| && k < |lines| && !Blank(lines[k])
    ensures InPlace(Interleaved(lines, lineMap, annotations, n), lineMap, annotations, n, j, k)
  {
    hide Blank, Chunk, Placed;
    if n > 0 {
      InterleavedAt(lines, lineMap, annotations, n - 1, j, k);
      InterleavedOutputs(lines, lineMap, annotations, n - 1);
      OneMore(lines, lineMap, annotations, n - 1);
      ChunkGoesTo(lines, lineMap, annotations, n - 1, j, k);
      hide *;
      OneMoreAt(Interleaved(lines, lineMap, annotations, n - 1),
                Chunk(lines, Placed(lineMap, annotations, n - 1), Placed(lineMap, annotations, n)),
                lineMap, annotations, n, j, k);
    }
  }

  lemma ChunkGoesTo(lines: seq<string>, lineMap: seq<int>, annotations: seq<Annotation>, i: nat, j: int, k: nat)
    requires |lineMap| <= |lines| && i < |annotations| && k < |lines| && !Blank(lines[k])
    ensures Placed(lineMap, annotations, i) <= Placed(lineMap, annotations, i + 1)
    ensures ChunkIn(Chunk(lines, Placed(lineMap, annotations, i), Placed(lineMap, annotations, i + 1)),
                    lineMap, annotations, i, j, k)
  {
    ChunkOutputs(lines, Placed(lineMap, annotations, i), Placed(lineMap, annotations, i + 1));
    hide Chunk, Blank, SpanningAt, Outputs;
    ChunkAt(lines, Placed(lineMap, annotations, i), Placed(lineMap, annotations, i + 1), j - i, k);
  }

  lemma ChunkOutputs(lines: seq<string>, begin: nat, end: nat)
    requires begin <= end <= |lines|
    ensures Outputs(Chunk(lines, begin, end)) == []
  {
    var chunk := Chunk(lines, begin, end);
    assert chunk == [] || chunk[..|chunk| - 1] == [];
    hide Blank, Join;
  }

  /** The chunk is code in front of annotation `i`, and has line `k` if that goes there. */
  predicate ChunkIn(chunk: seq<Segment>, lineMap: seq<int>, annotations: seq<Annotation>, i: nat, j: int, k: nat) {
    && Outputs(chunk) == []
    && SpanningAt(chunk, j - i, k) == One(j == i && GoesTo(lineMap, annotations, i, k))
  }

  lemma OneMoreAt(before: seq<Segment>, chunk: seq<Segment>, lineMap: seq<int>, annotations: seq<Annotation>,
                  n: nat, j: int, k: nat)
    requires 0 < n <= |annotations| && |Outputs(before)| == n - 1
    requires InPlace(before, lineMap, annotations, n - 1, j, k) && ChunkIn(chunk, lineMap, annotations, n - 1, j, k)
    ensures InPlace(before + chunk + [Output(annotations[n - 1])], lineMap, annotations, n, j, k)
  {
    BehindOutput(before, chunk, annotations[n - 1], j, k);
    hide SpanningAt, Outputs, GoesTo;
  }

  lemma UpToOneMore(annotations: seq<Annotation>, n: nat)
    requires 0 < n <= |annotations|
    ensures annotations[..n] == annotations[..n - 1] + [annotations[n - 1]]
  {
  }

  lemma BehindOutput(before: seq<Segment>, chunk: seq<Segment>, annotation: Annotation, j: int, k: int)
    requires Outputs(chunk) == []
    ensures Outputs(before + chunk + [Output(annotation)]) == Outputs(before) + [annotation]
    ensures SpanningAt(before + chunk + [Output(annotation)], j, k)
         == SpanningAt(before, j, k) + SpanningAt(chunk, j - |Outputs(before)|, k)
  {
    SpanningAtBoth(before, chunk, j, k);
    OutputsBoth(before, chunk);
    var segments := before + chunk;
    assert (segments + [Output(annotation)])[..|segments|] == segments;
    assert Outputs(before) + [] == Outputs(before);
  }

  lemma MergedAt(lines: seq<string>, lineMap: seq<int>, annotations: seq<Annotation>, j: int, k: nat)
    requires |lineMap| <= |lines| && InOrder(annotations) && k < |lines| && !Blank(lines[k])
    ensures SpanningAt(Merged(lines, lineMap, annotations), j, k)
         == if j == |annotations| then One(TailStart(annotations) <= k) else One(GoesTo(lineMap, annotations, j, k))
  {
    var n, start := |annotations|, TailStart(annotations);
    InterleavedAt(lines, lineMap, annotations, n, j, k);
    InterleavedOutputs(lines, lineMap, annotations, n);
    RemainingAt(lines, start, j - n, k);
    hide Interleaved, Remaining, Placed, Blank, SpanningAt, Outputs;
    SpanningAtBoth(Interleaved(lines, lineMap, annotations, n), Remaining(lines, start), j, k);
  }

  lemma RemainingAt(lines: seq<string>, start: nat, j: int, k: nat)
    requires k < |lines| && !Blank(lines[k])
    ensures SpanningAt(Remaining(lines, start), j, k) == One(j == 0 && start <= k)
  {
    hide Chunk, Blank;
    if start < |lines| {
      ChunkAt(lines, start, |lines|, j, k);
    }
  }

  /** With a map that never goes back, a line of the source that is not blank is in the code in front of
      annotation `j` exactly if that is the first annotation at or past the line that it became. */
  lemma InlinedWithMap(source: string, lineMap: seq<int>, annotations: seq<Annotation>, j: nat, k: nat)
    requires Fits(source, Some(lineMap)) && NonDecreasing(lineMap) && InOrder(annotations) && j < |annotations|
    requires k < |SplitLines(source)| && !Blank(SplitLines(source)[k])
    ensures var inFront := SpanningAt(Inlined(source, Some(lineMap), annotations), j, k);
            && (inFront == 1 <==>
                  && k < |lineMap| && lineMap[k] <= annotations[j].line
                  && forall i :: 0 <= i < j ==> annotations[i].line < lineMap[k])
            && inFront <= 1
  {
    MergedAt(SplitLines(source), lineMap, annotations, j, k);
    hide Merged, Blank, SplitLines, SpanningAt, Placed;
    if k < |lineMap| {
      PlacedBeforeFirstAtOrPast(lineMap, annotations, j, k);
    }
  }

  /** Without a map, it is there exactly if that is the first annotation at or past the line itself. */
  lemma InlinedWithoutMap(source: string, annotations: seq<Annotation>, j: nat, k: nat)
    requires InOrder(annotations) && j < |annotations|
    requires k < |SplitLines(source)| && !Blank(SplitLines(source)[k])
    ensures var inFront := SpanningAt(Inlined(source, None, annotations), j, k);
            && (inFront == 1 <==> k <= annotations[j].line && forall i :: 0 <= i < j ==> annotations[i].line < k)
            && inFront <= 1
  {
    var lineMap := Identity(|SplitLines(source)|);
    MergedAt(SplitLines(source), lineMap, annotations, j, k);
    hide Merged, Blank, SplitLines, SpanningAt, Placed;
    PlacedBeforeFirstAtOrPast(lineMap, annotations, j, k);
  }

  lemma AllOutputs(source: string, lineMap: Option<seq<int>>, annotations: seq<Annotation>)
    requires Fits(source, lineMap) && InOrder(annotations)
    ensures Outputs(Inlined(source, lineMap, annotations)) == annotations
  {
    MergedOutputs(SplitLines(source), MapFor(SplitLines(source), lineMap), annotations);
    hide Merged, SplitLines;
  }

  /** All annotations are there, in order. Behind the last one is every line that is not blank and whose
      number is past that annotation's; the map does not matter for that. */
  lemma InlinedBehindLast(source: string, lineMap: Option<seq<int>>, annotations: seq<Annotation>, k: nat)
    requires Fits(source, lineMap) && InOrder(annotations)
    requires k < |SplitLines(source)| && !Blank(SplitLines(source)[k])
    ensures var segments, n := Inlined(source, lineMap, annotations), |annotations|;
            && Outputs(segments) == annotations
            && SpanningAt(segments, n, k) == if k > (if n == 0 then 0 else annotations[n - 1].line) then 1 else 0
  {
    AllOutputs(source, lineMap, annotations);
    MergedAt(SplitLines(source), MapFor(SplitLines(source), lineMap), annotations, |annotations|, k);
    hide Merged, Blank, SplitLines, SpanningAt;
  }

  // ---- Covering ------------------------------------------------------------------------------

  /** Every line that is not blank is in exactly one code segment. */
  predicate Covers(lines: seq<string>, segments: seq<Segment>) {
    forall k :: 0 <= k < |lines| && !Blank(lines[k]) ==> Spanning(segments, k) == 1
  }

  /** Line `k` became a line of the program that is at or in front of `last` exactly if `k` is. */
  predicate Agrees(lineMap: seq<int>, last: int, k: nat) {
    k < |lineMap| && lineMap[k] <= last <==> k <= last
  }

  lemma SpannedOnceIff(lines: seq<string>, lineMap: seq<int>, annotations: seq<Annotation>, k: nat)
    requires |lineMap| <= |lines| && NonDecreasing(lineMap) && InOrder(annotations) && annotations != []
    requires k < |lines| && !Blank(lines[k])
    ensures Spanning(Merged(lines, lineMap, annotations), k) == 1 <==>
            Agrees(lineMap, annotations[|annotations| - 1].line, k)
  {
    MergedSpans(lines, lineMap, annotations, k);
    hide Merged, Blank;
    if k < |lineMap| {
      PlacedIff(lineMap, annotations, |annotations|, k);
    }
    hide Placed;
  }

  /** The lines behind the last annotation are counted in lines of the program, not of the source. All
      lines are covered exactly if the two ways of counting agree on which lines are behind it. */
  lemma CoversIff(lines: seq<string>, lineMap: seq<int>, annotations: seq<Annotation>)
    requires |lineMap| <= |lines| && NonDecreasing(lineMap) && InOrder(annotations) && annotations != []
    ensures Covers(lines, Merged(lines, lineMap, annotations)) <==>
            forall k :: 0 <= k < |lines| && !Blank(lines[k]) ==> Agrees(lineMap, annotations[|annotations| - 1].line, k)
  {
    forall k: nat | k < |lines| && !Blank(lines[k])
      ensures Spanning(Merged(lines, lineMap, annotations), k) == 1 <==>
              Agrees(lineMap, annotations[|annotations| - 1].line, k)
    {
      SpannedOnceIff(lines, lineMap, annotations, k);
    }
    hide Merged, Blank, Agrees, Spanning;
  }

  /** Without annotations the first line is lost, whatever the map, and no other. */
  lemma NoAnnotationsLoseFirstLine(lines: seq<string>, lineMap: seq<int>, k: nat)
    requires |lineMap| <= |lines| && k < |lines| && !Blank(lines[k])
    ensures InOrder([]) && Spanning(Merged(lines, lineMap, []), k) == if k == 0 then 0 else 1
  {
    MergedSpans(lines, lineMap, [], k);
    hide Merged, Blank;
  }

  // ---- What annotating gives -----------------------------------------------------------------

  /** Every code segment holds the lines of the source that it is numbered with. */
  lemma InlinedIsHonest(source: string, lineMap: Option<seq<int>>, annotations: seq<Annotation>)
    requires Fits(source, lineMap) && InOrder(annotations)
    ensures AllHonest(SplitLines(source), Inlined(source, lineMap, annotations))
  {
    MergedIsHonest(SplitLines(source), MapFor(SplitLines(source), lineMap), annotations);
    hide Merged, SplitLines, Honest;
  }

  /** With a map that never goes back every line is covered exactly if, for each one that is not blank,
      it became a program line at or in front of the last annotation's just if its own number is. */
  lemma MapCoversIff(source: string, lineMap: seq<int>, annotations: seq<Annotation>)
    requires Fits(source, Some(lineMap)) && NonDecreasing(lineMap) && InOrder(annotations) && annotations != []
    ensures var lines, last := SplitLines(source), annotations[|annotations| - 1].line;
            Covers(lines, Inlined(source, Some(lineMap), annotations)) <==>
            forall k :: 0 <= k < |lines| && !Blank(lines[k]) ==> (k < |lineMap| && lineMap[k] <= last <==> k <= last)
  {
    var lines, last := SplitLines(source), annotations[|annotations| - 1].line;
    CoversIff(lines, lineMap, annotations);
    assert forall k: nat :: Agrees(lineMap, last, k) <==> (k < |lineMap| && lineMap[k] <= last <==> k <= last);
    hide Merged, Blank, SplitLines, Covers, Agrees;
  }

  /** Without a map, every line is covered exactly if there is an annotation, or the first line is blank
      anyway. */
  lemma NoMapCoversIffAnnotated(source: string, annotations: seq<Annotation>)
    requires InOrder(annotations)
    ensures Covers(SplitLines(source), Inlined(source, None, annotations)) <==>
            annotations != [] || Blank(SplitLines(source)[0])
  {
    var lines := SplitLines(source);
    var lineMap := Identity(|lines|);
    hide SplitLines;
    if annotations != [] {
      CoversIff(lines, lineMap, annotations);
      hide Merged, Blank, Spanning;
    } else {
      forall k: nat | k < |lines| && !Blank(lines[k])
        ensures Spanning(Merged(lines, lineMap, []), k) == if k == 0 then 0 else 1
      {
        NoAnnotationsLoseFirstLine(lines, lineMap, k);
      }
      hide Merged, Blank, Spanning;
    }
  }
}
