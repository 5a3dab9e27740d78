/** Interleaving the lines of a code example with the output that they produced. */
module Annotate {
  import opened GoStrings
  import opened Wrappers
  import opened Blobs

  /** An output segment and the line of the program that produced it. */
  datatype Annotation = Annotation(line: int, body: string)

  datatype Segment = Code(begin: int, end: int, code: string) | Output(annotation: Annotation)

  // ---- Loading annotations -------------------------------------------------------------------

  /** Decodes the text of an emit blob; it may fail. */
  type Decoder = (string, int) -> Option<Annotation>

  datatype Loaded = Loaded(annotations: seq<Annotation>) | Undecodable(content: string)

  /** The line that the program was at after the blobs: that of the last line blob, or 0. */
  function LineAfter(blobs: seq<Blob>): int {
    if blobs == [] then 0
    else
      var last := blobs[|blobs| - 1];
      if last.LineBlob? then last.line else LineAfter(blobs[..|blobs| - 1])
  }

  /** What blob `i` gives: nothing for a line, plain text for output. */
  function AnnotationOf(blobs: seq<Blob>, i: nat, decode: Decoder): Option<seq<Annotation>>
    requires i < |blobs|
  {
    var line := LineAfter(blobs[..i]);
    match blobs[i]
    case LineBlob(_) => Some([])
    case OutputBlob(content) => Some([Annotation(line, content)])
    case EmitBlob(content) =>
      var decoded := decode(content, line);
      if decoded.None? then None else Some([decoded.value])
  }

  /** The annotations of the first `n` blobs, unless one cannot be decoded. */
  function AnnotationsOf(blobs: seq<Blob>, n: nat, decode: Decoder): Option<seq<Annotation>>
    requires n <= |blobs|
  {
    if n == 0 then Some([])
    else
      var before, here := AnnotationsOf(blobs, n - 1, decode), AnnotationOf(blobs, n - 1, decode);
      if before.None? || here.None? then None else Some(before.value + here.value)
  }

  /** Blob `i` is the first one that cannot be decoded. */
  predicate FirstUndecodable(blobs: seq<Blob>, i: nat, decode: Decoder)
    requires i < |blobs|
  {
    && blobs[i].EmitBlob? && decode(blobs[i].content, LineAfter(blobs[..i])).None?
    && AnnotationsOf(blobs, i, decode).Some?
  }

  /** The line is that of the last line blob, or 0 if there is none. */
  lemma {:induction false} LineAfterIs(blobs: seq<Blob>)
    ensures || ((forall i :: 0 <= i < |blobs| ==> !blobs[i].LineBlob?) && LineAfter(blobs) == 0)
            || exists i :: 0 <= i < |blobs| && blobs[i] == LineBlob(LineAfter(blobs))
                           && forall j :: i < j < |blobs| ==> !blobs[j].LineBlob?
  {
    if blobs != [] {
      var init, last := blobs[..|blobs| - 1], blobs[|blobs| - 1];
      LineAfterIs(init);
      if last.LineBlob? {
        assert blobs[|blobs| - 1] == LineBlob(LineAfter(blobs));
      } else if i :| 0 <= i < |init| && init[i] == LineBlob(LineAfter(init)) && forall j :: i < j < |init| ==> !init[j].LineBlob? {
        assert blobs[i] == LineBlob(LineAfter(blobs));
      }
    }
  }

  /** How many of the first `n` blobs are not lines. */
  function Given(blobs: seq<Blob>, n: nat): nat
    requires n <= |blobs|
  {
    if n == 0 then 0 else Given(blobs, n - 1) + if blobs[n - 1].LineBlob? then 0 else 1
  }

  /** One annotation for each blob that is not a line, in their order. Output is an annotation with its
      text at the line that the program is at; emitted text is what it decodes to there. */
  lemma {:induction false} AnnotationsAre(blobs: seq<Blob>, n: nat, decode: Decoder, i: nat)
    requires i < n <= |blobs| && AnnotationsOf(blobs, n, decode).Some?
    ensures var annotations, p := AnnotationsOf(blobs, n, decode).value, Given(blobs, i);
            && |annotations| == Given(blobs, n)
            && (blobs[i].OutputBlob? ==>
                  p < |annotations| && annotations[p] == Annotation(LineAfter(blobs[..i]), blobs[i].content))
            && (blobs[i].EmitBlob? ==>
                  p < |annotations| && decode(blobs[i].content, LineAfter(blobs[..i])) == Some(annotations[p]))
  {
    if n > 1 {
      AnnotationsAre(blobs, n - 1, decode, if i < n - 1 then i else 0);
    }
  }

  /** Carries the current line from blob to blob. */
  method LoadAnnotations(blobs: seq<Blob>, decode: Decoder) returns (loaded: Loaded)
    ensures loaded.Loaded? ==> AnnotationsOf(blobs, |blobs|, decode) == Some(loaded.annotations)
    ensures loaded.Undecodable? ==>
              && AnnotationsOf(blobs, |blobs|, decode) == None
              && exists i :: 0 <= i < |blobs| && FirstUndecodable(blobs, i, decode) && blobs[i].content == loaded.content
  {
    var line := 0;
    var annotations: seq<Annotation> := [];
    for i := 0 to |blobs|
      invariant line == LineAfter(blobs[..i])
      invariant AnnotationsOf(blobs, i, decode) == Some(annotations)
    {
      assert blobs[..i + 1][..i] == blobs[..i];
      match blobs[i] {
        case LineBlob(n) =>
          line := n;
          assert annotations + [] == annotations;
        case OutputBlob(content) =>
          annotations := annotations + [Annotation(line, content)];
        case EmitBlob(content) =>
          var annotation := decode(content, line);
          if annotation.None? {
            NoneStays(blobs, i + 1, |blobs|, decode);
            return Undecodable(content);
          }
          annotations := annotations + [annotation.value];
      }
    }
    assert blobs[..|blobs|] == blobs;
    return Loaded(annotations);
  }

  lemma {:induction false} NoneStays(blobs: seq<Blob>, i: nat, n: nat, decode: Decoder)
    requires i <= n <= |blobs| && AnnotationsOf(blobs, i, decode) == None
    ensures AnnotationsOf(blobs, n, decode) == None
  {
    if i < n {
      NoneStays(blobs, i, n - 1, decode);
    }
  }

  // ---- Interleaving --------------------------------------------------------------------------

  /** The first position from `start` on whose line is past `line`. */
  function Advance(lineMap: seq<int>, start: nat, line: int): (next: nat)
    requires start <= |lineMap|
    ensures start <= next <= |lineMap|
    ensures forall k :: start <= k < next ==> lineMap[k] <= line
    ensures next < |lineMap| ==> lineMap[next] > line
    decreases |lineMap| - start
  {
    if start < |lineMap| && lineMap[start] <= line then Advance(lineMap, start + 1, line) else start
  }

  /** How many lines have been placed in front of the first `j` annotations. */
  function Placed(lineMap: seq<int>, annotations: seq<Annotation>, j: nat): (n: nat)
    requires j <= |annotations|
    ensures n <= |lineMap|
  {
    if j == 0 then 0 else Advance(lineMap, Placed(lineMap, annotations, j - 1), annotations[j - 1].line)
  }

  /** The lines from `begin` up to `end` as a segment, or nothing if they are all blank. */
  function Chunk(lines: seq<string>, begin: nat, end: nat): seq<Segment>
    requires begin <= end <= |lines|
  {
    var code := Join(lines[begin..end], "\n");
    if Blank(code) then [] else [Code(begin, end - 1, code)]
  }

  /** Each of the first `j` annotations behind the lines that go in front of it. */
  function Interleaved(lines: seq<string>, lineMap: seq<int>, annotations: seq<Annotation>, j: nat): seq<Segment>
    requires |lineMap| <= |lines| && j <= |annotations|
  {
    if j == 0 then []
    else
      Interleaved(lines, lineMap, annotations, j - 1)
      + PlacedMore(lines, lineMap, annotations, j - 1)
      + [Output(annotations[j - 1])]
  }

  function PlacedMore(lines: seq<string>, lineMap: seq<int>, annotations: seq<Annotation>, j: nat): seq<Segment>
    requires |lineMap| <= |lines| && j < |annotations|
  {
    Chunk(lines, Placed(lineMap, annotations, j), Placed(lineMap, annotations, j + 1))
  }

  /** The line of the annotation before the `j`-th; the first one starts from line 0. */
  function LineBefore(annotations: seq<Annotation>, j: nat): int
    requires j <= |annotations|
  {
    if j == 0 then 0 else annotations[j - 1].line
  }

  predicate InOrder(annotations: seq<Annotation>) {
    forall j :: 0 <= j < |annotations| ==> LineBefore(annotations, j) <= annotations[j].line
  }

  /** Where the lines behind the last annotation start: at the line of the program after it. */
  function TailStart(annotations: seq<Annotation>): (start: nat)
    requires InOrder(annotations)
    ensures start > 0
  {
    LineNotNegative(annotations, |annotations|);
    LineBefore(annotations, |annotations|) + 1
  }

  lemma {:induction false} LineNotNegative(annotations: seq<Annotation>, j: nat)
    requires InOrder(annotations) && j <= |annotations|
    ensures LineBefore(annotations, j) >= 0
  {
    if j > 0 {
      LineNotNegative(annotations, j - 1);
    }
  }

  function Remaining(lines: seq<string>, start: nat): seq<Segment> {
    if start < |lines| then Chunk(lines, start, |lines|) else []
  }

  function Identity(n: nat): seq<int> {
    seq(n, i => i)
  }

  /** The map in use: a missing one is the identity. */
  function MapFor(lines: seq<string>, lineMap: Option<seq<int>>): seq<int> {
    if lineMap.None? then Identity(|lines|) else lineMap.value
  }

  /** All annotations behind the lines that go in front of them, and the lines behind the last one. */
  function Merged(lines: seq<string>, lineMap: seq<int>, annotations: seq<Annotation>): seq<Segment>
    requires |lineMap| <= |lines| && InOrder(annotations)
  {
    Interleaved(lines, lineMap, annotations, |annotations|) + Remaining(lines, TailStart(annotations))
  }

  /** What annotating the source gives if the annotations are in order. */
  function Inlined(source: string, lineMap: Option<seq<int>>, annotations: seq<Annotation>): seq<Segment>
    requires Fits(source, lineMap) && InOrder(annotations)
  {
    var lines := SplitLines(source);
    Merged(lines, MapFor(lines, lineMap), annotations)
  }

  /** The map, if there is one, speaks of lines that there are. */
  predicate Fits(source: string, lineMap: Option<seq<int>>) {
    lineMap.Some? ==> |lineMap.value| <= |SplitLines(source)|
  }

  datatype Annotated = Segments(segments: seq<Segment>) | OutOfOrder(previous: int, line: int)

  /** Annotation `j` is the first one that goes back. */
  predicate FirstBack(annotations: seq<Annotation>, j: nat) {
    && j < |annotations| && annotations[j].line < LineBefore(annotations, j)
    && InOrder(annotations[..j])
  }

  /** Merges the annotations with the lines of the source; it fails exactly if they are out of order,
      with the line of the first one that goes back and the line of the one before it.
      `lineMap[k]` is the line of the program that line `k` of the source became. */
  method AnnotateInline(source: string, lineMap: Option<seq<int>>, annotations: seq<Annotation>)
    returns (r: Annotated)
    requires Fits(source, lineMap)
    ensures r.Segments? <==> InOrder(annotations)
    ensures r.Segments? ==> r.segments == Inlined(source, lineMap, annotations)
    ensures r.OutOfOrder? ==>
              exists j: nat :: FirstBack(annotations, j) && r == OutOfOrder(LineBefore(annotations, j), annotations[j].line)
  {
    hide Interleaved, PlacedMore, Placed, Chunk, Advance, MapFor, Join, SplitLines, Blank;
    var lines := SplitLines(source);
    var mapInUse := MapFor(lines, lineMap);
    MapFits(lines, lineMap);
    var prevline, lineMapIndex := 0, 0;
    var segments: seq<Segment> := [];
    NothingPlaced(lines, mapInUse, annotations);
    for j := 0 to |annotations|
      invariant prevline == LineBefore(annotations, j)
      invariant forall i :: 0 <= i < j ==> LineBefore(annotations, i) <= annotations[i].line
      invariant lineMapIndex == Placed(mapInUse, annotations, j)
      invariant segments == Interleaved(lines, mapInUse, annotations, j)
    {
      var line := annotations[j].line;
      if line < prevline {
        assert !(LineBefore(annotations, j) <= annotations[j].line);
        assert forall i :: 0 <= i < j ==> LineBefore(annotations[..j], i) == LineBefore(annotations, i);
        assert FirstBack(annotations, j);
        return OutOfOrder(prevline, line);
      }
      var chunk;
      chunk, lineMapIndex := TakeChunk(lines, mapInUse, lineMapIndex, line);
      segments := segments + chunk + [Output(annotations[j])];
      prevline := line;
      OneMore(lines, mapInUse, annotations, j);
    }
    var rest := LinesBehind(lines, prevline + 1);
    return Segments(segments + rest);
  }

  lemma MapFits(lines: seq<string>, lineMap: Option<seq<int>>)
    requires lineMap.Some? ==> |lineMap.value| <= |lines|
    ensures |MapFor(lines, lineMap)| <= |lines|
  {
  }

  lemma NothingPlaced(lines: seq<string>, lineMap: seq<int>, annotations: seq<Annotation>)
    requires |lineMap| <= |lines|
    ensures Placed(lineMap, annotations, 0) == 0 && Interleaved(lines, lineMap, annotations, 0) == []
  {
  }

  lemma OneMore(lines: seq<string>, lineMap: seq<int>, annotations: seq<Annotation>, j: nat)
    requires |lineMap| <= |lines| && j < |annotations|
    ensures var begin, end := Placed(lineMap, annotations, j), Placed(lineMap, annotations, j + 1);
            && end == Advance(lineMap, begin, annotations[j].line)
            && Interleaved(lines, lineMap, annotations, j + 1)
               == Interleaved(lines, lineMap, annotations, j) + Chunk(lines, begin, end) + [Output(annotations[j])]
  {
  }

  /** The inner loop: the lines from `start` on that belong in front of an annotation at `line`. */
  method TakeChunk(lines: seq<string>, lineMap: seq<int>, start: nat, line: int)
    returns (segments: seq<Segment>, next: nat)
    requires start <= |lineMap| <= |lines|
    ensures next == Advance(lineMap, start, line) && segments == Chunk(lines, start, next)
  {
    hide Join, Blank;
    var code: seq<string> := [];
    next := start;
    while next < |lineMap| && lineMap[next] <= line
      invariant start <= next <= |lineMap| && code == lines[start..next]
      invariant Advance(lineMap, next, line) == Advance(lineMap, start, line)
    {
      code := code + [lines[next]];
      next := next + 1;
    }
    var joined := Join(code, "\n");
    segments := if Blank(joined) then [] else [Code(start, start + |code| - 1, joined)];
  }

  method LinesBehind(lines: seq<string>, start: nat) returns (segments: seq<Segment>)
    ensures segments == Remaining(lines, start)
  {
    hide Join, Blank;
    segments := [];
    if start < |lines| {
      var code := Join(lines[start..], "\n");
      assert lines[start..] == lines[start..|lines|];
      if !Blank(code) {
        segments := [Code(start, |lines| - 1, code)];
      }
    }
  }

  // ---- Where lines end up --------------------------------------------------------------------

  predicate NonDecreasing(lineMap: seq<int>) {
    forall i, j :: 0 <= i <= j < |lineMap| ==> lineMap[i] <= lineMap[j]
  }

  /** A line has been placed in front of one of the first `j` annotations exactly if the last of them
      is at or past the line that it became. */
  lemma {:induction false} PlacedIff(lineMap: seq<int>, annotations: seq<Annotation>, j: nat, k: nat)
    requires NonDecreasing(lineMap) && InOrder(annotations) && 0 < j <= |annotations| && k < |lineMap|
    ensures k < Placed(lineMap, annotations, j) <==> lineMap[k] <= annotations[j - 1].line
  {
    var before, now := Placed(lineMap, annotations, j - 1), Placed(lineMap, annotations, j);
    if k < before {
      PlacedIff(lineMap, annotations, j - 1, k);
      assert LineBefore(annotations, j - 1) <= annotations[j - 1].line;
    } else if k >= now {
      assert lineMap[now] <= lineMap[k];
    }
  }

  /** With a non-decreasing map every line that is placed is placed once, in front of the first
      annotation that is at or past the line that it became. */
  lemma PlacedBeforeFirstAtOrPast(lineMap: seq<int>, annotations: seq<Annotation>, j: nat, k: nat)
    requires NonDecreasing(lineMap) && InOrder(annotations) && j < |annotations| && k < |lineMap|
    ensures Placed(lineMap, annotations, j) <= k < Placed(lineMap, annotations, j + 1) <==>
            && lineMap[k] <= annotations[j].line
            && forall i :: 0 <= i < j ==> annotations[i].line < lineMap[k]
  {
    PlacedIff(lineMap, annotations, j + 1, k);
    if j > 0 {
      PlacedIff(lineMap, annotations, j, k);
      forall i | 0 <= i < j
        ensures annotations[i].line <= annotations[j - 1].line
      {
        LinesGrow(annotations, i, j - 1);
      }
    }
  }

  lemma {:induction false} LinesGrow(annotations: seq<Annotation>, i: nat, j: nat)
    requires InOrder(annotations) && i <= j < |annotations|
    ensures annotations[i].line <= annotations[j].line
  {
    if i < j {
      LinesGrow(annotations, i, j - 1);
      assert LineBefore(annotations, j) <= annotations[j].line;
    }
  }

  // ---- Annotations as they are loaded --------------------------------------------------------

  /** Blob `i` gives an annotation. */
  predicate Gives(blobs: seq<Blob>, i: nat)
    requires i < |blobs|
  {
    !blobs[i].LineBlob?
  }

  /** The line of the annotation that blob `i` gives: the line that the program was at, unless what was
      emitted names a line itself. */
  function LineOf(blobs: seq<Blob>, i: nat, decode: Decoder): int
    requires i < |blobs| && Gives(blobs, i) && AnnotationOf(blobs, i, decode).Some?
  {
    AnnotationOf(blobs, i, decode).value[0].line
  }

  predicate Decodable(blobs: seq<Blob>, n: nat, decode: Decoder)
    requires n <= |blobs|
  {
    forall i :: 0 <= i < n ==> AnnotationOf(blobs, i, decode).Some?
  }

  lemma {:induction false} DecodableIff(blobs: seq<Blob>, n: nat, decode: Decoder)
    requires n <= |blobs|
    ensures Decodable(blobs, n, decode) <==> AnnotationsOf(blobs, n, decode).Some?
  {
    if n > 0 {
      DecodableIff(blobs, n - 1, decode);
    }
  }

  /** The lines of the annotations that the first `n` blobs give never go back, nor below 0. */
  predicate NeverBack(blobs: seq<Blob>, n: nat, decode: Decoder)
    requires n <= |blobs| && Decodable(blobs, n, decode)
  {
    && (forall i :: 0 <= i < n && Gives(blobs, i) ==> LineOf(blobs, i, decode) >= 0)
    && (forall i, j :: 0 <= i < j < n && Gives(blobs, i) && Gives(blobs, j) ==> LineOf(blobs, i, decode) <= LineOf(blobs, j, decode))
  }

  /** `line` is the last line that the first `n` blobs give, or 0. */
  ghost predicate IsLastLine(blobs: seq<Blob>, n: nat, decode: Decoder, line: int)
    requires n <= |blobs| && Decodable(blobs, n, decode)
  {
    if line == 0 && forall i :: 0 <= i < n ==> !Gives(blobs, i) then true
    else exists i: nat :: i < n && Gives(blobs, i) && LineOf(blobs, i, decode) == line
                          && forall j :: i < j < n ==> !Gives(blobs, j)
  }

  lemma AppendInOrderIff(annotations: seq<Annotation>, last: Annotation)
    ensures InOrder(annotations + [last]) <==> InOrder(annotations) && LineBefore(annotations, |annotations|) <= last.line
  {
    var all := annotations + [last];
    assert forall j :: 0 <= j < |annotations| ==> all[j] == annotations[j] && LineBefore(all, j) == LineBefore(annotations, j);
    assert all[|annotations|] == last && LineBefore(all, |annotations|) == LineBefore(annotations, |annotations|);
  }

  /** One more annotation goes on from the last one. */
  lemma NeverBackGrows(blobs: seq<Blob>, n: nat, decode: Decoder, line: int)
    requires n < |blobs| && Decodable(blobs, n + 1, decode) && Gives(blobs, n) && IsLastLine(blobs, n, decode, line)
    ensures NeverBack(blobs, n + 1, decode) <==> NeverBack(blobs, n, decode) && line <= LineOf(blobs, n, decode)
  {
    hide LineOf;
    if NeverBack(blobs, n, decode) && line <= LineOf(blobs, n, decode) {
      if i: nat :| i < n && Gives(blobs, i) && LineOf(blobs, i, decode) == line && forall j :: i < j < n ==> !Gives(blobs, j) {
        assert forall j :: 0 <= j < n && Gives(blobs, j) ==> LineOf(blobs, j, decode) <= line;
      }
    }
  }

  /** The first `n` blobs give annotations in order exactly if their lines never go back. */
  ghost predicate LoadedUpTo(blobs: seq<Blob>, n: nat, decode: Decoder)
    requires n <= |blobs| && Decodable(blobs, n, decode)
  {
    && AnnotationsOf(blobs, n, decode).Some?
    && var annotations := AnnotationsOf(blobs, n, decode).value;
       && (InOrder(annotations) <==> NeverBack(blobs, n, decode))
       && IsLastLine(blobs, n, decode, LineBefore(annotations, |annotations|))
  }

  lemma {:induction false} LoadedInOrderUpTo(blobs: seq<Blob>, n: nat, decode: Decoder)
    requires n <= |blobs| && Decodable(blobs, n, decode)
    ensures LoadedUpTo(blobs, n, decode)
  {
    if n > 0 {
      LoadedInOrderUpTo(blobs, n - 1, decode);
      if Gives(blobs, n - 1) {
        GivenKeepsOrder(blobs, n - 1, decode);
      } else {
        LineKeepsOrder(blobs, n - 1, decode);
      }
    }
  }

  lemma GivenKeepsOrder(blobs: seq<Blob>, n: nat, decode: Decoder)
    requires n < |blobs| && Decodable(blobs, n + 1, decode) && LoadedUpTo(blobs, n, decode) && Gives(blobs, n)
    ensures LoadedUpTo(blobs, n + 1, decode)
  {
    var before, here := AnnotationsOf(blobs, n, decode).value, AnnotationOf(blobs, n, decode).value;
    OneGiven(blobs, n, decode);
    AppendInOrderIff(before, here[0]);
    NeverBackGrows(blobs, n, decode, LineBefore(before, |before|));
    assert AnnotationsOf(blobs, n + 1, decode) == Some(before + [here[0]]);
    hide LineOf, AnnotationOf, AnnotationsOf, InOrder, NeverBack;
  }

  lemma LineKeepsOrder(blobs: seq<Blob>, n: nat, decode: Decoder)
    requires n < |blobs| && Decodable(blobs, n + 1, decode) && LoadedUpTo(blobs, n, decode) && !Gives(blobs, n)
    ensures LoadedUpTo(blobs, n + 1, decode)
  {
    LineGivesNothing(blobs, n, decode);
    NeverBackStays(blobs, n, decode);
    hide LineOf, AnnotationOf, AnnotationsOf, InOrder, NeverBack;
  }

  lemma LineGivesNothing(blobs: seq<Blob>, n: nat, decode: Decoder)
    requires n < |blobs| && !Gives(blobs, n) && AnnotationsOf(blobs, n, decode).Some?
    ensures AnnotationsOf(blobs, n + 1, decode) == AnnotationsOf(blobs, n, decode)
  {
    var before := AnnotationsOf(blobs, n, decode).value;
    assert AnnotationOf(blobs, n, decode).value == [] && before + [] == before;
  }

  lemma NeverBackStays(blobs: seq<Blob>, n: nat, decode: Decoder)
    requires n < |blobs| && Decodable(blobs, n + 1, decode) && !Gives(blobs, n)
    ensures NeverBack(blobs, n + 1, decode) <==> NeverBack(blobs, n, decode)
  {
    hide LineOf;
  }

  lemma OneGiven(blobs: seq<Blob>, i: nat, decode: Decoder)
    requires i < |blobs| && Gives(blobs, i) && AnnotationOf(blobs, i, decode).Some?
    ensures var here := AnnotationOf(blobs, i, decode).value; |here| == 1 && here == [here[0]] && here[0].line == LineOf(blobs, i, decode)
  {
  }

  /** The annotations can be merged exactly if the lines they name never go back, nor below 0. */
  lemma LoadedInOrderIff(blobs: seq<Blob>, decode: Decoder)
    requires AnnotationsOf(blobs, |blobs|, decode).Some?
    ensures Decodable(blobs, |blobs|, decode)
    ensures InOrder(AnnotationsOf(blobs, |blobs|, decode).value) <==> NeverBack(blobs, |blobs|, decode)
  {
    DecodableIff(blobs, |blobs|, decode);
    LoadedInOrderUpTo(blobs, |blobs|, decode);
  }

  // ---- Programs that go forward --------------------------------------------------------------

  /** The program reports lines that never go back. */
  predicate LinesGoForward(blobs: seq<Blob>) {
    forall i :: 0 <= i < |blobs| && blobs[i].LineBlob? ==> LineAfter(blobs[..i]) <= blobs[i].line
  }

  lemma {:induction false} ForwardLines(blobs: seq<Blob>, i: nat, j: nat)
    requires LinesGoForward(blobs) && i <= j <= |blobs|
    ensures 0 <= LineAfter(blobs[..i]) <= LineAfter(blobs[..j])
  {
    if i < j {
      ForwardLines(blobs, i, j - 1);
      LineAfterOne(blobs, j - 1);
    } else if i > 0 {
      ForwardLines(blobs, i - 1, i - 1);
      LineAfterOne(blobs, i - 1);
    }
    hide LineAfter;
  }

  lemma LineAfterOne(blobs: seq<Blob>, i: nat)
    requires i < |blobs|
    ensures LineAfter(blobs[..i + 1]) == if blobs[i].LineBlob? then blobs[i].line else LineAfter(blobs[..i])
  {
    assert blobs[..i + 1][..i] == blobs[..i];
  }

  /** Nothing that is emitted names another line than the one that the program is at. */
  predicate DecodesInPlace(blobs: seq<Blob>, decode: Decoder) {
    forall i :: 0 <= i < |blobs| && blobs[i].EmitBlob? ==>
      var decoded := decode(blobs[i].content, LineAfter(blobs[..i]));
      decoded.Some? ==> decoded.value.line == LineAfter(blobs[..i])
  }

  /** Annotations of a program that goes forward and names no other lines can always be merged. */
  lemma LoadedAnnotationsAreInOrder(blobs: seq<Blob>, decode: Decoder)
    requires LinesGoForward(blobs) && DecodesInPlace(blobs, decode)
    requires AnnotationsOf(blobs, |blobs|, decode).Some?
    ensures InOrder(AnnotationsOf(blobs, |blobs|, decode).value)
  {
    LoadedInOrderIff(blobs, decode);
    forall i: nat | i < |blobs| && Gives(blobs, i)
      ensures LineOf(blobs, i, decode) == LineAfter(blobs[..i]) >= 0
    {
      ForwardLines(blobs, i, i);
    }
    forall i: nat, j: nat | i < j < |blobs| && Gives(blobs, i) && Gives(blobs, j)
      ensures LineOf(blobs, i, decode) <= LineOf(blobs, j, decode)
    {
      ForwardLines(blobs, i, j);
    }
    hide LineOf, LineAfter;
  }

  /** What is emitted can name a line itself: a single emit blob that names a line below 0 cannot be
      merged, although the program has gone forward. */
  lemma EmittedLineBreaksOrder(content: string, decode: Decoder)
    requires decode(content, 0).Some? && decode(content, 0).value.line < 0
    ensures var blobs := [EmitBlob(content)];
            && LinesGoForward(blobs)
            && AnnotationsOf(blobs, 1, decode).Some? && !InOrder(AnnotationsOf(blobs, 1, decode).value)
  {
    var blobs := [EmitBlob(content)];
    assert AnnotationOf(blobs, 0, decode) == Some([decode(content, 0).value]);
    assert AnnotationsOf(blobs, 0, decode) == Some([]);
    var annotations := AnnotationsOf(blobs, 1, decode).value;
    assert annotations == [] + [decode(content, 0).value];
    assert !(LineBefore(annotations, 0) <= annotations[0].line);
  }
}
