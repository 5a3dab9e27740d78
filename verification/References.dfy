/** Turning byte offsets into line numbers and columns in one sweep. */
module References {
  import opened GoStrings

  datatype Reference = Reference(begin: int, end: int, name: string)

  datatype LineIndexed = LineIndexed(reference: Reference, line: nat, column: int)

  // ---- Where an offset is --------------------------------------------------------------------

  /** The number of newlines in front of `offset`. */
  function NewlinesBefore(source: string, offset: nat): nat {
    if source == "" || offset == 0 then 0
    else (if source[0] == '\n' then 1 else 0) + NewlinesBefore(source[1..], offset - 1)
  }

  /** Where the line starts that `offset` is on: behind the last newline in front of it. An offset
      past the end is on the last line. */
  function LineStart(source: string, offset: nat): (start: nat)
    ensures start <= offset && start <= |source|
    decreases offset
  {
    if offset == 0 then 0
    else if offset <= |source| && source[offset - 1] == '\n' then offset
    else LineStart(source, offset - 1)
  }

  /** `start` is where the line of `offset` starts: no newline from there to the offset, and one just
      in front of it. */
  lemma {:induction false} LineStartIsBehindNewline(source: string, offset: nat)
    ensures var start := LineStart(source, offset);
            && (start > 0 ==> source[start - 1] == '\n')
            && (forall i :: start <= i < offset && i < |source| ==> source[i] != '\n')
    decreases offset
  {
    if offset > 0 && !(offset <= |source| && source[offset - 1] == '\n') {
      LineStartIsBehindNewline(source, offset - 1);
    }
  }

  /** The reference on its own, looked up afresh. */
  function Located(source: string, reference: Reference): LineIndexed
    requires reference.begin >= 0
  {
    LineIndexed(reference, NewlinesBefore(source, reference.begin),
                reference.begin - LineStart(source, reference.begin))
  }

  // ---- Line starts ---------------------------------------------------------------------------

  /** Where line `k` of the split source starts. */
  function StartOf(lines: seq<string>, k: nat): nat
    requires k <= |lines|
  {
    if k == 0 then 0 else StartOf(lines, k - 1) + |lines[k - 1]| + 1
  }

  lemma {:induction false} StartOfTail(lines: seq<string>, k: nat)
    requires 0 < k <= |lines|
    ensures StartOf(lines, k) == |lines[0]| + 1 + StartOf(lines[1..], k - 1)
  {
    if k > 1 {
      StartOfTail(lines, k - 1);
      assert lines[1..][k - 2] == lines[k - 1];
    }
  }

  lemma {:induction false} StartsIncrease(lines: seq<string>, j: nat, k: nat)
    requires j < k <= |lines|
    ensures StartOf(lines, j) < StartOf(lines, k)
  {
    if j + 1 < k {
      StartsIncrease(lines, j, k - 1);
    }
  }

  /** Line `k` is the one that `offset` is on. */
  predicate OnLine(lines: seq<string>, k: nat, offset: int)
    requires k < |lines|
  {
    StartOf(lines, k) <= offset && (k == |lines| - 1 || StartOf(lines, k + 1) > offset)
  }

  lemma {:induction false} OnlyOneLine(lines: seq<string>, j: nat, k: nat, offset: int)
    requires j < |lines| && k < |lines| && OnLine(lines, j, offset) && OnLine(lines, k, offset)
    ensures j == k
  {
    if j + 1 < k {
      StartsIncrease(lines, j + 1, k);
    } else if k + 1 < j {
      StartsIncrease(lines, k + 1, j);
    }
  }

  /** The line that an offset is on, counted in newlines and measured from the line's start. */
  lemma {:induction false} LineOfOffset(source: string, offset: nat)
    ensures var lines, k := SplitLines(source), NewlinesBefore(source, offset);
            k < |lines| && OnLine(lines, k, offset) && StartOf(lines, k) == LineStart(source, offset)
    decreases |source|
  {
    if source == "" {
      PastTheEnd(source, offset);
    } else if offset > 0 {
      var rest := source[1..];
      var lines, tail := SplitLines(source), SplitLines(rest);
      var k := NewlinesBefore(rest, offset - 1);
      LineOfOffset(rest, offset - 1);
      LineStartOfRest(source, offset);
      if source[0] == '\n' {
        assert lines[1..] == tail;
        StartOfTail(lines, k + 1);
        if k + 1 < |lines| - 1 {
          StartOfTail(lines, k + 2);
        }
      } else {
        SameStarts(lines, tail, k);
        if k + 1 < |lines| {
          SameStarts(lines, tail, k + 1);
        }
      }
    } else {
      assert StartOf(SplitLines(source), 1) > 0;
    }
  }

  lemma {:induction false} PastTheEnd(source: string, offset: nat)
    requires source == ""
    ensures LineStart(source, offset) == 0
    decreases offset
  {
    if offset > 0 {
      PastTheEnd(source, offset - 1);
    }
  }

  /** The line starts of a source without its first byte are one lower, but for the first. */
  lemma {:induction false} LineStartOfRest(source: string, offset: nat)
    requires source != "" && offset > 0
    ensures var start := LineStart(source[1..], offset - 1);
            LineStart(source, offset) == if start > 0 || source[0] == '\n' then start + 1 else 0
    decreases offset
  {
    if offset > 1 {
      LineStartOfRest(source, offset - 1);
    }
  }

  /** A longer first line moves the starts of all later lines by one. */
  lemma {:induction false} SameStarts(lines: seq<string>, tail: seq<string>, k: nat)
    requires |lines| == |tail| > 0 && lines[1..] == tail[1..] && |lines[0]| == |tail[0]| + 1
    requires k <= |lines|
    ensures StartOf(lines, k) == if k == 0 then 0 else StartOf(tail, k) + 1
  {
    if k > 1 {
      SameStarts(lines, tail, k - 1);
      assert lines[k - 1] == lines[1..][k - 2] == tail[k - 1];
    }
  }

  // ---- The sweep -----------------------------------------------------------------------------

  predicate Less(a: Reference, b: Reference) {
    a.begin < b.begin || (a.begin == b.begin && a.end < b.end)
  }

  predicate Sorted(refs: seq<Reference>) {
    forall i, j :: 0 <= i < j < |refs| ==> !Less(refs[j], refs[i])
  }

  /** What `sort.Sort` promises; it need not keep the order of equal references. */
  predicate IsSortOf(sorted: seq<Reference>, refs: seq<Reference>) {
    Sorted(sorted) && multiset(sorted) == multiset(refs)
  }

  /** The references in order, each with its place; none at all if one begins before the source. */
  function Indexed(source: string, sorted: seq<Reference>): (indexed: seq<LineIndexed>)
  {
    if exists i :: 0 <= i < |sorted| && sorted[i].begin < 0 then []
    else seq(|sorted|, i requires 0 <= i < |sorted| && sorted[i].begin >= 0 => Located(source, sorted[i]))
  }

  /** Sorts the references in place and finds the line and the column of each in one sweep over the
      lines. `sorted` is what sorting makes of them. */
  method GetLineIndexed(refs: array<Reference>, source: string, sorted: seq<Reference>)
    returns (indexed: seq<LineIndexed>)
    requires IsSortOf(sorted, refs[..])
    modifies refs
    ensures refs[..] == sorted
    ensures forall i, j :: 0 <= i < j < refs.Length ==>
              || refs[i].begin < refs[j].begin
              || (refs[i].begin == refs[j].begin && refs[i].end <= refs[j].end)
    ensures indexed == Indexed(source, sorted)
  {
    assert |sorted| == refs.Length by {
      assert |multiset(sorted)| == |multiset(refs[..])|;
    }
    forall i | 0 <= i < refs.Length {
      refs[i] := sorted[i];
    }
    var lines := SplitLines(source);
    var count := LineStarts(lines);
    indexed := Sweep(source, lines, count, sorted);
  }

  /** The loop that adds up the lengths of the lines. */
  method LineStarts(lines: seq<string>) returns (count: seq<nat>)
    requires |lines| > 0
    ensures StartsOf(count, lines)
  {
    count := [0];
    for i := 0 to |lines| - 1
      invariant |count| == i + 1 && forall k :: 0 <= k <= i ==> count[k] == StartOf(lines, k)
    {
      count := count + [count[|count| - 1] + |lines[i]| + 1];
    }
  }

  /** The line that the sweep is on after the first `i` references: that of the last of them, or
      past all lines if one began before the source. */
  function LineAfter(source: string, sorted: seq<Reference>, i: nat): nat
    requires i <= |sorted|
  {
    if i == 0 then 0
    else if sorted[0].begin < 0 || sorted[i - 1].begin < 0 then |SplitLines(source)|
    else NewlinesBefore(source, sorted[i - 1].begin)
  }

  /** What the sweep has found after the first `i` references. */
  function Swept(source: string, sorted: seq<Reference>, i: nat): seq<LineIndexed>
    requires i <= |sorted|
  {
    if i > 0 && sorted[0].begin < 0 then [] else Indexed(source, sorted[..i])
  }

  predicate StartsOf(count: seq<nat>, lines: seq<string>) {
    |count| == |lines| && forall k :: 0 <= k < |lines| ==> count[k] == StartOf(lines, k)
  }

  /** The sweep: the line never goes back from one reference to the next. */
  method Sweep(source: string, lines: seq<string>, count: seq<nat>, sorted: seq<Reference>)
    returns (indexed: seq<LineIndexed>)
    requires lines == SplitLines(source) && Sorted(sorted) && StartsOf(count, lines)
    ensures indexed == Indexed(source, sorted)
  {
    hide Swept, LineAfter, Indexed;
    indexed := [];
    var line := 0;
    NothingSwept(source, sorted);
    for i := 0 to |sorted|
      invariant line == LineAfter(source, sorted, i)
      invariant indexed == Swept(source, sorted, i)
    {
      var ref := sorted[i];
      LinesAreAhead(source, sorted, i);
      line := NextLine(source, lines, count, line, ref.begin);
      LineStep(source, sorted, i);
      SweptStep(source, sorted, i, count);
      if line < |count| {
        indexed := indexed + [LineIndexed(ref, line, ref.begin - count[line])];
      }
    }
    AllSwept(source, sorted);
  }

  lemma NothingSwept(source: string, sorted: seq<Reference>)
    ensures LineAfter(source, sorted, 0) == 0 && Swept(source, sorted, 0) == []
  {
  }

  lemma AllSwept(source: string, sorted: seq<Reference>)
    requires Sorted(sorted)
    ensures Swept(source, sorted, |sorted|) == Indexed(source, sorted)
  {
    assert sorted[..|sorted|] == sorted;
    FirstIsLeast(sorted);
  }

  /** The line that the sweep comes to. */
  lemma LineStep(source: string, sorted: seq<Reference>, i: nat)
    requires Sorted(sorted) && i < |sorted|
    ensures var line, begin, n := LineAfter(source, sorted, i), sorted[i].begin, |SplitLines(source)|;
            LineAfter(source, sorted, i + 1) == if begin >= 0 && line < n then NewlinesBefore(source, begin) else n
  {
    LinesAreAhead(source, sorted, i);
    assert i > 0 ==> !Less(sorted[i], sorted[0]);
    hide Sorted, SplitLines, NewlinesBefore;
  }

  /** What the sweep finds there. */
  lemma SweptStep(source: string, sorted: seq<Reference>, i: nat, count: seq<nat>)
    requires Sorted(sorted) && i < |sorted| && StartsOf(count, SplitLines(source))
    ensures var next := LineAfter(source, sorted, i + 1);
            Swept(source, sorted, i + 1)
            == if next < |count| then Swept(source, sorted, i) + [LineIndexed(sorted[i], next, sorted[i].begin - count[next])]
               else Swept(source, sorted, i)
  {
    hide Indexed, SplitLines, NewlinesBefore, LineStart, Less;
    if sorted[0].begin >= 0 {
      IndexedGrows(source, sorted, i);
      LineOfOffset(source, sorted[i].begin);
    } else {
      NothingMore(source, sorted, i);
    }
  }

  lemma NothingMore(source: string, sorted: seq<Reference>, i: nat)
    requires Sorted(sorted) && i < |sorted| && sorted[0].begin < 0
    ensures Swept(source, sorted, i) == Swept(source, sorted, i + 1) == []
  {
    assert i == 0 ==> Indexed(source, sorted[..0]) == [];
  }

  /** The inner loop: from `line` on, the first line that `begin` is on. */
  method NextLine(source: string, lines: seq<string>, count: seq<nat>, line: nat, begin: int) returns (next: nat)
    requires lines == SplitLines(source) && StartsOf(count, lines)
    requires line <= |count| && (begin >= 0 ==> line <= NewlinesBefore(source, begin) || line == |count|)
    ensures next == if begin >= 0 && line < |count| then NewlinesBefore(source, begin) else |count|
  {
    if begin >= 0 {
      LineOfOffset(source, begin);
    }
    next := line;
    while next < |count|
      invariant next <= |count|
      invariant begin >= 0 && line < |count| ==> next <= NewlinesBefore(source, begin)
    {
      if count[next] <= begin && (next == |count| - 1 || count[next + 1] > begin) {
        OnlyOneLine(lines, next, NewlinesBefore(source, begin), begin);
        return;
      }
      next := next + 1;
    }
  }

  /** The line of the next reference is not behind the sweep. */
  lemma LinesAreAhead(source: string, sorted: seq<Reference>, i: nat)
    requires Sorted(sorted) && i < |sorted|
    ensures var line, lines := LineAfter(source, sorted, i), |SplitLines(source)|;
            && line <= lines
            && (sorted[i].begin >= 0 ==> line <= NewlinesBefore(source, sorted[i].begin) || line == lines)
            && (line == lines <==> i > 0 && sorted[0].begin < 0)
  {
    if i > 0 {
      assert !Less(sorted[i], sorted[i - 1]) && (i > 1 ==> !Less(sorted[i - 1], sorted[0]));
      if sorted[i - 1].begin >= 0 {
        LineOfOffset(source, sorted[i - 1].begin);
        NewlinesMonotone(source, sorted[i - 1].begin, sorted[i].begin);
      }
    }
  }

  lemma IndexedGrows(source: string, sorted: seq<Reference>, i: nat)
    requires Sorted(sorted) && i < |sorted| && sorted[0].begin >= 0
    ensures sorted[i].begin >= 0
    ensures Indexed(source, sorted[..i + 1]) == Indexed(source, sorted[..i]) + [Located(source, sorted[i])]
  {
    forall j | 0 <= j <= i
      ensures sorted[j].begin >= 0
    {
      assert j > 0 ==> !Less(sorted[j], sorted[0]);
    }
  }

  lemma FirstIsLeast(sorted: seq<Reference>)
    requires Sorted(sorted)
    ensures (exists i :: 0 <= i < |sorted| && sorted[i].begin < 0) <==> sorted != [] && sorted[0].begin < 0
  {
    if i :| 0 < i < |sorted| && sorted[i].begin < 0 {
      assert !Less(sorted[i], sorted[0]);
    }
  }

  // ---- What the result is worth --------------------------------------------------------------

  /** If none begins before the source, each reference is found at its own place: where its line starts,
      and as many bytes further on as the column says. Only on the last line can that be past the end. */
  lemma IndexedIs(source: string, sorted: seq<Reference>, i: nat)
    requires (forall j :: 0 <= j < |sorted| ==> sorted[j].begin >= 0) && i < |sorted|
    ensures i < |Indexed(source, sorted)|
    ensures var lines, found := SplitLines(source), Indexed(source, sorted)[i];
            && found.reference == sorted[i] && found.column >= 0
            && found.line < |lines| && StartOf(lines, found.line) + found.column == sorted[i].begin
            && (found.line < |lines| - 1 ==> found.column <= |lines[found.line]|)
  {
    LineOfOffset(source, sorted[i].begin);
  }

  lemma {:induction false} NewlinesMonotone(source: string, a: nat, b: nat)
    requires a <= b
    ensures NewlinesBefore(source, a) <= NewlinesBefore(source, b)
    decreases a
  {
    if source != "" && a > 0 {
      NewlinesMonotone(source[1..], a - 1, b - 1);
    }
  }

  /** All references are indexed, in order of line and column, exactly if none begins before the
      source; a single one that does makes the sweep run out of lines for all. */
  lemma IndexedAllIffNoneNegative(source: string, sorted: seq<Reference>)
    requires Sorted(sorted)
    ensures |Indexed(source, sorted)| == |sorted| <==> forall i :: 0 <= i < |sorted| ==> sorted[i].begin >= 0
    ensures var indexed := Indexed(source, sorted);
            forall i, j :: 0 <= i < j < |indexed| ==>
              || indexed[i].line < indexed[j].line
              || (indexed[i].line == indexed[j].line && indexed[i].column <= indexed[j].column)
  {
    var indexed := Indexed(source, sorted);
    forall i, j | 0 <= i < j < |indexed|
      ensures || indexed[i].line < indexed[j].line
              || (indexed[i].line == indexed[j].line && indexed[i].column <= indexed[j].column)
    {
      var a, b := sorted[i].begin, sorted[j].begin;
      assert !Less(sorted[j], sorted[i]);
      NewlinesMonotone(source, a, b);
      LineOfOffset(source, a);
      LineOfOffset(source, b);
    }
  }
}
