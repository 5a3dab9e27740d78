/** Laying out rows and whole buffers. */
module Wrap {
  import opened GoStrings
  import opened LayoutSpec
  import opened LayoutRecursion
  import opened LayoutDP

  datatype TokenizedBuffer<T> = TokenizedBuffer(lines: seq<string>, tokens: seq<seq<T>>)

  datatype Flow = Flow(lines: seq<string>, lineMap: seq<nat>)

  /** The row of `tokens` that comes from the input line `raw`. */
  function RowOf<T>(kind: Kind<T>, tokens: seq<T>, raw: string, opts: Options): Row<T> {
    Row(kind, tokens, opts, LeadingIndent(raw, opts.tabWidth))
  }

  /** The rendering of the one best vector of a row; an empty row is one empty line. */
  function BestLines<T>(row: Row<T>): (lines: seq<string>)
    ensures |lines| > 0
  {
    if row.tokens == [] then [""] else row.Rendered(Decisions(row, 0, row.indent))
  }

  lemma BestLinesAreBest<T>(row: Row<T>, splits: seq<bool>)
    requires row.tokens != [] && row.Best(splits)
    ensures BestLines(row) == row.Rendered(splits)
  {
    PlainIsBest(row);
    row.BestIsUnique(splits, Decisions(row, 0, row.indent));
  }

  /** Lays a row out. The lines are those of the one best vector of decisions, and finding them
      solves at most one subproblem for each pair of a token and a line start. */
  method LayoutLine<T>(kind: Kind<T>, tokens: seq<T>, raw: string, opts: Options)
    returns (lines: seq<string>, ghost evaluations: nat)
    ensures lines == BestLines(RowOf(kind, tokens, raw, opts))
    ensures tokens == [] ==> lines == [""]
    ensures tokens != [] ==>
              var row := Row(kind, tokens, opts, LeadingIndent(raw, opts.tabWidth));
              exists splits :: row.Best(splits) && lines == row.Rendered(splits)
    ensures evaluations <= |tokens| * (|tokens| + 1) / 2 + 1
  {
    var indent := MeasureIndent(raw, opts.tabWidth);
    if |tokens| == 0 {
      return [""], 0;
    }
    ghost var row := RowOf(kind, tokens, raw, opts);
    var dp := new LayoutDP(kind, tokens, opts);
    var solution := dp.Solve(0, indent, indent);
    lines := solution.layout[0 := Spaces(indent) + solution.layout[0]];
    PlainIsBest(row);
    evaluations := dp.evaluations;
    SubsetSize(dp.cache.Keys, KeysUpTo(row, |tokens|));
  }

  /** The output lines that the map ties to input line `i`, in order. */
  function Picked(lines: seq<string>, lineMap: seq<nat>, i: nat): seq<string>
    requires |lines| == |lineMap|
  {
    if lines == [] then []
    else
      var n := |lines| - 1;
      Picked(lines[..n], lineMap[..n], i) + if lineMap[n] == i then [lines[n]] else []
  }

  function Repeated(i: nat, n: nat): (r: seq<nat>)
    ensures |r| == n && forall k :: 0 <= k < n ==> r[k] == i
  {
    seq(n, _ => i)
  }

  lemma {:induction false} PickedMore(lines: seq<string>, lineMap: seq<nat>, more: seq<string>, j: nat, i: nat)
    requires |lines| == |lineMap|
    ensures Picked(lines + more, lineMap + Repeated(j, |more|), i) == Picked(lines, lineMap, i) + if i == j then more else []
  {
    if more == [] {
      assert lines + more == lines && lineMap + Repeated(j, 0) == lineMap;
    } else {
      var n := |more| - 1;
      PickedMore(lines, lineMap, more[..n], j, i);
      assert (lines + more)[..|lines| + n] == lines + more[..n];
      assert (lineMap + Repeated(j, n + 1))[..|lines| + n] == lineMap + Repeated(j, n);
      assert more == more[..n] + [more[n]];
    }
  }

  lemma {:induction false} NonePicked(lines: seq<string>, lineMap: seq<nat>, i: nat)
    requires |lines| == |lineMap| && i !in lineMap
    ensures Picked(lines, lineMap, i) == []
  {
    if lines != [] {
      NonePicked(lines[..|lines| - 1], lineMap[..|lines| - 1], i);
    }
  }

  /** Lays out every row of a buffer. The output lines of a row are its best lines, and rows keep their
      order. */
  method Layout<T>(kind: Kind<T>, buf: TokenizedBuffer<T>, opts: Options) returns (out: Flow)
    requires |buf.tokens| <= |buf.lines|
    ensures out.lines == AllLines(kind, buf, opts, |buf.tokens|)
    ensures |out.lineMap| == |out.lines|
    ensures forall i :: 0 <= i < |buf.tokens| ==>
              Picked(out.lines, out.lineMap, i) == BestLines(RowOf(kind, buf.tokens[i], buf.lines[i], opts))
    ensures forall k, l :: 0 <= k <= l < |out.lineMap| ==> out.lineMap[k] <= out.lineMap[l] < |buf.tokens|
    ensures forall k :: 0 <= k < |out.lines| ==>
              var i := out.lineMap[k];
              i < |buf.tokens| && Offset(kind, buf, opts, i) <= k < Offset(kind, buf, opts, i + 1)
  {
    hide BestLines, RowOf, Picked;
    out := Flow([], []);
    for i := 0 to |buf.tokens|
      invariant out.lines == AllLines(kind, buf, opts, i)
      invariant |out.lineMap| == |out.lines|
      invariant forall j :: 0 <= j < i ==>
                  Picked(out.lines, out.lineMap, j) == BestLines(RowOf(kind, buf.tokens[j], buf.lines[j], opts))
      invariant forall k, l :: 0 <= k <= l < |out.lineMap| ==> out.lineMap[k] <= out.lineMap[l] < i
      invariant forall k :: 0 <= k < |out.lines| ==>
                  out.lineMap[k] < i && Offset(kind, buf, opts, out.lineMap[k]) <= k < Offset(kind, buf, opts, out.lineMap[k] + 1)
    {
      var layout, _ := LayoutLine(kind, buf.tokens[i], buf.lines[i], opts);
      NonePicked(out.lines, out.lineMap, i);
      forall j: nat | j <= i
        ensures Picked(out.lines + layout, out.lineMap + Repeated(i, |layout|), j)
             == Picked(out.lines, out.lineMap, j) + if j == i then layout else []
      {
        PickedMore(out.lines, out.lineMap, layout, i, j);
      }
      out := Flow(out.lines + layout, out.lineMap + Repeated(i, |layout|));
    }
  }

  /** The best lines of the first `n` rows, row after row. */
  function AllLines<T>(kind: Kind<T>, buf: TokenizedBuffer<T>, opts: Options, n: nat): seq<string>
    requires n <= |buf.tokens| <= |buf.lines|
  {
    if n == 0 then []
    else
      AllLines(kind, buf, opts, n - 1) + BestLines(RowOf(kind, buf.tokens[n - 1], buf.lines[n - 1], opts))
  }

  /** Where the output of row `n` starts. */
  function Offset<T>(kind: Kind<T>, buf: TokenizedBuffer<T>, opts: Options, n: nat): nat
    requires n <= |buf.tokens| <= |buf.lines|
  {
    |AllLines(kind, buf, opts, n)|
  }

  /** Every row has output, so each output line belongs to exactly one row. */
  lemma {:induction false} OffsetsIncrease<T>(kind: Kind<T>, buf: TokenizedBuffer<T>, opts: Options, i: nat, j: nat)
    requires i < j <= |buf.tokens| <= |buf.lines|
    ensures Offset(kind, buf, opts, i) < Offset(kind, buf, opts, j)
  {
    hide BestLines;
    if i + 1 < j {
      OffsetsIncrease(kind, buf, opts, i, j - 1);
    }
  }
}
