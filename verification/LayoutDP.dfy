/** The memoised layout: the cache agrees with the plain recursion and stays small. */
module LayoutDP {
  import opened GoStrings
  import opened LayoutSpec
  import opened LayoutRecursion

  /** The next token to lay out, and the column that the previous one ended at. */
  datatype SubProblem = SubProblem(index: nat, column: nat)

  // ---- Which subproblems can come up ---------------------------------------------------------

  /** The column reached at token `index` on a line that starts with token `start`. */
  function ColumnFrom<T>(row: Row<T>, start: nat, index: nat): (column: nat)
    requires start < index <= |row.tokens|
    decreases index
  {
    if index == start + 1 then
      if start == 0 then row.After(0, row.indent) else |row.Broken(start)|
    else row.After(index - 1, ColumnFrom(row, start, index - 1))
  }

  /** The column is settled by the token that the current line started with. */
  ghost predicate Reachable<T>(row: Row<T>, key: SubProblem) {
    && key.index <= |row.tokens|
    && if key.index == 0 then key.column == row.indent
       else exists start: nat :: start < key.index && key.column == ColumnFrom(row, start, key.index)
  }

  function ColumnsAt<T>(row: Row<T>, index: nat, starts: nat): (keys: set<SubProblem>)
    requires starts <= index <= |row.tokens|
    ensures forall start: nat :: start < starts ==> SubProblem(index, ColumnFrom(row, start, index)) in keys
    ensures |keys| <= starts
  {
    if starts == 0 then {}
    else ColumnsAt(row, index, starts - 1) + {SubProblem(index, ColumnFrom(row, starts - 1, index))}
  }

  function KeysUpTo<T>(row: Row<T>, index: nat): (keys: set<SubProblem>)
    requires index <= |row.tokens|
    ensures forall key :: Reachable(row, key) && key.index <= index ==> key in keys
    ensures |keys| <= index * (index + 1) / 2 + 1
  {
    if index == 0 then {SubProblem(0, row.indent)}
    else
      var before, here := KeysUpTo(row, index - 1), ColumnsAt(row, index, index);
      assert |before + here| <= |before| + |here|;
      before + here
  }

  lemma ReachableStep<T>(row: Row<T>, index: nat, column: nat)
    requires Reachable(row, SubProblem(index, column))
    ensures row.Position(index, column)
    ensures index < |row.tokens| ==> Reachable(row, SubProblem(index + 1, row.After(index, column)))
    ensures 0 < index < |row.tokens| ==> Reachable(row, SubProblem(index + 1, |row.Broken(index)|))
  {
    if index == 0 {
      assert index < |row.tokens| ==> row.After(0, column) == ColumnFrom(row, 0, 1);
    } else if index < |row.tokens| {
      var start: nat :| start < index && column == ColumnFrom(row, start, index);
      assert row.After(index, column) == ColumnFrom(row, start, index + 1);
      assert |row.Broken(index)| == ColumnFrom(row, index, index + 1);
    }
  }

  lemma SubsetSize<K>(a: set<K>, b: set<K>)
    requires a <= b
    ensures |a| <= |b|
  {
    assert b == a + (b - a);
  }

  /** The solution that breaks before token `index`. */
  function Broken<T>(row: Row<T>, index: nat): Solution
    requires 0 < index < |row.tokens|
  {
    var prefix := row.Broken(index);
    Break(row.Continuation(index), prefix, row.SplitCost(index), Plain(row, index + 1, |prefix|))
  }

  /** The solution that continues the line with token `index`. */
  function Kept<T>(row: Row<T>, index: nat, column: nat): Solution
    requires row.Position(index, column) && index < |row.tokens|
  {
    var s := row.Placed(index, column);
    Keep(s, row.Overflow(s, column), Plain(row, index + 1, row.After(index, column)))
  }

  lemma KeptIs<T>(row: Row<T>, index: nat, column: nat, s: string, penalty: nat)
    requires row.Position(index, column) && index < |row.tokens|
    requires s == row.Placed(index, column) && penalty == row.Overflow(s, column)
    ensures row.After(index, column) == column + |s|
    ensures Kept(row, index, column) == Keep(s, penalty, Plain(row, index + 1, column + |s|))
  {
  }

  lemma PlainAtEnd<T>(row: Row<T>, column: nat)
    requires row.Position(|row.tokens|, column)
    ensures Plain(row, |row.tokens|, column) == Solution([""], 0)
  {
  }

  /** The plain recursion, one call deep. */
  lemma PlainStep<T>(row: Row<T>, index: nat, column: nat)
    requires row.Position(index, column) && index < |row.tokens|
    ensures Kept(row, index, column).cost == KeptCost(row, index, column)
    ensures Plain(row, index, column) == if Breaks(row, index, column) then Broken(row, index) else Kept(row, index, column)
  {
    hide Row.Overflow, Row.Placed, Row.After, Row.Broken;
  }

  /** Overwriting the first line of a copy of the layout. */
  lemma KeepInPlace(s: string, penalty: nat, sub: Solution)
    requires |sub.layout| > 0
    ensures Solution(sub.layout[0 := s + sub.layout[0]], sub.cost + penalty) == Keep(s, penalty, sub)
  {
  }

  /** Prepending the continuation and then overwriting the second line. */
  lemma BreakInPlace(continuation: string, prefix: string, transition: int, sub: Solution)
    requires |sub.layout| > 0
    ensures var layout := [continuation] + sub.layout;
            Solution(layout[1 := prefix + layout[1]], sub.cost + transition) == Break(continuation, prefix, transition, sub)
  {
  }

  // ---- One cache, one indent -----------------------------------------------------------------

  /** Two words that want a space between them, laid out at the given indent. */
  function TwoWords(indent: nat): Row<string> {
    var kind := Kind((_, _) => (-1, ""), (_, _) => true, (word: string) => word);
    Row(kind, ["a", "b"], Options(80, 4), indent)
  }

  lemma LastToken<T>(row: Row<T>, column: nat)
    requires row.tokens != [] && row.Position(|row.tokens| - 1, column) && !row.CanSplit(|row.tokens| - 1)
    ensures Plain(row, |row.tokens| - 1, column).layout == [row.Placed(|row.tokens| - 1, column)]
  {
    hide Row.Overflow;
    var s := row.Placed(|row.tokens| - 1, column);
    assert Plain(row, |row.tokens|, row.After(|row.tokens| - 1, column)).layout == [""];
    assert s + "" == s;
  }

  lemma SecondWord(indent: nat)
    ensures TwoWords(indent).Position(1, 1)
    ensures Plain(TwoWords(indent), 1, 1).layout == [if 1 > indent then " b" else "b"]
  {
    hide Plain;
    LastToken(TwoWords(indent), 1);
    assert TwoWords(indent).Placed(1, 1) == if 1 > indent then " b" else "b";
  }

  /** The keys of the cache leave out the indent although the solution depends on it: the second
      word, to be laid out at column 1, has a space in front at indent 0 but none at any other. An
      entry is therefore good for one indent only. */
  lemma SameKeyOtherIndent(indent: nat)
    requires indent > 0
    ensures TwoWords(0).Position(1, 1) && TwoWords(indent).Position(1, 1)
    ensures Plain(TwoWords(0), 1, 1) != Plain(TwoWords(indent), 1, 1)
  {
    hide Plain;
    SecondWord(0);
    SecondWord(indent);
    assert |Plain(TwoWords(0), 1, 1).layout[0]| == 2 && |Plain(TwoWords(indent), 1, 1).layout[0]| == 1;
  }

  // ---- The dynamic program -------------------------------------------------------------------

  /** Nothing is forgotten, and only subproblems from `index` on have been added. */
  ghost predicate Grows(before: map<SubProblem, Solution>, after: map<SubProblem, Solution>, index: nat) {
    && (forall key :: key in before ==> key in after && after[key] == before[key])
    && (forall key :: key in after && key !in before ==> index <= key.index)
  }

  lemma GrowsNothing(cache: map<SubProblem, Solution>, index: nat)
    ensures Grows(cache, cache, index)
  {
  }

  lemma GrowsTwice(a: map<SubProblem, Solution>, b: map<SubProblem, Solution>, c: map<SubProblem, Solution>, index: nat)
    requires Grows(a, b, index) && Grows(b, c, index)
    ensures Grows(a, c, index)
  {
  }

  class LayoutDP<T> {
    var cache: map<SubProblem, Solution>
    const kind: Kind<T>
    const tokens: seq<T>
    const opts: Options
    /** How often `SolveImpl` has been entered. */
    ghost var evaluations: nat

    constructor (kind: Kind<T>, tokens: seq<T>, opts: Options)
      ensures this.kind == kind && this.tokens == tokens && this.opts == opts
      ensures cache == map[] && evaluations == 0
    {
      this.cache := map[];
      this.kind, this.tokens, this.opts := kind, tokens, opts;
      this.evaluations := 0;
    }

    /** The row that calls with this indent are about. */
    function RowAt(indent: nat): Row<T> {
      Row(kind, tokens, opts, indent)
    }

    /** Every entry is the plain recursion's solution of a subproblem that can come up, and each
        has been computed once. The keys leave out the indent, so this holds for one indent only. */
    ghost predicate Agrees(indent: nat)
      reads `cache
    {
      && (forall key :: key in cache ==>
            && Reachable(RowAt(indent), key)
            && RowAt(indent).Position(key.index, key.column)
            && cache[key] == Plain(RowAt(indent), key.index, key.column))
    }

    /** Looks the subproblem up in the cache, or solves it and caches the solution. */
    method Solve(index: nat, column: nat, indent: nat) returns (solution: Solution)
      requires Agrees(indent) && Reachable(RowAt(indent), SubProblem(index, column))
      requires evaluations == |cache|
      modifies this
      ensures RowAt(indent).Position(index, column)
      ensures solution == Plain(RowAt(indent), index, column)
      ensures Agrees(indent) && Grows(old(cache), cache, index) && evaluations == |cache|
      decreases |tokens| - index, 2
    {
      var key := SubProblem(index, column);
      if key in cache {
        return cache[key];
      }
      solution := SolveImpl(index, column, indent);
      cache := cache[key := solution];
    }

    /** The text of a token that continues a line, with a space in front where one is wanted. */
    method ContinuedText(index: nat, column: nat, indent: nat) returns (s: string)
      requires RowAt(indent).Position(index, column) && index < |tokens|
      ensures s == RowAt(indent).Placed(index, column)
    {
      s := kind.text(tokens[index]);
      if column > indent && kind.insertSpace(tokens[index - 1], tokens[index]) {
        s := " " + s;
      }
    }

    /** The cost of printing `s` from `column`. */
    method Penalty(s: string, column: nat, ghost indent: nat) returns (penalty: nat)
      ensures penalty == RowAt(indent).Overflow(s, column)
    {
      penalty := 0;
      var width := MeasureWidth(s, opts.tabWidth);
      if column + width > opts.columns {
        penalty := EXTRA_COLUMN_COST * (column + width - opts.columns);
      }
    }

    /** The solution that continues the line with token `index`. */
    method ContinueLine(index: nat, column: nat, indent: nat) returns (kept: Solution)
      requires index < |tokens| && Agrees(indent) && Reachable(RowAt(indent), SubProblem(index, column))
      requires evaluations == |cache|
      modifies this
      ensures RowAt(indent).Position(index, column)
      ensures kept == Kept(RowAt(indent), index, column)
      ensures Agrees(indent) && Grows(old(cache), cache, index + 1) && evaluations == |cache|
      decreases |tokens| - index, 0
    {
      hide Row.Overflow, Row.Placed, Row.Broken, Plain, Keep, Kept, Reachable, Grows, Agrees;
      ReachableStep(RowAt(indent), index, column);
      var s := ContinuedText(index, column, indent);
      var penalty := Penalty(s, column, indent);
      KeptIs(RowAt(indent), index, column, s, penalty);
      hide Row.After;
      var subSolution := Solve(index + 1, column + |s|, indent);
      kept := Solution(subSolution.layout[0 := s + subSolution.layout[0]], subSolution.cost + penalty);
      KeepInPlace(s, penalty, subSolution);
    }

    /** Solves a subproblem that is not in the cache. */
    method SolveImpl(index: nat, column: nat, indent: nat) returns (best: Solution)
      requires Agrees(indent) && Reachable(RowAt(indent), SubProblem(index, column))
      requires evaluations == |cache|
      modifies this
      ensures RowAt(indent).Position(index, column)
      ensures best == Plain(RowAt(indent), index, column)
      ensures Agrees(indent) && Grows(old(cache), cache, index + 1) && evaluations == |cache| + 1
      decreases |tokens| - index, 1
    {
      hide Row.Broken, Plain, KeptCost, Kept, Broken, Reachable, Grows, Agrees, Breaks;
      ReachableStep(RowAt(indent), index, column);
      if index == |tokens| {
        evaluations := evaluations + 1;
        PlainAtEnd(RowAt(indent), column);
        GrowsNothing(cache, index + 1);
        return Solution([""], 0);
      }
      PlainStep(RowAt(indent), index, column);
      best := ContinueLine(index, column, indent);
      ghost var between := cache;
      if index > 0 {
        best := ConsiderBreak(index, column, indent, best);
        GrowsTwice(old(cache), between, cache, index + 1);
      }
      evaluations := evaluations + 1;
    }

    /** Replaces `kept` by the solution that breaks before token `index`, if that is cheaper. */
    method ConsiderBreak(index: nat, ghost column: nat, indent: nat, kept: Solution) returns (best: Solution)
      requires 0 < index < |tokens| && RowAt(indent).Position(index, column)
      requires Reachable(RowAt(indent), SubProblem(index + 1, |RowAt(indent).Broken(index)|))
      requires kept.cost == KeptCost(RowAt(indent), index, column)
      requires Agrees(indent) && evaluations == |cache|
      modifies this
      ensures var row := RowAt(indent);
              best == if Breaks(row, index, column) then Broken(row, index) else kept
      ensures Agrees(indent) && Grows(old(cache), cache, index + 1) && evaluations == |cache|
      decreases |tokens| - index, 0
    {
      best := kept;
      var (transition, continuation) := kind.splitCost(tokens[index - 1], tokens[index]);
      if transition >= 0 {
        var extra := opts.tabWidth;
        var prefix := Spaces(indent + extra) + kind.text(tokens[index]);
        assert prefix == RowAt(indent).Broken(index);
        hide Plain, Reachable, Grows, Agrees;
        var subSolution := Solve(index + 1, |prefix|, indent);
        if subSolution.cost + transition < best.cost {
          best := Solution([continuation] + subSolution.layout, subSolution.cost + transition);
          best := best.(layout := best.layout[1 := prefix + best.layout[1]]);
          BreakInPlace(continuation, prefix, transition, subSolution);
        }
      }
    }
  }

  /** The loop that measures a string. */
  method MeasureWidth(s: string, tabWidth: nat) returns (n: nat)
    ensures n == Width(s, tabWidth)
  {
    n := 0;
    var rest := s;
    while rest != ""
      invariant n + Width(rest, tabWidth) == Width(s, tabWidth)
      decreases |rest|
    {
      var r := DecodeRune(rest);
      if r.code == 0x09 {
        n := n + tabWidth;
      } else {
        n := n + 1;
      }
      rest := rest[r.size..];
    }
  }

  /** The loop that measures the indent of a line. */
  method MeasureIndent(line: string, tabWidth: nat) returns (n: nat)
    ensures n == LeadingIndent(line, tabWidth)
  {
    n := 0;
    var rest := line;
    while rest != ""
      invariant n + LeadingIndent(rest, tabWidth) == LeadingIndent(line, tabWidth)
      decreases |rest|
    {
      var r := DecodeRune(rest);
      if r.code == 0x09 {
        n := n + tabWidth;
      } else if IsSpace(r.code) {
        n := n + 1;
      } else {
        break;
      }
      rest := rest[r.size..];
    }
  }
}
