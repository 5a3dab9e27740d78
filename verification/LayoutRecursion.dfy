/** The recursion behind the layout, without a cache, and why it finds the best layout.

The recursion builds a solution from the end of the row backwards and never looks at a decision
vector. `Tail` gives the text and the cost of the rest of a row under a given vector; it is the bridge
between the recursion and the typewriter of `LayoutSpec`.
*/
module LayoutRecursion {
  import opened GoStrings
  import opened LayoutSpec

  datatype Solution = Solution(layout: seq<string>, cost: int)

  /** The solution that continues the line with `s`, given one for what follows. */
  function Keep(s: string, penalty: nat, sub: Solution): (r: Solution)
    requires |sub.layout| > 0
    ensures |r.layout| == |sub.layout|
  {
    Solution(sub.layout[0 := s + sub.layout[0]], sub.cost + penalty)
  }

  /** The solution that ends the line with `continuation` and starts the next one with `prefix`. */
  function Break(continuation: string, prefix: string, transition: int, sub: Solution): (r: Solution)
    requires |sub.layout| > 0
    ensures |r.layout| == |sub.layout| + 1
  {
    Solution([continuation, prefix + sub.layout[0]] + sub.layout[1..], sub.cost + transition)
  }

  /** The subproblem (`index`, `column`), solved from scratch. */
  function Plain<T>(row: Row<T>, index: nat, column: nat): (solution: Solution)
    requires row.Position(index, column)
    ensures |solution.layout| > 0
    decreases |row.tokens| - index
  {
    if index == |row.tokens| then Solution([""], 0)
    else
      var s := row.Placed(index, column);
      var kept := Keep(s, row.Overflow(s, column), Plain(row, index + 1, row.After(index, column)));
      if row.CanSplit(index) then
        var prefix := row.Broken(index);
        var sub := Plain(row, index + 1, |prefix|);
        if sub.cost + row.SplitCost(index) < kept.cost
        then Break(row.Continuation(index), prefix, row.SplitCost(index), sub)
        else kept
      else kept
  }

  // ---- The rest of a row under given decisions -----------------------------------------------

  predicate LegalTail<T>(row: Row<T>, index: nat, splits: seq<bool>) {
    && |splits| + index == |row.tokens|
    && forall i :: 0 <= i < |splits| && splits[i] ==> row.CanSplit(index + i)
  }

  function Tail<T>(row: Row<T>, index: nat, column: nat, splits: seq<bool>): (r: Solution)
    requires row.Position(index, column) && LegalTail(row, index, splits)
    ensures |r.layout| > 0
    decreases |splits|
  {
    if splits == [] then Solution([""], 0)
    else if splits[0] then
      var prefix := row.Broken(index);
      Break(row.Continuation(index), prefix, row.SplitCost(index), Tail(row, index + 1, |prefix|, splits[1..]))
    else
      var s := row.Placed(index, column);
      Keep(s, row.Overflow(s, column), Tail(row, index + 1, row.After(index, column), splits[1..]))
  }

  /** One step of the tail, by its first decision. */
  lemma UnfoldTail<T>(row: Row<T>, index: nat, column: nat, splits: seq<bool>)
    requires row.Position(index, column) && LegalTail(row, index, splits) && splits != []
    ensures LegalTail(row, index + 1, splits[1..]) && (splits[0] ==> row.CanSplit(index))
    ensures Tail(row, index, column, splits) ==
            if splits[0] then
              var prefix := row.Broken(index);
              Break(row.Continuation(index), prefix, row.SplitCost(index),
                    Tail(row, index + 1, |prefix|, splits[1..]))
            else
              var s := row.Placed(index, column);
              Keep(s, row.Overflow(s, column), Tail(row, index + 1, row.After(index, column), splits[1..]))
  {
  }

  lemma LegalCons<T>(row: Row<T>, index: nat, first: bool, rest: seq<bool>)
    requires index < |row.tokens| && LegalTail(row, index + 1, rest) && (first ==> row.CanSplit(index))
    ensures LegalTail(row, index, [first] + rest)
  {
    var splits := [first] + rest;
    forall i | 0 <= i < |splits| && splits[i]
      ensures row.CanSplit(index + i)
    {
      assert i > 0 ==> splits[i] == rest[i - 1];
    }
  }

  /** What the rest of the row costs if the line continues with token `index`. */
  function KeptCost<T>(row: Row<T>, index: nat, column: nat): int
    requires row.Position(index, column) && index < |row.tokens|
  {
    Plain(row, index + 1, row.After(index, column)).cost + row.Overflow(row.Placed(index, column), column)
  }

  /** Breaking before token `index` is allowed and strictly cheaper than continuing the line. */
  predicate Breaks<T>(row: Row<T>, index: nat, column: nat)
    requires row.Position(index, column) && index < |row.tokens|
    ensures Breaks(row, index, column) ==> 0 < index
  {
    && row.CanSplit(index)
    && Plain(row, index + 1, |row.Broken(index)|).cost + row.SplitCost(index) < KeptCost(row, index, column)
  }

  /** The decisions that the recursion takes from (`index`, `column`) on. */
  function Decisions<T>(row: Row<T>, index: nat, column: nat): (splits: seq<bool>)
    requires row.Position(index, column)
    ensures LegalTail(row, index, splits)
    decreases |row.tokens| - index
  {
    if index == |row.tokens| then []
    else
      var first := Breaks(row, index, column);
      var rest := Decisions(row, index + 1, if first then |row.Broken(index)| else row.After(index, column));
      LegalCons(row, index, first, rest);
      [first] + rest
  }

  /** One step of the recursion, by its first decision. */
  lemma Unfold<T>(row: Row<T>, index: nat, column: nat)
    requires row.Position(index, column) && index < |row.tokens|
    ensures var splits := Decisions(row, index, column);
            if splits[0] then
              var prefix := row.Broken(index);
              && row.CanSplit(index)
              && splits[1..] == Decisions(row, index + 1, |prefix|)
              && Plain(row, index, column)
                 == Break(row.Continuation(index), prefix, row.SplitCost(index), Plain(row, index + 1, |prefix|))
            else
              var s := row.Placed(index, column);
              && splits[1..] == Decisions(row, index + 1, row.After(index, column))
              && Plain(row, index, column)
                 == Keep(s, row.Overflow(s, column), Plain(row, index + 1, row.After(index, column)))
  {
    hide Row.Overflow, Row.Placed, Row.After, Row.Broken;
  }

  /** The step takes the cheaper decision, and breaks only when that is strictly cheaper. */
  lemma Cheaper<T>(row: Row<T>, index: nat, column: nat)
    requires row.Position(index, column) && index < |row.tokens|
    ensures var s := row.Placed(index, column);
            var kept := Plain(row, index + 1, row.After(index, column)).cost + row.Overflow(s, column);
            && Plain(row, index, column).cost <= kept
            && (row.CanSplit(index) ==>
                  Plain(row, index, column).cost <= Plain(row, index + 1, |row.Broken(index)|).cost + row.SplitCost(index))
            && (Decisions(row, index, column)[0] ==> Plain(row, index, column).cost < kept)
  {
    hide Row.Overflow, Row.Placed, Row.After, Row.Broken;
  }

  /** The recursion returns the text and the cost of its own decisions. */
  lemma {:induction false} PlainIsTailOfDecisions<T>(row: Row<T>, index: nat, column: nat)
    requires row.Position(index, column)
    ensures Plain(row, index, column) == Tail(row, index, column, Decisions(row, index, column))
    decreases |row.tokens| - index
  {
    hide Row.Overflow, Row.Placed, Row.After, Row.Broken, LegalTail;
    if index < |row.tokens| {
      Unfold(row, index, column);
      if Decisions(row, index, column)[0] {
        PlainIsTailOfDecisions(row, index + 1, |row.Broken(index)|);
      } else {
        PlainIsTailOfDecisions(row, index + 1, row.After(index, column));
      }
    }
  }

  /** No decisions for the rest of the row are cheaper, and any equally cheap ones break earlier. */
  lemma {:induction false} DecisionsAreBest<T>(row: Row<T>, index: nat, column: nat, other: seq<bool>)
    requires row.Position(index, column) && LegalTail(row, index, other)
    ensures Plain(row, index, column).cost <= Tail(row, index, column, other).cost
    ensures var splits := Decisions(row, index, column);
            Tail(row, index, column, other).cost == Plain(row, index, column).cost ==>
              other == splits || Precedes(splits, other)
    decreases |row.tokens| - index
  {
    if other != [] {
      Unfold(row, index, column);
      Cheaper(row, index, column);
      UnfoldTail(row, index, column, other);
      hide Plain, Decisions, Tail, LegalTail, Row.Overflow, Row.Placed, Row.After, Row.Broken;
      var s := row.Placed(index, column);
      var splits := Decisions(row, index, column);
      var next := if other[0] then |row.Broken(index)| else row.After(index, column);
      DecisionsAreBest(row, index + 1, next, other[1..]);
      assert other == [other[0]] + other[1..];
      if Tail(row, index, column, other).cost == Plain(row, index, column).cost {
        if splits[0] == other[0] {
          assert splits[1..] == Decisions(row, index + 1, next);
          if other[1..] != splits[1..] {
            PrecedesCons(splits, other);
          }
        } else {
          assert splits[..0] == other[..0] && !splits[0] && other[0];
        }
      }
    }
  }

  lemma PrecedesCons(a: seq<bool>, b: seq<bool>)
    requires a != [] && b != [] && a[0] == b[0] && Precedes(a[1..], b[1..])
    ensures Precedes(a, b)
  {
    var k :| 0 <= k < |a[1..]| && k < |b[1..]| && a[1..][..k] == b[1..][..k] && !a[1..][k] && b[1..][k];
    assert a[..k + 1] == [a[0]] + a[1..][..k] && b[..k + 1] == [b[0]] + b[1..][..k];
    assert !a[k + 1] && b[k + 1];
  }

  // ---- From the rest of a row to the typewriter ----------------------------------------------

  /** `tail` printed after `head`, its first line continuing the last line of `head`. */
  function Splice(head: seq<string>, tail: seq<string>): (r: seq<string>)
    requires |head| > 0 && |tail| > 0
    ensures |r| > 0
  {
    head[..|head| - 1] + [head[|head| - 1] + tail[0]] + tail[1..]
  }

  lemma SpliceEmpty(head: seq<string>)
    requires |head| > 0
    ensures Splice(head, [""]) == head
  {
    assert head[|head| - 1] + "" == head[|head| - 1];
  }

  lemma SpliceKeep(head: seq<string>, s: string, penalty: nat, rest: Solution)
    requires |head| > 0 && |rest.layout| > 0
    ensures Splice(head[..|head| - 1] + [head[|head| - 1] + s], rest.layout)
         == Splice(head, Keep(s, penalty, rest).layout)
    ensures Keep(s, penalty, rest).cost == rest.cost + penalty
  {
    assert head[|head| - 1] + s + rest.layout[0] == head[|head| - 1] + (s + rest.layout[0]);
  }

  lemma SpliceBreak(head: seq<string>, continuation: string, prefix: string, cost: int, rest: Solution)
    requires |head| > 0 && |rest.layout| > 0
    ensures Splice(head[..|head| - 1] + [head[|head| - 1] + continuation, prefix], rest.layout)
         == Splice(head, Break(continuation, prefix, cost, rest).layout)
    ensures Break(continuation, prefix, cost, rest).cost == rest.cost + cost
  {
    var tail := Break(continuation, prefix, cost, rest).layout;
    assert tail[1..] == [prefix + rest.layout[0]] + rest.layout[1..];
    var extended := head[..|head| - 1] + [head[|head| - 1] + continuation, prefix];
    assert extended[..|extended| - 1] == head[..|head| - 1] + [head[|head| - 1] + continuation];
  }

  /** The whole row, as what has been typed and the tail of the rest. */
  ghost predicate Finishes<T>(row: Row<T>, splits: seq<bool>, index: nat)
    requires row.Legal(splits) && index <= |row.tokens|
  {
    && LegalTail(row, index, splits[index..])
    && var tail := Tail(row, index, row.Column(splits, index), splits[index..]);
       && row.Rendered(splits) == Splice(row.Lines(splits, index), tail.layout)
       && row.TotalCost(splits) == row.Cost(splits, index) + tail.cost
  }

  lemma LegalFrom<T>(row: Row<T>, splits: seq<bool>, index: nat)
    requires row.Legal(splits) && index <= |row.tokens|
    ensures |splits| == |row.tokens| && LegalTail(row, index, splits[index..])
    ensures index < |row.tokens| ==> splits[index..][1..] == splits[index + 1..] && (splits[index] ==> row.CanSplit(index))
  {
    if index < |row.tokens| {
      assert splits[index..][1..] == splits[index + 1..];
    }
  }

  lemma BreakFinishes<T>(row: Row<T>, splits: seq<bool>, index: nat)
    requires row.Legal(splits) && index < |row.tokens| && Finishes(row, splits, index + 1) && splits[index]
    ensures Finishes(row, splits, index)
  {
    LegalFrom(row, splits, index);
    var lines, tail, prefix := row.Lines(splits, index), splits[index..], row.Broken(index);
    UnfoldTail(row, index, row.Column(splits, index), tail);
    hide Row.Overflow, Row.Legal, Row.Broken, LegalTail, Splice, Keep, Break, Tail;
    SpliceBreak(lines, row.Continuation(index), prefix, row.SplitCost(index),
                Tail(row, index + 1, |prefix|, tail[1..]));
  }

  /** What the typewriter does with a token that continues the line. */
  lemma TypeOn<T>(row: Row<T>, splits: seq<bool>, index: nat, s: string)
    requires row.Legal(splits) && index < |row.tokens| && !splits[index]
    requires s == row.Placed(index, row.Column(splits, index))
    ensures var lines := row.Lines(splits, index);
            row.Lines(splits, index + 1) == lines[..|lines| - 1] + [lines[|lines| - 1] + s]
    ensures row.Column(splits, index + 1) == row.After(index, row.Column(splits, index))
    ensures row.Cost(splits, index + 1) == row.Cost(splits, index) + row.Overflow(s, row.Column(splits, index))
  {
    hide Row.Overflow, Row.Legal, Row.Placed;
  }

  lemma KeepTail<T>(row: Row<T>, splits: seq<bool>, index: nat, column: nat, s: string)
    requires row.Legal(splits) && index < |row.tokens| && !splits[index]
    requires column == row.Column(splits, index) && s == row.Placed(index, column)
    ensures LegalTail(row, index, splits[index..]) && LegalTail(row, index + 1, splits[index + 1..])
    ensures Tail(row, index, column, splits[index..])
         == Keep(s, row.Overflow(s, column), Tail(row, index + 1, row.After(index, column), splits[index + 1..]))
  {
    LegalFrom(row, splits, index);
    UnfoldTail(row, index, column, splits[index..]);
    hide *;
  }

  lemma KeepFinishes<T>(row: Row<T>, splits: seq<bool>, index: nat)
    requires row.Legal(splits) && index < |row.tokens| && Finishes(row, splits, index + 1) && !splits[index]
    ensures Finishes(row, splits, index)
  {
    var column := row.Column(splits, index);
    var s := row.Placed(index, column);
    KeepTail(row, splits, index, column, s);
    TypeOn(row, splits, index, s);
    hide *;
    SpliceKeep(row.Lines(splits, index), s, row.Overflow(s, column),
               Tail(row, index + 1, row.After(index, column), splits[index + 1..]));
  }

  /** Whatever has been typed, the rest of the row adds exactly its tail to text and cost. */
  lemma {:induction false} TypewriterFinishes<T>(row: Row<T>, splits: seq<bool>, index: nat)
    requires row.Legal(splits) && index <= |row.tokens|
    ensures Finishes(row, splits, index)
    decreases |row.tokens| - index
  {
    if index == |row.tokens| {
      SpliceEmpty(row.Lines(splits, index));
    } else {
      TypewriterFinishes(row, splits, index + 1);
      if splits[index] {
        BreakFinishes(row, splits, index);
      } else {
        KeepFinishes(row, splits, index);
      }
    }
  }

  /** A whole vector played by the typewriter is its tail from the first token, indented. */
  lemma PlayedFromTheStart<T>(row: Row<T>, splits: seq<bool>)
    requires row.Legal(splits)
    ensures LegalTail(row, 0, splits)
    ensures var tail := Tail(row, 0, row.indent, splits);
            && row.Rendered(splits) == tail.layout[0 := Spaces(row.indent) + tail.layout[0]]
            && row.TotalCost(splits) == tail.cost
  {
    TypewriterFinishes(row, splits, 0);
    assert splits[0..] == splits;
    var tail := Tail(row, 0, row.indent, splits);
    assert Splice([Spaces(row.indent)], tail.layout) == tail.layout[0 := Spaces(row.indent) + tail.layout[0]];
  }

  /** The recursion started at the indent finds the best layout of the row: it returns the text of
      the one best vector, less the indent that the caller puts in front, and its cost. */
  lemma PlainIsBest<T>(row: Row<T>)
    ensures row.Best(Decisions(row, 0, row.indent))
    ensures var solution := Plain(row, 0, row.indent);
            var splits := Decisions(row, 0, row.indent);
            && row.Rendered(splits) == solution.layout[0 := Spaces(row.indent) + solution.layout[0]]
            && row.TotalCost(splits) == solution.cost
  {
    var splits := Decisions(row, 0, row.indent);
    PlainIsTailOfDecisions(row, 0, row.indent);
    PlayedFromTheStart(row, splits);
    hide Plain, Decisions, Tail;
    forall other | row.Legal(other)
      ensures row.TotalCost(splits) <= row.TotalCost(other)
      ensures row.TotalCost(other) == row.TotalCost(splits) ==> other == splits || Precedes(splits, other)
    {
      PlayedFromTheStart(row, other);
      DecisionsAreBest(row, 0, row.indent, other);
    }
  }
}
