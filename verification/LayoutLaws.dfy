/** What the cost of a layout is, in columns, and what that means for the lines that are printed. */
module LayoutLaws {
  import opened LayoutSpec
  import opened LayoutRecursion
  import opened Wrap

  // ---- The penalty -----------------------------------------------------------------------------

  /** How many columns past the limit `s` reaches when it is printed from `column`. */
  function Past<T>(row: Row<T>, s: string, column: nat): nat {
    var reached := column + Width(s, row.opts.tabWidth);
    if reached <= row.opts.columns then 0 else reached - row.opts.columns
  }

  /** Nothing is charged exactly if the text ends within the columns; each column past them costs 15. */
  lemma OverflowIsPerColumn<T>(row: Row<T>, s: string, column: nat)
    ensures row.Overflow(s, column) == 0 <==> column + Width(s, row.opts.tabWidth) <= row.opts.columns
    ensures column + Width(s, row.opts.tabWidth) >= row.opts.columns ==> row.Overflow(s, column + 1) == row.Overflow(s, column) + 15
    ensures row.Overflow(s, column) == 15 * Past(row, s, column)
  {
  }

  // ---- The cost of a vector --------------------------------------------------------------------

  /** The vectors that are allowed: breaks only between two tokens, and only where the first of them
      allows it. */
  lemma LegalIff<T>(row: Row<T>, splits: seq<bool>)
    ensures row.Legal(splits) <==>
            && |splits| == |row.tokens|
            && (splits != [] ==> !splits[0])
            && forall i :: 0 < i < |splits| && splits[i] ==> row.kind.splitCost(row.tokens[i - 1], row.tokens[i]).0 >= 0
  {
  }

  /** What the breaks among the first `i` tokens cost. */
  function BreakTotal<T>(row: Row<T>, splits: seq<bool>, i: nat): int
    requires |splits| == |row.tokens| && i <= |splits| && (splits != [] ==> !splits[0])
  {
    if i == 0 then 0
    else
      BreakTotal(row, splits, i - 1)
      + if splits[i - 1] then row.kind.splitCost(row.tokens[i - 2], row.tokens[i - 1]).0 else 0
  }

  /** How many columns past the limit the first `i` tokens reach, not counting those that start a line. */
  function PastTotal<T>(row: Row<T>, splits: seq<bool>, i: nat): nat
    requires row.Legal(splits) && i <= |splits|
  {
    if i == 0 then 0
    else
      var column := row.Column(splits, i - 1);
      PastTotal(row, splits, i - 1) + if splits[i - 1] then 0 else Past(row, row.Placed(i - 1, column), column)
  }

  /** The cost is made up of breaks and columns past the limit. */
  predicate MadeUp<T>(row: Row<T>, splits: seq<bool>, i: nat)
    requires row.Legal(splits) && i <= |splits|
  {
    row.Cost(splits, i) == BreakTotal(row, splits, i) + 15 * PastTotal(row, splits, i) && BreakTotal(row, splits, i) >= 0
  }

  lemma NothingCosts<T>(row: Row<T>, splits: seq<bool>)
    requires row.Legal(splits)
    ensures MadeUp(row, splits, 0)
  {
  }

  lemma CostOfToken<T>(row: Row<T>, splits: seq<bool>, i: nat)
    requires row.Legal(splits) && i < |splits| && MadeUp(row, splits, i)
    ensures MadeUp(row, splits, i + 1)
  {
    if !splits[i] {
      var column := row.Column(splits, i);
      OverflowIsPerColumn(row, row.Placed(i, column), column);
    }
    hide Row.Overflow, Row.Placed, Past, Row.Column;
  }

  lemma {:induction false} CostIs<T>(row: Row<T>, splits: seq<bool>, i: nat)
    requires row.Legal(splits) && i <= |splits|
    ensures MadeUp(row, splits, i)
  {
    hide *;
    if i > 0 {
      CostIs(row, splits, i - 1);
      CostOfToken(row, splits, i - 1);
    } else {
      NothingCosts(row, splits);
    }
  }

  /** A layout costs what its breaks cost and 15 for each column past the limit. */
  lemma TotalCostIs<T>(row: Row<T>, splits: seq<bool>)
    requires row.Legal(splits)
    ensures row.TotalCost(splits) == BreakTotal(row, splits, |splits|) + 15 * PastTotal(row, splits, |splits|)
    ensures BreakTotal(row, splits, |splits|) >= 0
  {
    CostIs(row, splits, |splits|);
  }

  // ---- What fits is made to fit ----------------------------------------------------------------

  /** Token `i` starts a line or ends within the columns. */
  predicate FitsAt<T>(row: Row<T>, splits: seq<bool>, i: nat)
    requires row.Legal(splits) && i < |splits|
  {
    splits[i] ||
    var column := row.Column(splits, i);
    column + Width(row.Placed(i, column), row.opts.tabWidth) <= row.opts.columns
  }

  /** Every token that is placed on a running line ends within the columns. */
  predicate Fits<T>(row: Row<T>, splits: seq<bool>)
    requires row.Legal(splits)
  {
    forall i :: 0 <= i < |splits| ==> FitsAt(row, splits, i)
  }

  lemma PastOfToken<T>(row: Row<T>, splits: seq<bool>, i: nat)
    requires row.Legal(splits) && i < |splits|
    ensures PastTotal(row, splits, i + 1) == PastTotal(row, splits, i) <==> FitsAt(row, splits, i)
    ensures PastTotal(row, splits, i + 1) >= PastTotal(row, splits, i)
  {
    hide Row.Placed, Row.Column;
  }

  predicate FitUpTo<T>(row: Row<T>, splits: seq<bool>, i: nat)
    requires row.Legal(splits) && i <= |splits|
  {
    forall j :: 0 <= j < i ==> FitsAt(row, splits, j)
  }

  lemma OneMoreFits<T>(row: Row<T>, splits: seq<bool>, i: nat)
    requires row.Legal(splits) && i < |splits|
    ensures FitUpTo(row, splits, i + 1) <==> FitUpTo(row, splits, i) && FitsAt(row, splits, i)
  {
    hide FitsAt;
  }

  predicate PastMeansUnfit<T>(row: Row<T>, splits: seq<bool>, i: nat)
    requires row.Legal(splits) && i <= |splits|
  {
    PastTotal(row, splits, i) == 0 <==> FitUpTo(row, splits, i)
  }

  lemma NothingPast<T>(row: Row<T>, splits: seq<bool>)
    requires row.Legal(splits)
    ensures PastMeansUnfit(row, splits, 0)
  {
    hide FitsAt, Row.Legal;
  }

  lemma OneMoreToken<T>(row: Row<T>, splits: seq<bool>, i: nat)
    requires row.Legal(splits) && i < |splits| && PastMeansUnfit(row, splits, i)
    ensures PastMeansUnfit(row, splits, i + 1)
  {
    OneMoreFits(row, splits, i);
    PastOfToken(row, splits, i);
    hide FitUpTo, FitsAt, PastTotal;
  }

  lemma {:induction false} FitsUpTo<T>(row: Row<T>, splits: seq<bool>, i: nat)
    requires row.Legal(splits) && i <= |splits|
    ensures PastMeansUnfit(row, splits, i)
  {
    hide *;
    if i > 0 {
      FitsUpTo(row, splits, i - 1);
      OneMoreToken(row, splits, i - 1);
    } else {
      NothingPast(row, splits);
    }
  }

  lemma FitsIff<T>(row: Row<T>, splits: seq<bool>)
    requires row.Legal(splits)
    ensures Fits(row, splits) <==> PastTotal(row, splits, |splits|) == 0
  {
    FitsUpTo(row, splits, |splits|);
    hide FitsAt, PastTotal;
  }

  /** Layout does not overflow to save breaks: what the best layout pays for breaks and for columns past
      the limit is no more than any other pays. In particular, if some layout fits and its breaks cost less
      than one column does, the best layout fits, and its breaks cost no more. */
  lemma BestFitsIfCheaplyPossible<T>(row: Row<T>, best: seq<bool>, other: seq<bool>)
    requires row.Best(best) && row.Legal(other)
    ensures BreakTotal(row, best, |best|) + 15 * PastTotal(row, best, |best|)
         <= BreakTotal(row, other, |other|) + 15 * PastTotal(row, other, |other|)
    ensures Fits(row, other) && BreakTotal(row, other, |other|) < 15 ==>
              Fits(row, best) && BreakTotal(row, best, |best|) <= BreakTotal(row, other, |other|)
  {
    TotalCostIs(row, best);
    TotalCostIs(row, other);
    FitsIff(row, best);
    FitsIff(row, other);
    hide BreakTotal, PastTotal, Fits;
  }
}
