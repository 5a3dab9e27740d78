/** What laying out one row of tokens means, apart from any way of computing it.

A layout is a vector of decisions, one per token: start a new line before the token or not. The
typewriter below plays a vector forward, appending each token to the lines printed so far. It
defines both the text and the cost that every way of computing a layout has to agree with.
*/
module LayoutSpec {
  import opened GoStrings

  const EXTRA_COLUMN_COST := 15

  datatype Options = Options(columns: int, tabWidth: nat)

  /** The `Token` interface: what the layout may ask of tokens of type `T`. Breaking after `t` and
      before `u` costs `splitCost(t, u).0` and leaves `splitCost(t, u).1` at the end of the line; a
      negative cost forbids the break. */
  datatype Kind<!T> = Kind(
    splitCost: (T, T) -> (int, string),
    insertSpace: (T, T) -> bool,
    text: T -> string)

  /** A row of tokens, and the indent and options to lay it out with. */
  datatype Row<!T> = Row(kind: Kind<T>, tokens: seq<T>, opts: Options, indent: nat)
  {
    function Text(i: nat): string
      requires i < |tokens|
    {
      kind.text(tokens[i])
    }

    predicate CanSplit(i: nat)
      requires i < |tokens|
    {
      i > 0 && SplitCost(i) >= 0
    }

    function SplitCost(i: nat): int
      requires 0 < i < |tokens|
    {
      kind.splitCost(tokens[i - 1], tokens[i]).0
    }

    function Continuation(i: nat): string
      requires 0 < i < |tokens|
    {
      kind.splitCost(tokens[i - 1], tokens[i]).1
    }

    /** Only the first token may start at the indent. */
    predicate Position(i: nat, column: nat) {
      i <= |tokens| && (i == 0 ==> column <= indent)
    }

    /** Token `i` as it is printed on a line that has reached `column`. */
    function Placed(i: nat, column: nat): string
      requires Position(i, column) && i < |tokens|
    {
      if column > indent && kind.insertSpace(tokens[i - 1], tokens[i]) then " " + Text(i) else Text(i)
    }

    /** The column reached by printing token `i` at `column`: it advances by bytes, not by width. */
    function After(i: nat, column: nat): (next: nat)
      requires Position(i, column) && i < |tokens|
      ensures Position(i + 1, next)
    {
      column + |Placed(i, column)|
    }

    /** Token `i` as it is printed at the start of a new line. */
    function Broken(i: nat): string
      requires i < |tokens|
    {
      Spaces(indent + opts.tabWidth) + Text(i)
    }

    /** The penalty for printing `s` from `column`: so much for each column past the limit. */
    function Overflow(s: string, column: nat): (penalty: nat)
    {
      var end := column + Width(s, opts.tabWidth);
      if end > opts.columns then EXTRA_COLUMN_COST * (end - opts.columns) else 0
    }

    // ---- The typewriter ----------------------------------------------------------------------

    predicate Legal(splits: seq<bool>) {
      |splits| == |tokens| && forall i :: 0 <= i < |tokens| && splits[i] ==> CanSplit(i)
    }

    /** The lines printed once the first `i` tokens have been placed as `splits` says. */
    function Lines(splits: seq<bool>, i: nat): (lines: seq<string>)
      requires Legal(splits) && i <= |tokens|
      ensures |lines| > 0
      ensures i == 0 ==> lines == [Spaces(indent)]
    {
      if i == 0 then [Spaces(indent)]
      else
        var before := Lines(splits, i - 1);
        var last := before[|before| - 1];
        before[..|before| - 1] +
        if splits[i - 1] then [last + Continuation(i - 1), Broken(i - 1)]
        else [last + Placed(i - 1, |last|)]
    }

    /** How far the line being printed has got: its length in bytes. */
    function Column(splits: seq<bool>, i: nat): (column: nat)
      requires Legal(splits) && i <= |tokens|
      ensures Position(i, column)
    {
      var lines := Lines(splits, i);
      |lines[|lines| - 1]|
    }

    /** What placing the first `i` tokens has cost. A token that starts a line pays for the break
        but never for overflowing. */
    function Cost(splits: seq<bool>, i: nat): int
      requires Legal(splits) && i <= |tokens|
    {
      if i == 0 then 0
      else
        Cost(splits, i - 1) +
        if splits[i - 1] then SplitCost(i - 1)
        else
          var column := Column(splits, i - 1);
          Overflow(Placed(i - 1, column), column)
    }

    function Rendered(splits: seq<bool>): seq<string>
      requires Legal(splits)
    {
      Lines(splits, |tokens|)
    }

    function TotalCost(splits: seq<bool>): int
      requires Legal(splits)
    {
      Cost(splits, |tokens|)
    }

    // ---- The best vector ---------------------------------------------------------------------

    /** `splits` is legal, nothing legal is cheaper, and among the equally cheap it is the one that
        puts off breaking for longest. */
    ghost predicate Best(splits: seq<bool>) {
      && Legal(splits)
      && (forall other :: Legal(other) ==> TotalCost(splits) <= TotalCost(other))
      && (forall other :: Legal(other) && TotalCost(other) == TotalCost(splits) ==>
            other == splits || Precedes(splits, other))
    }

    /** There is only one such vector, so `Best` leaves no choice to the implementation. */
    lemma BestIsUnique(a: seq<bool>, b: seq<bool>)
      requires Best(a) && Best(b)
      ensures a == b
    {
      assert TotalCost(a) <= TotalCost(b) <= TotalCost(a);
      if a != b {
        PrecedesIsAsymmetric(a, b);
        assert false;
      }
    }

    // ---- What the typewriter prints ----------------------------------------------------------

    /** What separates token `i` from what precedes it. */
    function Glue(splits: seq<bool>, i: nat): string
      requires Legal(splits) && i < |tokens|
    {
      if splits[i] then Continuation(i) + "\n" + Spaces(indent + opts.tabWidth)
      else if Column(splits, i) > indent && kind.insertSpace(tokens[i - 1], tokens[i]) then " "
      else ""
    }

    /** The first `i` tokens in order, each once, each behind its glue. */
    function Flat(splits: seq<bool>, i: nat): string
      requires Legal(splits) && i <= |tokens|
    {
      if i == 0 then Spaces(indent) else Flat(splits, i - 1) + Glue(splits, i - 1) + Text(i - 1)
    }

    lemma BreakStep(splits: seq<bool>, i: nat)
      requires Legal(splits) && i < |tokens| && splits[i]
      ensures Join(Lines(splits, i + 1), "\n") == Join(Lines(splits, i), "\n") + Glue(splits, i) + Text(i)
    {
      var before := Lines(splits, i);
      var init, last := before[..|before| - 1], before[|before| - 1];
      var margin := Spaces(indent + opts.tabWidth);
      assert before == init + [last];
      assert Lines(splits, i + 1) == init + [last + Continuation(i), margin + Text(i)];
      JoinBreaks(init, last, Continuation(i), margin, Text(i));
    }

    lemma KeepStep(splits: seq<bool>, i: nat)
      requires Legal(splits) && i < |tokens| && !splits[i]
      ensures Join(Lines(splits, i + 1), "\n") == Join(Lines(splits, i), "\n") + Glue(splits, i) + Text(i)
    {
      var before := Lines(splits, i);
      var init, last := before[..|before| - 1], before[|before| - 1];
      var glue := Glue(splits, i);
      assert Placed(i, |last|) == glue + Text(i);
      assert before == init + [last];
      assert Lines(splits, i + 1) == init + [last + (glue + Text(i))];
      JoinExtendsLast(init, last, glue + Text(i));
      Regroup(Join(before, "\n"), glue, Text(i));
    }

    lemma FlatAtFirst(splits: seq<bool>)
      requires Legal(splits)
      ensures Join(Lines(splits, 0), "\n") == Flat(splits, 0)
    {
    }

    lemma FlatStep(splits: seq<bool>, i: nat)
      requires Legal(splits) && i < |tokens| && Join(Lines(splits, i), "\n") == Flat(splits, i)
      ensures Join(Lines(splits, i + 1), "\n") == Flat(splits, i + 1)
    {
      if splits[i] {
        BreakStep(splits, i);
      } else {
        KeepStep(splits, i);
      }
      assert Flat(splits, i + 1) == Flat(splits, i) + Glue(splits, i) + Text(i);
      hide *;
    }

    /** The rendered lines, joined, are the indent followed by every token once and in order,
        separated only by a space, by nothing, or by a break and its indent. */
    lemma {:induction false} RenderedIsFlat(splits: seq<bool>, i: nat)
      requires Legal(splits) && i <= |tokens|
      ensures Join(Lines(splits, i), "\n") == Flat(splits, i)
    {
      hide Join, Lines, Flat;
      if i == 0 {
        FlatAtFirst(splits);
      } else {
        RenderedIsFlat(splits, i - 1);
        FlatStep(splits, i - 1);
      }
    }
  }

  /** `a` keeps the row together at the first position where it and `b` differ. */
  ghost predicate Precedes(a: seq<bool>, b: seq<bool>) {
    exists k :: 0 <= k < |a| && k < |b| && a[..k] == b[..k] && !a[k] && b[k]
  }

  lemma PrecedesIsAsymmetric(a: seq<bool>, b: seq<bool>)
    requires Precedes(a, b)
    ensures !Precedes(b, a)
  {
    var k :| 0 <= k < |a| && k < |b| && a[..k] == b[..k] && !a[k] && b[k];
    forall l | 0 <= l < |a| && l < |b| && b[..l] == a[..l]
      ensures b[l] || !a[l]
    {
      if l < k {
        assert a[..k][l] == b[..k][l];
      }
    }
  }

  /** The columns that `s` takes: a tab takes `tabWidth`, any other rune takes one. */
  function Width(s: string, tabWidth: nat): nat
    decreases |s|
  {
    if s == "" then 0
    else
      var r := DecodeRune(s);
      (if r.code == 0x09 then tabWidth else 1) + Width(s[r.size..], tabWidth)
  }

  /** The columns taken by the white space that `s` starts with. */
  function LeadingIndent(s: string, tabWidth: nat): nat
    decreases |s|
  {
    if s == "" then 0
    else
      var r := DecodeRune(s);
      if r.code == 0x09 then tabWidth + LeadingIndent(s[r.size..], tabWidth)
      else if IsSpace(r.code) then 1 + LeadingIndent(s[r.size..], tabWidth)
      else 0
  }

  function Encode(codes: seq<nat>): string
    requires forall c :: c in codes ==> IsScalar(c)
  {
    if codes == [] then "" else EncodeRune(codes[0]) + Encode(codes[1..])
  }

  function Columns(codes: seq<nat>, tabWidth: nat): nat {
    if codes == [] then 0 else (if codes[0] == 0x09 then tabWidth else 1) + Columns(codes[1..], tabWidth)
  }

  /** On well-formed text the width counts characters, however many bytes each of them takes. */
  lemma {:induction false} WidthCountsCharacters(codes: seq<nat>, tabWidth: nat)
    requires forall c :: c in codes ==> IsScalar(c)
    ensures Width(Encode(codes), tabWidth) == Columns(codes, tabWidth)
  {
    if codes != [] {
      DecodeEncoded(codes[0], Encode(codes[1..]));
      assert Encode(codes)[|EncodeRune(codes[0])|..] == Encode(codes[1..]);
      WidthCountsCharacters(codes[1..], tabWidth);
    }
  }

  /** White space at the start of a line takes its columns, up to the first rune that is none. */
  lemma {:induction false} LeadingIndentIs(codes: seq<nat>, rest: string, tabWidth: nat)
    requires forall c :: c in codes ==> IsScalar(c) && IsSpace(c)
    requires rest == "" || !IsSpace(DecodeRune(rest).code)
    ensures LeadingIndent(Encode(codes) + rest, tabWidth) == Columns(codes, tabWidth)
  {
    var s := Encode(codes) + rest;
    if codes == [] {
      assert s == rest;
    } else {
      var behind := Encode(codes[1..]) + rest;
      assert s == EncodeRune(codes[0]) + behind;
      DecodeEncoded(codes[0], behind);
      assert s[|EncodeRune(codes[0])|..] == behind;
      LeadingIndentIs(codes[1..], rest, tabWidth);
      hide DecodeRune, EncodeRune;
    }
  }

  lemma {:induction false} JoinExtendsLast(init: seq<string>, last: string, more: string)
    ensures Join(init + [last + more], "\n") == Join(init + [last], "\n") + more
  {
    if init != [] {
      JoinExtendsLast(init[1..], last, more);
      assert (init + [last + more])[1..] == init[1..] + [last + more];
      assert (init + [last])[1..] == init[1..] + [last];
    }
  }

  lemma Regroup(a: string, b: string, c: string)
    ensures a + b + c == a + (b + c)
  {
  }

  lemma JoinBreaks(init: seq<string>, last: string, continuation: string, margin: string, text: string)
    ensures Join(init + [last + continuation, margin + text], "\n")
         == Join(init + [last], "\n") + (continuation + "\n" + margin) + text
  {
    JoinExtendsLast(init, last, continuation);
    var lines := init + [last + continuation];
    JoinAppends(lines, margin + text);
    assert lines + [margin + text] == init + [last + continuation, margin + text];
    var before := Join(init + [last], "\n");
    assert before + continuation + "\n" + (margin + text) == before + (continuation + "\n" + margin) + text;
  }

  lemma {:induction false} JoinAppends(lines: seq<string>, line: string)
    requires lines != []
    ensures Join(lines + [line], "\n") == Join(lines, "\n") + "\n" + line
  {
    if |lines| > 1 {
      JoinAppends(lines[1..], line);
      assert (lines + [line])[1..] == lines[1..] + [line];
      assert Join(lines + [line], "\n") == lines[0] + "\n" + Join(lines[1..] + [line], "\n");
    } else {
      assert (lines + [line])[1..] == [line];
    }
  }
}
