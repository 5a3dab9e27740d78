/** The example of a broken assignment that goes with the repository, worked out. */
module PythonExamples {
  import opened GoStrings
  import opened LayoutSpec
  import opened LayoutRecursion
  import opened Python
  import opened Wrap

  /** Five tokens `a = b * c` on one line, the names being 18, 18 and 15 characters long, and 40 columns. */
  ghost predicate IsAssignment(row: Row<PythonToken>, a: string, b: string, c: string) {
    && |a| == 18 && |b| == 18 && |c| == 15
    && Width(a, 4) == 18 && Width(" " + b, 4) == 19 && Width(c, 4) == 15 && Width(" =", 4) == 2 && Width("*", 4) == 1
    && row.indent == 0 && row.opts == Options(40, 4) && |row.tokens| == 5
    && row.Text(0) == a && row.Text(1) == "=" && row.Text(2) == b && row.Text(3) == "*" && row.Text(4) == c
    && row.kind.insertSpace(row.tokens[0], row.tokens[1]) && row.kind.insertSpace(row.tokens[1], row.tokens[2])
    && !row.kind.insertSpace(row.tokens[2], row.tokens[3]) && !row.kind.insertSpace(row.tokens[3], row.tokens[4])
    && row.kind.splitCost(row.tokens[0], row.tokens[1]).0 == -1
    && row.kind.splitCost(row.tokens[1], row.tokens[2]) == (3, " \\")
    && row.kind.splitCost(row.tokens[2], row.tokens[3]).0 == -1
    && row.kind.splitCost(row.tokens[3], row.tokens[4]) == (10, " \\")
  }

  lemma LastName(row: Row<PythonToken>, a: string, b: string, c: string)
    requires IsAssignment(row, a, b, c)
    ensures Plain(row, 4, 40).cost == 10
    ensures Plain(row, 4, 23).cost == 0 && !Breaks(row, 4, 23)
  {
    assert row.Placed(4, 40) == c && row.Placed(4, 23) == c;
    assert Plain(row, 5, row.After(4, 40)).cost == 0 && Plain(row, 5, row.After(4, 23)).cost == 0;
    assert Plain(row, 5, |row.Broken(4)|).cost == 0;
  }

  lemma Times(row: Row<PythonToken>, a: string, b: string, c: string)
    requires IsAssignment(row, a, b, c)
    ensures Plain(row, 3, 39).cost == 10
    ensures Plain(row, 3, 22).cost == 0 && !Breaks(row, 3, 22) && row.After(3, 22) == 23
  {
    LastName(row, a, b, c);
    assert row.Placed(3, 39) == "*" && row.Placed(3, 22) == "*";
    hide Width;
  }

  lemma SecondName(row: Row<PythonToken>, a: string, b: string, c: string)
    requires IsAssignment(row, a, b, c)
    ensures Plain(row, 2, 20).cost == 3 && Breaks(row, 2, 20) && |row.Broken(2)| == 22
  {
    Times(row, a, b, c);
    assert row.Placed(2, 20) == " " + b && row.After(2, 20) == 39;
    hide Width;
  }

  lemma Decided(row: Row<PythonToken>, a: string, b: string, c: string)
    requires IsAssignment(row, a, b, c)
    ensures Decisions(row, 0, 0) == [false, false, true, false, false]
  {
    SecondName(row, a, b, c);
    Times(row, a, b, c);
    LastName(row, a, b, c);
    assert row.Placed(0, 0) == a && row.After(0, 0) == 18 && row.Placed(1, 18) == " =" && row.After(1, 18) == 20;
    assert !Breaks(row, 0, 0) && !Breaks(row, 1, 18);
    hide Width, Plain, Breaks, Row.Placed, Row.After, Row.Broken;
    assert Decisions(row, 5, row.After(4, 23)) == [];
    assert Decisions(row, 4, 23) == [false];
    assert Decisions(row, 3, 22) == [false, false];
    assert Decisions(row, 2, 20) == [true, false, false];
    assert Decisions(row, 1, 18) == [false, true, false, false];
  }

  lemma KeepOn(row: Row<PythonToken>, splits: seq<bool>, i: nat, init: seq<string>, last: string, s: string)
    requires row.Legal(splits) && i < |row.tokens| && !splits[i] && row.Lines(splits, i) == init + [last]
    requires row.Position(i, |last|) && s == row.Placed(i, |last|)
    ensures row.Lines(splits, i + 1) == init + [last + s]
  {
    hide Row.Placed;
    assert (init + [last])[..|init|] == init;
  }

  lemma BreakOff(row: Row<PythonToken>, splits: seq<bool>, i: nat, init: seq<string>, last: string)
    requires row.Legal(splits) && 0 < i < |row.tokens| && splits[i] && row.Lines(splits, i) == init + [last]
    ensures row.Lines(splits, i + 1) == init + [last + row.Continuation(i), Spaces(row.indent + row.opts.tabWidth) + row.Text(i)]
  {
    assert (init + [last])[..|init|] == init;
  }

  lemma FirstLine(row: Row<PythonToken>, splits: seq<bool>, a: string, b: string, c: string)
    requires IsAssignment(row, a, b, c) && row.Legal(splits) && !splits[0] && !splits[1]
    ensures row.Lines(splits, 2) == [] + [a + " ="]
  {
    assert row.Lines(splits, 0) == [] + [""];
    KeepOn(row, splits, 0, [], "", a);
    assert "" + a == a;
    assert row.Placed(1, 18) == " =";
    hide Width, Row.Lines, Row.Placed;
    KeepOn(row, splits, 1, [], a, " =");
  }

  lemma SecondLine(row: Row<PythonToken>, splits: seq<bool>, a: string, b: string, c: string, first: string)
    requires IsAssignment(row, a, b, c) && row.Legal(splits) && splits[2] && !splits[3] && !splits[4]
    requires row.Lines(splits, 2) == [] + [a + " ="] && first == a + " =" + " \\"
    ensures row.Lines(splits, 5) == [first] + [Spaces(4) + b + "*" + c]
  {
    var second := Spaces(4) + b;
    assert |second| == 22;
    assert row.Placed(3, 22) == "*" && row.Placed(4, 23) == c;
    hide Width, Row.Lines, Row.Placed;
    BreakOff(row, splits, 2, [], a + " =");
    assert [] + [first, second] == [first] + [second];
    KeepOn(row, splits, 3, [first], second, "*");
    KeepOn(row, splits, 4, [first], second + "*", c);
  }

  lemma Spelling(a: string, b: string, c: string)
    ensures [a + " =" + " \\"] + [Spaces(4) + b + "*" + c] == [a + " = \\", "    " + b + "*" + c]
  {
    assert a + " =" + " \\" == a + " = \\" && Spaces(4) == "    ";
  }

  lemma Printed(row: Row<PythonToken>, a: string, b: string, c: string)
    requires IsAssignment(row, a, b, c)
    ensures BestLines(row) == [a + " = \\", "    " + b + "*" + c]
  {
    Decided(row, a, b, c);
    var splits := [false, false, true, false, false];
    assert row.Legal(splits) && BestLines(row) == row.Lines(splits, 5);
    hide Width, Row.Lines, Row.Placed, Decisions, Row.Legal, BestLines;
    FirstLine(row, splits, a, b, c);
    SecondLine(row, splits, a, b, c, a + " =" + " \\");
    Spelling(a, b, c);
  }

  lemma {:induction false} WidthOfVisible(s: string, tabWidth: nat)
    requires IsVisible(s)
    ensures Width(s, tabWidth) == |s|
  {
    if s != "" {
      WidthOfVisible(s[1..], tabWidth);
    }
  }

  predicate IsVisible(s: string) {
    forall i :: 0 <= i < |s| ==> 0x20 <= s[i] as int < 0x7F
  }

  lemma VisibleBehindSpace(s: string)
    requires IsVisible(s)
    ensures IsVisible(" " + s)
  {
  }

  lemma WidthsOfSigns()
    ensures Width("*", 4) == 1 && Width(" =", 4) == 2
  {
    WidthOfVisible("*", 4);
    WidthOfVisible(" =", 4);
    hide *;
  }

  lemma Widths(a: string, b: string, c: string)
    requires IsVisible(a) && IsVisible(b) && IsVisible(c)
    ensures Width(a, 4) == |a| && Width(" " + b, 4) == 1 + |b| && Width(c, 4) == |c|
  {
    hide *;
    VisibleBehindSpace(b);
    WidthOfVisible(a, 4);
    WidthOfVisible(" " + b, 4);
    WidthOfVisible(c, 4);
  }

  function Name(literal: string): PythonToken {
    PythonToken(IDENT, literal, false)
  }

  function Sign(id: int): PythonToken {
    PythonToken(id, "", false)
  }

  function Assignment(names: int -> string, a: string, b: string, c: string): Row<PythonToken> {
    Row(PythonKind(names), [Name(a), Sign(ASSIGN), Name(b), Sign(MUL), Name(c)], Options(40, 4), 0)
  }

  lemma AssignmentIs(names: int -> string, a: string, b: string, c: string)
    requires names(ASSIGN) == "=" && names(MUL) == "*"
    requires |a| == 18 && |b| == 18 && |c| == 15 && IsVisible(a) && IsVisible(b) && IsVisible(c)
    ensures IsAssignment(Assignment(names, a, b, c), a, b, c)
  {
    Widths(a, b, c);
    WidthsOfSigns();
    hide Width, IsVisible;
  }

  /** `myLongVariableName = someVeryLongNumber * someOtherNumber`, or any three such names of 18, 18 and
      15 characters, in 40 columns: a break behind the sign that is cheapest to break behind, with a
      backslash, and no spaces around `*`. */
  lemma LongAssignment(names: int -> string, a: string, b: string, c: string)
    requires names(ASSIGN) == "=" && names(MUL) == "*"
    requires |a| == 18 && |b| == 18 && |c| == 15 && IsVisible(a) && IsVisible(b) && IsVisible(c)
    ensures BestLines(Assignment(names, a, b, c)) == [a + " = \\", "    " + b + "*" + c]
  {
    AssignmentIs(names, a, b, c);
    Printed(Assignment(names, a, b, c), a, b, c);
    hide *;
  }
}
