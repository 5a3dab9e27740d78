/** Splitting an example into the program that is run and the source that is shown.

Lines that start with a leader are run but not shown; all others are both. The line map ties every
line that is shown to the line of the program that it became.
*/
module Stencils {
  import opened GoStrings
  import opened Wrappers
  import opened Coverage
  import A = Annotate

  datatype Stencil = Stencil(original: string, presentation: string, runnable: string, lineMap: seq<int>)

  // ---- Substitution --------------------------------------------------------------------------

  datatype Variable = Variable(name: string, value: string)

  /** `strings.Replace(s, old, new, -1)` for a non-empty `old`. */
  function Replaced(s: string, what: string, value: string): string
    requires what != ""
    decreases |s|
  {
    var i := Index(s, what);
    if i == -1 then s else s[..i] + value + Replaced(s[i + |what|..], what, value)
  }

  /** Replaces the variables, in the order in which they are iterated over. */
  function Substituted(s: string, vars: seq<Variable>): string
    decreases |vars|
  {
    if vars == [] then s
    else Substituted(Replaced(s, "$" + vars[0].name + "$", vars[0].value), vars[1..])
  }

  predicate OneLineValues(vars: seq<Variable>) {
    forall i :: 0 <= i < |vars| ==> '\n' !in vars[i].value
  }

  lemma {:induction false} ReplacedHasNoNew(s: string, what: string, value: string, c: char)
    requires what != "" && c !in s && c !in value
    ensures c !in Replaced(s, what, value)
    decreases |s|
  {
    var i := Index(s, what);
    if i != -1 {
      ReplacedHasNoNew(s[i + |what|..], what, value, c);
    }
  }

  lemma {:induction false} SubstitutedIsOneLine(s: string, vars: seq<Variable>)
    requires '\n' !in s && OneLineValues(vars)
    ensures '\n' !in Substituted(s, vars)
    decreases |vars|
  {
    if vars != [] {
      ReplacedHasNoNew(s, "$" + vars[0].name + "$", vars[0].value, '\n');
      SubstitutedIsOneLine(Replaced(s, "$" + vars[0].name + "$", vars[0].value), vars[1..]);
    }
  }

  lemma OccurrenceStarts(s: string, i: nat, sub: string)
    requires sub != "" && At(s, i, sub)
    ensures sub[0] in s
  {
    assert s[i..i + |sub|][0] == s[i];
  }

  lemma {:induction false} NothingToSubstitute(s: string, vars: seq<Variable>)
    requires '$' !in s
    ensures Substituted(s, vars) == s
  {
    if vars != [] {
      var variable := "$" + vars[0].name + "$";
      var i := Index(s, variable);
      if i != -1 {
        OccurrenceStarts(s, i, variable);
      }
      NothingToSubstitute(s, vars[1..]);
    }
  }

  /** The first place at or behind the end of `part` where `what` can be found is right there. */
  predicate StopsAt(part: string, what: string) {
    Index(part + what, what) == |part|
  }

  /** Replacing cuts at the first occurrence, goes on behind it until there is none left, and puts the
      value where the cuts are. */
  lemma {:induction false} ReplacedIsJoin(s: string, what: string, value: string) returns (parts: seq<string>)
    requires what != ""
    ensures CutAt(parts, what) && Join(parts, what) == s && Join(parts, value) == Replaced(s, what, value)
    decreases |s|
  {
    var i := Index(s, what);
    if i == -1 {
      parts := [s];
    } else {
      var rest := ReplacedIsJoin(s[i + |what|..], what, value);
      parts := [s[..i]] + rest;
      FirstStays(s, what, i);
      CutMore(s[..i], rest, what);
      JoinMore(s[..i], rest, what);
      JoinMore(s[..i], rest, value);
      AroundOccurrence(s, i, what);
      hide Index, Join, StopsAt, CutAt;
    }
  }

  /** The parts between the occurrences that are found one after the other. */
  predicate CutAt(parts: seq<string>, what: string) {
    && parts != [] && Index(parts[|parts| - 1], what) == -1
    && forall i :: 0 <= i < |parts| - 1 ==> StopsAt(parts[i], what)
  }

  lemma CutMore(first: string, rest: seq<string>, what: string)
    requires CutAt(rest, what) && StopsAt(first, what)
    ensures CutAt([first] + rest, what)
  {
    hide StopsAt;
  }

  lemma JoinMore(first: string, rest: seq<string>, sep: string)
    requires rest != []
    ensures Join([first] + rest, sep) == first + sep + Join(rest, sep)
  {
    assert ([first] + rest)[1..] == rest;
  }

  lemma AroundOccurrence(s: string, i: nat, what: string)
    requires At(s, i, what)
    ensures s == s[..i] + what + s[i + |what|..]
  {
  }

  lemma FirstStays(s: string, what: string, i: nat)
    requires what != "" && Index(s, what) == i
    ensures StopsAt(s[..i], what)
  {
    var t := s[..i] + what;
    AtInFront(s, i, what, i);
    forall j | 0 <= j < i
      ensures !At(t, j, what)
    {
      AtInFront(s, i, what, j);
      assert !At(s, j, what);
    }
    IndexIs(t, what, i);
    hide At, Index;
  }

  lemma AtInFront(s: string, i: nat, what: string, j: nat)
    requires At(s, i, what) && j <= i
    ensures At(s[..i] + what, j, what) <==> At(s, j, what)
  {
    var t := s[..i] + what;
    assert t == s[..i + |what|];
    assert t[j..j + |what|] == s[j..j + |what|];
  }

  /** Variables are replaced one after the other, the last one in what the others have made. */
  lemma {:induction false} SubstitutedLast(s: string, vars: seq<Variable>, last: Variable)
    ensures Substituted(s, []) == s
    ensures Substituted(s, vars + [last]) == Replaced(Substituted(s, vars), "$" + last.name + "$", last.value)
    decreases |vars|
  {
    hide Replaced;
    var all := vars + [last];
    if vars == [] {
      assert all[0] == last && all[1..] == [];
    } else {
      assert all[0] == vars[0] && all[1..] == vars[1..] + [last];
      SubstitutedLast(Replaced(s, "$" + vars[0].name + "$", vars[0].value), vars[1..], last);
    }
  }

  /** A variable between dollars. */
  function Use(name: string): string {
    "$" + name + "$"
  }

  /** Where text has just two dollars, what is between two of them is between these. */
  lemma OnlyUse(before: string, name: string, behind: string, other: string, i: nat)
    requires '$' !in before && '$' !in name && '$' !in behind
    requires At(before + Use(name) + behind, i, Use(other))
    ensures i == |before| && other == name
  {
    var s, n := before + Use(name) + behind, |before|;
    var m := i + 1 + |other|;
    var found := s[i..i + |Use(other)|];
    assert found == Use(other);
    assert s[i] == found[0] == '$' && s[m] == found[|other| + 1] == '$';
    DollarsAre(before, name, behind, i);
    DollarsAre(before, name, behind, m);
    assert s[n + 1..m] == name;
    assert found[1..|other| + 1] == other && found[1..|other| + 1] == s[i + 1..m];
  }

  lemma DollarsAre(before: string, name: string, behind: string, i: nat)
    requires '$' !in before && '$' !in name && '$' !in behind
    requires i < |before + Use(name) + behind| && (before + Use(name) + behind)[i] == '$'
    ensures i == |before| || i == |before| + 1 + |name|
  {
    AroundUse(before, name, behind, i);
  }

  lemma AroundUse(before: string, name: string, behind: string, i: nat)
    requires i < |before + Use(name) + behind|
    ensures var n, end := |before|, |before| + 1 + |name|;
            (before + Use(name) + behind)[i]
            == if i < n then before[i] else if i == n || i == end then '$'
               else if i < end then name[i - n - 1] else behind[i - end - 1]
  {
  }

  /** A variable that is used once, between other text, is replaced by the first value that there is for
      its name; a name without a value stays as it is. */
  lemma {:induction false} UseIsReplaced(before: string, name: string, behind: string, vars: seq<Variable>, i: nat)
    requires '$' !in before && '$' !in name && '$' !in behind && i <= |vars|
    requires forall k :: 0 <= k < i ==> vars[k].name != name
    requires i < |vars| ==> vars[i].name == name && '$' !in vars[i].value
    ensures Substituted(before + Use(name) + behind, vars)
         == before + (if i < |vars| then vars[i].value else Use(name)) + behind
    decreases |vars|
  {
    hide Replaced, Index;
    var s := before + Use(name) + behind;
    if vars != [] {
      if i == 0 {
        ReplacedHere(before, name, behind, vars[0].value);
        NothingToSubstitute(before + vars[0].value + behind, vars[1..]);
      } else {
        NotReplaced(before, name, behind, vars[0]);
        UseIsReplaced(before, name, behind, vars[1..], i - 1);
      }
    }
  }

  lemma NotReplaced(before: string, name: string, behind: string, variable: Variable)
    requires '$' !in before && '$' !in name && '$' !in behind && variable.name != name
    ensures var s := before + Use(name) + behind; Replaced(s, Use(variable.name), variable.value) == s
  {
    var s := before + Use(name) + behind;
    var k := Index(s, Use(variable.name));
    if k != -1 {
      OnlyUse(before, name, behind, variable.name, k);
      assert false;
    }
  }

  lemma ReplacedHere(before: string, name: string, behind: string, value: string)
    requires '$' !in before && '$' !in name && '$' !in behind
    ensures Replaced(before + Use(name) + behind, Use(name), value) == before + value + behind
  {
    var s, n := before + Use(name) + behind, |before|;
    var rest := s[n + |Use(name)|..];
    assert s[n..n + |Use(name)|] == Use(name);
    assert At(s, n, Use(name));
    var k := Index(s, Use(name));
    OnlyUse(before, name, behind, name, k);
    assert rest == behind && s[..n] == before;
    var l := Index(behind, Use(name));
    if l != -1 {
      OccurrenceStarts(behind, l, Use(name));
    }
    hide Index;
  }

  // ---- Leaders -------------------------------------------------------------------------------

  const LEADER := "##"

  /** The line behind the leader, or the empty string if it does not start with one. */
  function TrimLeader(line: string): string {
    if LEADER <= TrimSpace(line) then
      LeaderIsBehindIndentation(line);
      var pos := Index(line, LEADER);
      line[..pos] + TrimSpace(line[pos + 2..])
    else ""
  }

  /** The line starts with the leader behind its indentation. */
  predicate Led(line: string) {
    At(line, Indentation(line), LEADER)
  }

  /** The leader that is searched for in the whole line is the one that the trimmed line starts with. */
  lemma LeaderIsBehindIndentation(line: string)
    ensures LEADER <= TrimSpace(line) <==> Led(line)
    ensures Led(line) ==> Index(line, LEADER) == Indentation(line)
  {
    var n := Indentation(line);
    var rest := line[n..];
    PrefixOfRest(line, n, LEADER);
    if Led(line) {
      TrimRightKeepsVisible(rest, 1);
      forall i | 0 <= i < n
        ensures !At(line, i, LEADER)
      {
        NoLeaderInIndentation(line, i);
      }
      IndexIs(line, LEADER, n);
    }
  }

  lemma PrefixOfRest(s: string, n: nat, sub: string)
    requires n <= |s|
    ensures sub <= s[n..] <==> At(s, n, sub)
  {
    assert n + |sub| <= |s| ==> s[n..][..|sub|] == s[n..n + |sub|];
  }

  lemma NoLeaderInIndentation(line: string, i: nat)
    requires i < Indentation(line)
    ensures !At(line, i, LEADER)
  {
    IndentationHasNoVisible(line, i);
    assert i + 2 <= |line| ==> line[i..i + 2][0] == line[i];
  }

  /** What is run for a line that starts with the leader: its indentation and what is behind the leader. */
  lemma LedIsTrimmed(line: string)
    requires Led(line)
    ensures var n := Indentation(line);
            n + 2 <= |line| && TrimLeader(line) == line[..n] + TrimSpace(line[n + 2..])
  {
    LeaderIsBehindIndentation(line);
    hide Indentation, TrimSpace;
  }

  lemma TrimLeaderIsOneLine(line: string)
    requires '\n' !in line
    ensures '\n' !in TrimLeader(line)
  {
    LeaderIsBehindIndentation(line);
  }

  predicate Shown(line: string) {
    TrimLeader(line) == ""
  }

  /** What is run for a line. */
  function RunLine(line: string): string {
    if Shown(line) then line else TrimLeader(line)
  }

  /** A line is run without being shown exactly if it starts with the leader and is not left empty.
      What is run then keeps its indentation: a lone leader at the start of a line is shown. Any other line
      is run as it is. */
  lemma TrimmedIff(line: string)
    ensures !Shown(line) <==> Led(line) && (Indentation(line) > 0 || !Blank(line[2..]))
    ensures Shown(line) ==> RunLine(line) == line
    ensures !Shown(line) ==>
              var n := Indentation(line);
              n + 2 <= |line| && line[n] == line[n + 1] == '#' && RunLine(line) == line[..n] + TrimSpace(line[n + 2..])
  {
    if Led(line) {
      LedIsTrimmed(line);
      BlankIffTrimmedAway(line[2..]);
      LeaderAt(line, Indentation(line));
    } else {
      LeaderIsBehindIndentation(line);
    }
    hide Indentation, TrimSpace, Blank;
  }

  lemma LeaderAt(line: string, n: nat)
    requires At(line, n, LEADER)
    ensures n + 2 <= |line| && line[n] == line[n + 1] == '#'
  {
    var found := line[n..n + 2];
    assert found[0] == line[n] && found[1] == line[n + 1];
  }

  // ---- Parsing -------------------------------------------------------------------------------

  const PREAMBLE := "##from kite import kite"

  /** The lines of the example behind a line that imports the presentation API. */
  function SourceLines(example: string, vars: seq<Variable>): (lines: seq<string>) {
    var raw := SplitLines(PREAMBLE + "\n" + example);
    seq(|raw|, i requires 0 <= i < |raw| => Substituted(raw[i], vars))
  }

  predicate Increasing(s: seq<int>) {
    forall i, j :: 0 <= i < j < |s| ==> s[i] < s[j]
  }

  /** One line of the program for each line of the source; the map lists those that are shown, in
      order, and the presentation consists of them. */
  predicate Splits(lines: seq<string>, run: seq<string>, present: seq<string>, lineMap: seq<int>) {
    && |run| == |lines| && |present| == |lineMap|
    && (forall i :: 0 <= i < |lines| ==> run[i] == RunLine(lines[i]))
    && Increasing(lineMap)
    && (forall k :: 0 <= k < |lineMap| ==> 0 <= lineMap[k] < |lines| && Shown(lines[lineMap[k]]))
    && (forall i :: 0 <= i < |lines| && Shown(lines[i]) ==> i in lineMap)
    && (forall k :: 0 <= k < |lineMap| ==> present[k] == lines[lineMap[k]])
  }

  /** The lines of the presentation; without any it is empty. */
  function Presented(stencil: Stencil): seq<string> {
    if stencil.lineMap == [] then [] else SplitLines(stencil.presentation)
  }

  method ParsePython(example: string, vars: seq<Variable>) returns (stencil: Stencil)
    requires OneLineValues(vars)
    ensures stencil.original == example
    ensures Splits(SourceLines(example, vars), SplitLines(stencil.runnable), Presented(stencil), stencil.lineMap)
    ensures stencil.lineMap == [] ==> stencil.presentation == ""
  {
    hide Substituted, TrimLeader;
    var raw := SplitLines(PREAMBLE + "\n" + example);
    ghost var lines := SourceLines(example, vars);
    var run: seq<string>, present: seq<string>, lineMap: seq<int> := [], [], [];
    for i := 0 to |raw|
      invariant Splits(lines[..i], run, present, lineMap)
      invariant forall k :: 0 <= k < |run| ==> '\n' !in run[k]
      invariant forall k :: 0 <= k < |present| ==> '\n' !in present[k]
    {
      var line := Substituted(raw[i], vars);
      SubstitutedIsOneLine(raw[i], vars);
      TrimLeaderIsOneLine(line);
      AnotherLine(lines[..i], run, present, lineMap, line);
      assert lines[..i + 1] == lines[..i] + [line];
      var runline := TrimLeader(line);
      if runline != "" {
        run := run + [runline];
      } else {
        lineMap := lineMap + [|run|];
        present := present + [line];
        run := run + [line];
      }
    }
    assert lines[..|raw|] == lines;
    JoinThenSplit(run);
    if lineMap != [] {
      JoinThenSplit(present);
    }
    return Stencil(example, Join(present, "\n"), Join(run, "\n"), lineMap);
  }

  lemma AnotherLine(lines: seq<string>, run: seq<string>, present: seq<string>, lineMap: seq<int>, line: string)
    requires Splits(lines, run, present, lineMap)
    ensures !Shown(line) ==> Splits(lines + [line], run + [TrimLeader(line)], present, lineMap)
    ensures Shown(line) ==> Splits(lines + [line], run + [line], present + [line], lineMap + [|run|])
  {
    hide TrimLeader;
    var longer := lineMap + [|run|];
    assert longer[|lineMap|] == |run|;
    assert forall i :: 0 <= i < |lineMap| ==> longer[i] == lineMap[i];
  }

  /** A stencil of an example. */
  ghost predicate IsStencil(stencil: Stencil, example: string, vars: seq<Variable>) {
    && Splits(SourceLines(example, vars), SplitLines(stencil.runnable), Presented(stencil), stencil.lineMap)
    && (stencil.lineMap == [] ==> stencil.presentation == "")
  }

  // ---- Line maps -----------------------------------------------------------------------------

  lemma PreambleIsHidden(example: string, vars: seq<Variable>)
    ensures var lines := SourceLines(example, vars); |lines| > 0 && !Shown(lines[0])
  {
    SourceLinesAre(example, vars);
    PreambleIsLed();
    hide Shown, SourceLines;
  }

  /** The program starts with the line that imports the presentation API, and goes on with one line for
      each line of the example. */
  lemma ProgramStartsWithImport(stencil: Stencil, example: string, vars: seq<Variable>)
    requires IsStencil(stencil, example, vars)
    ensures var run, lines := SplitLines(stencil.runnable), SplitLines(example);
            && |run| == |lines| + 1 && run[0] == "from kite import kite"
            && forall i :: 0 <= i < |lines| ==> run[i + 1] == RunLine(Substituted(lines[i], vars))
  {
    SourceLinesAre(example, vars);
    PreambleRuns();
    hide Substituted, SplitLines, RunLine, SourceLines, Presented, Shown;
  }

  lemma SourceLinesAre(example: string, vars: seq<Variable>)
    ensures var source, lines := SourceLines(example, vars), SplitLines(example);
            && |source| == |lines| + 1 && source[0] == PREAMBLE
            && forall i :: 0 <= i < |lines| ==> source[i + 1] == Substituted(lines[i], vars)
  {
    hide Substituted, SplitLines;
    PreambleIsPlain();
    LineThenRest(PREAMBLE, example);
    NothingToSubstitute(PREAMBLE, vars);
    hide PREAMBLE;
  }

  lemma PreambleIsPlain()
    ensures '\n' !in PREAMBLE && '$' !in PREAMBLE
  {
  }

  lemma PreambleRuns()
    ensures RunLine(PREAMBLE) == "from kite import kite"
  {
    var program := "from kite import kite";
    assert PREAMBLE == LEADER + program && |program| == 21 && program[0] == 'f' && program[20] == 'e';
    hide *;
    LedTextRuns(program);
  }

  lemma LedTextRuns(text: string)
    requires text != "" && Visible(text[0]) && Visible(text[|text| - 1])
    ensures RunLine(LEADER + text) == text
  {
    hide TrimLeader, TrimSpace, Indentation, Index;
    var line := LEADER + text;
    BehindLeader(text);
    VisibleIsNoIndentation(line);
    VisibleIsKept(text);
    LedIsTrimmed(line);
  }

  lemma BehindLeader(text: string)
    ensures var line := LEADER + text;
            line[2..] == text && line[..0] + text == text && At(line, 0, LEADER) && Visible(line[0])
  {
    var line := LEADER + text;
    assert line[0..2] == LEADER && line[0] == LEADER[0];
  }

  lemma VisibleIsNoIndentation(s: string)
    requires s != "" && Visible(s[0])
    ensures Indentation(s) == 0
  {
  }

  /** Text between visible characters is not trimmed. */
  lemma VisibleIsKept(s: string)
    requires s != "" && Visible(s[0]) && Visible(s[|s| - 1])
    ensures TrimSpace(s) == s
  {
    VisibleIsNoIndentation(s);
    assert s[0..] == s && DecodeLastRune(s) == Rune(s[|s| - 1] as int, 1);
    hide Indentation;
  }

  lemma PreambleIsLed()
    ensures !Shown(PREAMBLE)
  {
    hide Shown;
    LeaderThenVisible(PREAMBLE);
  }

  lemma LeaderThenVisible(line: string)
    requires LEADER <= line && |line| > 2 && Visible(line[2])
    ensures !Shown(line)
  {
    TrimmedIff(line);
    assert line[0] == LEADER[0];
  }

  /** Every line of an increasing map that does not start at 0 is ahead of its position. */
  predicate Ahead(lineMap: seq<int>) {
    forall k :: 0 <= k < |lineMap| ==> k < lineMap[k]
  }

  lemma {:induction false} IncreasingIsAhead(lineMap: seq<int>, k: nat)
    requires Increasing(lineMap) && k < |lineMap| && lineMap[0] > 0
    ensures k < lineMap[k]
  {
    if k > 0 {
      IncreasingIsAhead(lineMap, k - 1);
    }
  }

  lemma MapIsAhead(stencil: Stencil, example: string, vars: seq<Variable>)
    requires IsStencil(stencil, example, vars)
    ensures Ahead(stencil.lineMap) && A.NonDecreasing(stencil.lineMap)
  {
    hide Shown, SplitLines, RunLine, Substituted, Presented;
    var lineMap := stencil.lineMap;
    PreambleIsHidden(example, vars);
    forall k | 0 <= k < |lineMap|
      ensures k < lineMap[k]
    {
      assert Shown(SourceLines(example, vars)[lineMap[0]]);
      IncreasingIsAhead(lineMap, k);
    }
  }

  /** Every line that is shown is the same line of the program, further down. */
  lemma LineMapIsFaithful(stencil: Stencil, example: string, vars: seq<Variable>, k: nat)
    requires IsStencil(stencil, example, vars) && k < |stencil.lineMap|
    ensures var run := SplitLines(stencil.runnable);
            && k < stencil.lineMap[k] < |run|
            && run[stencil.lineMap[k]] == Presented(stencil)[k]
  {
    hide TrimLeader, SplitLines, Substituted, Presented;
    MapIsAhead(stencil, example, vars);
  }

  // ---- Annotating a stencil ------------------------------------------------------------------

  /** The map that annotating the stencil uses; an empty one counts as missing. */
  function MapOf(stencil: Stencil): Option<seq<int>> {
    if stencil.lineMap == [] then None else Some(stencil.lineMap)
  }

  /** The stencil meets what annotating it asks of its map. */
  lemma StencilCanBeAnnotated(stencil: Stencil, example: string, vars: seq<Variable>)
    requires IsStencil(stencil, example, vars)
    ensures MapOf(stencil).Some? ==> |stencil.lineMap| == |SplitLines(stencil.presentation)|
    ensures MapOf(stencil).Some? ==> A.NonDecreasing(stencil.lineMap)
  {
    hide Shown, SplitLines, RunLine, Substituted, SourceLines;
    MapIsAhead(stencil, example, vars);
  }

  /** Line `k` of an annotated example, unless it is blank, is in no code segment exactly if the last
      annotation is in front of what it became, but no fewer than `k` lines down the program. It is in
      one otherwise, and never in two. */
  lemma LineIsLostIff(stencil: Stencil, example: string, vars: seq<Variable>, annotations: seq<A.Annotation>, k: nat)
    requires IsStencil(stencil, example, vars) && A.InOrder(annotations) && k < |stencil.lineMap|
    requires !Blank(Presented(stencil)[k])
    ensures |stencil.lineMap| == |Presented(stencil)|
    ensures var last := A.LineBefore(annotations, |annotations|);
            && A.Fits(stencil.presentation, MapOf(stencil))
            && Spanning(A.Inlined(stencil.presentation, MapOf(stencil), annotations), k)
               == if k <= last && (annotations == [] || last < stencil.lineMap[k]) then 0 else 1
  {
    MapIsAhead(stencil, example, vars);
    StencilCanBeAnnotated(stencil, example, vars);
    hide Splits, Blank, A.Merged, SplitLines;
    AheadSpans(Presented(stencil), stencil.lineMap, annotations, k);
  }

  lemma AheadSpans(lines: seq<string>, lineMap: seq<int>, annotations: seq<A.Annotation>, k: nat)
    requires Ahead(lineMap) && A.NonDecreasing(lineMap) && A.InOrder(annotations)
    requires |lines| == |lineMap| && k < |lines| && !Blank(lines[k])
    ensures var last := A.LineBefore(annotations, |annotations|);
            Spanning(A.Merged(lines, lineMap, annotations), k)
            == if k <= last && (annotations == [] || last < lineMap[k]) then 0 else 1
  {
    MergedSpans(lines, lineMap, annotations, k);
    hide Blank, A.Merged, Spanning;
    if annotations != [] {
      A.PlacedIff(lineMap, annotations, |annotations|, k);
      hide A.Placed;
    }
  }

  /** Annotating an example keeps every line that is not blank exactly if each of them is behind the
      last annotation or became a line at or in front of it. If no line is blank, that is the case
      exactly if the last annotation is at or past the last line that is shown. */
  lemma ExampleIsKeptIff(stencil: Stencil, example: string, vars: seq<Variable>, annotations: seq<A.Annotation>)
    requires IsStencil(stencil, example, vars) && A.InOrder(annotations)
    ensures A.Fits(stencil.presentation, MapOf(stencil))
    ensures IsKept(stencil, annotations, A.Inlined(stencil.presentation, MapOf(stencil), annotations))
  {
    StencilCanBeAnnotated(stencil, example, vars);
    if stencil.lineMap == [] {
      assert SplitLines(stencil.presentation) == [""];
    } else {
      MapIsAhead(stencil, example, vars);
      hide Splits, Presented, SplitLines, Covers, LinesKept, Blank;
      var lines := SplitLines(stencil.presentation);
      AheadIsKeptIff(lines, stencil.lineMap, annotations);
      if annotations != [] && forall k :: 0 <= k < |lines| ==> !Blank(lines[k]) {
        LastIsKept(lines, stencil.lineMap, annotations);
      }
    }
  }

  /** The segments keep every line of the presentation under just these conditions. */
  predicate IsKept(stencil: Stencil, annotations: seq<A.Annotation>, segments: seq<A.Segment>) {
    var lines, lineMap := SplitLines(stencil.presentation), stencil.lineMap;
    if lineMap == [] then lines == [""] && Covers(lines, segments)
    else
      && |lines| == |lineMap|
      && (Covers(lines, segments) <==>
            if annotations == [] then Blank(lines[0]) else LinesKept(lines, lineMap, annotations))
      && ((forall k :: 0 <= k < |lines| ==> !Blank(lines[k])) ==>
            (Covers(lines, segments) <==>
               annotations != [] && lineMap[|lineMap| - 1] <= annotations[|annotations| - 1].line))
  }

  /** Every line that is not blank is behind the last annotation, or became a line at or in front of it. */
  predicate LinesKept(lines: seq<string>, lineMap: seq<int>, annotations: seq<A.Annotation>)
    requires |lines| == |lineMap| && annotations != []
  {
    var last := annotations[|annotations| - 1].line;
    forall k :: 0 <= k < |lines| && !Blank(lines[k]) ==> last < k || lineMap[k] <= last
  }

  lemma AheadIsKeptIff(lines: seq<string>, lineMap: seq<int>, annotations: seq<A.Annotation>)
    requires Ahead(lineMap) && A.NonDecreasing(lineMap) && A.InOrder(annotations)
    requires lineMap != [] && |lines| == |lineMap|
    ensures Covers(lines, A.Merged(lines, lineMap, annotations)) <==>
            if annotations == [] then Blank(lines[0]) else LinesKept(lines, lineMap, annotations)
  {
    forall k: nat | k < |lines| && !Blank(lines[k])
      ensures var last := A.LineBefore(annotations, |annotations|);
              Spanning(A.Merged(lines, lineMap, annotations), k)
              == if k <= last && (annotations == [] || last < lineMap[k]) then 0 else 1
    {
      AheadSpans(lines, lineMap, annotations, k);
    }
    hide A.Merged, Spanning, Blank;
  }

  lemma LastIsKept(lines: seq<string>, lineMap: seq<int>, annotations: seq<A.Annotation>)
    requires Ahead(lineMap) && A.NonDecreasing(lineMap) && A.InOrder(annotations) && annotations != []
    requires lineMap != [] && |lines| == |lineMap| && forall k :: 0 <= k < |lines| ==> !Blank(lines[k])
    ensures LinesKept(lines, lineMap, annotations) <==> lineMap[|lineMap| - 1] <= annotations[|annotations| - 1].line
  {
    var last, n := annotations[|annotations| - 1].line, |lines|;
    A.LineNotNegative(annotations, |annotations|);
    if LinesKept(lines, lineMap, annotations) {
      var k := if last < n - 1 then last else n - 1;
      assert !Blank(lines[k]);
    }
    hide Blank;
  }

  // ---- Processing a run ----------------------------------------------------------------------

  /** What running the program came to. */
  datatype Outcome = Outcome(succeeded: bool, stderr: string, httpOutputs: nat)

  datatype Processed =
    | Processed(segments: seq<A.Segment>)
    | Failed(stderr: string)
    | WroteErrors(stderr: string)
    | GaveHttp
    | OutOfOrder(previous: int, line: int)

  /** Annotations can be put inline only if the program ran without errors and HTTP outputs. Then the
      segments are those of the presentation under the stencil's own map. */
  method ProcessInline(stencil: Stencil, outcome: Outcome, annotations: seq<A.Annotation>,
                       ghost example: string, ghost vars: seq<Variable>) returns (r: Processed)
    requires IsStencil(stencil, example, vars)
    ensures r.Processed? <==> outcome.succeeded && outcome.stderr == "" && outcome.httpOutputs == 0 && A.InOrder(annotations)
    ensures !outcome.succeeded ==> r == Failed(outcome.stderr)
    ensures outcome.succeeded && outcome.stderr != "" ==> r == WroteErrors(outcome.stderr)
    ensures outcome.succeeded && outcome.stderr == "" && outcome.httpOutputs > 0 ==> r == GaveHttp
    ensures r.OutOfOrder? ==> exists j: nat :: A.FirstBack(annotations, j) && r.previous == A.LineBefore(annotations, j)
                                               && r.line == annotations[j].line
    ensures r.Processed? ==>
              && Outputs(r.segments) == annotations
              && IsKept(stencil, annotations, r.segments)
              && A.Fits(stencil.presentation, MapOf(stencil))
              && r.segments == A.Inlined(stencil.presentation, MapOf(stencil), annotations)
  {
    if !outcome.succeeded {
      return Failed(outcome.stderr);
    }
    if |outcome.stderr| > 0 {
      return WroteErrors(outcome.stderr);
    }
    if outcome.httpOutputs > 0 {
      return GaveHttp;
    }
    StencilCanBeAnnotated(stencil, example, vars);
    var annotated := A.AnnotateInline(stencil.presentation, MapOf(stencil), annotations);
    match annotated {
      case OutOfOrder(previous, line) =>
        return OutOfOrder(previous, line);
      case Segments(segments) =>
        ExampleIsKeptIff(stencil, example, vars, annotations);
        AllOutputs(stencil.presentation, MapOf(stencil), annotations);
        return Processed(segments);
    }
  }
}
