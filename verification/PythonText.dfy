/** The pieces that a Python reader meets are those that the laid out lines are made of.

`PythonJoining` reads pieces: tokens and ends of lines. Here pieces are cut into physical lines, and
the lines that layout prints are shown to carry exactly these: the same tokens in the same order, and
a backslash where the line is to be joined explicitly.
*/
module PythonText {
  import opened GoStrings
  import opened LayoutSpec
  import opened Python
  import opened PythonJoining
  import opened PythonLines
  import opened Wrap
  import LayoutRecursion

  /** A physical line: its tokens, and whether a backslash joins the next line to it. */
  datatype Physical = Physical(tokens: seq<PythonToken>, backslash: bool)

  /** Pieces cut into physical lines: those that have ended, and the tokens of the one that has not. */
  datatype Cut = Cut(ended: seq<Physical>, open: seq<PythonToken>)
  {
    function Next(piece: Piece): Cut {
      match piece
      case Tok(token) => Cut(ended, open + [token])
      case EndOfLine(backslash) => Cut(ended + [Physical(open, backslash)], [])
    }

    function Behind(lines: seq<Physical>): Cut {
      Cut(lines + ended, open)
    }
  }

  function CutUp(pieces: seq<Piece>): Cut {
    if pieces == [] then Cut([], []) else CutUp(pieces[..|pieces| - 1]).Next(pieces[|pieces| - 1])
  }

  lemma OneMorePiece(pieces: seq<Piece>, piece: Piece)
    ensures CutUp(pieces + [piece]) == CutUp(pieces).Next(piece)
  {
    assert (pieces + [piece])[..|pieces|] == pieces;
  }

  /** `s` is the text of the tokens, with at most a space between two of them. */
  ghost predicate Spells(kind: Kind<PythonToken>, tokens: seq<PythonToken>, s: string)
    decreases |tokens|
  {
    if tokens == [] then s == ""
    else
      var text := kind.text(tokens[|tokens| - 1]);
      exists front :: Spells(kind, tokens[..|tokens| - 1], front) && (s == front + text || s == front + " " + text)
  }

  /** The line is its margin, its tokens, and a backslash if it has one. */
  ghost predicate Carries(kind: Kind<PythonToken>, line: string, physical: Physical) {
    exists margin: nat, s :: Spells(kind, physical.tokens, s) && line == Carried(margin, s, physical.backslash)
  }

  function Carried(margin: nat, s: string, backslash: bool): string {
    Spaces(margin) + s + if backslash then CONTINUATION else ""
  }

  ghost predicate CarriesAll(kind: Kind<PythonToken>, lines: seq<string>, physicals: seq<Physical>) {
    |lines| == |physicals| && forall k :: 0 <= k < |lines| ==> Carries(kind, lines[k], physicals[k])
  }

  /** The lines carry what has been cut; the last line carries what has not ended. */
  ghost predicate CarriesCut(kind: Kind<PythonToken>, lines: seq<string>, cut: Cut) {
    && |lines| > 0
    && CarriesAll(kind, lines[..|lines| - 1], cut.ended)
    && Carries(kind, lines[|lines| - 1], Physical(cut.open, false))
  }

  /** Unless its last token ends in a backslash itself, a line ends in a backslash exactly if it is
      joined explicitly. */
  lemma EndsInBackslashIff(kind: Kind<PythonToken>, line: string, physical: Physical)
    requires Carries(kind, line, physical) && physical.tokens != []
    requires var text := kind.text(physical.tokens[|physical.tokens| - 1]); text != "" && text[|text| - 1] != '\\'
    ensures line != "" && (line[|line| - 1] == '\\' <==> physical.backslash)
  {
    var text := kind.text(physical.tokens[|physical.tokens| - 1]);
    var margin: nat, s :| Spells(kind, physical.tokens, s) && line == Carried(margin, s, physical.backslash);
    assert s != "" && s[|s| - 1] == text[|text| - 1];
  }

  // ---- One row -------------------------------------------------------------------------------

  /** The pieces of a row up to token `i`. */
  function PiecesUpTo(row: Row<PythonToken>, splits: seq<bool>, i: nat): seq<Piece>
    requires row.Legal(splits) && i <= |row.tokens|
  {
    if i == 0 then []
    else PiecesUpTo(row, splits, i - 1) + BreakBefore(row, splits, i - 1) + [Tok(row.tokens[i - 1])]
  }

  lemma {:induction false} PiecesMeet(row: Row<PythonToken>, splits: seq<bool>, i: nat)
    requires row.Legal(splits) && i <= |row.tokens|
    ensures PiecesUpTo(row, splits, i) + Broken(row, splits, i) == Broken(row, splits, 0)
  {
    if i > 0 {
      PiecesMeet(row, splits, i - 1);
      hide BreakBefore;
    }
  }

  lemma SpellsMore(kind: Kind<PythonToken>, tokens: seq<PythonToken>, front: string, token: PythonToken, s: string)
    requires Spells(kind, tokens, front) && (s == kind.text(token) || s == " " + kind.text(token))
    ensures Spells(kind, tokens + [token], front + s)
  {
    assert (tokens + [token])[..|tokens|] == tokens;
    assert front + (" " + kind.text(token)) == front + " " + kind.text(token);
  }

  /** A token that continues a line. */
  lemma CarriesToken(kind: Kind<PythonToken>, line: string, open: Physical, token: PythonToken, s: string)
    requires Carries(kind, line, open) && !open.backslash && (s == kind.text(token) || s == " " + kind.text(token))
    ensures Carries(kind, line + s, Physical(open.tokens + [token], false))
  {
    var margin: nat, front :| Spells(kind, open.tokens, front) && line == Carried(margin, front, false);
    SpellsMore(kind, open.tokens, front, token, s);
    CarriedMore(margin, front, s);
    hide Spells, Carried;
    assert Spells(kind, Physical(open.tokens + [token], false).tokens, front + s);
  }

  lemma CarriedMore(margin: nat, front: string, s: string)
    ensures Carried(margin, front, false) + s == Carried(margin, front + s, false)
  {
  }

  /** A continuation that ends a line. */
  lemma CarriesContinuation(kind: Kind<PythonToken>, line: string, open: Physical, continuation: string)
    requires Carries(kind, line, open) && !open.backslash && (continuation == "" || continuation == CONTINUATION)
    ensures Carries(kind, line + continuation, Physical(open.tokens, continuation != ""))
  {
    var margin: nat, s :| Spells(kind, open.tokens, s) && line == Carried(margin, s, false);
    assert line + continuation == Carried(margin, s, continuation != "");
  }

  /** A token that starts a line. */
  lemma CarriesFirst(kind: Kind<PythonToken>, margin: nat, token: PythonToken)
    ensures Carries(kind, Spaces(margin) + kind.text(token), Physical([token], false))
  {
    SpellsMore(kind, [], "", token, kind.text(token));
    assert [] + [token] == [token];
    assert Spaces(margin) + kind.text(token) == Carried(margin, "" + kind.text(token), false);
  }

  lemma KeepCarries(kind: Kind<PythonToken>, init: seq<string>, last: string, cut: Cut, token: PythonToken, s: string)
    requires CarriesCut(kind, init + [last], cut) && (s == kind.text(token) || s == " " + kind.text(token))
    ensures CarriesCut(kind, init + [last + s], cut.Next(Tok(token)))
  {
    assert (init + [last])[..|init|] == init && (init + [last + s])[..|init|] == init;
    hide CarriesAll;
    CarriesToken(kind, last, Physical(cut.open, false), token, s);
    hide Carries;
  }

  lemma BreakCarries(kind: Kind<PythonToken>, init: seq<string>, last: string, cut: Cut, continuation: string,
                     margin: nat, token: PythonToken)
    requires CarriesCut(kind, init + [last], cut) && (continuation == "" || continuation == CONTINUATION)
    ensures CarriesCut(kind, init + [last + continuation, Spaces(margin) + kind.text(token)],
                       cut.Next(EndOfLine(continuation != "")).Next(Tok(token)))
  {
    var ended, first := last + continuation, Spaces(margin) + kind.text(token);
    assert (init + [last])[..|init|] == init && (init + [ended, first])[..|init| + 1] == init + [ended];
    CarriesContinuation(kind, last, Physical(cut.open, false), continuation);
    CarriesFirst(kind, margin, token);
    assert [] + [token] == [token];
    hide Carries;
    CarriesOneMore(kind, init, cut.ended, ended, Physical(cut.open, continuation != ""));
  }

  lemma CarriesOneMore(kind: Kind<PythonToken>, lines: seq<string>, physicals: seq<Physical>, line: string, physical: Physical)
    requires CarriesAll(kind, lines, physicals) && Carries(kind, line, physical)
    ensures CarriesAll(kind, lines + [line], physicals + [physical])
  {
    hide Carries;
  }

  lemma NothingCarried(kind: Kind<PythonToken>, margin: nat)
    ensures CarriesCut(kind, [Spaces(margin)], CutUp([]))
  {
    assert Spells(kind, [], "") && Spaces(margin) == Carried(margin, "", false);
  }

  /** The lines typed so far carry the pieces so far. */
  ghost predicate Typed(row: Row<PythonToken>, splits: seq<bool>, i: nat)
    requires row.Legal(splits) && i <= |row.tokens|
  {
    CarriesCut(row.kind, row.Lines(splits, i), CutUp(PiecesUpTo(row, splits, i)))
  }

  lemma {:induction false} LinesCarryPieces(row: Row<PythonToken>, splits: seq<bool>, i: nat)
    requires IsPython(row) && row.Legal(splits) && i <= |row.tokens|
    ensures Typed(row, splits, i)
  {
    if i == 0 {
      NothingCarried(row.kind, row.indent);
    } else {
      LinesCarryPieces(row, splits, i - 1);
      TypedStep(row, splits, i - 1);
    }
  }

  lemma TypedStep(row: Row<PythonToken>, splits: seq<bool>, i: nat)
    requires IsPython(row) && row.Legal(splits) && i < |row.tokens| && Typed(row, splits, i)
    ensures Typed(row, splits, i + 1)
  {
    PiecesGrow(row, splits, i);
    LinesCarryNext(row, splits, i, CutUp(PiecesUpTo(row, splits, i)));
    hide CarriesCut, Row.Lines, CutUp, NextCut, PiecesUpTo;
  }

  lemma LinesCarryNext(row: Row<PythonToken>, splits: seq<bool>, i: nat, cut: Cut)
    requires IsPython(row) && row.Legal(splits) && i < |row.tokens|
    requires CarriesCut(row.kind, row.Lines(splits, i), cut)
    ensures CarriesCut(row.kind, row.Lines(splits, i + 1), NextCut(row, splits, i, cut))
  {
    var lines, token := row.Lines(splits, i), row.tokens[i];
    var init, last := lines[..|lines| - 1], lines[|lines| - 1];
    assert lines == init + [last] && row.Column(splits, i) == |last|;
    hide CarriesCut;
    if splits[i] {
      BreakIsJoined(row, i);
      BreakCarries(row.kind, init, last, cut, row.Continuation(i), row.indent + row.opts.tabWidth, token);
    } else {
      KeepCarries(row.kind, init, last, cut, token, row.Placed(i, |last|));
    }
  }

  function NextCut(row: Row<PythonToken>, splits: seq<bool>, i: nat, cut: Cut): Cut
    requires row.Legal(splits) && i < |row.tokens|
  {
    (if splits[i] then cut.Next(EndOfLine(row.Continuation(i) != "")) else cut).Next(Tok(row.tokens[i]))
  }

  lemma PiecesGrow(row: Row<PythonToken>, splits: seq<bool>, i: nat)
    requires row.Legal(splits) && i < |row.tokens|
    ensures CutUp(PiecesUpTo(row, splits, i + 1)) == NextCut(row, splits, i, CutUp(PiecesUpTo(row, splits, i)))
  {
    var pieces, breaks := PiecesUpTo(row, splits, i), BreakBefore(row, splits, i);
    OneMorePiece(pieces + breaks, Tok(row.tokens[i]));
    if splits[i] {
      OneMorePiece(pieces, breaks[0]);
      assert breaks == [breaks[0]];
    } else {
      assert pieces + breaks == pieces;
    }
    hide CutUp;
  }

  /** The lines of a row carry exactly the pieces that the row is read as. */
  lemma RenderedCarriesPieces(row: Row<PythonToken>, splits: seq<bool>)
    requires IsPython(row) && row.Legal(splits)
    ensures CarriesCut(row.kind, row.Rendered(splits), CutUp(Broken(row, splits, 0)))
  {
    LinesCarryPieces(row, splits, |row.tokens|);
    PiecesMeet(row, splits, |row.tokens|);
    assert PiecesUpTo(row, splits, |row.tokens|) + [] == PiecesUpTo(row, splits, |row.tokens|);
  }

  // ---- The whole buffer ----------------------------------------------------------------------

  /** Behind the end of a line, cutting starts afresh. */
  lemma {:induction false} CutAfresh(before: seq<Piece>, pieces: seq<Piece>)
    requires CutUp(before).open == []
    ensures CutUp(before + pieces) == CutUp(pieces).Behind(CutUp(before).ended)
    decreases |pieces|
  {
    if pieces == [] {
      assert before + pieces == before;
    } else {
      var init, last := pieces[..|pieces| - 1], pieces[|pieces| - 1];
      CutAfresh(before, init);
      OneMorePiece(before + init, last);
      assert before + pieces == before + init + [last];
      NextBehind(CutUp(init), CutUp(before).ended, last);
    }
  }

  lemma NextBehind(cut: Cut, lines: seq<Physical>, piece: Piece)
    ensures cut.Behind(lines).Next(piece) == cut.Next(piece).Behind(lines)
  {
  }

  lemma LegalAppends(rows: seq<Row<PythonToken>>, splits: seq<seq<bool>>, row: Row<PythonToken>, split: seq<bool>)
    requires LegalRows(rows, splits) && IsPython(row) && row.Legal(split)
    ensures LegalRows(rows + [row], splits + [split])
  {
  }

  lemma {:induction false} LaidOutAppends(rows: seq<Row<PythonToken>>, splits: seq<seq<bool>>,
                                          row: Row<PythonToken>, split: seq<bool>)
    requires LegalRows(rows, splits) && IsPython(row) && row.Legal(split)
    ensures LegalRows(rows + [row], splits + [split])
    ensures LaidOut(rows + [row], splits + [split])
         == LaidOut(rows, splits) + (Broken(row, split, 0) + [EndOfLine(false)])
    decreases |rows|
  {
    LegalAppends(rows, splits, row, split);
    hide Broken, IsPython, Row.Legal;
    if rows == [] {
      assert (rows + [row])[1..] == [] && (splits + [split])[1..] == [];
      assert rows + [row] == [row] && splits + [split] == [split];
    } else {
      LaidOutAppends(rows[1..], splits[1..], row, split);
      assert (rows + [row])[1..] == rows[1..] + [row] && (splits + [split])[1..] == splits[1..] + [split];
      var first, rest := Broken(rows[0], splits[0], 0) + [EndOfLine(false)], LaidOut(rows[1..], splits[1..]);
      var last := Broken(row, split, 0) + [EndOfLine(false)];
      assert LaidOut(rows + [row], splits + [split]) == first + (rest + last);
      assert first + (rest + last) == first + rest + last;
    }
  }

  /** All lines of a cut, the last one ended without a backslash. */
  function All(cut: Cut): seq<Physical> {
    cut.ended + [Physical(cut.open, false)]
  }

  lemma RowCut(before: seq<Piece>, pieces: seq<Piece>)
    requires CutUp(before).open == []
    ensures CutUp(before + (pieces + [EndOfLine(false)])) == Cut(CutUp(before).ended + All(CutUp(pieces)), [])
  {
    CutAfresh(before, pieces + [EndOfLine(false)]);
    OneMorePiece(pieces, EndOfLine(false));
    hide CutUp;
  }

  lemma CutCarries(kind: Kind<PythonToken>, lines: seq<string>, cut: Cut)
    requires CarriesCut(kind, lines, cut)
    ensures CarriesAll(kind, lines, All(cut))
  {
    var init, last := lines[..|lines| - 1], lines[|lines| - 1];
    CarriesOneMore(kind, init, cut.ended, last, Physical(cut.open, false));
    assert lines == init + [last];
    hide Carries;
  }

  /** What is read as one more row is carried by the lines of that row. */
  lemma RowFollows(kind: Kind<PythonToken>, before: seq<Piece>, pieces: seq<Piece>, lines: seq<string>, more: seq<string>)
    requires CutUp(before).open == [] && CarriesAll(kind, lines, CutUp(before).ended) && CarriesCut(kind, more, CutUp(pieces))
    ensures var cut := CutUp(before + (pieces + [EndOfLine(false)]));
            cut.open == [] && CarriesAll(kind, lines + more, cut.ended)
  {
    CutCarries(kind, more, CutUp(pieces));
    RowCut(before, pieces);
    hide CutUp, All, Carries, CarriesCut;
    CarriesBoth(kind, lines, CutUp(before).ended, more, All(CutUp(pieces)));
  }

  lemma CarriesBoth(kind: Kind<PythonToken>, a: seq<string>, p: seq<Physical>, b: seq<string>, q: seq<Physical>)
    requires CarriesAll(kind, a, p) && CarriesAll(kind, b, q)
    ensures CarriesAll(kind, a + b, p + q)
  {
    hide Carries;
  }

  /** The rows of a buffer and the decisions that layout takes for them. */
  function RowsOf(kind: Kind<PythonToken>, buf: TokenizedBuffer<PythonToken>, opts: Options, n: nat): (rows: seq<Row<PythonToken>>)
    requires n <= |buf.tokens| <= |buf.lines|
    ensures |rows| == n
  {
    if n == 0 then []
    else RowsOf(kind, buf, opts, n - 1) + [RowOf(kind, buf.tokens[n - 1], buf.lines[n - 1], opts)]
  }

  function SplitsOf(kind: Kind<PythonToken>, buf: TokenizedBuffer<PythonToken>, opts: Options, n: nat): (splits: seq<seq<bool>>)
    requires n <= |buf.tokens| <= |buf.lines|
    ensures |splits| == n
  {
    if n == 0 then []
    else SplitsOf(kind, buf, opts, n - 1) + [Decided(RowOf(kind, buf.tokens[n - 1], buf.lines[n - 1], opts))]
  }

  lemma {:induction false} TokensOfRows(kind: Kind<PythonToken>, buf: TokenizedBuffer<PythonToken>, opts: Options, n: nat)
    requires n <= |buf.tokens| <= |buf.lines|
    ensures var rows := RowsOf(kind, buf, opts, n);
            seq(|rows|, r requires 0 <= r < |rows| => rows[r].tokens) == buf.tokens[..n]
  {
    if n > 0 {
      TokensOfRows(kind, buf, opts, n - 1);
      var rows, before := RowsOf(kind, buf, opts, n), RowsOf(kind, buf, opts, n - 1);
      var tokens := seq(|before|, r requires 0 <= r < |before| => before[r].tokens);
      assert forall r :: 0 <= r < n - 1 ==> rows[r].tokens == tokens[r];
    }
  }

  function Decided(row: Row<PythonToken>): seq<bool> {
    LayoutRecursion.Decisions(row, 0, row.indent)
  }

  lemma BestLinesCarryPieces(row: Row<PythonToken>)
    requires IsPython(row)
    ensures row.Legal(Decided(row)) && CarriesCut(row.kind, BestLines(row), CutUp(Broken(row, Decided(row), 0)))
  {
    LayoutRecursion.PlainIsBest(row);
    if row.tokens == [] {
      NothingCarried(row.kind, 0);
      assert Spaces(0) == "" && Broken(row, Decided(row), 0) == [];
    } else {
      RenderedCarriesPieces(row, Decided(row));
    }
  }

  /** The lines printed for rows are carried by the pieces that the rows are read as. */
  ghost predicate Printed(kind: Kind<PythonToken>, rows: seq<Row<PythonToken>>, splits: seq<seq<bool>>, lines: seq<string>) {
    && LegalRows(rows, splits)
    && CutUp(LaidOut(rows, splits)).open == []
    && CarriesAll(kind, lines, CutUp(LaidOut(rows, splits)).ended)
  }

  lemma PrintsOneMore(rows: seq<Row<PythonToken>>, splits: seq<seq<bool>>, lines: seq<string>, row: Row<PythonToken>)
    requires Printed(row.kind, rows, splits, lines) && IsPython(row)
    ensures Printed(row.kind, rows + [row], splits + [Decided(row)], lines + BestLines(row))
  {
    BestLinesCarryPieces(row);
    LaidOutAppends(rows, splits, row, Decided(row));
    hide CarriesAll, CarriesCut, CutUp, LaidOut, Decided, BestLines, IsPython;
    RowFollows(row.kind, LaidOut(rows, splits), Broken(row, Decided(row), 0), lines, BestLines(row));
  }

  /** The lines that layout prints for a buffer carry exactly the pieces that `PythonJoining` reads. */
  lemma {:induction false} FlowCarriesPieces(kind: Kind<PythonToken>, buf: TokenizedBuffer<PythonToken>, opts: Options, n: nat)
    requires (exists names :: kind == PythonKind(names)) && n <= |buf.tokens| <= |buf.lines|
    ensures Printed(kind, RowsOf(kind, buf, opts, n), SplitsOf(kind, buf, opts, n), AllLines(kind, buf, opts, n))
  {
    if n > 0 {
      FlowCarriesPieces(kind, buf, opts, n - 1);
      var row := RowOf(kind, buf.tokens[n - 1], buf.lines[n - 1], opts);
      assert IsPython(row);
      var rows, splits := RowsOf(kind, buf, opts, n - 1), SplitsOf(kind, buf, opts, n - 1);
      assert RowsOf(kind, buf, opts, n) == rows + [row] && SplitsOf(kind, buf, opts, n) == splits + [Decided(row)];
      assert AllLines(kind, buf, opts, n) == AllLines(kind, buf, opts, n - 1) + BestLines(row);
      hide *;
      PrintsOneMore(rows, splits, AllLines(kind, buf, opts, n - 1), row);
    }
  }

  /** From the scan to the printed lines: they carry pieces that Python reads as the logical lines of the
      original exactly if nothing has been parted, for any scan in line order in which no bracket
      closes that was not open. */
  lemma FlowKeepsLogicalLinesIff(names: int -> string, scanned: seq<Scanned>, buf: TokenizedBuffer<PythonToken>,
                                 joined: seq<bool>, opts: Options)
    requires |buf.tokens| == |buf.lines| == |joined|
    requires Flatten(buf.tokens) == TaggedUpTo(scanned, |scanned|) && NeverNegative(scanned)
    ensures var kind, n := PythonKind(names), |buf.tokens|;
            var rows, splits := RowsOf(kind, buf, opts, n), SplitsOf(kind, buf, opts, n);
            && Printed(kind, rows, splits, AllLines(kind, buf, opts, n))
            && (Read(AtStart, LaidOut(rows, splits)) == Read(AtStart, Original(rows, joined)) <==> NothingParted(rows, joined))
  {
    var kind, n := PythonKind(names), |buf.tokens|;
    var rows, splits := RowsOf(kind, buf, opts, n), SplitsOf(kind, buf, opts, n);
    FlowCarriesPieces(kind, buf, opts, n);
    TokensOfRows(kind, buf, opts, n);
    assert buf.tokens[..n] == buf.tokens;
    ScanTracks(scanned, rows);
    LayoutKeepsLogicalLinesIff(rows, joined, splits);
  }

  // ---- Tokens that run together ----------------------------------------------------------------

  lemma TwoTokensTogether(row: Row<PythonToken>, splits: seq<bool>)
    requires row.Legal(splits) && |row.tokens| == 2 && row.indent == 0 && !row.CanSplit(1)
    requires !row.kind.insertSpace(row.tokens[0], row.tokens[1])
    ensures row.Rendered(splits) == [row.Text(0) + row.Text(1)]
  {
    assert row.Lines(splits, 0) == [""];
    assert "" + row.Placed(0, 0) == row.Text(0);
    assert row.Lines(splits, 1) == [row.Text(0)];
  }

  /** Two adjacent strings are printed without a space. If the first one is empty they open a string with
      three quotes. */
  lemma EmptyStringRunsIntoNext(names: int -> string, opts: Options, splits: seq<bool>)
    requires Row(PythonKind(names), [Plain(STRING, "\"\""), Plain(STRING, "\"a\"")], opts, 0).Legal(splits)
    ensures Row(PythonKind(names), [Plain(STRING, "\"\""), Plain(STRING, "\"a\"")], opts, 0).Rendered(splits) == ["\"\"\"a\""]
  {
    var row := Row(PythonKind(names), [Plain(STRING, "\"\""), Plain(STRING, "\"a\"")], opts, 0);
    TwoTokensTogether(row, splits);
    assert row.Text(0) + row.Text(1) == "\"\"\"a\"";
  }
}
