/** Breaking the rows of a Python buffer does not change how Python reads them.

Python's own rules for joining physical lines are written down independently of the layout, after
sections 2.1.5 (explicit line joining), 2.1.6 (implicit line joining) and 2.1.7 (blank lines) of the
Python Language Reference: the end of a physical line ends the logical line unless a bracket is open
or the line ends in a backslash, a backslash that belongs to a comment joins nothing, and a logical
line without tokens is ignored.
*/
module PythonJoining {
  import opened LayoutSpec
  import opened Python

  /** What a reader of the text meets: a token, or the end of a physical line. The line is joined to the
      next by a backslash, or because it ends inside a token. */
  datatype Piece = Tok(token: PythonToken) | EndOfLine(joined: bool)

  /** What is left of it once physical lines have been joined. */
  datatype Lexeme = Word(id: int, literal: string) | NewLine

  /** Comments are no part of the syntax. */
  predicate IsWord(piece: Piece) {
    piece.Tok? && piece.token.id != COMMENT
  }

  /** The reader's state: how many brackets are open, whether it is inside a comment, and whether the
      logical line has no word yet. */
  datatype Reader = Reader(open: nat, comment: bool, blank: bool)
  {
    function Next(piece: Piece): Reader {
      match piece
      case EndOfLine(joined) => Reader(open, false, blank || !Joins(joined))
      case Tok(t) =>
        Reader(if IsLeftBraceLike(t.id) then open + 1
               else if IsRightBraceLike(t.id) && open > 0 then open - 1
               else open,
               IsComment(t.id),
               blank && !IsWord(piece))
    }

    predicate Joins(joined: bool) {
      || open > 0                  // implicit joining, section 2.1.6
      || (joined && !comment)      // explicit joining, section 2.1.5
    }

    function Emit(piece: Piece): seq<Lexeme> {
      match piece
      case Tok(t) => if IsWord(piece) then [Word(t.id, t.literal)] else []
      case EndOfLine(joined) => if Joins(joined) || blank then [] else [NewLine]
    }
  }

  /** The reader at the start of a text. */
  const AtStart := Reader(0, false, true)

  function Read(reader: Reader, pieces: seq<Piece>): seq<Lexeme>
    decreases |pieces|
  {
    if pieces == [] then [] else reader.Emit(pieces[0]) + Read(reader.Next(pieces[0]), pieces[1..])
  }

  function After(reader: Reader, pieces: seq<Piece>): Reader
    decreases |pieces|
  {
    if pieces == [] then reader else After(reader.Next(pieces[0]), pieces[1..])
  }

  lemma {:induction false} ReadSplits(reader: Reader, a: seq<Piece>, b: seq<Piece>)
    ensures Read(reader, a + b) == Read(reader, a) + Read(After(reader, a), b)
    ensures After(reader, a + b) == After(After(reader, a), b)
    decreases |a|
  {
    if a == [] {
      assert a + b == b;
    } else {
      assert (a + b)[1..] == a[1..] + b;
      ReadSplits(reader.Next(a[0]), a[1..], b);
    }
  }

  // ---- A row, as it was and laid out ---------------------------------------------------------

  /** The tokens as they stood on their line. */
  function Plainly(tokens: seq<PythonToken>): seq<Piece> {
    if tokens == [] then [] else [Tok(tokens[0])] + Plainly(tokens[1..])
  }

  /** The line break, if any, in front of token `i`. */
  function BreakBefore(row: Row<PythonToken>, splits: seq<bool>, i: nat): seq<Piece>
    requires row.Legal(splits) && i < |row.tokens|
  {
    if splits[i] then [EndOfLine(row.Continuation(i) != "")] else []
  }

  /** The rest of a row from token `i` on, with the line breaks that `splits` puts in. */
  function Broken(row: Row<PythonToken>, splits: seq<bool>, i: nat): seq<Piece>
    requires row.Legal(splits) && i <= |row.tokens|
    decreases |row.tokens| - i
  {
    if i == |row.tokens| then []
    else BreakBefore(row, splits, i) + ([Tok(row.tokens[i])] + Broken(row, splits, i + 1))
  }

  /** No bracket closes that was not open, and every flag says whether a bracket is open behind its
      token, when `open` are open in front. */
  predicate Tracks(tokens: seq<PythonToken>, open: int)
    decreases |tokens|
  {
    tokens == [] ||
    var now := open + DepthChange(tokens[0].id);
    now >= 0 && tokens[0].insideParens == (now > 0) && Tracks(tokens[1..], now)
  }

  function Opened(tokens: seq<PythonToken>, open: int): int {
    if tokens == [] then open else Opened(tokens[1..], open + DepthChange(tokens[0].id))
  }

  ghost predicate IsPython(row: Row<PythonToken>) {
    exists names :: row.kind == PythonKind(names)
  }

  /** A legal break comes behind a token that may be broken behind: never a comment. Inside brackets
      it leaves nothing behind, outside it leaves a backslash. */
  lemma BreakIsJoined(row: Row<PythonToken>, i: nat)
    requires IsPython(row) && i < |row.tokens| && row.CanSplit(i)
    ensures var before := row.tokens[i - 1];
            && !IsComment(before.id)
            && (before.insideParens ==> row.Continuation(i) == "")
            && (!before.insideParens ==> row.Continuation(i) == CONTINUATION)
  {
  }

  /** The reader has just passed token `i - 1`, and its flag agrees with the open brackets. */
  predicate At(row: Row<PythonToken>, i: nat, reader: Reader)
    requires i <= |row.tokens|
  {
    && Tracks(row.tokens[i..], reader.open)
    && (i > 0 ==>
          && reader.comment == IsComment(row.tokens[i - 1].id)
          && row.tokens[i - 1].insideParens == (reader.open > 0))
  }

  /** The reader joins the lines at a break, and goes on as if it had not been there. */
  lemma BreakVanishes(row: Row<PythonToken>, splits: seq<bool>, i: nat, reader: Reader)
    requires IsPython(row) && row.Legal(splits) && i < |row.tokens| && At(row, i, reader)
    ensures var breaks := BreakBefore(row, splits, i);
            && Read(reader, breaks) == []
            && After(reader, breaks).Next(Tok(row.tokens[i])) == reader.Next(Tok(row.tokens[i]))
  {
    if splits[i] {
      BreakIsJoined(row, i);
      assert reader.Joins(row.Continuation(i) != "");
      var breaks := BreakBefore(row, splits, i);
      assert breaks[1..] == [];
    }
  }

  lemma TokenMovesOn(row: Row<PythonToken>, i: nat, reader: Reader)
    requires i < |row.tokens| && At(row, i, reader)
    ensures At(row, i + 1, reader.Next(Tok(row.tokens[i])))
  {
    assert row.tokens[i..][1..] == row.tokens[i + 1..];
  }

  lemma ReadOne(reader: Reader, token: PythonToken, rest: seq<Piece>)
    ensures Read(reader, [Tok(token)] + rest) == reader.Emit(Tok(token)) + Read(reader.Next(Tok(token)), rest)
    ensures After(reader, [Tok(token)] + rest) == After(reader.Next(Tok(token)), rest)
  {
    assert ([Tok(token)] + rest)[1..] == rest;
  }

  /** Reading the rest of a laid out row gives what reading it unbroken gives. */
  lemma {:induction false} BreaksVanish(row: Row<PythonToken>, splits: seq<bool>, i: nat, reader: Reader)
    requires IsPython(row) && row.Legal(splits) && i <= |row.tokens| && At(row, i, reader)
    ensures Read(reader, Broken(row, splits, i)) == Read(reader, Plainly(row.tokens[i..]))
    ensures After(reader, Broken(row, splits, i)) == After(reader, Plainly(row.tokens[i..]))
    decreases |row.tokens| - i
  {
    if i < |row.tokens| {
      BreakVanishes(row, splits, i, reader);
      TokenMovesOn(row, i, reader);
      hide At, Read, After, BreakBefore;
      var token, breaks, rest := row.tokens[i], BreakBefore(row, splits, i), Broken(row, splits, i + 1);
      BreaksVanish(row, splits, i + 1, reader.Next(Tok(token)));
      ReadSplits(reader, breaks, [Tok(token)] + rest);
      ReadOne(After(reader, breaks), token, rest);
      assert row.tokens[i..][1..] == row.tokens[i + 1..];
      ReadOne(reader, token, Plainly(row.tokens[i + 1..]));
    }
  }

  // ---- The whole buffer ----------------------------------------------------------------------

  /** The tokens of the buffer with a line for each row; `joined` says which of the lines are joined to
      the next by a backslash or by a token that goes on there. */
  function Original(rows: seq<Row<PythonToken>>, joined: seq<bool>): seq<Piece>
    requires |joined| == |rows|
  {
    if rows == [] then []
    else Plainly(rows[0].tokens) + [EndOfLine(joined[0])] + Original(rows[1..], joined[1..])
  }

  /** No line is joined. */
  function Unjoined(rows: seq<Row<PythonToken>>): (joined: seq<bool>)
    ensures |joined| == |rows|
  {
    if rows == [] then [] else [false] + Unjoined(rows[1..])
  }

  ghost predicate LegalRows(rows: seq<Row<PythonToken>>, splits: seq<seq<bool>>) {
    |rows| == |splits| && forall r :: 0 <= r < |rows| ==> IsPython(rows[r]) && rows[r].Legal(splits[r])
  }

  /** The buffer laid out: every row is broken where its vector says so. */
  ghost function LaidOut(rows: seq<Row<PythonToken>>, splits: seq<seq<bool>>): seq<Piece>
    requires LegalRows(rows, splits)
  {
    if rows == [] then []
    else Broken(rows[0], splits[0], 0) + [EndOfLine(false)] + LaidOut(rows[1..], splits[1..])
  }

  predicate TracksRows(rows: seq<Row<PythonToken>>, open: int)
    decreases |rows|
  {
    rows == [] || (Tracks(rows[0].tokens, open) && TracksRows(rows[1..], Opened(rows[0].tokens, open)))
  }

  lemma {:induction false} ReaderCounts(tokens: seq<PythonToken>, reader: Reader)
    requires Tracks(tokens, reader.open)
    ensures After(reader, Plainly(tokens)).open == Opened(tokens, reader.open)
    decreases |tokens|
  {
    if tokens != [] {
      assert Plainly(tokens)[1..] == Plainly(tokens[1..]);
      ReaderCounts(tokens[1..], reader.Next(Tok(tokens[0])));
    }
  }

  /** Whatever legal breaks are put into the rows of a buffer, Python reads them as rows that are not
      broken, each of which ends its line unless a bracket is open. */
  lemma {:induction false} LayoutReadsAsRows(rows: seq<Row<PythonToken>>, splits: seq<seq<bool>>, reader: Reader)
    requires LegalRows(rows, splits) && TracksRows(rows, reader.open)
    ensures Read(reader, LaidOut(rows, splits)) == Read(reader, Original(rows, Unjoined(rows)))
    decreases |rows|
  {
    if rows != [] {
      var tokens, broken := rows[0].tokens, Broken(rows[0], splits[0], 0);
      assert tokens[0..] == tokens;
      BreaksVanish(rows[0], splits[0], 0, reader);
      ReaderCounts(tokens, reader);
      var behind := After(reader, Plainly(tokens));
      var end := [EndOfLine(false)];
      LayoutReadsAsRows(rows[1..], splits[1..], behind.Next(EndOfLine(false)));
      RestOfBuffer(reader, broken, end, LaidOut(rows[1..], splits[1..]));
      RestOfBuffer(reader, Plainly(tokens), end, Original(rows[1..], Unjoined(rows[1..])));
    }
  }

  lemma RestOfBuffer(reader: Reader, row: seq<Piece>, end: seq<Piece>, rest: seq<Piece>)
    requires |end| == 1
    ensures var behind := After(reader, row);
            Read(reader, row + end + rest)
            == Read(reader, row) + (behind.Emit(end[0]) + Read(behind.Next(end[0]), rest))
  {
    ReadSplits(reader, row, end + rest);
    assert row + end + rest == row + (end + rest);
    assert (end + rest)[1..] == rest;
  }

  // ---- Tokenizing sets the flags -------------------------------------------------------------

  /** No bracket closes that was not open. */
  predicate NeverNegative(scanned: seq<Scanned>) {
    forall i :: 0 <= i <= |scanned| ==> Depth(scanned[..i]) >= 0
  }

  /** The tokens from the `i`-th on carry correct flags. */
  lemma {:induction false} TaggedTracks(scanned: seq<Scanned>, tokens: seq<PythonToken>, i: nat)
    requires NeverNegative(scanned) && i <= |scanned| && |tokens| == |scanned| - i
    requires forall j :: 0 <= j < |tokens| ==> tokens[j] == Tagged(scanned, i + j)
    ensures Tracks(tokens, Depth(scanned[..i]))
    decreases |scanned| - i
  {
    if tokens != [] {
      assert scanned[..i + 1][..i] == scanned[..i];
      assert tokens[0] == Tagged(scanned, i + 0);
      TaggedTracks(scanned, tokens[1..], i + 1);
    }
  }

  lemma {:induction false} TracksSplits(a: seq<PythonToken>, b: seq<PythonToken>, open: int)
    requires Tracks(a + b, open)
    ensures Tracks(a, open) && Tracks(b, Opened(a, open))
    decreases |a|
  {
    if a == [] {
      assert a + b == b;
    } else {
      assert (a + b)[1..] == a[1..] + b;
      TracksSplits(a[1..], b, open + DepthChange(a[0].id));
    }
  }

  function Concat(rows: seq<seq<PythonToken>>): seq<PythonToken> {
    if rows == [] then [] else rows[0] + Concat(rows[1..])
  }

  lemma {:induction false} ConcatIsFlatten(rows: seq<seq<PythonToken>>)
    ensures Concat(rows) == Flatten(rows)
  {
    if rows != [] {
      var init, last := rows[..|rows| - 1], rows[|rows| - 1];
      ConcatIsFlatten(init);
      ConcatAppends(init, last);
      assert init + [last] == rows;
    }
  }

  lemma {:induction false} ConcatAppends(init: seq<seq<PythonToken>>, last: seq<PythonToken>)
    ensures Concat(init + [last]) == Concat(init) + last
  {
    if init != [] {
      assert (init + [last])[1..] == init[1..] + [last];
      ConcatAppends(init[1..], last);
    }
  }

  lemma {:induction false} ConcatTracks(rows: seq<Row<PythonToken>>, tokens: seq<seq<PythonToken>>, open: int)
    requires |rows| == |tokens| && forall r :: 0 <= r < |rows| ==> rows[r].tokens == tokens[r]
    requires Tracks(Concat(tokens), open)
    ensures TracksRows(rows, open)
    decreases |rows|
  {
    if rows != [] {
      TracksSplits(tokens[0], Concat(tokens[1..]), open);
      ConcatTracks(rows[1..], tokens[1..], Opened(tokens[0], open));
    }
  }

  /** If the rows hold the tokens of a scan in which no bracket closes too early, flagged as
      `TokenizePython` flags them, the flags track the brackets. */
  lemma ScanTracks(scanned: seq<Scanned>, rows: seq<Row<PythonToken>>)
    requires NeverNegative(scanned)
    requires Flatten(seq(|rows|, r requires 0 <= r < |rows| => rows[r].tokens)) == TaggedUpTo(scanned, |scanned|)
    ensures TracksRows(rows, 0)
  {
    var tokens := seq(|rows|, r requires 0 <= r < |rows| => rows[r].tokens);
    ConcatIsFlatten(tokens);
    TaggedTracks(scanned, Flatten(tokens), 0);
    ConcatTracks(rows, tokens, 0);
  }
}
