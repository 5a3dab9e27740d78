/** When laying a Python buffer out keeps its logical lines.

The scanner drops backslashes at the ends of lines, so layout ends every row without one. What is read
of a text is first put as its words and the places where a logical line ends, each place being the
number of words in front of it. Then the places are compared.
*/
module PythonLines {
  import opened LayoutSpec
  import opened Python
  import opened PythonJoining

  // ---- Words and the places where lines end ----------------------------------------------------

  function WordOf(piece: Piece): seq<Lexeme> {
    if IsWord(piece) then [Word(piece.token.id, piece.token.literal)] else []
  }

  function EndOf(reader: Reader, n: nat, piece: Piece): set<nat> {
    if piece.EndOfLine? && !reader.Joins(piece.joined) then {n} else {}
  }

  function Words(pieces: seq<Piece>): seq<Lexeme> {
    if pieces == [] then [] else WordOf(pieces[0]) + Words(pieces[1..])
  }

  /** The places where a line ends that is not joined, `n` words being in front of the pieces. */
  function Ends(reader: Reader, n: nat, pieces: seq<Piece>): set<nat>
    decreases |pieces|
  {
    if pieces == [] then {}
    else EndOf(reader, n, pieces[0]) + Ends(reader.Next(pieces[0]), n + |WordOf(pieces[0])|, pieces[1..])
  }

  /** The words, with a newline at each of the places that has a word in front of it. */
  function Spelled(words: seq<Lexeme>, ends: set<nat>): seq<Lexeme> {
    if words == [] then []
    else
      Spelled(words[..|words| - 1], ends) + [words[|words| - 1]] + if |words| in ends then [NewLine] else []
  }

  lemma {:induction false} WordsSplit(a: seq<Piece>, b: seq<Piece>)
    ensures Words(a + b) == Words(a) + Words(b)
  {
    if a == [] {
      assert a + b == b;
    } else {
      assert (a + b)[1..] == a[1..] + b;
      WordsSplit(a[1..], b);
    }
  }

  lemma {:induction false} EndsSplit(reader: Reader, n: nat, a: seq<Piece>, b: seq<Piece>)
    ensures Ends(reader, n, a + b) == Ends(reader, n, a) + Ends(After(reader, a), n + |Words(a)|, b)
    decreases |a|
  {
    if a == [] {
      assert a + b == b;
    } else {
      assert (a + b)[1..] == a[1..] + b;
      EndsSplit(reader.Next(a[0]), n + |WordOf(a[0])|, a[1..], b);
      hide EndOf, WordOf;
    }
  }

  lemma {:induction false} EndsAreInside(reader: Reader, n: nat, pieces: seq<Piece>, place: nat)
    requires place in Ends(reader, n, pieces)
    ensures n <= place <= n + |Words(pieces)|
    decreases |pieces|
  {
    if place in Ends(reader.Next(pieces[0]), n + |WordOf(pieces[0])|, pieces[1..]) {
      EndsAreInside(reader.Next(pieces[0]), n + |WordOf(pieces[0])|, pieces[1..], place);
    }
  }

  // ---- What is read ----------------------------------------------------------------------------

  /** What a reader reads is spelled by the words and the places, and the logical line is blank exactly
      if there is no word yet or a line has ended behind the last one. */
  ghost predicate ReadIsSpelled(pieces: seq<Piece>) {
    && Read(AtStart, pieces) == Spelled(Words(pieces), Ends(AtStart, 0, pieces))
    && (After(AtStart, pieces).blank <==> Words(pieces) == [] || |Words(pieces)| in Ends(AtStart, 0, pieces))
  }

  lemma {:induction false} SpelledWith(words: seq<Lexeme>, ends: set<nat>, place: nat)
    requires place > |words|
    ensures Spelled(words, ends + {place}) == Spelled(words, ends)
  {
    if words != [] {
      SpelledWith(words[..|words| - 1], ends, place);
    }
  }

  /** A line that ends adds a newline unless the logical line is blank. */
  lemma SpelledEnd(words: seq<Lexeme>, ends: set<nat>)
    ensures Spelled(words, ends + {|words|})
         == Spelled(words, ends) + if words == [] || |words| in ends then [] else [NewLine]
  {
    if words != [] {
      if |words| in ends {
        assert ends + {|words|} == ends;
      } else {
        SpelledWith(words[..|words| - 1], ends, |words|);
      }
    }
  }

  lemma SpelledWord(words: seq<Lexeme>, ends: set<nat>, word: Lexeme)
    requires |words| + 1 !in ends
    ensures Spelled(words + [word], ends) == Spelled(words, ends) + [word]
  {
    assert (words + [word])[..|words|] == words;
  }

  lemma OnePiece(reader: Reader, n: nat, piece: Piece)
    ensures Read(reader, [piece]) == reader.Emit(piece) && After(reader, [piece]) == reader.Next(piece)
    ensures Words([piece]) == WordOf(piece) && Ends(reader, n, [piece]) == EndOf(reader, n, piece)
  {
    assert [piece][1..] == [];
  }

  lemma LastPiece(pieces: seq<Piece>, piece: Piece)
    ensures var reader, words := After(AtStart, pieces), Words(pieces);
            && Read(AtStart, pieces + [piece]) == Read(AtStart, pieces) + reader.Emit(piece)
            && After(AtStart, pieces + [piece]) == reader.Next(piece)
            && Words(pieces + [piece]) == words + WordOf(piece)
            && Ends(AtStart, 0, pieces + [piece]) == Ends(AtStart, 0, pieces) + EndOf(reader, |words|, piece)
  {
    hide *;
    ReadSplits(AtStart, pieces, [piece]);
    WordsSplit(pieces, [piece]);
    EndsSplit(AtStart, 0, pieces, [piece]);
    OnePiece(After(AtStart, pieces), 0 + |Words(pieces)|, piece);
  }

  lemma NoEndAhead(pieces: seq<Piece>)
    ensures |Words(pieces)| + 1 !in Ends(AtStart, 0, pieces)
  {
    if |Words(pieces)| + 1 in Ends(AtStart, 0, pieces) {
      EndsAreInside(AtStart, 0, pieces, |Words(pieces)| + 1);
    }
  }

  /** What one more piece does, given what has been read in front of it. */
  lemma SpelledPiece(read: seq<Lexeme>, reader: Reader, words: seq<Lexeme>, ends: set<nat>, piece: Piece)
    requires read == Spelled(words, ends) && |words| + 1 !in ends
    requires reader.blank <==> words == [] || |words| in ends
    ensures var words', ends' := words + WordOf(piece), ends + EndOf(reader, |words|, piece);
            && read + reader.Emit(piece) == Spelled(words', ends')
            && (reader.Next(piece).blank <==> words' == [] || |words'| in ends')
  {
    if IsWord(piece) {
      SpelledWord(words, ends, Word(piece.token.id, piece.token.literal));
    } else if piece.EndOfLine? {
      SpelledEnd(words, ends);
    }
    assert words + [] == words && ends + {} == ends;
    hide Spelled;
  }

  lemma OneMorePiece(pieces: seq<Piece>, piece: Piece)
    requires ReadIsSpelled(pieces)
    ensures ReadIsSpelled(pieces + [piece])
  {
    LastPiece(pieces, piece);
    NoEndAhead(pieces);
    SpelledPiece(Read(AtStart, pieces), After(AtStart, pieces), Words(pieces), Ends(AtStart, 0, pieces), piece);
    hide Read, After, Ends, Words, Spelled;
  }

  lemma {:induction false} ReadIsSpelledAlways(pieces: seq<Piece>)
    ensures ReadIsSpelled(pieces)
  {
    if pieces != [] {
      ReadIsSpelledAlways(pieces[..|pieces| - 1]);
      OneMorePiece(pieces[..|pieces| - 1], pieces[|pieces| - 1]);
      assert pieces == pieces[..|pieces| - 1] + [pieces[|pieces| - 1]];
    }
  }

  predicate AllWords(words: seq<Lexeme>) {
    forall i :: 0 <= i < |words| ==> words[i].Word?
  }

  /** The same words are spelled the same exactly if the lines end at the same places. */
  lemma {:induction false} SpelledSameIff(words: seq<Lexeme>, a: set<nat>, b: set<nat>)
    requires AllWords(words)
    ensures Spelled(words, a) == Spelled(words, b) <==>
            forall place :: 0 < place <= |words| ==> (place in a <==> place in b)
  {
    if words != [] {
      var n := |words|;
      SpelledSameIff(words[..n - 1], a, b);
      LastWordSameIff(Spelled(words[..n - 1], a), Spelled(words[..n - 1], b), words[n - 1], n in a, n in b);
      hide Spelled;
    }
  }

  lemma LastWordSameIff(s: seq<Lexeme>, t: seq<Lexeme>, word: Lexeme, a: bool, b: bool)
    requires word.Word?
    ensures s + [word] + (if a then [NewLine] else []) == t + [word] + (if b then [NewLine] else []) <==> s == t && a == b
  {
    var u, v := s + [word] + (if a then [NewLine] else []), t + [word] + (if b then [NewLine] else []);
    if u == v {
      assert u[|u| - 1] == if a then NewLine else word;
      assert v[|v| - 1] == if b then NewLine else word;
      assert u[..|s|] == s && v[..|t|] == t;
    }
  }

  // ---- The rows of a buffer --------------------------------------------------------------------

  function WordCount(row: Row<PythonToken>): nat {
    |Words(Plainly(row.tokens))|
  }

  /** How many words there are up to the end of row `r`. */
  function WordsBehind(rows: seq<Row<PythonToken>>, r: nat): nat
    requires r < |rows|
  {
    WordCount(rows[0]) + if r == 0 then 0 else WordsBehind(rows[1..], r - 1)
  }

  /** How many brackets are open behind row `r`, with `open` in front of the first row. */
  function DepthBehind(rows: seq<Row<PythonToken>>, r: nat, open: int): int
    requires r < |rows|
  {
    var now := Opened(rows[0].tokens, open);
    if r == 0 then now else DepthBehind(rows[1..], r - 1, now)
  }

  predicate EndsInComment(row: Row<PythonToken>) {
    row.tokens != [] && IsComment(row.tokens[|row.tokens| - 1].id)
  }

  /** The end of row `r` ends the logical line, unless that is blank. */
  predicate EndsLine(rows: seq<Row<PythonToken>>, joined: seq<bool>, r: nat, open: int)
    requires r < |rows| == |joined|
  {
    DepthBehind(rows, r, open) == 0 && (!joined[r] || EndsInComment(rows[r]))
  }

  /** Only a backslash, or a token that goes on, joins row `r` to the next. */
  predicate Parts(rows: seq<Row<PythonToken>>, joined: seq<bool>, r: nat)
    requires r < |rows| == |joined|
  {
    DepthBehind(rows, r, 0) == 0 && joined[r] && !EndsInComment(rows[r])
  }

  /** Some row ends its line at this place. */
  ghost predicate IsEnd(rows: seq<Row<PythonToken>>, joined: seq<bool>, open: int, n: nat, place: nat)
    requires |rows| == |joined|
  {
    exists r: nat :: r < |rows| && EndsLine(rows, joined, r, open) && place == n + WordsBehind(rows, r)
  }

  lemma IsEndSteps(rows: seq<Row<PythonToken>>, joined: seq<bool>, open: int, n: nat, place: nat)
    requires |rows| == |joined| > 0
    ensures IsEnd(rows, joined, open, n, place) <==>
            || (EndsLine(rows, joined, 0, open) && place == n + WordCount(rows[0]))
            || IsEnd(rows[1..], joined[1..], Opened(rows[0].tokens, open), n + WordCount(rows[0]), place)
  {
    var rest, ends, now, m := rows[1..], joined[1..], Opened(rows[0].tokens, open), n + WordCount(rows[0]);
    hide EndsInComment, WordCount, Opened;
    if r: nat :| 0 < r < |rows| && EndsLine(rows, joined, r, open) && place == n + WordsBehind(rows, r) {
      assert EndsLine(rest, ends, r - 1, now) && place == m + WordsBehind(rest, r - 1);
    }
    if r: nat :| r < |rest| && EndsLine(rest, ends, r, now) && place == m + WordsBehind(rest, r) {
      assert EndsLine(rows, joined, r + 1, open) && place == n + WordsBehind(rows, r + 1);
    }
  }

  /** Tokens alone end no line, and the reader remembers whether the last one was a comment. */
  lemma {:induction false} TokensEndNothing(reader: Reader, n: nat, tokens: seq<PythonToken>)
    ensures Ends(reader, n, Plainly(tokens)) == {}
    ensures After(reader, Plainly(tokens)).comment
         == if tokens == [] then reader.comment else IsComment(tokens[|tokens| - 1].id)
    decreases |tokens|
  {
    if tokens != [] {
      var first := Tok(tokens[0]);
      TokensEndNothing(reader.Next(first), n + |WordOf(first)|, tokens[1..]);
      assert Plainly(tokens)[1..] == Plainly(tokens[1..]);
    }
  }

  /** The first row of a buffer, and the rest. */
  lemma FirstRowEnds(rows: seq<Row<PythonToken>>, joined: seq<bool>, reader: Reader, n: nat) returns (next: Reader)
    requires |rows| == |joined| > 0 && TracksRows(rows, reader.open) && !reader.comment
    ensures next.open == Opened(rows[0].tokens, reader.open) && !next.comment
    ensures Ends(reader, n, Original(rows, joined))
         == (if EndsLine(rows, joined, 0, reader.open) then {n + WordCount(rows[0])} else {})
            + Ends(next, n + WordCount(rows[0]), Original(rows[1..], joined[1..]))
  {
    var a, end, rest := Plainly(rows[0].tokens), EndOfLine(joined[0]), Original(rows[1..], joined[1..]);
    ReaderCounts(rows[0].tokens, reader);
    TokensEndNothing(reader, n, rows[0].tokens);
    var behind := After(reader, a);
    next := behind.Next(end);
    assert Original(rows, joined) == a + ([end] + rest);
    EndsSplit(reader, n, a, [end] + rest);
    assert ([end] + rest)[0] == end && ([end] + rest)[1..] == rest;
    hide Plainly, After, Original;
  }

  /** The lines of the original end where its rows end their lines. */
  lemma {:induction false} RowsEnd(rows: seq<Row<PythonToken>>, joined: seq<bool>, reader: Reader, n: nat, place: nat)
    requires |rows| == |joined| && TracksRows(rows, reader.open) && !reader.comment
    ensures place in Ends(reader, n, Original(rows, joined)) <==> IsEnd(rows, joined, reader.open, n, place)
    decreases |rows|
  {
    if rows != [] {
      var next := FirstRowEnds(rows, joined, reader, n);
      RowsEnd(rows[1..], joined[1..], next, n + WordCount(rows[0]), place);
      IsEndSteps(rows, joined, reader.open, n, place);
      hide Ends, IsEnd, EndsLine, WordCount;
    }
  }

  lemma {:induction false} SameWords(rows: seq<Row<PythonToken>>, a: seq<bool>, b: seq<bool>)
    requires |rows| == |a| == |b|
    ensures Words(Original(rows, a)) == Words(Original(rows, b))
  {
    if rows != [] {
      SameWords(rows[1..], a[1..], b[1..]);
      RowWords(rows[0], a[0], Original(rows[1..], a[1..]));
      RowWords(rows[0], b[0], Original(rows[1..], b[1..]));
    }
  }

  lemma RowWords(row: Row<PythonToken>, joined: bool, rest: seq<Piece>)
    ensures Words(Plainly(row.tokens) + [EndOfLine(joined)] + rest) == Words(Plainly(row.tokens)) + Words(rest)
  {
    var a, end := Plainly(row.tokens), [EndOfLine(joined)];
    WordsSplit(a + end, rest);
    WordsSplit(a, end);
    assert end[1..] == [];
  }

  lemma {:induction false} OnlyWords(pieces: seq<Piece>)
    ensures AllWords(Words(pieces))
  {
    if pieces != [] {
      OnlyWords(pieces[1..]);
    }
  }

  // ---- Which logical lines are kept ------------------------------------------------------------

  lemma {:induction false} UnjoinedEverywhere(rows: seq<Row<PythonToken>>, r: nat)
    requires r < |rows|
    ensures !Unjoined(rows)[r]
  {
    if r > 0 {
      UnjoinedEverywhere(rows[1..], r - 1);
    }
  }

  /** Row `r` and some row that ends its line have the same words in front of their ends. */
  ghost predicate EndsAnyway(rows: seq<Row<PythonToken>>, joined: seq<bool>, r: nat)
    requires r < |rows| == |joined|
  {
    exists other: nat :: other < |rows| && EndsLine(rows, joined, other, 0) && WordsBehind(rows, other) == WordsBehind(rows, r)
  }

  /** Wherever a row is joined to the next by nothing but a backslash or a token that goes on, there are
      no words yet, or no words between there and a row that ends its line. */
  ghost predicate NothingParted(rows: seq<Row<PythonToken>>, joined: seq<bool>)
    requires |rows| == |joined|
  {
    forall r: nat :: r < |rows| && Parts(rows, joined, r) ==> WordsBehind(rows, r) == 0 || EndsAnyway(rows, joined, r)
  }

  /** If every row is taken to end its line, lines end in addition where rows are parted. */
  lemma UnjoinedEnds(rows: seq<Row<PythonToken>>, joined: seq<bool>, place: nat)
    requires |rows| == |joined|
    ensures IsEnd(rows, joined, 0, 0, place) ==> IsEnd(rows, Unjoined(rows), 0, 0, place)
    ensures NothingParted(rows, joined) && IsEnd(rows, Unjoined(rows), 0, 0, place) && place > 0 ==> IsEnd(rows, joined, 0, 0, place)
  {
    hide EndsInComment, Opened, WordsBehind;
    if r: nat :| r < |rows| && EndsLine(rows, joined, r, 0) && place == 0 + WordsBehind(rows, r) {
      UnjoinedEverywhere(rows, r);
      assert EndsLine(rows, Unjoined(rows), r, 0);
    }
    if NothingParted(rows, joined) && IsEnd(rows, Unjoined(rows), 0, 0, place) && place > 0 {
      var r: nat :| r < |rows| && EndsLine(rows, Unjoined(rows), r, 0) && place == 0 + WordsBehind(rows, r);
      if !EndsLine(rows, joined, r, 0) {
        assert Parts(rows, joined, r);
        var other: nat :| other < |rows| && EndsLine(rows, joined, other, 0) && WordsBehind(rows, other) == WordsBehind(rows, r);
        assert place == 0 + WordsBehind(rows, other);
      }
    }
  }

  /** Where lines end at the same places, nothing has been parted. */
  lemma PartedIsSeen(rows: seq<Row<PythonToken>>, joined: seq<bool>, r: nat)
    requires |rows| == |joined| && r < |rows| && Parts(rows, joined, r)
    requires var place := WordsBehind(rows, r);
             IsEnd(rows, Unjoined(rows), 0, 0, place) ==> IsEnd(rows, joined, 0, 0, place)
    ensures EndsAnyway(rows, joined, r)
  {
    hide EndsInComment, Opened, WordsBehind;
    UnjoinedEverywhere(rows, r);
    var place := WordsBehind(rows, r);
    assert EndsLine(rows, Unjoined(rows), r, 0) && place == 0 + WordsBehind(rows, r);
    var other: nat :| other < |rows| && EndsLine(rows, joined, other, 0) && place == 0 + WordsBehind(rows, other);
  }

  /** The rows read as the original exactly if nothing has been parted. */
  lemma SameLinesIff(rows: seq<Row<PythonToken>>, joined: seq<bool>)
    requires |rows| == |joined| && TracksRows(rows, 0)
    ensures Read(AtStart, Original(rows, Unjoined(rows))) == Read(AtStart, Original(rows, joined)) <==> NothingParted(rows, joined)
  {
    var laid, original := Original(rows, Unjoined(rows)), Original(rows, joined);
    var words, a, b := Words(original), Ends(AtStart, 0, laid), Ends(AtStart, 0, original);
    ReadIsSpelledAlways(laid);
    ReadIsSpelledAlways(original);
    SameWords(rows, Unjoined(rows), joined);
    OnlyWords(original);
    SpelledSameIff(words, a, b);
    forall place: nat
      ensures place in a <==> IsEnd(rows, Unjoined(rows), 0, 0, place)
      ensures place in b <==> IsEnd(rows, joined, 0, 0, place)
      ensures IsEnd(rows, joined, 0, 0, place) ==> IsEnd(rows, Unjoined(rows), 0, 0, place)
      ensures NothingParted(rows, joined) && IsEnd(rows, Unjoined(rows), 0, 0, place) && place > 0 ==> IsEnd(rows, joined, 0, 0, place)
      ensures place in a ==> place <= |words|
    {
      RowsEnd(rows, Unjoined(rows), AtStart, 0, place);
      RowsEnd(rows, joined, AtStart, 0, place);
      UnjoinedEnds(rows, joined, place);
      if place in a {
        EndsAreInside(AtStart, 0, laid, place);
      }
    }
    if forall place :: 0 < place <= |words| ==> (place in a <==> place in b) {
      forall r: nat | r < |rows| && Parts(rows, joined, r) && WordsBehind(rows, r) != 0
        ensures EndsAnyway(rows, joined, r)
      {
        PartedIsSeen(rows, joined, r);
      }
    }
    hide Read, Spelled, Ends, IsEnd, EndsAnyway, Parts;
  }

  /** Whatever legal breaks layout puts into a buffer, Python reads the logical lines of the original
      exactly if nothing has been parted. */
  lemma LayoutKeepsLogicalLinesIff(rows: seq<Row<PythonToken>>, joined: seq<bool>, splits: seq<seq<bool>>)
    requires |rows| == |joined| && LegalRows(rows, splits) && TracksRows(rows, 0)
    ensures Read(AtStart, LaidOut(rows, splits)) == Read(AtStart, Original(rows, joined)) <==> NothingParted(rows, joined)
  {
    LayoutReadsAsRows(rows, splits, AtStart);
    SameLinesIff(rows, joined);
  }

  // ---- Buffers that are parted and buffers that are not ----------------------------------------

  lemma {:induction false} WordsOfNext(rows: seq<Row<PythonToken>>, r: nat, later: nat)
    requires r < later < |rows|
    ensures WordsBehind(rows, later) >= WordsBehind(rows, r) + WordCount(rows[r + 1])
    ensures WordCount(rows[r]) <= WordsBehind(rows, r)
  {
    hide WordCount;
    if r > 0 {
      WordsOfNext(rows[1..], r - 1, later - 1);
    }
  }

  /** A row with words that is joined to a row with words by nothing but a backslash, or a token that goes
      on, becomes a logical line of its own. */
  lemma JoinedWordsAreParted(rows: seq<Row<PythonToken>>, joined: seq<bool>, r: nat)
    requires |rows| == |joined| && r + 1 < |rows| && Parts(rows, joined, r)
    requires WordCount(rows[r]) > 0 && WordCount(rows[r + 1]) > 0
    ensures !NothingParted(rows, joined)
  {
    hide WordCount;
    WordsOfNext(rows, r, r + 1);
    if EndsAnyway(rows, joined, r) {
      var other: nat :| other < |rows| && EndsLine(rows, joined, other, 0) && WordsBehind(rows, other) == WordsBehind(rows, r);
      if other < r {
        WordsOfRow(rows, other, r);
      } else if other > r {
        WordsOfNext(rows, r, other);
      }
      assert false;
    }
  }

  lemma {:induction false} WordsOfRow(rows: seq<Row<PythonToken>>, earlier: nat, r: nat)
    requires earlier < r < |rows|
    ensures WordsBehind(rows, earlier) + WordCount(rows[r]) <= WordsBehind(rows, r)
  {
    hide WordCount;
    if earlier > 0 {
      WordsOfRow(rows[1..], earlier - 1, r - 1);
    } else {
      WordsUpToRow(rows[1..], r - 1);
    }
  }

  lemma {:induction false} WordsUpToRow(rows: seq<Row<PythonToken>>, r: nat)
    requires r < |rows|
    ensures WordCount(rows[r]) <= WordsBehind(rows, r)
  {
    hide WordCount;
    if r > 0 {
      WordsUpToRow(rows[1..], r - 1);
    }
  }

  function Plain(id: int, literal: string): PythonToken {
    PythonToken(id, literal, false)
  }

  /** Two rows outside brackets. */
  function TwoRows(names: int -> string, opts: Options, first: seq<PythonToken>, second: seq<PythonToken>, indent: nat): seq<Row<PythonToken>> {
    [Row(PythonKind(names), first, opts, 0), Row(PythonKind(names), second, opts, indent)]
  }

  predicate NoBrackets(tokens: seq<PythonToken>) {
    forall i :: 0 <= i < |tokens| ==> DepthChange(tokens[i].id) == 0 && !tokens[i].insideParens && !IsComment(tokens[i].id)
  }

  lemma {:induction false} NoBracketsTrack(tokens: seq<PythonToken>)
    requires NoBrackets(tokens)
    ensures Tracks(tokens, 0) && Opened(tokens, 0) == 0 && |Words(Plainly(tokens))| == |tokens|
  {
    if tokens != [] {
      NoBracketsTrack(tokens[1..]);
      assert Plainly(tokens)[1..] == Plainly(tokens[1..]);
    }
  }

  /** Two rows of a statement that is joined outside brackets are read as two statements. */
  lemma TwoRowsAreParted(names: int -> string, opts: Options, first: seq<PythonToken>, second: seq<PythonToken>, indent: nat,
                         splits: seq<seq<bool>>)
    requires NoBrackets(first) && NoBrackets(second) && first != [] && second != []
    requires LegalRows(TwoRows(names, opts, first, second, indent), splits)
    ensures var rows := TwoRows(names, opts, first, second, indent);
            Read(AtStart, LaidOut(rows, splits)) != Read(AtStart, Original(rows, [true, false]))
  {
    var rows := TwoRows(names, opts, first, second, indent);
    NoBracketsTrack(first);
    NoBracketsTrack(second);
    assert rows[1..] == [rows[1]] && rows[1..][1..] == [];
    assert TracksRows(rows[1..], 0);
    LayoutKeepsLogicalLinesIff(rows, [true, false], splits);
    assert Parts(rows, [true, false], 0);
    JoinedWordsAreParted(rows, [true, false], 0);
    hide Read, LaidOut, Original, NothingParted;
  }

  /** `x = 1 + \` and `2` on the next line: the backslash is lost, whatever the layout, and what is read
      is no longer one statement. */
  lemma BackslashIsLost(names: int -> string, opts: Options, indent: nat, splits: seq<seq<bool>>)
    requires LegalRows(TwoRows(names, opts, SumSoFar(), [Plain(INT, "2")], indent), splits)
    ensures var rows := TwoRows(names, opts, SumSoFar(), [Plain(INT, "2")], indent);
            Read(AtStart, LaidOut(rows, splits)) != Read(AtStart, Original(rows, [true, false]))
  {
    TwoRowsAreParted(names, opts, SumSoFar(), [Plain(INT, "2")], indent, splits);
  }

  function SumSoFar(): (tokens: seq<PythonToken>)
    ensures NoBrackets(tokens)
  {
    [Plain(IDENT, "x"), Plain(ASSIGN, ""), Plain(INT, "1"), Plain(ADD, "")]
  }

  /** A string over two lines with `+ x` behind it: the second line becomes a statement of its own. */
  lemma BehindStringIsParted(names: int -> string, opts: Options, text: string, splits: seq<seq<bool>>)
    requires LegalRows(TwoRows(names, opts, [Plain(STRING, text)], [Plain(ADD, ""), Plain(IDENT, "x")], 0), splits)
    ensures var rows := TwoRows(names, opts, [Plain(STRING, text)], [Plain(ADD, ""), Plain(IDENT, "x")], 0);
            Read(AtStart, LaidOut(rows, splits)) != Read(AtStart, Original(rows, [true, false]))
  {
    TwoRowsAreParted(names, opts, [Plain(STRING, text)], [Plain(ADD, ""), Plain(IDENT, "x")], 0, splits);
  }

  /** A string over two lines with nothing behind it is fine: the line that layout adds is blank. */
  lemma StringAloneIsKept(names: int -> string, opts: Options, text: string, splits: seq<seq<bool>>)
    requires LegalRows(TwoRows(names, opts, [Plain(STRING, text)], [], 0), splits)
    ensures var rows := TwoRows(names, opts, [Plain(STRING, text)], [], 0);
            Read(AtStart, LaidOut(rows, splits)) == Read(AtStart, Original(rows, [true, false]))
  {
    var rows := TwoRows(names, opts, [Plain(STRING, text)], [], 0);
    NoBracketsTrack([Plain(STRING, text)]);
    assert rows[1..] == [rows[1]] && rows[1..][1..] == [];
    assert TracksRows(rows[1..], 0);
    LayoutKeepsLogicalLinesIff(rows, [true, false], splits);
    assert DepthBehind(rows[1..], 0, 0) == 0 && WordsBehind(rows[1..], 0) == 0;
    assert DepthBehind(rows, 1, 0) == 0 && WordsBehind(rows, 1) == WordsBehind(rows, 0);
    assert EndsLine(rows, [true, false], 1, 0);
    assert EndsAnyway(rows, [true, false], 0);
    hide Read, LaidOut, Original, WordsBehind, DepthBehind;
  }
}
