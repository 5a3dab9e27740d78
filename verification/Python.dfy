/** Python tokens: where a row may be broken, and what a break leaves behind. */
module Python {
  import opened LayoutSpec

  // ---- Token ids, numbered as the scanner numbers them ---------------------------------------

  const COMMENT := 4
  const MAGIC := 5
  const LITERAL_BEGIN := 12
  const IDENT := 13
  const INT := 14
  const STRING := 18
  const LITERAL_END := 19
  const ADD := 21
  const SUB := 22
  const MUL := 23
  const DIV := 25
  const PCT := 27
  const BIT_AND := 28
  const BIT_OR := 29
  const BIT_XOR := 30
  const BIT_LSHIFT := 32
  const BIT_RSHIFT := 33
  const ADD_ASSIGN := 34
  const SUB_ASSIGN := 35
  const MUL_ASSIGN := 36
  const DIV_ASSIGN := 38
  const PCT_ASSIGN := 40
  const BIT_AND_ASSIGN := 41
  const BIT_RSHIFT_ASSIGN := 45
  const EQ := 46
  const LT := 47
  const GT := 48
  const LE := 49
  const GE := 50
  const LG := 51
  const NE := 52
  const ASSIGN := 53
  const LPAREN := 54
  const LBRACK := 55
  const LBRACE := 56
  const COMMA := 57
  const RPAREN := 59
  const RBRACK := 60
  const RBRACE := 61
  const SEMICOLON := 62
  const COLON := 63
  const KEYWORD_BEGIN := 68
  const AND := 69
  const OR := 73
  const KEYWORD_END := 101

  predicate IsKeyword(t: int) {
    KEYWORD_BEGIN < t < KEYWORD_END
  }

  predicate IsLiteral(t: int) {
    LITERAL_BEGIN < t < LITERAL_END
  }

  predicate IsLeftBraceLike(t: int) {
    t == LBRACE || t == LBRACK || t == LPAREN
  }

  predicate IsRightBraceLike(t: int) {
    t == RBRACE || t == RBRACK || t == RPAREN
  }

  predicate IsAugmentedArithmetic(t: int) {
    t == ADD_ASSIGN || t == SUB_ASSIGN || t == MUL_ASSIGN || t == DIV_ASSIGN || t == PCT_ASSIGN
  }

  /** `&=`, `|=`, `^=`, `<<=` and `>>=`. */
  predicate IsAugmentedBits(t: int) {
    BIT_AND_ASSIGN <= t <= BIT_RSHIFT_ASSIGN
  }

  predicate InsertSpaceBeforeAndAfter(t: int) {
    || IsKeyword(t)
    || IsAugmentedArithmetic(t) || IsAugmentedBits(t)
    || t == EQ || t == LT || t == GT || t == NE || t == LE || t == GE
    || t == ASSIGN || t == COMMENT || t == MAGIC
  }

  predicate InsertSpaceAfter(t: int, next: int) {
    if InsertSpaceBeforeAndAfter(t) then true
    else if t == COMMA || t == SEMICOLON || t == COLON then true
    else if t == IDENT then next == IDENT || IsKeyword(next) || IsLiteral(next)
    else if t == RPAREN then next == IDENT || next == MUL || IsLeftBraceLike(next)
    else false
  }

  predicate InsertSpaceBetween(t: int, next: int) {
    next != COLON && (InsertSpaceBeforeAndAfter(next) || InsertSpaceAfter(t, next))
  }

  predicate IsName(t: int) {
    t == IDENT || IsKeyword(t)
  }

  predicate IsWordLike(t: int) {
    IsName(t) || IsLiteral(t)
  }

  /** Of two tokens that could be read as one, being names, keywords or literals, the printed text keeps
      apart exactly those of which the first is a name or keyword or the second is a keyword: a literal
      runs together with a name or literal behind it. A colon never has a space in front. */
  lemma WordsStayApart(t: int, next: int)
    ensures IsWordLike(t) && IsWordLike(next) ==> (InsertSpaceBetween(t, next) <==> IsName(t) || IsKeyword(next))
    ensures next == COLON ==> !InsertSpaceBetween(t, next)
  {
  }

  /** The cost of breaking after `t`, or -1 where that is illegal. */
  function SplitCost(t: int, next: int): int {
    if t == SEMICOLON then 2
    else if t == COMMA then 3
    else if IsLeftBraceLike(t) then
      if IsLeftBraceLike(next) || IsRightBraceLike(next) then -1 else 5
    else if t == ADD || t == SUB || t == MUL || t == DIV || t == PCT then 10
    else if t == BIT_AND || t == BIT_OR || t == BIT_LSHIFT || t == BIT_RSHIFT || t == BIT_XOR || t == LG then 4
    else if IsAugmentedArithmetic(t) || IsAugmentedBits(t) then 4
    else if t == EQ || t == LT || t == GT || t == ASSIGN then 3
    else if t == AND || t == OR then 2
    else -1
  }

  const CONTINUATION := " \\"

  /** A lexical token; `insideParens` is set if any bracket is open after it. */
  datatype PythonToken = PythonToken(id: int, literal: string, insideParens: bool)

  /** Python's instance of the token interface. `names` gives the fixed spelling of a token id. */
  function PythonKind(names: int -> string): Kind<PythonToken> {
    Kind(
      (t: PythonToken, next: PythonToken) =>
        (SplitCost(t.id, next.id), if t.insideParens then "" else CONTINUATION),
      (t: PythonToken, next: PythonToken) => InsertSpaceBetween(t.id, next.id),
      (t: PythonToken) => if t.literal == "" then names(t.id) else t.literal)
  }

  /** What it costs to break behind a token, cost by cost, and what the break leaves there. */
  lemma CostsOfBreaks(names: int -> string, a: PythonToken, b: PythonToken)
    ensures var (cost, continuation) := PythonKind(names).splitCost(a, b);
            && cost in {-1, 2, 3, 4, 5, 10}
            && (cost == 2 <==> a.id in {SEMICOLON, AND, OR})
            && (cost == 3 <==> a.id in {COMMA, EQ, LT, GT, ASSIGN})
            && (cost == 4 <==>
                  || a.id in {BIT_AND, BIT_OR, BIT_XOR, BIT_LSHIFT, BIT_RSHIFT, LG}
                  || a.id in {ADD_ASSIGN, SUB_ASSIGN, MUL_ASSIGN, DIV_ASSIGN, PCT_ASSIGN, 41, 42, 43, 44, 45})
            && (cost == 5 <==>
                  a.id in {LPAREN, LBRACK, LBRACE} && b.id !in {LPAREN, LBRACK, LBRACE, RPAREN, RBRACK, RBRACE})
            && (cost == 10 <==> a.id in {ADD, SUB, MUL, DIV, PCT})
            && continuation == if a.insideParens then "" else " \\"
  {
  }

  /** The tokens with a space on either side. */
  const SPACED := {ADD_ASSIGN, SUB_ASSIGN, MUL_ASSIGN, DIV_ASSIGN, PCT_ASSIGN, 41, 42, 43, 44, 45,
                   EQ, LT, GT, NE, LE, GE, ASSIGN, COMMENT, MAGIC}

  /** Where spaces are put: around keywords and the tokens above; behind commas, semicolons and colons;
      behind a name in front of a literal or another name; behind a closing parenthesis in front of a name,
      `*` or an opening bracket; and nowhere else. There is none in front of a colon. */
  lemma Spacing(names: int -> string, a: PythonToken, b: PythonToken)
    ensures PythonKind(names).insertSpace(a, b) <==>
            var t, next := a.id, b.id;
            && next != COLON
            && (|| t in SPACED || next in SPACED || 68 < t < 101 || 68 < next < 101
                || t in {COMMA, SEMICOLON, COLON}
                || (t == IDENT && 12 < next < 19)
                || (t == RPAREN && next in {IDENT, MUL, LPAREN, LBRACK, LBRACE}))
  {
  }

  /** A token is printed as its literal, or as its fixed spelling if it has none. */
  lemma PrintedAs(names: int -> string, id: int, literal: string, insideParens: bool)
    ensures PythonKind(names).text(PythonToken(id, literal, insideParens)) == if literal != "" then literal else names(id)
  {
  }

  predicate IsComment(t: int) {
    t == COMMENT || t == MAGIC
  }

  // ---- Tokenizing ----------------------------------------------------------------------------

  /** What the scanner yields: a token and the index of the line that it begins on. */
  datatype Scanned = Scanned(id: int, literal: string, line: nat)

  /** What one token does to the number of open brackets. */
  function DepthChange(id: int): int {
    if IsLeftBraceLike(id) then 1 else if IsRightBraceLike(id) then -1 else 0
  }

  lemma BracketsCount(id: int)
    ensures DepthChange(id) == 1 <==> id in {LPAREN, LBRACK, LBRACE}
    ensures DepthChange(id) == -1 <==> id in {RPAREN, RBRACK, RBRACE}
    ensures DepthChange(id) in {-1, 0, 1}
  {
  }

  function Depth(scanned: seq<Scanned>): int {
    if scanned == [] then 0
    else Depth(scanned[..|scanned| - 1]) + DepthChange(scanned[|scanned| - 1].id)
  }

  /** Token `i` of the scan with its bracket flag. */
  function Tagged(scanned: seq<Scanned>, i: nat): PythonToken
    requires i < |scanned|
  {
    PythonToken(scanned[i].id, scanned[i].literal, Depth(scanned[..i + 1]) > 0)
  }

  predicate InLineOrder(scanned: seq<Scanned>) {
    forall i, j :: 0 <= i < j < |scanned| ==> scanned[i].line <= scanned[j].line
  }

  function Flatten(rows: seq<seq<PythonToken>>): seq<PythonToken> {
    if rows == [] then [] else Flatten(rows[..|rows| - 1]) + rows[|rows| - 1]
  }

  lemma {:induction false} FlattenAppendsToLast(rows: seq<seq<PythonToken>>, k: nat, token: PythonToken)
    requires k < |rows| && forall j :: k < j < |rows| ==> rows[j] == []
    ensures Flatten(rows[k := rows[k] + [token]]) == Flatten(rows) + [token]
  {
    var updated := rows[k := rows[k] + [token]];
    if k == |rows| - 1 {
      assert updated[..k] == rows[..k];
    } else {
      var init := rows[..|rows| - 1];
      FlattenAppendsToLast(init, k, token);
      assert updated[..|rows| - 1] == init[k := init[k] + [token]];
    }
  }

  lemma {:induction false} FlattenOfEmptyRows(rows: seq<seq<PythonToken>>)
    requires forall j :: 0 <= j < |rows| ==> rows[j] == []
    ensures Flatten(rows) == []
  {
    if rows != [] {
      FlattenOfEmptyRows(rows[..|rows| - 1]);
    }
  }

  /** The tokens among the first `i` that begin on line `k`, in order. */
  function OnLine(scanned: seq<Scanned>, i: nat, k: nat): seq<PythonToken>
    requires i <= |scanned|
  {
    if i == 0 then []
    else OnLine(scanned, i - 1, k) + if scanned[i - 1].line == k then [Tagged(scanned, i - 1)] else []
  }

  /** Rows of tokens come with the scanner's errors, if there are any. */
  datatype Result = Rows(rows: seq<seq<PythonToken>>, errs: seq<string>) | OutOfRange(line: nat)

  /** Distributes the scanned tokens over the `n` lines of the buffer, each with its bracket flag.
      It fails exactly if a token begins past the last line. If the scanner never goes back a line,
      the rows taken together are the scanned tokens in order. */
  method TokenizePython(scanned: seq<Scanned>, errs: seq<string>, n: nat) returns (out: Result)
    ensures out.Rows? <==> forall i :: 0 <= i < |scanned| ==> scanned[i].line < n
    ensures out.Rows? ==>
              && out.errs == errs && |out.rows| == n
              && forall k :: 0 <= k < n ==> out.rows[k] == OnLine(scanned, |scanned|, k)
    ensures out.Rows? && InLineOrder(scanned) ==>
              Flatten(out.rows) == TaggedUpTo(scanned, |scanned|)
  {
    var tokens: seq<seq<PythonToken>> := seq(n, _ => []);
    var numParens := 0;
    for i := 0 to |scanned|
      invariant |tokens| == n
      invariant numParens == Depth(scanned[..i])
      invariant forall j :: 0 <= j < i ==> scanned[j].line < n
      invariant forall k :: 0 <= k < n ==> tokens[k] == OnLine(scanned, i, k)
    {
      var id := scanned[i].id;
      if IsLeftBraceLike(id) {
        numParens := numParens + 1;
      } else if IsRightBraceLike(id) {
        numParens := numParens - 1;
      }
      assert scanned[..i + 1][..i] == scanned[..i];
      var k := scanned[i].line;
      if k >= n {
        return OutOfRange(k);
      }
      var token := PythonToken(id, scanned[i].literal, numParens > 0);
      assert token == Tagged(scanned, i);
      hide Depth, Tagged;
      tokens := tokens[k := tokens[k] + [token]];
    }
    if InLineOrder(scanned) {
      RowsInOrder(scanned, |scanned|, n);
      assert tokens == RowsUpTo(scanned, |scanned|, n);
    }
    return Rows(tokens, errs);
  }

  /** The rows of a buffer of `n` lines, as far as the first `i` tokens fill them. */
  function RowsUpTo(scanned: seq<Scanned>, i: nat, n: nat): (rows: seq<seq<PythonToken>>)
    requires i <= |scanned|
    ensures |rows| == n && forall k :: 0 <= k < n ==> rows[k] == OnLine(scanned, i, k)
  {
    seq(n, k requires 0 <= k < n => OnLine(scanned, i, k))
  }

  lemma OneMoreToken(scanned: seq<Scanned>, i: nat, n: nat)
    requires i < |scanned| && scanned[i].line < n
    ensures var rows, k := RowsUpTo(scanned, i, n), scanned[i].line;
            RowsUpTo(scanned, i + 1, n) == rows[k := rows[k] + [Tagged(scanned, i)]]
  {
    hide Tagged;
    forall k | 0 <= k < n && k != scanned[i].line
      ensures OnLine(scanned, i + 1, k) == OnLine(scanned, i, k)
    {
    }
  }

  function TaggedUpTo(scanned: seq<Scanned>, i: nat): (tokens: seq<PythonToken>)
    requires i <= |scanned|
  {
    seq(i, j requires 0 <= j < i => Tagged(scanned, j))
  }

  lemma RowsBehindAreEmpty(scanned: seq<Scanned>, i: nat, n: nat, k: nat)
    requires i <= |scanned| && forall j :: 0 <= j < i ==> scanned[j].line <= k
    ensures var rows := RowsUpTo(scanned, i, n); forall l :: k < l < n ==> rows[l] == []
  {
    var rows := RowsUpTo(scanned, i, n);
    forall l | k < l < n
      ensures rows[l] == []
    {
      NothingBehind(scanned, i, l);
    }
  }

  lemma NextToken(scanned: seq<Scanned>, i: nat, n: nat)
    requires i < |scanned| && scanned[i].line < n && forall j :: 0 <= j < i ==> scanned[j].line <= scanned[i].line
    ensures Flatten(RowsUpTo(scanned, i + 1, n)) == Flatten(RowsUpTo(scanned, i, n)) + [Tagged(scanned, i)]
  {
    var rows, k := RowsUpTo(scanned, i, n), scanned[i].line;
    OneMoreToken(scanned, i, n);
    RowsBehindAreEmpty(scanned, i, n, k);
    hide RowsUpTo, Flatten, Tagged;
    FlattenAppendsToLast(rows, k, Tagged(scanned, i));
  }

  lemma StillInOrder(scanned: seq<Scanned>, i: nat, n: nat)
    requires InLineOrder(scanned) && i < |scanned| && scanned[i].line < n
    requires Flatten(RowsUpTo(scanned, i, n)) == TaggedUpTo(scanned, i)
    ensures Flatten(RowsUpTo(scanned, i + 1, n)) == TaggedUpTo(scanned, i + 1)
  {
    InOrderUpTo(scanned, i);
    hide *;
    NextToken(scanned, i, n);
    TaggedNext(scanned, i);
  }

  lemma InOrderUpTo(scanned: seq<Scanned>, i: nat)
    requires InLineOrder(scanned) && i < |scanned|
    ensures forall j :: 0 <= j < i ==> scanned[j].line <= scanned[i].line
  {
  }

  lemma TaggedNext(scanned: seq<Scanned>, i: nat)
    requires i < |scanned|
    ensures TaggedUpTo(scanned, i + 1) == TaggedUpTo(scanned, i) + [Tagged(scanned, i)]
  {
    hide Tagged;
  }

  /** If lines never go back, the rows taken together are the tokens in order. */
  lemma {:induction false} RowsInOrder(scanned: seq<Scanned>, i: nat, n: nat)
    requires InLineOrder(scanned) && i <= |scanned|
    requires forall j :: 0 <= j < i ==> scanned[j].line < n
    ensures Flatten(RowsUpTo(scanned, i, n)) == TaggedUpTo(scanned, i)
  {
    if i == 0 {
      FlattenOfEmptyRows(RowsUpTo(scanned, 0, n));
    } else {
      hide *;
      RowsInOrder(scanned, i - 1, n);
      StillInOrder(scanned, i - 1, n);
    }
  }

  lemma {:induction false} NothingBehind(scanned: seq<Scanned>, i: nat, k: nat)
    requires i <= |scanned| && forall j :: 0 <= j < i ==> scanned[j].line < k
    ensures OnLine(scanned, i, k) == []
  {
    if i > 0 {
      NothingBehind(scanned, i - 1, k);
    }
  }
}
