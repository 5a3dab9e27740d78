/** The raw output of a code example, parsed into blobs. */
module Blobs {
  import opened GoStrings
  import opened Decimal
  import opened Wrappers

  /** The delimiters of markers and the prefixes of directives. */
  datatype Delimiters = Delimiters(open: string, close: string, line: string, show: string)

  /** What the parser relies on: the first byte of a close marker occurs in nothing else that belongs
      to a marker, two close markers do not overlap, and the prefixes are told apart. Nothing is
      asked of the open marker, which may overlap itself. */
  predicate Proper(m: Delimiters) {
    && m.open != "" && m.close != "" && m.line != "" && m.show != ""
    && m.close[0] !in m.open && m.close[0] !in m.line && m.close[0] !in m.show
    && !IsDigit(m.close[0]) && m.close[0] != '-'
    && m.line[0] != m.show[0]
    && forall k :: 0 < k < |m.close| ==> m.close[k..] != m.close[..|m.close| - k]
  }

  type Syntax = m: Delimiters | Proper(m) witness Delimiters("<", ">", "line", "show")

  /** The presentation API's own. */
  function Kite(): Syntax {
    var m := Delimiters("[[KITE[[", "]]KITE]]\n", "LINE ", "SHOW ");
    NoBorder(m.close);
    m
  }

  lemma NoBorder(close: string)
    requires close == "]]KITE]]\n"
    ensures forall k :: 0 < k < |close| ==> close[k..] != close[..|close| - k]
  {
    forall k | 0 < k < |close|
      ensures close[k..] != close[..|close| - k]
    {
      var a, b := close[k..], close[..|close| - k];
      assert a[|a| - 1] == '\n' && b[|b| - 1] == close[|close| - k - 1] != '\n';
    }
  }

  datatype Blob = LineBlob(line: int) | EmitBlob(content: string) | OutputBlob(content: string)

  datatype Result = Ok(blobs: seq<Blob>) | Err(directive: string)

  // ---- Parsing -------------------------------------------------------------------------------

  /** What a directive between markers stands for, if anything. */
  function Directive(m: Syntax, directive: string): Option<Blob> {
    if m.line <= directive then
      var line := Atoi(directive[|m.line|..]);
      if line.None? then None else Some(LineBlob(line.value))
    else if m.show <= directive then Some(EmitBlob(directive[|m.show|..]))
    else None
  }

  /** What is cut off the front of the string: all of it, or a part that leaves a rest. */
  datatype Piece = Last(blobs: seq<Blob>) | More(blobs: seq<Blob>, rest: string) | Bad(directive: string)

  lemma CloseIsBehindOpen(m: Syntax, s: string, open: nat, close: nat)
    requires At(s, open, m.open) && At(s[open..], close, m.close)
    ensures close >= |m.open| && close + |m.close| <= |s| - open
  {
    var t := s[open..];
    assert t[close..close + |m.close|][0] == t[close];
  }

  /** The output in front of the first marker, if there is any. */
  function Before(s: string, open: nat): seq<Blob>
    requires open <= |s|
  {
    if open > 0 then [OutputBlob(s[..open])] else []
  }

  predicate Bounds(m: Syntax, s: string, open: nat, close: nat) {
    |m.open| <= close && open + close + |m.close| <= |s|
  }

  /** Cuts off the marker at `open` that is closed `close` bytes further on, and what is in front. */
  function Cut(m: Syntax, s: string, open: nat, close: nat): (piece: Piece)
    requires Bounds(m, s, open, close)
    ensures piece.More? ==> |piece.rest| < |s|
  {
    var directive := s[open + |m.open|..open + close];
    var blob := Directive(m, directive);
    if blob.None? then Bad(directive)
    else More(Before(s, open) + [blob.value], s[open + close + |m.close|..])
  }

  /** Up to the first complete marker and with it; up to the end if there is none. A marker that is
      not closed is output, along with what is in front of it. */
  function FirstPiece(m: Syntax, s: string): (piece: Piece)
    requires s != ""
    ensures piece.More? ==> |piece.rest| < |s|
  {
    var open := Index(s, m.open);
    if open == -1 then Last([OutputBlob(s)])
    else
      var close := Index(s[open..], m.close);
      if close == -1 then Last(Before(s, open) + [OutputBlob(s)])
      else
        CloseIsBehindOpen(m, s, open, close);
        Cut(m, s, open, close)
  }

  /** `blobs` in front of what the rest gives, unless that fails. */
  function Prepend(blobs: seq<Blob>, rest: Result): Result {
    if rest.Ok? then Ok(blobs + rest.blobs) else rest
  }

  function Parse(m: Syntax, s: string): (r: Result)
    decreases |s|
  {
    if s == "" then Ok([])
    else
      match FirstPiece(m, s)
      case Last(blobs) => Ok(blobs)
      case Bad(directive) => Err(directive)
      case More(blobs, rest) => Prepend(blobs, Parse(m, rest))
  }

  /** The parser: cuts markers and output off the front of the string until nothing is left. */
  method ParseBlobs(m: Syntax, input: string) returns (result: Result)
    ensures result == Parse(m, input)
  {
    hide FirstPiece;
    var s := input;
    var blobs: seq<Blob> := [];
    while |s| > 0
      invariant Prepend(blobs, Parse(m, s)) == Parse(m, input)
      decreases |s|
    {
      var piece := CutFront(m, s);
      match piece {
        case Last(more) => return Ok(blobs + more);
        case Bad(directive) => return Err(directive);
        case More(more, rest) =>
          PrependTwice(blobs, more, Parse(m, rest));
          blobs, s := blobs + more, rest;
      }
    }
    assert blobs + [] == blobs;
    return Ok(blobs);
  }

  lemma PrependTwice(a: seq<Blob>, b: seq<Blob>, rest: Result)
    ensures Prepend(a, Prepend(b, rest)) == Prepend(a + b, rest)
  {
    if rest.Ok? {
      assert a + (b + rest.blobs) == a + b + rest.blobs;
    }
  }

  /** One round of the parser. */
  method CutFront(m: Syntax, s: string) returns (piece: Piece)
    requires s != ""
    ensures piece == FirstPiece(m, s)
  {
    hide Cut, Before;
    var blobs: seq<Blob> := [];
    var openPos := Index(s, m.open);
    if openPos == -1 {
      return Last([OutputBlob(s)]);
    }
    blobs := OutputBefore(s, openPos);
    var closePos := Index(s[openPos..], m.close);
    if closePos == -1 {
      return Last(blobs + [OutputBlob(s)]);
    }
    CloseIsBehindOpen(m, s, openPos, closePos);
    piece := CutMarker(m, s, openPos, closePos, blobs);
  }

  method OutputBefore(s: string, openPos: nat) returns (blobs: seq<Blob>)
    requires openPos <= |s|
    ensures blobs == Before(s, openPos)
  {
    blobs := [];
    if openPos > 0 {
      blobs := blobs + [OutputBlob(s[..openPos])];
    }
  }

  /** The part of the round that cuts the marker off. */
  method CutMarker(m: Syntax, s: string, openPos: nat, closePos: nat, before: seq<Blob>) returns (piece: Piece)
    requires Bounds(m, s, openPos, closePos) && before == Before(s, openPos)
    ensures piece == Cut(m, s, openPos, closePos)
  {
    hide Directive, Before;
    var directive := s[openPos + |m.open|..openPos + closePos];
    var blob := ReadDirective(m, directive);
    if blob.None? {
      return Bad(directive);
    }
    return More(before + [blob.value], s[openPos + closePos + |m.close|..]);
  }

  method ReadDirective(m: Syntax, directive: string) returns (blob: Option<Blob>)
    ensures blob == Directive(m, directive)
  {
    if m.line <= directive {
      var line := Atoi(directive[|m.line|..]);
      if line.None? {
        return None;
      }
      return Some(LineBlob(line.value));
    } else if m.show <= directive {
      return Some(EmitBlob(directive[|m.show|..]));
    } else {
      return None;
    }
  }

  // ---- Printing ------------------------------------------------------------------------------

  /** A marker around `directive`. */
  function Marker(m: Syntax, directive: string): string {
    m.open + directive + m.close
  }

  function PrintOne(m: Syntax, blob: Blob): string {
    match blob
    case LineBlob(line) => Marker(m, m.line + Itoa(line))
    case EmitBlob(content) => Marker(m, m.show + content)
    case OutputBlob(content) => content
  }

  function Print(m: Syntax, blobs: seq<Blob>): string {
    if blobs == [] then "" else PrintOne(m, blobs[0]) + Print(m, blobs[1..])
  }

  // ---- A marker at the front -----------------------------------------------------------------

  /** Two close markers never overlap. */
  lemma NoSelfOverlap(m: Syntax, s: string, j: nat, i: nat)
    requires At(s, i, m.close) && j < i < j + |m.close|
    ensures !At(s, j, m.close)
  {
    var k, n := i - j, |m.close|;
    if j + n <= |s| {
      assert s[j..j + n][k..] == s[i..j + n] == s[i..i + n][..n - k];
    }
  }

  lemma NoneInFront(m: Syntax, front: string, rest: string, j: nat)
    requires m.close[0] !in front && j < |front|
    ensures !At(front + rest, j, m.close)
  {
    var s := front + rest;
    assert s[j] == front[j] && front[j] in front;
    assert j + |m.close| <= |s| ==> s[j..j + |m.close|][0] == s[j];
  }

  lemma AtBehind(front: string, s: string, i: nat, sub: string)
    ensures At(front + s, |front| + i, sub) <==> At(s, i, sub)
  {
    if i + |sub| <= |s| {
      assert (front + s)[|front| + i..|front| + i + |sub|] == s[i..i + |sub|];
    }
  }

  lemma AtInFront(s: string, rest: string, i: nat, sub: string)
    requires i + |sub| <= |s|
    ensures At(s + rest, i, sub) <==> At(s, i, sub)
  {
    assert (s + rest)[i..i + |sub|] == s[i..i + |sub|];
  }

  lemma NotAt(s: string, sub: string, i: nat)
    requires Index(s, sub) == -1
    ensures !At(s, i, sub)
  {
  }

  lemma NoneInContent(m: Syntax, front: string, content: string, rest: string, j: nat)
    requires Index(content, m.close) == -1 && |front| <= j && j + |m.close| <= |front| + |content|
    ensures !At(front + (content + rest), j, m.close)
  {
    hide *;
    var i := j - |front|;
    NotAt(content, m.close, i);
    AtInFront(content, rest, i, m.close);
    AtBehind(front, content + rest, i, m.close);
  }

  lemma NoneBeforeClose(m: Syntax, front: string, content: string, rest: string, j: nat)
    requires m.close[0] !in front && Index(content, m.close) == -1 && j < |front| + |content|
    ensures !At(front + (content + (m.close + rest)), j, m.close)
  {
    hide *;
    if j < |front| {
      NoneInFront(m, front, content + (m.close + rest), j);
    } else if j + |m.close| <= |front| + |content| {
      NoneInContent(m, front, content, m.close + rest, j);
    } else {
      CloseAt(m, front, content, rest);
      NoSelfOverlap(m, front + (content + (m.close + rest)), j, |front| + |content|);
    }
  }

  lemma CloseAt(m: Syntax, front: string, content: string, rest: string)
    ensures At(front + (content + (m.close + rest)), |front| + |content|, m.close)
  {
    AtBehind(content, m.close + rest, 0, m.close);
    AtBehind(front, content + (m.close + rest), |content|, m.close);
    assert (m.close + rest)[0..|m.close|] == m.close;
  }

  /** The first close marker behind text that does not contain its first byte, and
      then text without one, is the one behind it. */
  lemma FirstClose(m: Syntax, front: string, content: string, rest: string)
    requires m.close[0] !in front && Index(content, m.close) == -1
    ensures Index(front + content + m.close + rest, m.close) == |front| + |content|
  {
    var s, i := front + (content + (m.close + rest)), |front| + |content|;
    forall j | 0 <= j < i
      ensures !At(s, j, m.close)
    {
      NoneBeforeClose(m, front, content, rest, j);
    }
    CloseAt(m, front, content, rest);
    IndexIs(s, m.close, i);
    Reassociate(front, content, m.close, rest);
    hide *;
  }

  lemma Reassociate(a: string, b: string, c: string, d: string)
    ensures a + b + c + d == a + (b + (c + d))
  {
  }

  /** A complete marker is cut off with the output in front of it. */
  lemma PieceUpTo(m: Syntax, s: string, open: nat, close: nat)
    requires s != "" && Index(s, m.open) == open && Index(s[open..], m.close) == close
    ensures Bounds(m, s, open, close) && FirstPiece(m, s) == Cut(m, s, open, close)
  {
    hide Index, Cut;
    CloseIsBehindOpen(m, s, open, close);
  }

  /** Where the parts of a marker are. */
  lemma MarkerParts(m: Syntax, directive: string, rest: string)
    ensures var s, close := Marker(m, directive) + rest, |m.open| + |directive|;
            && m.open <= s && close + |m.close| <= |s|
            && s[|m.open|..close] == directive && s[close + |m.close|..] == rest
  {
  }

  lemma CutAtFront(m: Syntax, s: string, close: nat, directive: string, rest: string)
    requires Bounds(m, s, 0, close) && s[|m.open|..close] == directive && s[close + |m.close|..] == rest
    ensures Cut(m, s, 0, close) ==
            var blob := Directive(m, directive);
            if blob.None? then Bad(directive) else More([blob.value], rest)
  {
    hide Directive;
    var blob := Directive(m, directive);
    if blob.Some? {
      assert Before(s, 0) + [blob.value] == [blob.value];
    }
  }

  /** A marker that is closed where it should be is cut off as what it stands for. */
  lemma MarkerPiece(m: Syntax, directive: string, rest: string)
    requires Index(Marker(m, directive) + rest, m.close) == |m.open| + |directive|
    ensures FirstPiece(m, Marker(m, directive) + rest) ==
            var blob := Directive(m, directive);
            if blob.None? then Bad(directive) else More([blob.value], rest)
  {
    var s, close := Marker(m, directive) + rest, |m.open| + |directive|;
    MarkerParts(m, directive, rest);
    StartsAtZero(m, s);
    assert s[0..] == s;
    hide FirstPiece, Index, Directive, Marker, Cut;
    PieceUpTo(m, s, 0, close);
    CutAtFront(m, s, close, directive, rest);
  }

  lemma LineDirective(m: Syntax, line: int)
    ensures Directive(m, m.line + Itoa(line)) == if IsInt(line) then Some(LineBlob(line)) else None
  {
    var directive := m.line + Itoa(line);
    assert directive[|m.line|..] == Itoa(line) && directive[..|m.line|] == m.line;
    AtoiReadsItoa(line);
  }

  lemma ShowDirective(m: Syntax, content: string)
    ensures Directive(m, m.show + content) == Some(EmitBlob(content))
  {
    var directive := m.show + content;
    assert directive[|m.show|..] == content && directive[..|m.show|] == m.show ;
  }

  /** A marker around text without the first byte of a close marker and then text without one. */
  lemma PlainMarkerPiece(m: Syntax, plain: string, content: string, rest: string)
    requires m.close[0] !in plain && Index(content, m.close) == -1
    ensures FirstPiece(m, Marker(m, plain + content) + rest) ==
            var blob := Directive(m, plain + content);
            if blob.None? then Bad(plain + content) else More([blob.value], rest)
  {
    assert m.close[0] !in m.open + plain;
    hide Index, FirstPiece, Directive;
    FirstClose(m, m.open + plain, content, rest);
    AroundPlain(m.open, plain, content, m.close, rest);
    MarkerPiece(m, plain + content, rest);
  }

  lemma AroundPlain(open: string, plain: string, content: string, close: string, rest: string)
    ensures open + plain + content + close + rest == open + (plain + content) + close + rest
  {
    assert open + plain + content == open + (plain + content);
  }

  /** A line marker is read back exactly if its number fits. */
  lemma LinePiece(m: Syntax, line: int, rest: string)
    ensures var piece := FirstPiece(m, PrintOne(m, LineBlob(line)) + rest);
            if IsInt(line) then piece == More([LineBlob(line)], rest) else piece.Bad?
  {
    ItoaIsPlain(line);
    assert m.close[0] !in m.line + Itoa(line);
    hide FirstPiece, Directive;
    PlainMarkerPiece(m, m.line + Itoa(line), "", rest);
    assert m.line + Itoa(line) + "" == m.line + Itoa(line);
    LineDirective(m, line);
  }

  /** An emit marker is read back if there is no close marker in it. */
  lemma EmitPiece(m: Syntax, content: string, rest: string)
    requires Index(content, m.close) == -1
    ensures FirstPiece(m, PrintOne(m, EmitBlob(content)) + rest) == More([EmitBlob(content)], rest)
  {
    hide FirstPiece, Directive, Index;
    PlainMarkerPiece(m, m.show, content, rest);
    ShowDirective(m, content);
  }

  /** A close marker in an emit marker cuts it short. */
  lemma EmitPieceCut(m: Syntax, content: string, rest: string) returns (kept: string, tail: string)
    requires Index(content, m.close) != -1
    ensures FirstPiece(m, PrintOne(m, EmitBlob(content)) + rest) == More([EmitBlob(kept)], tail) && kept != content
  {
    var cut := Index(content, m.close);
    kept := content[..cut];
    var behind := content[cut + |m.close|..];
    tail := behind + m.close + rest;
    NoneBeforeFirst(content, m.close);
    assert content == kept + m.close + behind;
    hide Index, FirstPiece;
    Regroup(m.open, m.show, kept, m.close, behind, rest);
    EmitPiece(m, kept, tail);
  }

  lemma Regroup(open: string, show: string, kept: string, close: string, behind: string, rest: string)
    ensures open + (show + (kept + close + behind)) + close + rest
         == open + (show + kept) + close + (behind + close + rest)
  {
    assert open + (show + (kept + close + behind)) == open + (show + kept) + close + behind;
  }

  lemma NoneBeforeFirst(s: string, sub: string)
    requires Index(s, sub) != -1 && sub != ""
    ensures Index(s[..Index(s, sub)], sub) == -1
  {
    var kept := s[..Index(s, sub)];
    forall j | 0 <= j
      ensures !At(kept, j, sub)
    {
      if j + |sub| <= |kept| {
        assert !At(s, j, sub);
        assert s[j..j + |sub|] == kept[j..j + |sub|];
      }
    }
  }

  // ---- Output at the front -------------------------------------------------------------------

  /** Whether the first open marker is the one behind the output depends on that marker alone. */
  lemma FirstOpen(m: Syntax, content: string, rest: string)
    requires m.open <= rest
    ensures Index(content + rest, m.open) == |content| <==> Index(content + m.open, m.open) == |content|
  {
    var s, t := content + rest, content + m.open;
    assert s[|content|..|content| + |m.open|] == m.open == t[|content|..|content| + |m.open|];
    forall j | 0 <= j < |content|
      ensures At(s, j, m.open) <==> At(t, j, m.open)
    {
      assert s[j..j + |m.open|] == t[j..j + |m.open|];
    }
    if Index(s, m.open) == |content| {
      IndexIs(t, m.open, |content|);
    } else if Index(t, m.open) == |content| {
      IndexIs(s, m.open, |content|);
    }
  }

  /** `s` starts with a marker that is closed. */
  predicate StartsComplete(m: Syntax, s: string) {
    m.open <= s && Index(s, m.close) != -1
  }

  /** With a complete marker in front, what is cut off is a single blob that is not output. */
  lemma CompletePiece(m: Syntax, s: string)
    requires StartsComplete(m, s)
    ensures var piece := FirstPiece(m, s);
            !piece.Last? && (piece.More? ==> |piece.blobs| == 1 && !piece.blobs[0].OutputBlob?)
  {
    assert s[0..] == s;
    StartsAtZero(m, s);
  }

  lemma Shift(front: string, rest: string, i: nat, j: nat)
    requires i <= j <= |rest|
    ensures (front + rest)[|front| + i..|front| + j] == rest[i..j]
    ensures j == |rest| ==> (front + rest)[|front| + i..] == rest[i..]
  {
  }

  /** Output in front of a complete marker is cut off with it, if the first open marker is that one. */
  lemma OutputPiece(m: Syntax, content: string, rest: string)
    requires content != "" && Index(content + rest, m.open) == |content| && StartsComplete(m, rest)
    ensures var piece, piece' := FirstPiece(m, content + rest), FirstPiece(m, rest);
            piece == if piece'.More? then More([OutputBlob(content)] + piece'.blobs, piece'.rest) else piece'
  {
    var s, n, close := content + rest, |content|, Index(rest, m.close);
    assert s[n..] == rest && rest[0..] == rest;
    StartsAtZero(m, rest);
    hide FirstPiece, Index, Cut;
    PieceUpTo(m, rest, 0, close);
    PieceUpTo(m, s, n, close);
    CutBehind(m, content, rest, close);
  }

  /** The marker at the start of `rest`, cut off with `content` in front of it. */
  lemma CutBehind(m: Syntax, content: string, rest: string, close: nat)
    requires content != "" && Bounds(m, rest, 0, close)
    ensures Bounds(m, content + rest, |content|, close)
    ensures var piece, piece' := Cut(m, content + rest, |content|, close), Cut(m, rest, 0, close);
            piece == if piece'.More? then More([OutputBlob(content)] + piece'.blobs, piece'.rest) else piece'
  {
    hide Directive;
    var s, n := content + rest, |content|;
    assert s[..n] == content;
    Shift(content, rest, |m.open|, close);
    Shift(content, rest, close + |m.close|, |rest|);
    assert n + (close + |m.close|) == n + close + |m.close|;
    var blob := Directive(m, rest[|m.open|..close]);
    if blob.Some? {
      assert Before(rest, 0) + [blob.value] == [blob.value];
    }
  }

  lemma StartsAtZero(m: Syntax, s: string)
    requires m.open <= s
    ensures Index(s, m.open) == 0
  {
    assert s[0..|m.open|] == m.open;
    IndexIs(s, m.open, 0);
  }

  // ---- What any text is parsed as ------------------------------------------------------------

  /** Text without an open marker is output, if there is any. Text whose first open marker is not closed is
      output as well, and what is in front of that marker comes once more on its own. */
  lemma ParseWithoutMarker(m: Syntax, s: string)
    requires Index(s, m.open) == -1 || Index(s[Index(s, m.open)..], m.close) == -1
    ensures Parse(m, s) == if s == "" then Ok([])
                           else if Index(s, m.open) <= 0 then Ok([OutputBlob(s)])
                           else Ok([OutputBlob(s[..Index(s, m.open)]), OutputBlob(s)])
  {
    hide Index;
    assert [] + [OutputBlob(s)] == [OutputBlob(s)];
  }

  /** The first open marker behind the text is the one that comes there. */
  predicate OpensBehind(m: Syntax, content: string) {
    Index(content + m.open, m.open) == |content|
  }

  /** What a directive gives together with the output in front of it. */
  function WithOutput(content: string, blob: Blob): seq<Blob> {
    if content == "" then [blob] else [OutputBlob(content), blob]
  }

  /** Text up to the first open marker is output. The text of the marker goes up to the first close marker:
      it is a line with a number, or something to show, and what follows is parsed on its own. Anything else
      between the markers is an error, and so is an error in what follows. */
  lemma ParseMarker(m: Syntax, content: string, directive: string, rest: string)
    requires OpensBehind(m, content) && Index(directive, m.close) == -1
    ensures var parsed, behind := Parse(m, content + (m.open + directive + m.close + rest)), Parse(m, rest);
            if m.line <= directive && Atoi(directive[|m.line|..]).Some? then
              var line := LineBlob(Atoi(directive[|m.line|..]).value);
              parsed == if behind.Ok? then Ok(WithOutput(content, line) + behind.blobs) else behind
            else if m.show <= directive then
              var shown := EmitBlob(directive[|m.show|..]);
              parsed == if behind.Ok? then Ok(WithOutput(content, shown) + behind.blobs) else behind
            else parsed == Err(directive)
  {
    PrefixesDiffer(m, directive);
    hide Index, Parse, Print;
    if content == "" {
      ParseFront(m, directive, rest);
      assert content + (m.open + directive + m.close + rest) == m.open + directive + m.close + rest;
    } else {
      ParseBehind(m, content, directive, rest);
    }
  }

  lemma PrefixesDiffer(m: Syntax, directive: string)
    ensures !(m.line <= directive && m.show <= directive)
  {
    if m.line <= directive {
      assert m.line[0] == directive[0];
    }
    if m.show <= directive {
      assert m.show[0] == directive[0];
    }
  }

  lemma ParseFront(m: Syntax, directive: string, rest: string)
    requires Index(directive, m.close) == -1
    ensures Parse(m, Marker(m, directive) + rest) ==
            var blob := Directive(m, directive);
            if blob.None? then Err(directive) else Prepend([blob.value], Parse(m, rest))
  {
    PlainMarkerPiece(m, "", directive, rest);
    assert "" + directive == directive;
    hide FirstPiece, Directive, Index;
  }

  lemma ParseBehind(m: Syntax, content: string, directive: string, rest: string)
    requires content != "" && OpensBehind(m, content) && Index(directive, m.close) == -1
    ensures Parse(m, content + (Marker(m, directive) + rest)) ==
            var blob := Directive(m, directive);
            if blob.None? then Err(directive) else Prepend([OutputBlob(content), blob.value], Parse(m, rest))
  {
    var marker := Marker(m, directive) + rest;
    ParseFront(m, directive, rest);
    MarkerIsComplete(m, directive, rest);
    FirstOpen(m, content, marker);
    hide Index, FirstPiece, Parse, Directive, Marker;
    ParseOutput(m, content, marker);
    var blob := Directive(m, directive);
    if blob.Some? {
      PrependTwice([OutputBlob(content)], [blob.value], Parse(m, rest));
      assert [OutputBlob(content)] + [blob.value] == [OutputBlob(content), blob.value];
    }
  }

  lemma MarkerIsComplete(m: Syntax, directive: string, rest: string)
    ensures StartsComplete(m, Marker(m, directive) + rest)
  {
    var s, i := Marker(m, directive) + rest, |m.open| + |directive|;
    assert s[..|m.open|] == m.open && s[i..i + |m.close|] == m.close;
    assert At(s, i, m.close);
  }

  /** The markers of the presentation API. */
  lemma KiteMarkers(line: int, content: string)
    ensures Print(Kite(), [LineBlob(line)]) == "[[KITE[[" + ("LINE " + Itoa(line)) + "]]KITE]]\n"
    ensures Print(Kite(), [EmitBlob(content)]) == "[[KITE[[" + ("SHOW " + content) + "]]KITE]]\n"
  {
    PrintSingle(Kite(), LineBlob(line));
    PrintSingle(Kite(), EmitBlob(content));
    hide Print, Itoa;
  }

  lemma PrintSingle(m: Syntax, blob: Blob)
    ensures Print(m, [blob]) == PrintOne(m, blob)
  {
    assert [blob][1..] == [] && PrintOne(m, blob) + "" == PrintOne(m, blob);
    hide PrintOne;
  }

  // ---- The round trip ------------------------------------------------------------------------

  /** Output that is read back at the end of the string: it has no open marker, or it starts with one
      and has no close marker. */
  predicate FinalOutputOk(m: Syntax, content: string) {
    Index(content, m.open) == -1 || (Index(content, m.open) == 0 && Index(content, m.close) == -1)
  }

  /** The conditions on printed blobs, one after the other: line numbers fit, emitted text has no
      close marker, output is not empty, is not followed by output, and the first open marker in it
      and the one behind it is the one behind it. */
  predicate Printable(m: Syntax, blobs: seq<Blob>) {
    blobs == [] ||
    match blobs[0]
    case LineBlob(line) => IsInt(line) && Printable(m, blobs[1..])
    case EmitBlob(content) => Index(content, m.close) == -1 && Printable(m, blobs[1..])
    case OutputBlob(content) =>
      && content != ""
      && if |blobs| == 1 then FinalOutputOk(m, content)
         else !blobs[1].OutputBlob? && Index(content + m.open, m.open) == |content| && Printable(m, blobs[1..])
  }

  /** A piece in front of something that is parsed. */
  lemma ParsePiece(m: Syntax, s: string, blob: Blob, rest: string)
    requires s != "" && FirstPiece(m, s) == More([blob], rest)
    ensures Parse(m, s) == Prepend([blob], Parse(m, rest))
  {
  }

  /** Output in front of something that starts with a complete marker. */
  lemma ParseOutput(m: Syntax, content: string, rest: string)
    requires content != "" && Index(content + rest, m.open) == |content| && StartsComplete(m, rest)
    ensures Parse(m, content + rest) == Prepend([OutputBlob(content)], Parse(m, rest))
  {
    OutputPiece(m, content, rest);
    CompletePiece(m, rest);
    hide FirstPiece, Index;
    var piece := FirstPiece(m, rest);
    if piece.More? {
      PrependTwice([OutputBlob(content)], piece.blobs, Parse(m, piece.rest));
    }
  }

  lemma MarkersAreComplete(m: Syntax, blobs: seq<Blob>)
    requires blobs != [] && !blobs[0].OutputBlob?
    ensures StartsComplete(m, Print(m, blobs))
  {
    var one, s := PrintOne(m, blobs[0]), Print(m, blobs);
    var i := |one| - |m.close|;
    assert one[..|m.open|] == m.open && s[..|m.open|] == one[..|m.open|];
    assert s[i..i + |m.close|] == one[i..] == m.close;
    assert At(s, i, m.close);
  }

  /** Printable blobs are read back as they are. */
  lemma {:induction false} PrintThenParse(m: Syntax, blobs: seq<Blob>)
    requires Printable(m, blobs)
    ensures Parse(m, Print(m, blobs)) == Ok(blobs)
  {
    if blobs != [] {
      hide Index, FirstPiece, Parse, FinalOutputOk;
      var rest := blobs[1..];
      assert blobs == [blobs[0]] + rest;
      match blobs[0] {
        case LineBlob(line) =>
          PrintThenParse(m, rest);
          LinePiece(m, line, Print(m, rest));
          ParsePiece(m, Print(m, blobs), blobs[0], Print(m, rest));
        case EmitBlob(content) =>
          PrintThenParse(m, rest);
          EmitPiece(m, content, Print(m, rest));
          ParsePiece(m, Print(m, blobs), blobs[0], Print(m, rest));
        case OutputBlob(content) =>
          if rest == [] {
            assert Print(m, blobs) == content + "" == content;
            ParseFinalOutput(m, content);
          } else {
            PrintThenParse(m, rest);
            MarkersAreComplete(m, rest);
            FirstOpen(m, content, Print(m, rest));
            ParseOutput(m, content, Print(m, rest));
          }
      }
    }
  }

  lemma ParseFinalOutput(m: Syntax, content: string)
    requires content != "" && FinalOutputOk(m, content)
    ensures Parse(m, content) == Ok([OutputBlob(content)])
  {
    assert content[0..] == content;
    assert [] + [OutputBlob(content)] == [OutputBlob(content)];
  }

  /** What parsing finds first: never empty output; and output in front of an open marker further on
      is all of what is in front of it. */
  lemma ParseStartsWith(m: Syntax, s: string)
    requires s != ""
    ensures var r, open := Parse(m, s), Index(s, m.open);
            r.Ok? ==>
              && r.blobs != []
              && (r.blobs[0].OutputBlob? ==> r.blobs[0].content != "")
              && (open > 0 ==> r.blobs[0] == OutputBlob(s[..open]))
              && (StartsComplete(m, s) ==> !r.blobs[0].OutputBlob?)
  {
    if StartsComplete(m, s) {
      CompletePiece(m, s);
      StartsAtZero(m, s);
    }
    var piece := FirstPiece(m, s);
    assert !piece.Bad? ==> piece.blobs != [];
  }

  /** What is asked of the first of the blobs. */
  predicate FirstOk(m: Syntax, first: Blob, rest: seq<Blob>) {
    match first
    case LineBlob(line) => IsInt(line)
    case EmitBlob(content) => Index(content, m.close) == -1
    case OutputBlob(content) =>
      && content != ""
      && if rest == [] then FinalOutputOk(m, content)
         else !rest[0].OutputBlob? && Index(content + m.open, m.open) == |content|
  }

  lemma PrintableFirst(m: Syntax, first: Blob, rest: seq<Blob>)
    requires FirstOk(m, first, rest) && Printable(m, rest)
    ensures Printable(m, [first] + rest)
  {
    assert ([first] + rest)[1..] == rest;
    hide Index, FinalOutputOk;
  }

  lemma PrintFirst(m: Syntax, first: Blob, rest: seq<Blob>)
    ensures Print(m, [first] + rest) == PrintOne(m, first) + Print(m, rest)
  {
    assert ([first] + rest)[1..] == rest;
    hide PrintOne;
  }

  lemma ParsedFirst(m: Syntax, first: Blob, rest: seq<Blob>)
    requires Parse(m, PrintOne(m, first) + Print(m, rest)) == Ok([first] + rest)
    ensures FirstOk(m, first, rest) && Parse(m, Print(m, rest)) == Ok(rest)
  {
    hide Index, Parse, FinalOutputOk;
    match first {
      case LineBlob(line) => ParsedLine(m, line, rest);
      case EmitBlob(content) => ParsedEmit(m, content, rest);
      case OutputBlob(content) =>
        ParsedOutput(m, content, rest);
        ParseNothing(m);
    }
  }

  lemma ParseNothing(m: Syntax)
    ensures Parse(m, Print(m, [])) == Ok([])
  {
  }

  /** Blobs that are read back as they are were printable. */
  lemma {:induction false} ParsedIsPrintable(m: Syntax, blobs: seq<Blob>)
    requires Parse(m, Print(m, blobs)) == Ok(blobs)
    ensures Printable(m, blobs)
    decreases |blobs|
  {
    if blobs != [] {
      var first, rest := blobs[0], blobs[1..];
      assert blobs == [first] + rest;
      hide *;
      PrintFirst(m, first, rest);
      ParsedFirst(m, first, rest);
      ParsedIsPrintable(m, rest);
      PrintableFirst(m, first, rest);
    }
  }

  lemma ParsedLine(m: Syntax, line: int, rest: seq<Blob>)
    requires Parse(m, PrintOne(m, LineBlob(line)) + Print(m, rest)) == Ok([LineBlob(line)] + rest)
    ensures IsInt(line) && Parse(m, Print(m, rest)) == Ok(rest)
  {
    LinePiece(m, line, Print(m, rest));
    hide Index, FirstPiece;
    if IsInt(line) {
      PrependOne(LineBlob(line), Parse(m, Print(m, rest)), rest);
    }
  }

  lemma ParsedEmit(m: Syntax, content: string, rest: seq<Blob>)
    requires Parse(m, PrintOne(m, EmitBlob(content)) + Print(m, rest)) == Ok([EmitBlob(content)] + rest)
    ensures Index(content, m.close) == -1 && Parse(m, Print(m, rest)) == Ok(rest)
  {
    hide Index, FirstPiece;
    if Index(content, m.close) == -1 {
      EmitPiece(m, content, Print(m, rest));
      PrependOne(EmitBlob(content), Parse(m, Print(m, rest)), rest);
    } else {
      ParseEmitCut(m, content, Print(m, rest), rest);
    }
  }

  lemma ParseEmitCut(m: Syntax, content: string, behind: string, rest: seq<Blob>)
    requires Index(content, m.close) != -1
    ensures Parse(m, PrintOne(m, EmitBlob(content)) + behind) != Ok([EmitBlob(content)] + rest)
  {
    hide Index, FirstPiece;
    var s := PrintOne(m, EmitBlob(content)) + behind;
    var kept, tail := EmitPieceCut(m, content, behind);
    ParsePiece(m, s, EmitBlob(kept), tail);
    var r := Parse(m, tail);
    assert r.Ok? ==> ([EmitBlob(kept)] + r.blobs)[0] == EmitBlob(kept);
    assert ([EmitBlob(content)] + rest)[0] == EmitBlob(content);
  }

  /** Output that is read back is not empty, and is at the end or directly in front of a complete
      marker that holds the first open marker. */
  lemma ParsedOutput(m: Syntax, content: string, rest: seq<Blob>)
    requires Parse(m, content + Print(m, rest)) == Ok([OutputBlob(content)] + rest)
    ensures content != ""
    ensures rest == [] ==> FinalOutputOk(m, content)
    ensures rest != [] ==>
              && !rest[0].OutputBlob? && Index(content + m.open, m.open) == |content|
              && Parse(m, Print(m, rest)) == Ok(rest)
  {
    var s, blobs := content + Print(m, rest), [OutputBlob(content)] + rest;
    assert s != "";
    ParseStartsWith(m, s);
    assert blobs[0] == OutputBlob(content) && blobs[1..] == rest;
    if Index(s, m.open) > 0 {
      ParsedOutputBeforeMarker(m, content, rest);
    } else {
      ParsedOutputAtEnd(m, content, rest);
    }
  }

  lemma ParsedOutputAtEnd(m: Syntax, content: string, rest: seq<Blob>)
    requires Parse(m, content + Print(m, rest)) == Ok([OutputBlob(content)] + rest)
    requires content != "" && Index(content + Print(m, rest), m.open) <= 0
    ensures rest == [] && FinalOutputOk(m, content)
  {
    var s := content + Print(m, rest);
    ParseStartsWith(m, s);
    assert s[0..] == s && [] + [OutputBlob(s)] == [OutputBlob(s)];
    assert ([OutputBlob(content)] + rest)[0] == OutputBlob(content);
    if Index(s, m.open) == 0 {
      assert m.open <= s by {
        assert s[0..|m.open|] == m.open;
      }
    }
    assert Parse(m, s) == Ok([OutputBlob(s)]);
    assert |[OutputBlob(content)] + rest| == 1;
    assert s == content;
  }

  lemma ParsedOutputBeforeMarker(m: Syntax, content: string, rest: seq<Blob>)
    requires Parse(m, content + Print(m, rest)) == Ok([OutputBlob(content)] + rest)
    requires content != "" && Index(content + Print(m, rest), m.open) > 0
    ensures rest != [] && !rest[0].OutputBlob? && Index(content + m.open, m.open) == |content|
    ensures Parse(m, Print(m, rest)) == Ok(rest)
  {
    var behind := Print(m, rest);
    OutputReachesMarker(m, content, behind, rest);
    FirstOpen(m, content, behind);
    if Index(behind, m.close) == -1 {
      UnclosedIsTooLong(m, content, rest);
      assert false;
    }
    hide FirstPiece, Index;
    ParseOutput(m, content, behind);
    PrependOne(OutputBlob(content), Parse(m, behind), rest);
    ParseStartsWith(m, behind);
  }

  lemma OutputReachesMarker(m: Syntax, content: string, behind: string, rest: seq<Blob>)
    requires Parse(m, content + behind) == Ok([OutputBlob(content)] + rest)
    requires content != "" && Index(content + behind, m.open) > 0
    ensures Index(content + behind, m.open) == |content| && m.open <= behind
  {
    var s := content + behind;
    var open := Index(s, m.open);
    ParseStartsWith(m, s);
    hide Parse, FirstPiece, Index;
    assert ([OutputBlob(content)] + rest)[0] == OutputBlob(content);
    assert |content| == open && s[open..] == behind;
    assert s[open..open + |m.open|] == behind[..|m.open|];
  }

  lemma PrependOne(blob: Blob, r: Result, rest: seq<Blob>)
    requires Prepend([blob], r) == Ok([blob] + rest)
    ensures r == Ok(rest)
  {
    assert ([blob] + r.blobs)[1..] == r.blobs && ([blob] + rest)[1..] == rest;
  }

  /** An open marker that is not closed makes the output in front of it come twice. */
  lemma UnclosedIsTooLong(m: Syntax, content: string, rest: seq<Blob>)
    requires content != "" && Index(content + Print(m, rest), m.open) == |content|
    requires Index(Print(m, rest), m.close) == -1
    ensures Parse(m, content + Print(m, rest)) != Ok([OutputBlob(content)] + rest)
  {
    var s, blobs := content + Print(m, rest), [OutputBlob(content)] + rest;
    assert s[|content|..] == Print(m, rest);
    var parsed := Before(s, |content|) + [OutputBlob(s)];
    assert Parse(m, s) == Ok(parsed) && parsed[1] == OutputBlob(s);
    assert blobs[1..] == rest;
    assert rest == [OutputBlob(s)] ==> Print(m, rest) == s + "";
    assert parsed[1..] == [OutputBlob(s)];
  }

  /** Printed blobs are read back as they are if and only if they meet the conditions. */
  lemma RoundTripIff(m: Syntax, blobs: seq<Blob>)
    ensures Parse(m, Print(m, blobs)) == Ok(blobs) <==> Printable(m, blobs)
  {
    if Printable(m, blobs) {
      PrintThenParse(m, blobs);
    }
    if Parse(m, Print(m, blobs)) == Ok(blobs) {
      ParsedIsPrintable(m, blobs);
    }
  }

  /** The open marker of the presentation API overlaps itself: output that ends in its first six bytes
      is cut short in front of any marker, which then is not complete any more. */
  lemma OverlapBreaksRoundTrip(content: string, blob: Blob, rest: seq<Blob>)
    ensures var blobs := [OutputBlob(content + "[[KITE"), blob] + rest;
            Parse(Kite(), Print(Kite(), blobs)) != Ok(blobs)
  {
    var output, open := content + "[[KITE", Kite().open;
    var s := output + open;
    assert s[|content|..|content| + |open|] == open;
    assert At(s, |content|, open);
    RoundTripIff(Kite(), [OutputBlob(output), blob] + rest);
  }
}
