/** Go strings and runes.

A Go string is a sequence of bytes. Here a byte is a `char` whose code is the byte's value, so that
string literals can be used as they are. Nothing below assumes that a `char` is below 256: a larger
one is treated as a byte that starts no UTF-8 sequence.
*/
module GoStrings {

  type byte = char

  /** `strings.Repeat(" ", n)`. */
  function Spaces(n: nat): (s: string)
    ensures |s| == n && forall i :: 0 <= i < n ==> s[i] == ' '
  {
    seq(n, _ => ' ')
  }

  /** `strings.Join(parts, sep)`. */
  function Join(parts: seq<string>, sep: string): string
  {
    if parts == [] then ""
    else if |parts| == 1 then parts[0]
    else parts[0] + sep + Join(parts[1..], sep)
  }

  /** `strings.Split(s, "\n")`: cuts at every newline, so there is always at least one part. */
  function SplitLines(s: string): (lines: seq<string>)
    ensures |lines| >= 1
    ensures forall k :: 0 <= k < |lines| ==> '\n' !in lines[k]
  {
    if s == "" then [""]
    else
      var rest := SplitLines(s[1..]);
      if s[0] == '\n' then [""] + rest else [[s[0]] + rest[0]] + rest[1..]
  }

  // ---- Substrings --------------------------------------------------------------------------

  predicate At(s: string, i: int, sub: string) {
    0 <= i && i + |sub| <= |s| && s[i..i + |sub|] == sub
  }

  /** `strings.Index`: where `sub` first occurs in `s`, or -1. */
  function Index(s: string, sub: string): (i: int)
    ensures i == -1 || At(s, i, sub)
    ensures forall j :: 0 <= j && (i == -1 || j < i) ==> !At(s, j, sub)
  {
    if |s| < |sub| then -1
    else if sub <= s then assert s[0..|sub|] == sub; 0
    else if s == "" then -1
    else
      var i := Index(s[1..], sub);
      IndexOfRest(s, sub, i);
      if i == -1 then -1 else i + 1
  }

  lemma IndexOfRest(s: string, sub: string, i: int)
    requires s != "" && !(sub <= s) && (i == -1 || At(s[1..], i, sub))
    requires forall j :: 0 <= j && (i == -1 || j < i) ==> !At(s[1..], j, sub)
    ensures i != -1 ==> At(s, i + 1, sub)
    ensures forall j :: 0 <= j && (i == -1 || j < i + 1) ==> !At(s, j, sub)
  {
    if i != -1 {
      assert s[1..][i..i + |sub|] == s[i + 1..i + 1 + |sub|];
    }
    forall j | 0 <= j && (i == -1 || j < i + 1)
      ensures !At(s, j, sub)
    {
      if j > 0 {
        assert !At(s[1..], j - 1, sub);
        assert j + |sub| <= |s| ==> s[1..][j - 1..j - 1 + |sub|] == s[j..j + |sub|];
      }
    }
  }

  /** The first occurrence is the only position with none in front of it. */
  lemma IndexIs(s: string, sub: string, i: nat)
    requires At(s, i, sub) && forall j :: 0 <= j < i ==> !At(s, j, sub)
    ensures Index(s, sub) == i
  {
    var k := Index(s, sub);
    assert k != -1;
  }

  // ---- Runes -------------------------------------------------------------------------------

  datatype Rune = Rune(code: nat, size: nat)

  const RUNE_ERROR := 0xFFFD

  predicate Continues(s: string, i: nat, lo: int, hi: int) {
    i < |s| && lo <= s[i] as int <= hi
  }

  /** The rune that `range s` yields first, and the bytes it takes. A byte that starts no
      well-formed UTF-8 sequence yields the error rune and takes one byte. */
  function DecodeRune(s: string): (r: Rune)
    requires s != ""
    ensures 1 <= r.size <= |s|
  {
    var b := s[0] as int;
    if b < 0x80 then Rune(b, 1)
    else if 0xC2 <= b <= 0xDF && Continues(s, 1, 0x80, 0xBF) then
      Rune((b - 0xC0) * 0x40 + (s[1] as int - 0x80), 2)
    else if 0xE0 <= b <= 0xEF
            && Continues(s, 1, if b == 0xE0 then 0xA0 else 0x80, if b == 0xED then 0x9F else 0xBF)
            && Continues(s, 2, 0x80, 0xBF) then
      Rune((b - 0xE0) * 0x1000 + (s[1] as int - 0x80) * 0x40 + (s[2] as int - 0x80), 3)
    else if 0xF0 <= b <= 0xF4
            && Continues(s, 1, if b == 0xF0 then 0x90 else 0x80, if b == 0xF4 then 0x8F else 0xBF)
            && Continues(s, 2, 0x80, 0xBF) && Continues(s, 3, 0x80, 0xBF) then
      Rune((b - 0xF0) * 0x40000 + (s[1] as int - 0x80) * 0x1000
           + (s[2] as int - 0x80) * 0x40 + (s[3] as int - 0x80), 4)
    else Rune(RUNE_ERROR, 1)
  }

  /** `unicode.IsSpace`. */
  predicate IsSpace(code: nat) {
    || 0x09 <= code <= 0x0D || code == 0x20 || code == 0x85 || code == 0xA0
    || code == 0x1680 || 0x2000 <= code <= 0x200A || code == 0x2028 || code == 0x2029
    || code == 0x202F || code == 0x205F || code == 0x3000
  }

  /** `len(strings.TrimSpace(s)) == 0`: every rune of `s` is white space. */
  predicate Blank(s: string)
    decreases |s|
  {
    s == "" || (var r := DecodeRune(s); IsSpace(r.code) && Blank(s[r.size..]))
  }

  predicate IsScalar(code: nat) {
    code < 0xD800 || 0xE000 <= code < 0x110000
  }

  /** The UTF-8 encoding of a Unicode scalar value. */
  function EncodeRune(code: nat): (s: string)
    requires IsScalar(code)
    ensures 1 <= |s| <= 4
  {
    if code < 0x80 then [code as char]
    else if code < 0x800 then [(0xC0 + code / 0x40) as char, (0x80 + code % 0x40) as char]
    else if code < 0x10000 then
      [(0xE0 + code / 0x1000) as char, (0x80 + code / 0x40 % 0x40) as char, (0x80 + code % 0x40) as char]
    else
      [(0xF0 + code / 0x40000) as char, (0x80 + code / 0x1000 % 0x40) as char,
       (0x80 + code / 0x40 % 0x40) as char, (0x80 + code % 0x40) as char]
  }

  /** `code` in base 64: its last six bits and the rest. */
  lemma Sextet(code: nat) returns (high: nat, low: nat)
    ensures high == code / 0x40 && low == code % 0x40 < 0x40 && code == high * 0x40 + low
  {
    high, low := code / 0x40, code % 0x40;
  }

  lemma DecodeThree(code: nat, rest: string)
    requires IsScalar(code) && 0x800 <= code < 0x10000
    ensures DecodeRune(EncodeRune(code) + rest) == Rune(code, 3)
  {
    var middle, last := Sextet(code);
    var first, second := Sextet(middle);
    assert code / 0x1000 == first;
    var s := EncodeRune(code) + rest;
    assert s[0] as int == 0xE0 + first && s[1] as int == 0x80 + second && s[2] as int == 0x80 + last;
  }

  lemma DecodeFour(code: nat, rest: string)
    requires 0x10000 <= code < 0x110000
    ensures DecodeRune(EncodeRune(code) + rest) == Rune(code, 4)
  {
    var upper, last := Sextet(code);
    var top, third := Sextet(upper);
    var first, second := Sextet(top);
    assert code / 0x1000 == top && code / 0x40000 == first;
    var s := EncodeRune(code) + rest;
    assert s[0] as int == 0xF0 + first && s[1] as int == 0x80 + second;
    assert s[2] as int == 0x80 + third && s[3] as int == 0x80 + last;
  }

  /** Decoding reads back an encoded scalar value whatever follows it. */
  lemma DecodeEncoded(code: nat, rest: string)
    requires IsScalar(code)
    ensures DecodeRune(EncodeRune(code) + rest) == Rune(code, |EncodeRune(code)|)
  {
    if 0x10000 <= code {
      DecodeFour(code, rest);
    } else if 0x800 <= code {
      DecodeThree(code, rest);
    }
  }

  lemma {:induction false} LineThenRest(line: string, rest: string)
    requires '\n' !in line
    ensures SplitLines(line) == [line]
    ensures SplitLines(line + "\n" + rest) == [line] + SplitLines(rest)
  {
    var all := line + "\n" + rest;
    if line == "" {
      assert all == "\n" + rest;
    } else {
      LineThenRest(line[1..], rest);
      assert all[1..] == line[1..] + "\n" + rest && all[0] == line[0];
      assert [line[0]] + line[1..] == line;
    }
  }

  lemma {:induction false} JoinThenSplit(lines: seq<string>)
    requires lines != [] && forall k :: 0 <= k < |lines| ==> '\n' !in lines[k]
    ensures SplitLines(Join(lines, "\n")) == lines
  {
    if |lines| == 1 {
      LineThenRest(lines[0], "");
    } else {
      JoinThenSplit(lines[1..]);
      LineThenRest(lines[0], Join(lines[1..], "\n"));
    }
  }

  /** Base 64 digits: what is put together from them has them. */
  lemma FromSextets(high: nat, low: nat) returns (code: nat)
    requires low < 0x40
    ensures code == high * 0x40 + low && code / 0x40 == high && code % 0x40 == low
  {
    code := high * 0x40 + low;
  }

  lemma DecodedTwo(s: string)
    requires s != "" && DecodeRune(s).size == 2
    ensures var r := DecodeRune(s); IsScalar(r.code) && |EncodeRune(r.code)| == 2 && EncodeRune(r.code) <= s
  {
    var code := FromSextets(s[0] as int - 0xC0, s[1] as int - 0x80);
  }

  lemma DecodedThree(s: string)
    requires s != "" && DecodeRune(s).size == 3
    ensures var r := DecodeRune(s); IsScalar(r.code) && |EncodeRune(r.code)| == 3 && EncodeRune(r.code) <= s
  {
    var upper := FromSextets(s[0] as int - 0xE0, s[1] as int - 0x80);
    var code := FromSextets(upper, s[2] as int - 0x80);
    assert code == DecodeRune(s).code && code / 0x1000 == upper / 0x40;
  }

  lemma DecodedFour(s: string)
    requires s != "" && DecodeRune(s).size == 4
    ensures var r := DecodeRune(s); IsScalar(r.code) && |EncodeRune(r.code)| == 4 && EncodeRune(r.code) <= s
  {
    var top := FromSextets(s[0] as int - 0xF0, s[1] as int - 0x80);
    var upper := FromSextets(top, s[2] as int - 0x80);
    var code := FromSextets(upper, s[3] as int - 0x80);
    assert code == DecodeRune(s).code && code / 0x1000 == upper / 0x40 && code / 0x40000 == top / 0x40;
  }

  /** What is decoded is the scalar value whose encoding the string starts with. If it starts with none,
      one byte is taken for the error rune. */
  lemma DecodeIs(s: string)
    requires s != ""
    ensures var r := DecodeRune(s);
            || (IsScalar(r.code) && EncodeRune(r.code) <= s && r.size == |EncodeRune(r.code)|)
            || (r == Rune(0xFFFD, 1) && forall code :: IsScalar(code) ==> !(EncodeRune(code) <= s))
  {
    var r := DecodeRune(s);
    if r.size == 2 {
      DecodedTwo(s);
    } else if r.size == 3 {
      DecodedThree(s);
    } else if r.size == 4 {
      DecodedFour(s);
    } else if r.code >= 0x80 {
      forall code | IsScalar(code)
        ensures !(EncodeRune(code) <= s)
      {
        if EncodeRune(code) <= s {
          DecodePrefix(s, code);
          assert false;
        }
      }
    }
  }

  lemma DecodePrefix(s: string, code: nat)
    requires s != "" && IsScalar(code) && EncodeRune(code) <= s
    ensures DecodeRune(s) == Rune(code, |EncodeRune(code)|)
  {
    DecodeEncoded(code, s[|EncodeRune(code)|..]);
    assert s == EncodeRune(code) + s[|EncodeRune(code)|..];
    hide DecodeRune, EncodeRune;
  }

  /** The white space characters of Unicode. */
  lemma SpacesAre(code: nat)
    ensures IsSpace(code) <==>
            code in {0x9, 0xA, 0xB, 0xC, 0xD, 0x20, 0x85, 0xA0, 0x1680, 0x2000, 0x2001, 0x2002, 0x2003, 0x2004, 0x2005,
                     0x2006, 0x2007, 0x2008, 0x2009, 0x200A, 0x2028, 0x2029, 0x202F, 0x205F, 0x3000}
  {
  }

  // ---- Trimming ----------------------------------------------------------------------------

  /** Where the search for the first byte of the last rune stops: at a byte that continues no rune,
      or in front of `limit`. */
  function LastStart(s: string, i: int, limit: nat): (start: int)
    requires -1 <= i < |s| && limit <= i + 1
    ensures -1 <= start <= i
    decreases i + 1
  {
    if i < limit || !Continues(s, i, 0x80, 0xBF) then i else LastStart(s, i - 1, limit)
  }

  /** `utf8.DecodeLastRuneInString`. */
  function DecodeLastRune(s: string): (r: Rune)
    requires s != ""
    ensures 1 <= r.size <= |s|
    ensures r.code != RUNE_ERROR ==> DecodeRune(s[|s| - r.size..]) == r
  {
    var end := |s|;
    var last := s[end - 1] as int;
    if last < 0x80 then Rune(last, 1)
    else
      var found := LastStart(s, end - 2, if end > 4 then end - 4 else 0);
      var start := if found < 0 then 0 else found;
      var r := DecodeRune(s[start..]);
      if start + r.size == end then r else Rune(RUNE_ERROR, 1)
  }

  /** How many bytes of white space `s` starts with. */
  function Indentation(s: string): (n: nat)
    ensures n <= |s|
    decreases |s|
  {
    if s == "" then 0
    else
      var r := DecodeRune(s);
      if IsSpace(r.code) then r.size + Indentation(s[r.size..]) else 0
  }

  function TrimRight(s: string): (t: string)
    ensures t <= s
    decreases |s|
  {
    if s == "" then ""
    else
      var r := DecodeLastRune(s);
      if IsSpace(r.code) then TrimRight(s[..|s| - r.size]) else s
  }

  /** `strings.TrimSpace`. */
  function TrimSpace(s: string): string {
    TrimRight(s[Indentation(s)..])
  }

  /** A rune that is decoded from the front of a string is decoded from it whatever follows. */
  lemma RuneStays(s: string, n: nat)
    requires 0 < n <= |s| && DecodeRune(s[..n]).code != RUNE_ERROR
    ensures DecodeRune(s) == DecodeRune(s[..n])
  {
  }

  /** White space is made of bytes that are white space or not ASCII. */
  lemma SpaceHasNoVisible(s: string, i: nat)
    requires s != "" && IsSpace(DecodeRune(s).code) && i < DecodeRune(s).size
    ensures s[i] as int <= 0x20 || s[i] as int >= 0x80
  {
  }

  lemma {:induction false} TrimRightKeepsStart(s: string)
    requires s != "" && !IsSpace(DecodeRune(s).code)
    ensures TrimRight(s) != ""
  {
    var r := DecodeLastRune(s);
    if IsSpace(r.code) {
      var n := |s| - r.size;
      assert s[0..] == s;
      if IsSpace(DecodeRune(s[..n]).code) {
        RuneStays(s, n);
        assert false;
      }
      TrimRightKeepsStart(s[..n]);
    }
  }

  lemma {:induction false} IndentationStops(s: string)
    ensures var n := Indentation(s); n < |s| ==> !IsSpace(DecodeRune(s[n..]).code)
    ensures Blank(s) <==> Indentation(s) == |s|
    decreases |s|
  {
    if s != "" {
      var r := DecodeRune(s);
      if IsSpace(r.code) {
        IndentationStops(s[r.size..]);
        assert s[Indentation(s)..] == s[r.size..][Indentation(s[r.size..])..];
      } else {
        assert s[0..] == s;
      }
    }
  }

  /** Trimming from the left and from the right agree on which strings are blank, even if they cut a
      malformed string into different runes. */
  lemma BlankIffTrimmedAway(s: string)
    ensures Blank(s) <==> TrimSpace(s) == ""
  {
    var n := Indentation(s);
    IndentationStops(s);
    if n < |s| {
      TrimRightKeepsStart(s[n..]);
    }
  }

  /** A rune that ends within the first `n` bytes is decoded from them alone. */
  lemma RuneFits(s: string, n: nat)
    requires 0 < n <= |s| && DecodeRune(s).code != RUNE_ERROR && DecodeRune(s).size <= n
    ensures DecodeRune(s[..n]) == DecodeRune(s)
  {
  }

  /** A newline is not part of a longer rune. */
  lemma NewlineEndsRune(s: string, n: nat)
    requires 0 < n < |s| && s[n] == '\n'
    ensures DecodeRune(s).size <= n
  {
  }

  /** Text is blank exactly if it is so in front of a newline and behind it. */
  lemma {:induction false} BlankAroundNewline(a: string, b: string)
    ensures Blank(a + "\n" + b) <==> Blank(a) && Blank(b)
    decreases |a|
  {
    var s := a + "\n" + b;
    if a == "" {
      assert s == "\n" + b && s[1..] == b;
    } else {
      assert s[..|a|] == a && s[|a|] == '\n';
      NewlineEndsRune(s, |a|);
      var r := DecodeRune(s);
      if IsSpace(r.code) {
        RuneFits(s, |a|);
      } else if IsSpace(DecodeRune(a).code) {
        RuneStays(s, |a|);
      }
      if r.size <= |a| {
        assert s[r.size..] == a[r.size..] + "\n" + b;
        BlankAroundNewline(a[r.size..], b);
      }
    }
  }

  /** Joined lines are blank exactly if every line is. */
  lemma {:induction false} BlankJoin(lines: seq<string>)
    ensures Blank(Join(lines, "\n")) <==> forall i :: 0 <= i < |lines| ==> Blank(lines[i])
  {
    if |lines| > 1 {
      BlankJoin(lines[1..]);
      BlankAroundNewline(lines[0], Join(lines[1..], "\n"));
      assert forall i :: 1 <= i < |lines| ==> lines[i] == lines[1..][i - 1];
      hide Blank;
    }
  }

  predicate Visible(c: char) {
    0x20 < c as int < 0x80
  }

  lemma {:induction false} IndentationHasNoVisible(s: string, i: nat)
    requires i < Indentation(s)
    ensures !Visible(s[i])
    decreases |s|
  {
    var r := DecodeRune(s);
    if i < r.size {
      SpaceHasNoVisible(s, i);
    } else {
      IndentationHasNoVisible(s[r.size..], i - r.size);
    }
  }

  /** Trimming leaves a visible character and everything in front of it. */
  lemma {:induction false} TrimRightKeepsVisible(s: string, i: nat)
    requires i < |s| && Visible(s[i])
    ensures i < |TrimRight(s)|
    decreases |s|
  {
    var r := DecodeLastRune(s);
    if IsSpace(r.code) {
      var n := |s| - r.size;
      if i >= n {
        SpaceHasNoVisible(s[n..], i - n);
        assert false;
      }
      TrimRightKeepsVisible(s[..n], i);
    }
  }

  // ---- What trimming leaves ------------------------------------------------------------------

  /** The last rune of a string that ends in the encoding of a scalar value is that value. */
  lemma LastRuneEncoded(front: string, code: nat)
    requires IsScalar(code)
    ensures DecodeLastRune(front + EncodeRune(code)) == Rune(code, |EncodeRune(code)|)
  {
    var e := EncodeRune(code);
    var s, n := front + e, |front|;
    DecodeEncoded(code, "");
    assert e + "" == e && s[n..] == e;
    if |e| > 1 {
      LastStartIs(s, |s| - 2, if |s| > 4 then |s| - 4 else 0, n);
    }
    hide EncodeRune, DecodeRune, LastStart;
  }

  lemma {:induction false} LastStartIs(s: string, i: int, limit: nat, n: nat)
    requires limit <= n <= i < |s| && !Continues(s, n, 0x80, 0xBF)
    requires forall j :: n < j <= i ==> Continues(s, j, 0x80, 0xBF)
    ensures LastStart(s, i, limit) == n
    decreases i
  {
    if i > n {
      LastStartIs(s, i - 1, limit, n);
    }
  }

  /** White space at the end is the encoding of a white space character. */
  lemma LastSpaceIsEncoded(s: string)
    requires s != "" && IsSpace(DecodeLastRune(s).code)
    ensures var r := DecodeLastRune(s);
            IsScalar(r.code) && s == s[..|s| - r.size] + EncodeRune(r.code) && |EncodeRune(r.code)| == r.size
  {
    var r := DecodeLastRune(s);
    var last := s[|s| - r.size..];
    DecodeIs(last);
    hide DecodeRune, EncodeRune, DecodeLastRune;
    assert DecodeRune(last) == r;
    assert last == EncodeRune(r.code);
  }

  /** The string starts with the encoding of a white space character. */
  ghost predicate StartsInSpace(s: string) {
    exists code :: IsSpace(code) && EncodeRune(code) <= s
  }

  ghost predicate EndsInSpace(s: string) {
    exists code :: IsSpace(code) && EndsIn(s, EncodeRune(code))
  }

  predicate EndsIn(s: string, end: string) {
    |end| <= |s| && s[|s| - |end|..] == end
  }

  lemma StartsInSpaceIff(s: string)
    ensures StartsInSpace(s) <==> s != "" && IsSpace(DecodeRune(s).code)
  {
    if code :| IsSpace(code) && EncodeRune(code) <= s {
      DecodePrefix(s, code);
    }
    if s != "" && IsSpace(DecodeRune(s).code) {
      DecodeIs(s);
      assert EncodeRune(DecodeRune(s).code) <= s;
    }
    hide DecodeRune, EncodeRune;
  }

  lemma EndsInSpaceIff(s: string)
    ensures EndsInSpace(s) <==> s != "" && IsSpace(DecodeLastRune(s).code)
  {
    hide DecodeLastRune, EncodeRune;
    if code :| IsSpace(code) && EndsIn(s, EncodeRune(code)) {
      var front := s[..|s| - |EncodeRune(code)|];
      LastRuneEncoded(front, code);
      assert s == front + EncodeRune(code);
    }
    if s != "" && IsSpace(DecodeLastRune(s).code) {
      LastSpaceIsEncoded(s);
      assert EndsIn(s, EncodeRune(DecodeLastRune(s).code));
    }
  }

  lemma {:induction false} BlankAppend(s: string, code: nat)
    requires Blank(s) && IsSpace(code)
    ensures Blank(s + EncodeRune(code))
    decreases |s|
  {
    var e := EncodeRune(code);
    var all := s + e;
    if s == "" {
      DecodeEncoded(code, "");
      assert e + "" == e == all && all[|e|..] == "";
    } else {
      var r := DecodeRune(s);
      assert all[..|s|] == s;
      RuneStays(all, |s|);
      BlankAppend(s[r.size..], code);
      assert all[r.size..] == s[r.size..] + e;
    }
    hide EncodeRune, DecodeRune;
  }

  lemma {:induction false} TrimRightIs(s: string) returns (behind: string)
    ensures s == TrimRight(s) + behind && Blank(behind) && !EndsInSpace(TrimRight(s))
    decreases |s|
  {
    hide EncodeRune, DecodeRune, DecodeLastRune, EndsInSpace, Blank, IsSpace;
    EndsInSpaceIff(s);
    if s != "" && IsSpace(DecodeLastRune(s).code) {
      var r := DecodeLastRune(s);
      LastSpaceIsEncoded(s);
      var rest := s[..|s| - r.size];
      var before := TrimRightIs(rest);
      BlankAppend(before, r.code);
      behind := before + EncodeRune(r.code);
      assert TrimRight(s) == TrimRight(rest);
      assert TrimRight(rest) + before + EncodeRune(r.code) == TrimRight(rest) + behind;
    } else {
      behind := "";
      NothingIsBlank();
    }
  }

  lemma NothingIsBlank()
    ensures Blank("")
  {
  }

  lemma PrefixStarts(t: string, s: string)
    requires t <= s && StartsInSpace(t)
    ensures StartsInSpace(s)
  {
    hide EncodeRune;
    var code :| IsSpace(code) && EncodeRune(code) <= t;
    assert EncodeRune(code) <= s;
  }

  lemma {:induction false} IndentationIsBlank(s: string)
    ensures Blank(s[..Indentation(s)])
    decreases |s|
  {
    if s != "" && IsSpace(DecodeRune(s).code) {
      var r, n := DecodeRune(s), Indentation(s);
      IndentationIsBlank(s[r.size..]);
      RuneFits(s, n);
      assert s[..n][r.size..] == s[r.size..][..n - r.size];
    }
    hide DecodeRune, IsSpace;
  }

  /** Trimming takes away white space at both ends and nothing else, and leaves none there. */
  lemma TrimSpaceIs(s: string) returns (front: string, behind: string)
    ensures var t := TrimSpace(s);
            && s == front + t + behind && Blank(front) && Blank(behind)
            && !StartsInSpace(t) && !EndsInSpace(t)
  {
    hide DecodeRune, StartsInSpace, EndsInSpace, IsSpace, Blank, Indentation, TrimRight;
    var n := Indentation(s);
    front := s[..n];
    IndentationIsBlank(s);
    IndentationStops(s);
    behind := TrimRightIs(s[n..]);
    StartsInSpaceIff(s[n..]);
    if StartsInSpace(TrimSpace(s)) {
      PrefixStarts(TrimSpace(s), s[n..]);
    }
    assert s == front + s[n..];
  }
}
