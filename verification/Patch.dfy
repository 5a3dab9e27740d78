/** Edit scripts, the offset-based diffs made from them, and replaying diffs into a buffer. */
module Patch {
  import opened GoStrings
  import opened ByteText
  import GapBuffer

  // ---- Edit scripts and diffs ----------------------------------------------------------------

  /** One component of what `DiffMain` returns. */
  datatype Edit = Equal(text: seq<byte>) | Delete(text: seq<byte>) | Insert(text: seq<byte>)

  datatype DiffType = NONE | INSERT | DELETE

  /** A diff as it goes over the wire; the offset is an `int32`. */
  datatype Diff = Diff(kind: DiffType, text: seq<byte>, offset: int)

  function OldText(edits: seq<Edit>): seq<byte> {
    if edits == [] then []
    else (if edits[0].Insert? then [] else edits[0].text) + OldText(edits[1..])
  }

  function NewText(edits: seq<Edit>): seq<byte> {
    if edits == [] then []
    else (if edits[0].Delete? then [] else edits[0].text) + NewText(edits[1..])
  }

  /** All that is assumed of `DiffMain(text1, text2)`: its result spells both texts. */
  predicate Describes(edits: seq<Edit>, text1: seq<byte>, text2: seq<byte>) {
    OldText(edits) == text1 && NewText(edits) == text2
  }

  const INT32_LIMIT := 0x8000_0000

  /** Conversion to `int32` keeps the low 32 bits. */
  function Int32(v: int): (r: int)
    ensures -INT32_LIMIT <= r < INT32_LIMIT
    ensures -INT32_LIMIT <= v < INT32_LIMIT ==> r == v
  {
    (v + INT32_LIMIT) % 0x1_0000_0000 - INT32_LIMIT
  }

  /** So the result differs from the value by a multiple of 4 GiB. */
  lemma Int32Wraps(v: int)
    ensures (v - Int32(v)) % 0x1_0000_0000 == 0
  {
  }

  /** The diffs for the rest of a script, once `offset` bytes of the new text are in place. */
  function DiffsFrom(edits: seq<Edit>, offset: nat): seq<Diff> {
    if edits == [] then []
    else
      var text := edits[0].text;
      match edits[0]
      case Equal(_) => DiffsFrom(edits[1..], offset + |text|)
      case Delete(_) => [Diff(DELETE, text, Int32(offset))] + DiffsFrom(edits[1..], offset)
      case Insert(_) => [Diff(INSERT, text, Int32(offset))] + DiffsFrom(edits[1..], offset + |text|)
  }

  /** `Differ.Diff`: turns the script that `DiffMain` found into diffs. */
  method ComputeDiff(text1: seq<byte>, text2: seq<byte>, edits: seq<Edit>) returns (localDiffs: seq<Diff>)
    requires Describes(edits, text1, text2)
    ensures localDiffs == DiffsFrom(edits, 0)
  {
    hide DiffsFrom;
    localDiffs := [];
    var offset := 0;
    assert edits[0..] == edits;
    NoDiffs(|edits|, edits);
    for i := 0 to |edits|
      invariant offset >= 0
      invariant localDiffs + DiffsFrom(edits[i..], offset) == DiffsFrom(edits, 0)
    {
      NextDiff(edits, i, offset, localDiffs);
      var diff := edits[i];
      match diff {
        case Equal(text) =>
          offset := offset + |text|;
        case Delete(text) =>
          localDiffs := localDiffs + [Diff(DELETE, text, Int32(offset))];
        case Insert(text) =>
          localDiffs := localDiffs + [Diff(INSERT, text, Int32(offset))];
          offset := offset + |text|;
      }
    }
  }

  lemma NoDiffs(n: nat, edits: seq<Edit>)
    requires n == |edits|
    ensures forall offset: nat :: DiffsFrom(edits[n..], offset) == []
  {
  }

  /** The diff that edit `i` gives, if any, behind those of the edits in front of it. */
  lemma NextDiff(edits: seq<Edit>, i: nat, offset: nat, done: seq<Diff>)
    requires i < |edits|
    ensures var text, rest := edits[i].text, edits[i + 1..];
            done + DiffsFrom(edits[i..], offset)
            == match edits[i]
               case Equal(_) => done + DiffsFrom(rest, offset + |text|)
               case Delete(_) => done + [Diff(DELETE, text, Int32(offset))] + DiffsFrom(rest, offset)
               case Insert(_) => done + [Diff(INSERT, text, Int32(offset))] + DiffsFrom(rest, offset + |text|)
  {
    assert edits[i..][0] == edits[i] && edits[i..][1..] == edits[i + 1..];
  }

  // ---- Replaying diffs -----------------------------------------------------------------------

  /** An edit at a negative offset makes the patcher fail; nothing else does. */
  predicate Applicable(diffs: seq<Diff>) {
    forall i :: 0 <= i < |diffs| ==> CanApply(diffs[i])
  }

  predicate CanApply(diff: Diff) {
    diff.kind == NONE || diff.offset >= 0
  }

  /** A delete whose text is not what stands at its offset. */
  predicate Mismatches(text: seq<byte>, diff: Diff)
    requires CanApply(diff)
  {
    diff.kind == DELETE && Slice(text, diff.offset, |diff.text|) != diff.text
  }

  function AppliedOne(text: seq<byte>, diff: Diff): seq<byte>
    requires CanApply(diff)
  {
    match diff.kind
    case NONE => text
    case INSERT => Inserted(text, diff.offset, diff.text)
    case DELETE =>
      if Mismatches(text, diff) then Pad(text, diff.offset) else Deleted(text, diff.offset, |diff.text|)
  }

  function Applied(text: seq<byte>, diffs: seq<Diff>): seq<byte>
    requires Applicable(diffs)
    decreases |diffs|
  {
    if diffs == [] then text else Applied(AppliedOne(text, diffs[0]), diffs[1..])
  }

  // ---- What single diffs do --------------------------------------------------------------------

  /** `text` stands at the offset. */
  predicate StandsAt(contents: seq<byte>, offset: int, text: seq<byte>) {
    0 <= offset && offset + |text| <= |contents| && contents[offset..offset + |text|] == text
  }

  lemma OneDiff(text: seq<byte>, diff: Diff)
    requires CanApply(diff)
    ensures Applicable([diff]) && Applied(text, [diff]) == AppliedOne(text, diff)
  {
    assert [diff][1..] == [];
  }

  /** An insert puts its text in at the offset, behind zero bytes if that is past the end. */
  lemma InsertApplied(contents: seq<byte>, text: seq<byte>, offset: nat)
    ensures var diffs := [Diff(INSERT, text, offset)];
            && Applicable(diffs)
            && Applied(contents, diffs)
               == if offset <= |contents| then contents[..offset] + text + contents[offset..]
                  else contents + Zeros(offset - |contents|) + text
  {
    OneDiff(contents, Diff(INSERT, text, offset));
    InsertedIs(contents, offset, text);
    hide Inserted, Pad;
  }

  lemma StandsIff(contents: seq<byte>, text: seq<byte>, offset: nat)
    ensures StandsAt(contents, offset, text) ==> Slice(contents, offset, |text|) == text
    ensures offset <= |contents| && Slice(contents, offset, |text|) == text ==> StandsAt(contents, offset, text)
  {
    DeletedIs(contents, offset, |text|);
    hide Slice;
  }

  lemma PaddedIs(contents: seq<byte>, offset: nat)
    requires offset > |contents|
    ensures Pad(contents, offset) == contents + Zeros(offset - |contents|)
  {
  }

  lemma DeleteThatMatches(contents: seq<byte>, text: seq<byte>, offset: nat)
    requires StandsAt(contents, offset, text)
    ensures AppliedOne(contents, Diff(DELETE, text, offset)) == contents[..offset] + contents[offset + |text|..]
  {
    StandsIff(contents, text, offset);
    DeletedIs(contents, offset, |text|);
    hide Deleted, Slice, Pad;
  }

  lemma DeleteThatMisses(contents: seq<byte>, text: seq<byte>, offset: nat)
    requires offset <= |contents| && !StandsAt(contents, offset, text)
    ensures AppliedOne(contents, Diff(DELETE, text, offset)) == contents
  {
    StandsIff(contents, text, offset);
    hide Deleted, Slice;
  }

  lemma DeletePastEnd(contents: seq<byte>, text: seq<byte>, offset: nat)
    requires offset > |contents|
    ensures AppliedOne(contents, Diff(DELETE, text, offset)) == contents + Zeros(offset - |contents|)
  {
    PaddedIs(contents, offset);
    DeletedIs(contents, offset, |text|);
    hide Deleted, Slice, Pad;
  }

  /** A delete takes its text out if it stands at the offset. If it does not, the contents stay as they
      are, but for zero bytes up to an offset past the end. */
  lemma DeleteApplied(contents: seq<byte>, text: seq<byte>, offset: nat)
    ensures var diffs := [Diff(DELETE, text, offset)];
            && Applicable(diffs)
            && Applied(contents, diffs)
               == if StandsAt(contents, offset, text) then contents[..offset] + contents[offset + |text|..]
                  else if offset <= |contents| then contents
                  else contents + Zeros(offset - |contents|)
  {
    OneDiff(contents, Diff(DELETE, text, offset));
    if StandsAt(contents, offset, text) {
      DeleteThatMatches(contents, text, offset);
    } else if offset <= |contents| {
      DeleteThatMisses(contents, text, offset);
    } else {
      DeletePastEnd(contents, text, offset);
    }
    hide AppliedOne, Applied;
  }

  /** A diff of neither kind does nothing, whatever its offset. */
  lemma NoneApplied(contents: seq<byte>, text: seq<byte>, offset: int)
    ensures Applicable([Diff(NONE, text, offset)]) && Applied(contents, [Diff(NONE, text, offset)]) == contents
  {
    OneDiff(contents, Diff(NONE, text, offset));
  }

  /** Diffs are replayed one after the other. */
  lemma {:induction false} AppliedInOrder(contents: seq<byte>, a: seq<Diff>, b: seq<Diff>)
    requires Applicable(a) && Applicable(b)
    ensures Applicable(a + b) && Applied(contents, a + b) == Applied(Applied(contents, a), b)
    decreases |a|
  {
    if a == [] {
      assert a + b == b;
    } else {
      assert (a + b)[1..] == a[1..] + b;
      AppliedInOrder(AppliedOne(contents, a[0]), a[1..], b);
      hide AppliedOne, CanApply;
    }
  }

  /** Deletes of what does not stand where they look for it, within the contents. */
  predicate AllMiss(contents: seq<byte>, diffs: seq<Diff>) {
    forall i :: 0 <= i < |diffs| ==>
      diffs[i].kind == DELETE && 0 <= diffs[i].offset <= |contents| && !StandsAt(contents, diffs[i].offset, diffs[i].text)
  }

  /** Such deletes, however many, do nothing: a copy out of step is not torn apart by them. */
  lemma {:induction false} MissesDoNothing(contents: seq<byte>, diffs: seq<Diff>)
    requires AllMiss(contents, diffs)
    ensures Applicable(diffs) && Applied(contents, diffs) == contents
  {
    if diffs != [] {
      MissesDoNothing(contents, diffs[1..]);
      DeleteApplied(contents, diffs[0].text, diffs[0].offset);
      AppliedInOrder(contents, [diffs[0]], diffs[1..]);
      assert [Diff(DELETE, diffs[0].text, diffs[0].offset)] + diffs[1..] == diffs;
      hide Applied, StandsAt;
    }
  }

  // ---- Diffs that match --------------------------------------------------------------------------

  /** Every delete finds the text that it is to delete. */
  predicate AllMatch(text: seq<byte>, diffs: seq<Diff>)
    requires Applicable(diffs)
    decreases |diffs|
  {
    diffs == [] ||
    (!Mismatches(text, diffs[0]) && AllMatch(AppliedOne(text, diffs[0]), diffs[1..]))
  }

  /** What it means that the diffs take `text1` to `text2`. */
  predicate Takes(text1: seq<byte>, diffs: seq<Diff>, text2: seq<byte>) {
    Applicable(diffs) && AllMatch(text1, diffs) && Applied(text1, diffs) == text2
  }

  lemma TakesFirst(text: seq<byte>, diff: Diff, rest: seq<Diff>, result: seq<byte>)
    requires CanApply(diff) && !Mismatches(text, diff) && Takes(AppliedOne(text, diff), rest, result)
    ensures Takes(text, [diff] + rest, result)
  {
    hide AppliedOne, Mismatches;
    var diffs := [diff] + rest;
    assert diffs[0] == diff && diffs[1..] == rest;
    forall i | 0 <= i < |diffs|
      ensures CanApply(diffs[i])
    {
      assert i > 0 ==> diffs[i] == rest[i - 1];
    }
  }

  class Patcher {
    var buf: GapBuffer.GapBuffer

    ghost predicate Valid()
      reads this, buf, buf.buf
    {
      buf.Valid()
    }

    ghost function Contents(): seq<byte>
      requires Valid()
      reads this, buf, buf.buf
    {
      buf.Contents()
    }

    constructor (text: seq<byte>)
      ensures Valid() && fresh(buf) && fresh(buf.buf) && Contents() == text
    {
      buf := new GapBuffer.GapBuffer(text);
    }

    method Bytes() returns (text: array<byte>)
      requires Valid()
      ensures fresh(text) && text[..] == Contents()
    {
      text := buf.Bytes();
    }

    /** Replays diffs into the buffer; a delete that does not match takes nothing out. */
    method Apply(diffs: seq<Diff>)
      requires Valid() && Applicable(diffs)
      modifies buf, buf.buf
      ensures Valid() && (buf.buf == old(buf.buf) || fresh(buf.buf))
      ensures Contents() == Applied(old(Contents()), diffs)
    {
      for i := 0 to |diffs|
        invariant Valid() && (buf.buf == old(buf.buf) || fresh(buf.buf))
        invariant Applied(Contents(), diffs[i..]) == Applied(old(Contents()), diffs)
      {
        assert diffs[i..][0] == diffs[i] && diffs[i..][1..] == diffs[i + 1..];
        hide Inserted, Deleted, Slice, Pad;
        var diff := diffs[i];
        match diff.kind {
          case NONE =>
          case INSERT => buf.Insert(diff.offset, diff.text);
          case DELETE => var _ := buf.Delete(diff.offset, diff.text, true);
        }
      }
    }

    method SetContents(text: seq<byte>)
      modifies this
      ensures Valid() && fresh(buf) && fresh(buf.buf) && Contents() == text
    {
      buf := new GapBuffer.GapBuffer(text);
    }
  }

  // ---- The round trip ------------------------------------------------------------------------

  /** Every offset that the script gives rise to can be sent. */
  predicate OffsetsFit(edits: seq<Edit>, offset: nat)
    decreases |edits|
  {
    edits == [] ||
    (&& (edits[0].Equal? || offset < INT32_LIMIT)
     && OffsetsFit(edits[1..], if edits[0].Delete? then offset else offset + |edits[0].text|))
  }

  lemma EqualStep(done: seq<byte>, text: seq<byte>, before: seq<byte>, diffs: seq<Diff>, after: seq<byte>)
    requires Takes(done + text + before, diffs, done + text + after)
    ensures Takes(done + (text + before), diffs, done + (text + after))
  {
    hide Takes;
    assert done + (text + before) == done + text + before && done + (text + after) == done + text + after;
  }

  lemma DeleteStep(done: seq<byte>, text: seq<byte>, before: seq<byte>, diffs: seq<Diff>, after: seq<byte>)
    requires Takes(done + before, diffs, done + after)
    ensures Takes(done + (text + before), [Diff(DELETE, text, |done|)] + diffs, done + ([] + after))
  {
    DeletesInFront(done, text, before);
    hide Takes, Slice, Deleted;
    assert [] + after == after;
    TakesFirst(done + (text + before), Diff(DELETE, text, |done|), diffs, done + after);
  }

  lemma InsertStep(done: seq<byte>, text: seq<byte>, before: seq<byte>, diffs: seq<Diff>, after: seq<byte>)
    requires Takes(done + text + before, diffs, done + text + after)
    ensures Takes(done + ([] + before), [Diff(INSERT, text, |done|)] + diffs, done + (text + after))
  {
    InsertsInFront(done, text, before);
    hide Takes, Inserted;
    assert done + (text + after) == done + text + after;
    TakesFirst(done + ([] + before), Diff(INSERT, text, |done|), diffs, done + text + after);
  }

  /** With the new text up to `offset` in place and the rest of the old text behind it, the rest of
      the diffs find what they delete and put the rest of the new text in place. */
  lemma {:induction false} RestOfRoundTrip(done: seq<byte>, edits: seq<Edit>)
    requires OffsetsFit(edits, |done|)
    ensures Takes(done + OldText(edits), DiffsFrom(edits, |done|), done + NewText(edits))
    decreases |edits|
  {
    if edits == [] {
      assert done + [] == done;
    } else {
      hide Takes;
      var rest := edits[1..];
      match edits[0] {
        case Equal(text) =>
          RestOfRoundTrip(done + text, rest);
          EqualStep(done, text, OldText(rest), DiffsFrom(rest, |done + text|), NewText(rest));
        case Delete(text) =>
          RestOfRoundTrip(done, rest);
          DeleteStep(done, text, OldText(rest), DiffsFrom(rest, |done|), NewText(rest));
        case Insert(text) =>
          RestOfRoundTrip(done + text, rest);
          InsertStep(done, text, OldText(rest), DiffsFrom(rest, |done + text|), NewText(rest));
      }
    }
  }

  lemma DeletesInFront(done: seq<byte>, text: seq<byte>, rest: seq<byte>)
    ensures var before := done + (text + rest);
            && Slice(before, |done|, |text|) == text
            && Deleted(before, |done|, |text|) == done + rest
  {
    var before := done + (text + rest);
    assert before[|done|..|done| + |text|] == text && before[..|done|] == done;
    assert before[|done| + |text|..] == rest;
  }

  lemma InsertsInFront(done: seq<byte>, text: seq<byte>, rest: seq<byte>)
    ensures Inserted(done + ([] + rest), |done|, text) == done + text + rest
  {
    var before := done + ([] + rest);
    assert before[..|done|] == done && before[|done|..] == rest;
  }

  /** Applying the diffs between two texts to the first gives the second, and every verified delete
      matches. */
  lemma RoundTrip(text1: seq<byte>, text2: seq<byte>, edits: seq<Edit>)
    requires Describes(edits, text1, text2) && OffsetsFit(edits, 0)
    ensures Takes(text1, DiffsFrom(edits, 0), text2)
  {
    RestOfRoundTrip([], edits);
    assert [] + OldText(edits) == text1 && [] + NewText(edits) == text2;
  }

  /** Offsets never pass the end of the new text, so a new text below 2 GiB is enough. */
  lemma {:induction false} ShortTextsFit(edits: seq<Edit>, offset: nat)
    requires offset + |NewText(edits)| < INT32_LIMIT
    ensures OffsetsFit(edits, offset)
    decreases |edits|
  {
    if edits != [] {
      ShortTextsFit(edits[1..], if edits[0].Delete? then offset else offset + |edits[0].text|);
    }
  }

  /** No offset that the script gives rise to is negative once it has been sent. */
  predicate OffsetsStayPositive(edits: seq<Edit>, offset: nat)
    decreases |edits|
  {
    edits == [] ||
    (&& (edits[0].Equal? || Int32(offset) >= 0)
     && OffsetsStayPositive(edits[1..], if edits[0].Delete? then offset else offset + |edits[0].text|))
  }

  /** The diffs can be replayed at all exactly if no offset has turned negative. */
  lemma {:induction false} ApplicableIff(edits: seq<Edit>, offset: nat)
    ensures Applicable(DiffsFrom(edits, offset)) <==> OffsetsStayPositive(edits, offset)
    decreases |edits|
  {
    if edits != [] {
      var next := if edits[0].Delete? then offset else offset + |edits[0].text|;
      ApplicableIff(edits[1..], next);
      var diffs, rest := DiffsFrom(edits, offset), DiffsFrom(edits[1..], next);
      if edits[0].Equal? {
        assert diffs == rest;
      } else {
        assert diffs == [diffs[0]] + rest;
        ApplicableCons(diffs[0], rest);
      }
    }
  }

  lemma ApplicableCons(diff: Diff, rest: seq<Diff>)
    ensures Applicable([diff] + rest) <==> CanApply(diff) && Applicable(rest)
  {
    var diffs := [diff] + rest;
    assert diffs[0] == diff && diffs[1..] == rest;
    assert forall i :: 0 <= i < |rest| ==> rest[i] == diffs[i + 1];
    assert forall i :: 0 < i < |diffs| ==> diffs[i] == rest[i - 1];
  }

  /** Below 4 GiB an offset fits exactly if it does not turn negative. */
  lemma {:induction false} PositiveMeansFits(edits: seq<Edit>, offset: nat)
    requires offset + |NewText(edits)| < 2 * INT32_LIMIT
    ensures OffsetsStayPositive(edits, offset) <==> OffsetsFit(edits, offset)
    decreases |edits|
  {
    if edits != [] {
      PositiveMeansFits(edits[1..], if edits[0].Delete? then offset else offset + |edits[0].text|);
    }
  }

  /** The round trip fails when an offset does not fit an `int32`. Replay is possible if and only if no
      offset turns negative; it gives the new text if every offset fits, and, for new texts below
      4 GiB, only then. */
  lemma RoundTripIffOffsetsFit(text1: seq<byte>, text2: seq<byte>, edits: seq<Edit>)
    requires Describes(edits, text1, text2)
    ensures var diffs := DiffsFrom(edits, 0);
            && (Applicable(diffs) <==> OffsetsStayPositive(edits, 0))
            && (OffsetsFit(edits, 0) ==> Applicable(diffs) && Applied(text1, diffs) == text2)
            && (|text2| < 2 * INT32_LIMIT && Applicable(diffs) && Applied(text1, diffs) == text2 ==> OffsetsFit(edits, 0))
  {
    ApplicableIff(edits, 0);
    if OffsetsFit(edits, 0) {
      RoundTrip(text1, text2, edits);
    }
    if |text2| < 2 * INT32_LIMIT {
      PositiveMeansFits(edits, 0);
    }
  }

  // ---- Scripts whose offsets do not fit ------------------------------------------------------

  /** An insertion behind a text. */
  function Appending(text: seq<byte>, more: seq<byte>): (edits: seq<Edit>)
    ensures Describes(edits, text, text + more)
    ensures DiffsFrom(edits, 0) == [Diff(INSERT, more, Int32(|text|))]
    ensures OffsetsFit(edits, 0) <==> |text| < INT32_LIMIT
  {
    var edits := [Equal(text), Insert(more)];
    assert edits[1..] == [Insert(more)] && edits[1..][1..] == [];
    assert OldText(edits[1..]) == [] && NewText(edits[1..]) == more + [] == more && text + [] == text;
    assert DiffsFrom(edits[1..], |text|) == [Diff(INSERT, more, Int32(|text|))] + DiffsFrom([], |text| + |more|);
    assert OffsetsFit(edits[1..], |text|) <==> |text| < INT32_LIMIT;
    edits
  }

  /** A byte appended to 2 GiB of text cannot be replayed. */
  lemma AppendingPast2GiBFails(text: seq<byte>, c: byte)
    requires |text| == INT32_LIMIT
    ensures var edits := Appending(text, [c]);
            Describes(edits, text, text + [c]) && !OffsetsFit(edits, 0) && !Applicable(DiffsFrom(edits, 0))
  {
    assert DiffsFrom(Appending(text, [c]), 0)[0].offset == -INT32_LIMIT;
  }

  /** From 4 GiB on an offset that does not fit can be right by luck: it wraps around to the start,
      and all bytes are the same. */
  lemma AppendingPast4GiBCanWork(c: byte)
    ensures var text := seq(2 * INT32_LIMIT, _ => c);
            var diffs := DiffsFrom(Appending(text, [c]), 0);
            !OffsetsFit(Appending(text, [c]), 0) && Applicable(diffs) && Applied(text, diffs) == text + [c]
  {
    var text := seq(2 * INT32_LIMIT, _ => c);
    var diff := Diff(INSERT, [c], 0);
    assert DiffsFrom(Appending(text, [c]), 0) == [diff];
    assert [diff][1..] == [] && AppliedOne(text, diff) == [] + [c] + text;
    assert [] + [c] + text == text + [c];
  }
}
