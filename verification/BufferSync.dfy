/** The buffer driver: keeping the server's copy of a file equal to the editor's text. */
module BufferSync {
  import opened GoStrings
  import opened Patch

  datatype Selection = Selection(start: int, end: int)

  /** The parts of an editor event that the driver reads. A checksum of 0 means that none was sent. */
  datatype BufferEvent = BufferEvent(
    text: seq<byte>, diffs: seq<Diff>, selections: seq<Selection>, checksum: nat)

  /** What a driver amounts to. */
  datatype Copy = Copy(text: seq<byte>, cursor: int, resend: bool)

  type Hash = seq<byte> -> nat

  /** Diffs that cannot be applied make the driver fail, if it looks at them at all. */
  predicate Acceptable(event: BufferEvent) {
    event.text != [] || Applicable(event.diffs)
  }

  /** The cursor follows the last selection that is a mere position, and stays if there is none. */
  function CursorAfter(cursor: int, selections: seq<Selection>): (r: int)
    ensures (forall i :: 0 <= i < |selections| ==> selections[i].start != selections[i].end) ==> r == cursor
    ensures forall i :: 0 <= i < |selections| && LastPosition(selections, i) ==> r == selections[i].start
  {
    if selections == [] then cursor
    else
      var last := selections[|selections| - 1];
      if last.start == last.end then last.start
      else CursorAfter(cursor, selections[..|selections| - 1])
  }

  predicate LastPosition(selections: seq<Selection>, i: nat)
    requires i < |selections|
  {
    && selections[i].start == selections[i].end
    && forall j :: i < j < |selections| ==> selections[j].start != selections[j].end
  }

  function TextAfter(text: seq<byte>, event: BufferEvent): seq<byte>
    requires Acceptable(event)
  {
    if event.text != [] then event.text else Applied(text, event.diffs)
  }

  function After(hash: Hash, copy: Copy, event: BufferEvent): Copy
    requires Acceptable(event)
  {
    var text := TextAfter(copy.text, event);
    Copy(text, CursorAfter(copy.cursor, event.selections), event.checksum > 0 && event.checksum != hash(text))
  }

  class BufferDriver {
    var cursor: int
    var patcher: Patcher
    var resend: bool
    /** `spooky.Hash64`. */
    const hash: Hash
    /** `md5.Sum`, in hexadecimal. */
    const digest: seq<byte> -> string

    ghost predicate Valid()
      reads this, patcher, patcher.buf, patcher.buf.buf
    {
      patcher.Valid()
    }

    ghost function State(): Copy
      requires Valid()
      reads this, patcher, patcher.buf, patcher.buf.buf
    {
      Copy(patcher.Contents(), cursor, resend)
    }

    constructor (hash: Hash, digest: seq<byte> -> string)
      ensures Valid() && fresh(patcher) && fresh(patcher.buf) && fresh(patcher.buf.buf)
      ensures this.hash == hash && this.digest == digest
      ensures State() == Copy([], 0, false)
    {
      this.hash, this.digest := hash, digest;
      cursor, resend := 0, false;
      patcher := new Patcher([]);
    }

    /** Takes the event's full text if it has one, its diffs otherwise, and compares checksums. */
    method HandleEvent(event: BufferEvent) returns (state: string)
      requires Valid() && Acceptable(event)
      modifies this, patcher, patcher.buf, patcher.buf.buf
      ensures Valid()
      ensures State() == After(hash, old(State()), event)
      ensures state == digest(State().text)
    {
      if |event.text| > 0 {
        patcher := new Patcher(event.text);
      } else if |event.diffs| > 0 {
        patcher.Apply(event.diffs);
      }
      MoveCursor(event.selections);
      hide Applied;
      var bytes := patcher.Bytes();
      resend := event.checksum > 0 && event.checksum != hash(bytes[..]);
      return digest(bytes[..]);
    }

    /** Follows the selections that are mere positions, one after the other. */
    method MoveCursor(selections: seq<Selection>)
      modifies `cursor
      ensures cursor == CursorAfter(old(cursor), selections)
    {
      for i := 0 to |selections|
        invariant cursor == CursorAfter(old(cursor), selections[..i])
      {
        var sel := selections[i];
        assert selections[..i + 1][..i] == selections[..i];
        if sel.start == sel.end && sel.start != cursor {
          cursor := sel.start;
        }
      }
      assert selections[..|selections|] == selections;
    }

    method SetContents(text: seq<byte>)
      requires Valid()
      modifies this, patcher
      ensures Valid() && State() == old(State()).(text := text)
    {
      patcher.SetContents(text);
    }
  }

  // ---- Runs in which the editor and the driver agree ------------------------------------------

  /** One edit: the event that was sent, and the editor's text after it. */
  datatype Edited = Edited(event: BufferEvent, text: seq<byte>)

  /** The event carries the editor's whole text, or the diffs from the editor's text before. */
  ghost predicate Carries(before: seq<byte>, edited: Edited) {
    var event := edited.event;
    if event.text != [] then event.text == edited.text
    else exists edits :: Describes(edits, before, edited.text) && OffsetsFit(edits, 0)
                         && event.diffs == DiffsFrom(edits, 0)
  }

  /** The event carries the text, and either no checksum or the right one. */
  ghost predicate Faithful(hash: Hash, before: seq<byte>, edited: Edited) {
    (edited.event.checksum == 0 || edited.event.checksum == hash(edited.text)) && Carries(before, edited)
  }

  ghost predicate FaithfulRun(hash: Hash, before: seq<byte>, run: seq<Edited>)
    decreases |run|
  {
    run == [] || (Faithful(hash, before, run[0]) && FaithfulRun(hash, run[0].text, run[1..]))
  }

  /** The copies that a driver goes through; it must be able to take every event. */
  ghost predicate Copies(hash: Hash, run: seq<Edited>, copies: seq<Copy>) {
    && |copies| == |run| + 1
    && forall i {:trigger run[i]} :: 0 <= i < |run| ==>
         Acceptable(run[i].event) && copies[i + 1] == After(hash, copies[i], run[i].event)
  }

  /** A copy is never so far out of step that the driver could not take the event. */
  lemma CarriedIsAcceptable(before: seq<byte>, edited: Edited)
    requires Carries(before, edited)
    ensures Acceptable(edited.event)
  {
    var event := edited.event;
    if event.text == [] {
      var edits :| Describes(edits, before, edited.text) && OffsetsFit(edits, 0) && event.diffs == DiffsFrom(edits, 0);
      RoundTrip(before, edited.text, edits);
    }
  }

  lemma FaithfulEventSyncs(hash: Hash, copy: Copy, edited: Edited)
    requires Faithful(hash, copy.text, edited)
    ensures Acceptable(edited.event)
    ensures var next := After(hash, copy, edited.event); next.text == edited.text && !next.resend
  {
    var event := edited.event;
    if event.text == [] {
      var edits :| Describes(edits, copy.text, edited.text) && OffsetsFit(edits, 0) && event.diffs == DiffsFrom(edits, 0);
      RoundTrip(copy.text, edited.text, edits);
    }
  }

  /** After every event the copy is the editor's text, and the flag is down. */
  predicate InSync(run: seq<Edited>, copies: seq<Copy>) {
    && |copies| == |run| + 1
    && forall i {:trigger run[i]} :: 0 <= i < |run| ==> copies[i + 1].text == run[i].text && !copies[i + 1].resend
  }

  lemma OneEventEarlier(hash: Hash, run: seq<Edited>, copies: seq<Copy>)
    requires run != [] && |copies| == |run| + 1 && Acceptable(run[0].event)
    requires Copies(hash, run[1..], copies[1..]) && copies[1] == After(hash, copies[0], run[0].event)
    requires InSync(run[1..], copies[1..]) && copies[1].text == run[0].text && !copies[1].resend
    ensures Copies(hash, run, copies) && InSync(run, copies)
  {
    forall i {:trigger run[i]} | 0 <= i < |run|
      ensures Acceptable(run[i].event) && copies[i + 1] == After(hash, copies[i], run[i].event)
      ensures copies[i + 1].text == run[i].text && !copies[i + 1].resend
    {
      if i > 0 {
        assert run[1..][i - 1] == run[i] && copies[1..][i - 1] == copies[i] && copies[1..][i] == copies[i + 1];
      }
    }
  }

  /** The driver takes every event of a faithful run, its copy is the editor's text after each, and
      it never asks for the text to be sent again. */
  lemma {:induction false} FaithfulRunStaysInSync(hash: Hash, copy: Copy, run: seq<Edited>) returns (copies: seq<Copy>)
    requires FaithfulRun(hash, copy.text, run)
    ensures Copies(hash, run, copies) && copies[0] == copy
    ensures InSync(run, copies)
    decreases |run|
  {
    hide After, Faithful, Applicable;
    if run == [] {
      copies := [copy];
    } else {
      FaithfulEventSyncs(hash, copy, run[0]);
      var rest := FaithfulRunStaysInSync(hash, After(hash, copy, run[0].event), run[1..]);
      copies := [copy] + rest;
      assert copies[1..] == rest;
      OneEventEarlier(hash, run, copies);
    }
  }

  // ---- Recovery ------------------------------------------------------------------------------

  /** From any state, an event with a text brings the copy to that text, whatever diffs come with it. Without
      a text the diffs are applied: an empty text counts as none. */
  lemma TextOrDiffs(hash: Hash, copy: Copy, event: BufferEvent)
    requires Acceptable(event)
    ensures event.text != [] ==> After(hash, copy, event).text == event.text
    ensures event.text == [] ==> After(hash, copy, event).text == Applied(copy.text, event.diffs)
  {
  }

  /** So an event with the whole text and no diffs brings the copy to that text if and only if the text is
      not empty or the copy already is. */
  lemma FullTextSyncsIff(hash: Hash, copy: Copy, text: seq<byte>, selections: seq<Selection>, checksum: nat)
    ensures var event := BufferEvent(text, [], selections, checksum);
            After(hash, copy, event).text == text <==> text != [] || copy.text == []
  {
  }

  /** Without a checksum the flag goes down; with one it says whether the hash of the copy is another. */
  lemma FlagIs(hash: Hash, copy: Copy, event: BufferEvent)
    requires Acceptable(event)
    ensures var next := After(hash, copy, event);
            next.resend <==> event.checksum != 0 && event.checksum != hash(next.text)
  {
  }

  /** The cursor goes to the last selection that is a mere position, and stays where it is if there is none. */
  lemma CursorFollows(hash: Hash, copy: Copy, event: BufferEvent)
    requires Acceptable(event)
    ensures var cursor, selections := After(hash, copy, event).cursor, event.selections;
            || (cursor == copy.cursor && forall i :: 0 <= i < |selections| ==> selections[i].start != selections[i].end)
            || exists i :: 0 <= i < |selections| && selections[i] == Selection(cursor, cursor)
                           && forall j :: i < j < |selections| ==> selections[j].start != selections[j].end
  {
    LastPositionOf(copy.cursor, event.selections);
  }

  lemma {:induction false} LastPositionOf(before: int, selections: seq<Selection>)
    ensures var cursor := CursorAfter(before, selections);
            || (cursor == before && forall i :: 0 <= i < |selections| ==> selections[i].start != selections[i].end)
            || exists i :: 0 <= i < |selections| && selections[i] == Selection(cursor, cursor)
                           && forall j :: i < j < |selections| ==> selections[j].start != selections[j].end
  {
    if selections != [] {
      var n := |selections| - 1;
      if selections[n].start == selections[n].end {
        assert selections[n] == Selection(CursorAfter(before, selections), CursorAfter(before, selections));
      } else {
        LastPositionOf(before, selections[..n]);
        assert forall i :: 0 <= i < n ==> selections[..n][i] == selections[i];
      }
    }
  }

  /** An editor that checksums its text in every event, sends diffs from its own text before, whether
      or not they fit the copy, and answers the flag with the whole of a text that is not empty. */
  ghost predicate Responsive(hash: Hash, before: seq<byte>, run: seq<Edited>, copies: seq<Copy>) {
    && Copies(hash, run, copies)
    && forall i {:trigger run[i]} :: 0 <= i < |run| ==>
         && run[i].event.checksum == hash(run[i].text) > 0
         && Carries(TextBefore(before, run, i), run[i])
         && (copies[i].resend ==> run[i].event.text != [])
  }

  /** The editor's text before event `i`. */
  function TextBefore(before: seq<byte>, run: seq<Edited>, i: nat): seq<byte>
    requires i <= |run|
  {
    if i == 0 then before else run[i - 1].text
  }

  /** A checksum that cannot tell the copy from the editor's text. */
  predicate Collides(hash: Hash, copy: Copy, text: seq<byte>) {
    copy.text != text && hash(copy.text) == hash(text)
  }

  /** Event `i` is right unless the copy was out of step before it and nobody had noticed. */
  lemma ResponsiveEventSyncs(hash: Hash, before: seq<byte>, run: seq<Edited>, copies: seq<Copy>, i: nat)
    requires Responsive(hash, before, run, copies) && i < |run|
    requires copies[i].resend || copies[i].text == TextBefore(before, run, i)
    ensures copies[i + 1].text == run[i].text && !copies[i + 1].resend
  {
    assert Carries(TextBefore(before, run, i), run[i]) && run[i].event.checksum == hash(run[i].text);
    FaithfulEventSyncs(hash, Copy(TextBefore(before, run, i), copies[i].cursor, copies[i].resend), run[i]);
  }

  /** The flag tells whether the hashes differ. */
  lemma FlagTells(hash: Hash, before: seq<byte>, run: seq<Edited>, copies: seq<Copy>, i: nat)
    requires Responsive(hash, before, run, copies) && i < |run|
    ensures copies[i + 1].resend <==> hash(copies[i + 1].text) != hash(run[i].text)
  {
    hide Carries, Acceptable, TextAfter;
    assert run[i].event.checksum == hash(run[i].text);
  }

  /** From the first event on the copy is in step or the flag is up. */
  lemma {:induction false} InStepOrFlagged(hash: Hash, before: seq<byte>, run: seq<Edited>, copies: seq<Copy>, i: nat)
    requires Responsive(hash, before, run, copies) && 0 < i <= |run|
    requires !Collides(hash, copies[1], run[0].text)
    ensures copies[i].resend || copies[i].text == run[i - 1].text
  {
    if i == 1 {
      FlagTells(hash, before, run, copies, 0);
    } else {
      InStepOrFlagged(hash, before, run, copies, i - 1);
      ResponsiveEventSyncs(hash, before, run, copies, i - 1);
    }
  }

  /** However badly the copy was out of step, it is so for one event at most: unless the checksums
      collide after the first event, that event raises the flag exactly if it leaves the copy out of
      step, and from the second event on the copy is the editor's text and the flag stays down. */
  lemma {:induction false} OutOfSyncAtMostOnce(hash: Hash, before: seq<byte>, run: seq<Edited>, copies: seq<Copy>, i: nat)
    requires Responsive(hash, before, run, copies) && i < |run|
    requires !Collides(hash, copies[1], run[0].text)
    ensures copies[i + 1].resend <==> copies[i + 1].text != run[i].text
    ensures i > 0 ==> copies[i + 1].text == run[i].text && !copies[i + 1].resend
  {
    if i == 0 {
      FlagTells(hash, before, run, copies, 0);
    } else {
      InStepOrFlagged(hash, before, run, copies, i);
      ResponsiveEventSyncs(hash, before, run, copies, i);
    }
  }

  /** The editor's text is extended by one byte, and the diff for that is sent with a checksum of 1. */
  function Typed(before: seq<byte>, c: byte): Edited {
    Edited(BufferEvent([], DiffsFrom(Appending(before, [c]), 0), [], 1), before + [c])
  }

  lemma TypedIsCarried(before: seq<byte>, c: byte, text: seq<byte>)
    requires |text| == |before| < INT32_LIMIT
    ensures Carries(before, Typed(before, c)) && Acceptable(Typed(before, c).event)
    ensures Applied(text, Typed(before, c).event.diffs) == text + [c]
  {
    var diff := Diff(INSERT, [c], |before|);
    assert Typed(before, c).event.diffs == [diff];
    assert [diff][1..] == [] && AppliedOne(text, diff) == text + [c];
  }

  /** A hash that tells no texts apart. */
  function Blind(): Hash {
    _ => 1
  }

  /** A driver whose hash tells no texts apart takes the byte and keeps its flag down. */
  lemma TypedUnnoticed(before: seq<byte>, c: byte, text: seq<byte>)
    requires |text| == |before| < INT32_LIMIT
    ensures Carries(before, Typed(before, c)) && Acceptable(Typed(before, c).event)
    ensures After(Blind(), Copy(text, 0, false), Typed(before, c).event) == Copy(text + [c], 0, false)
  {
    TypedIsCarried(before, c, text);
    hide Applied, DiffsFrom, Applicable;
  }

  lemma TwoEvents(hash: Hash, before: seq<byte>, run: seq<Edited>, copies: seq<Copy>)
    requires |run| == 2 && |copies| == 3 && !copies[0].resend && !copies[1].resend
    requires Acceptable(run[0].event) && copies[1] == After(hash, copies[0], run[0].event)
    requires Acceptable(run[1].event) && copies[2] == After(hash, copies[1], run[1].event)
    requires Carries(before, run[0]) && run[0].event.checksum == hash(run[0].text) > 0
    requires Carries(run[0].text, run[1]) && run[1].event.checksum == hash(run[1].text) > 0
    ensures Responsive(hash, before, run, copies)
  {
    hide Carries, Applicable, After;
  }

  /** Two bytes are typed behind `a`, while the copy has another byte there. */
  lemma TwoTyped(a: byte, c: byte, d: byte, wrong: byte) returns (run: seq<Edited>, copies: seq<Copy>)
    requires a != wrong
    ensures run == [Typed([a], c), Typed([a] + [c], d)]
    ensures copies == [Copy([wrong], 0, false), Copy([wrong] + [c], 0, false), Copy([wrong] + [c] + [d], 0, false)]
    ensures Responsive(Blind(), [a], run, copies)
  {
    run := [Typed([a], c), Typed([a] + [c], d)];
    copies := [Copy([wrong], 0, false), Copy([wrong] + [c], 0, false), Copy([wrong] + [c] + [d], 0, false)];
    TypedUnnoticed([a], c, [wrong]);
    TypedUnnoticed([a] + [c], d, [wrong] + [c]);
    hide DiffsFrom, Applied, Carries, Applicable, After, Responsive;
    TwoEvents(Blind(), [a], run, copies);
  }

  /** Without that proviso the driver can stay out of step unnoticed: here under a hash that tells no
      texts apart, with a copy that starts with the wrong byte. */
  lemma CollisionGoesUnnoticed() returns (hash: Hash, before: seq<byte>, run: seq<Edited>, copies: seq<Copy>)
    ensures Responsive(hash, before, run, copies) && |run| == 2 && Collides(hash, copies[1], run[0].text)
    ensures forall i {:trigger run[i]} :: 0 <= i < 2 ==> copies[i + 1].text != run[i].text && !copies[i + 1].resend
  {
    hide Responsive, DiffsFrom;
    hash, before := Blind(), ['a'];
    run, copies := TwoTyped('a', 'c', 'd', 'b');
    assert copies[1].text[0] != run[0].text[0] && copies[2].text[0] != run[1].text[0];
  }
}
