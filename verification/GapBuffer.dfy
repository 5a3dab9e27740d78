/** The gap buffer: a byte array with a gap of zero bytes that is moved to where the editing is. */
module GapBuffer {
  import opened GoStrings
  import opened ByteText

  const DEFAULT_GAP_SIZE := 32

  class GapBuffer {
    var buf: array<byte>
    var gapStart: nat
    var gapEnd: nat

    /** There always is a gap, and it holds zero bytes only. */
    ghost predicate Valid()
      reads this, buf
    {
      && gapStart < gapEnd <= buf.Length
      && forall i :: gapStart <= i < gapEnd ==> buf[i] == NUL
    }

    /** The text: everything but the gap. */
    ghost function Contents(): seq<byte>
      requires gapStart <= gapEnd <= buf.Length
      reads this, buf
    {
      buf[..gapStart] + buf[gapEnd..]
    }

    constructor (text: seq<byte>)
      ensures Valid() && fresh(buf) && Contents() == text
    {
      var gapBuf := new byte[|text| + DEFAULT_GAP_SIZE](
        i requires 0 <= i < |text| + DEFAULT_GAP_SIZE =>
          if i < DEFAULT_GAP_SIZE then NUL else text[i - DEFAULT_GAP_SIZE]);
      buf := gapBuf;
      gapStart, gapEnd := 0, DEFAULT_GAP_SIZE;
      new;
      assert buf[gapEnd..] == text;
    }

    /** A copy of the text. */
    method Bytes() returns (ret: array<byte>)
      requires Valid()
      ensures fresh(ret) && ret[..] == Contents()
    {
      ret := new byte[buf.Length - GapSize()];
      CopySlice(ret, 0, buf, 0, gapStart);
      CopySlice(ret, gapStart, buf, gapEnd, buf.Length - gapEnd);
      assert ret[..] == Contents();
    }

    /** Puts `data` in at `offset`. */
    method Insert(offset: nat, data: seq<byte>)
      requires Valid()
      modifies this, buf
      ensures Valid() && (buf == old(buf) || fresh(buf))
      ensures Contents() == Inserted(old(Contents()), offset, data)
    {
      hide Contents, Pad;
      EnsureGapCapacity(|data|);
      SetGapStart(offset);
      WriteIntoGap(data);
    }

    /** Takes `data` out at `offset`, or as much as there is. With `verify` set it does so only if
        what stands there is `data`; otherwise it reports the mismatch. */
    method Delete(offset: nat, data: seq<byte>, verify: bool) returns (mismatch: bool)
      requires Valid()
      modifies this, buf
      ensures Valid() && (buf == old(buf) || fresh(buf))
      ensures mismatch <==> verify && data != Slice(old(Contents()), offset, |data|)
      ensures Contents() == if mismatch then Pad(old(Contents()), offset)
                            else Deleted(old(Contents()), offset, |data|)
    {
      hide Contents, Pad, From;
      SetGapStart(offset);
      mismatch := DeleteBehindGap(data, verify);
    }

    /** Takes `data` out behind the gap, or reports that it is not what stands there. */
    method DeleteBehindGap(data: seq<byte>, verify: bool) returns (mismatch: bool)
      requires Valid()
      modifies this, buf
      ensures Valid() && buf == old(buf)
      ensures mismatch <==> verify && data != From(old(Contents()), old(gapStart), |data|)
      ensures var text, n := old(Contents()), |From(old(Contents()), old(gapStart), |data|)|;
              Contents() == if mismatch then text else text[..old(gapStart)] + text[old(gapStart) + n..]
    {
      hide From;
      var toDelete := BehindGap(|data|);
      if verify && data != toDelete {
        return true;
      }
      WidenGap(|toDelete|);
      return false;
    }

    /** The `n` bytes behind the gap, or as many as there are. */
    method BehindGap(n: nat) returns (bytes: seq<byte>)
      requires Valid()
      ensures bytes == From(Contents(), gapStart, n) && gapEnd + |bytes| <= buf.Length
    {
      var end := if gapEnd + n > buf.Length then buf.Length else gapEnd + n;
      bytes := buf[gapEnd..end];
      FromBehind(buf[..gapStart], buf[gapEnd..], n);
      assert bytes == buf[gapEnd..][..end - gapEnd];
    }

    /** Writes `data` where the gap starts. */
    method WriteIntoGap(data: seq<byte>)
      requires Valid() && |data| < GapSize()
      modifies this, buf
      ensures Valid() && buf == old(buf)
      ensures Contents() == old(Contents())[..old(gapStart)] + data + old(Contents())[old(gapStart)..]
    {
      forall i | 0 <= i < |data| {
        buf[gapStart + i] := data[i];
      }
      gapStart := gapStart + |data|;
      assert buf[..gapStart] == old(buf[..gapStart]) + data;
      assert buf[gapEnd..] == old(buf[gapEnd..]);
    }

    /** Zeroes the `n` bytes behind the gap and makes them part of it. */
    method WidenGap(n: nat)
      requires Valid() && gapEnd + n <= buf.Length
      modifies this, buf
      ensures Valid() && buf == old(buf)
      ensures Contents() == old(Contents())[..old(gapStart)] + old(Contents())[old(gapStart) + n..]
    {
      forall i | gapEnd <= i < gapEnd + n {
        buf[i] := NUL;
      }
      gapEnd := gapEnd + n;
      assert buf[..gapStart] == old(buf[..gapStart]);
      assert buf[gapEnd..] == old(buf[gapEnd..])[n..];
    }

    function GapSize(): nat
      requires gapStart <= gapEnd
      reads this
    {
      gapEnd - gapStart
    }

    /** Moves the gap to `offset`. The bytes in between change sides in place, overlapping where the
        gap is smaller than the move; a gap moved past the end leaves zero bytes before it. */
    method SetGapStart(offset: nat)
      requires Valid()
      modifies this, buf
      ensures Valid() && (buf == old(buf) || fresh(buf))
      ensures gapStart == offset && GapSize() == old(GapSize())
      ensures Contents() == Pad(old(Contents()), offset)
    {
      if offset == gapStart {
        return;
      }
      // The gap is never empty, so the branch for an empty one is dead
      if gapStart == gapEnd {
        assert false;
      }
      var newStart := offset;
      var newEnd := newStart + GapSize();
      Grow(newEnd);
      if newStart < gapStart {
        MoveGapLeft(newStart);
      } else {
        MoveGapRight(newStart);
      }
      ClearGap();
    }

    /** The bytes between `newStart` and the gap change to the other side of the gap. */
    method MoveGapLeft(newStart: nat)
      requires Valid() && newStart < gapStart
      modifies this, buf
      ensures buf == old(buf) && gapStart == newStart && gapEnd == newStart + old(GapSize()) <= buf.Length
      ensures Contents() == old(Contents())
    {
      var newEnd := newStart + GapSize();
      MoveBytes(newEnd, newStart, gapStart - newStart);
      assert buf[..newStart] == old(buf[..newStart]);
      assert buf[newEnd..] == old(buf[newStart..gapStart]) + old(buf[gapEnd..]);
      assert old(buf[..gapStart]) == old(buf[..newStart]) + old(buf[newStart..gapStart]);
      gapStart, gapEnd := newStart, newEnd;
    }

    /** The bytes between the gap and its new end change to the other side of the gap. */
    method MoveGapRight(newStart: nat)
      requires Valid() && gapStart < newStart && newStart + GapSize() <= buf.Length
      modifies this, buf
      ensures buf == old(buf) && gapStart == newStart && gapEnd == newStart + old(GapSize())
      ensures Contents() == old(Contents())
    {
      var newEnd := newStart + GapSize();
      MoveBytes(gapStart, gapEnd, newStart - gapStart);
      MovedRight(old(buf[..]), buf[..], gapStart, gapEnd, newStart, newEnd);
      gapStart, gapEnd := newStart, newEnd;
    }

    /** Lengthens the buffer to `length` with zero bytes, if it is shorter. */
    method Grow(length: nat)
      requires Valid()
      modifies this
      ensures Valid() && (buf == old(buf) || fresh(buf))
      ensures gapStart == old(gapStart) && gapEnd == old(gapEnd)
      ensures buf.Length >= length
      ensures length >= GapSize() ==> Contents() == Pad(old(Contents()), length - GapSize())
    {
      if length > buf.Length {
        var newBuf := new byte[length](_ => NUL);
        CopySlice(newBuf, 0, buf, 0, buf.Length);
        assert newBuf[..gapStart] == buf[..gapStart];
        assert newBuf[gapEnd..] == buf[gapEnd..] + seq(length - buf.Length, _ => NUL);
        buf := newBuf;
      }
    }

    /** `copy` within the buffer. */
    method MoveBytes(to: nat, from: nat, n: nat)
      requires to + n <= buf.Length && from + n <= buf.Length
      modifies buf
      ensures forall i {:trigger buf[i]} :: 0 <= i < buf.Length ==>
                buf[i] == if to <= i < to + n then old(buf[from + (i - to)]) else old(buf[i])
    {
      CopySlice(buf, to, buf, from, n);
    }

    /** Zeroes the gap. */
    method ClearGap()
      requires gapStart < gapEnd <= buf.Length
      modifies buf
      ensures Valid() && Contents() == old(Contents())
    {
      forall i | gapStart <= i < gapEnd {
        buf[i] := NUL;
      }
    }

    /** Makes the gap larger than `n`, in a new array if it is not. */
    method EnsureGapCapacity(n: nat)
      requires Valid()
      modifies this
      ensures Valid() && (buf == old(buf) || fresh(buf))
      ensures GapSize() > n && gapStart == old(gapStart)
      ensures Contents() == old(Contents())
    {
      if n >= GapSize() {
        var extraGap := GapSize();
        var newStart := gapStart;
        var newEnd := newStart + n + extraGap;
        var newBuf := new byte[buf.Length + n](_ => NUL);
        CopySlice(newBuf, 0, buf, 0, gapStart);
        CopySlice(newBuf, newEnd, buf, gapEnd, buf.Length - gapEnd);
        assert newBuf[..newStart] == buf[..gapStart] && newBuf[newEnd..] == buf[gapEnd..];
        buf := newBuf;
        gapStart, gapEnd := newStart, newEnd;
      }
    }
  }

  /** The slice of `text` that `From` takes lies in `behind` alone. */
  lemma FromBehind(front: seq<byte>, behind: seq<byte>, n: nat)
    ensures From(front + behind, |front|, n) == behind[..if n > |behind| then |behind| else n]
  {
  }

  /** Moving the bytes behind the gap in front of it leaves the text as it is. */
  lemma MovedRight(before: seq<byte>, after: seq<byte>, gapStart: nat, gapEnd: nat, newStart: nat, newEnd: nat)
    requires gapStart <= gapEnd && gapStart <= newStart && newStart - gapStart == newEnd - gapEnd
    requires newEnd <= |before| == |after|
    requires forall i {:trigger after[i]} :: 0 <= i < |after| ==>
               after[i] == if gapStart <= i < newStart then before[gapEnd + (i - gapStart)] else before[i]
    ensures after[..newStart] + after[newEnd..] == before[..gapStart] + before[gapEnd..]
  {
    var left, right := before[..gapStart] + before[gapEnd..newEnd], before[newEnd..];
    forall i | 0 <= i < newStart
      ensures after[i] == left[i]
    {
      if gapStart <= i {
        assert left[i] == before[gapEnd..newEnd][i - gapStart];
      }
    }
    forall i | 0 <= i < |right|
      ensures after[newEnd + i] == right[i]
    {
      var j := newEnd + i;
      assert after[j] == before[j];
    }
    assert after[..newStart] == left;
    assert after[newEnd..] == right;
    assert before[gapEnd..] == before[gapEnd..newEnd] + right;
  }

  /** `copy(dst[to:], src[from:from+n])`: as if through a temporary, so the slices may overlap. */
  method CopySlice(dst: array<byte>, to: nat, src: array<byte>, from: nat, n: nat)
    requires to + n <= dst.Length && from + n <= src.Length
    modifies dst
    ensures forall i {:trigger dst[i]} :: 0 <= i < dst.Length ==>
              dst[i] == if to <= i < to + n then old(src[from + (i - to)]) else old(dst[i])
  {
    forall i | to <= i < to + n {
      dst[i] := src[from + (i - to)];
    }
  }
}
