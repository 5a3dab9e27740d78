/** The plain text that a gap buffer stands for: a byte sequence, edited directly. */
module ByteText {
  import opened GoStrings

  const NUL: byte := '\0'

  /** `text`, padded with zero bytes up to `n`. */
  function Pad(text: seq<byte>, n: nat): (r: seq<byte>)
    ensures |r| == if n > |text| then n else |text|
    ensures text <= r
    ensures n <= |text| ==> r == text
  {
    if n > |text| then text + seq(n - |text|, _ => NUL) else text
  }

  /** `data` put in at `offset`; an offset past the end pads first. */
  function Inserted(text: seq<byte>, offset: nat, data: seq<byte>): (r: seq<byte>)
    ensures |r| == |Pad(text, offset)| + |data|
  {
    var padded := Pad(text, offset);
    padded[..offset] + data + padded[offset..]
  }

  /** The `n` bytes of `text` from `offset` on, or as many as there are. */
  function From(text: seq<byte>, offset: nat, n: nat): (r: seq<byte>)
    requires offset <= |text|
    ensures |r| <= n && offset + |r| <= |text|
  {
    if offset + n > |text| then text[offset..] else text[offset..offset + n]
  }

  /** What stands at `offset`, which may be past the end. */
  function Slice(text: seq<byte>, offset: nat, n: nat): (r: seq<byte>)
    ensures |r| <= n
  {
    From(Pad(text, offset), offset, n)
  }

  /** `n` bytes taken out at `offset`, or as many as there are; an offset past the end pads first. */
  function Deleted(text: seq<byte>, offset: nat, n: nat): (r: seq<byte>)
  {
    var padded := Pad(text, offset);
    padded[..offset] + padded[offset + |Slice(text, offset, n)|..]
  }

  /** `n` zero bytes. */
  function Zeros(n: nat): (r: seq<byte>)
    ensures |r| == n && forall i :: 0 <= i < n ==> r[i] == '\0'
  {
    seq(n, _ => '\0')
  }

  /** Where the data go: between what is in front of the offset and what is behind it. */
  lemma InsertedIs(text: seq<byte>, offset: nat, data: seq<byte>)
    ensures offset <= |text| ==> Inserted(text, offset, data) == text[..offset] + data + text[offset..]
    ensures offset >= |text| ==> Inserted(text, offset, data) == text + Zeros(offset - |text|) + data
  {
    if offset >= |text| {
      assert Pad(text, offset) == text + Zeros(offset - |text|);
      assert Pad(text, offset)[..offset] == Pad(text, offset) && Pad(text, offset)[offset..] == [];
    }
  }

  /** What is taken out: up to `n` bytes behind the offset. */
  lemma DeletedIs(text: seq<byte>, offset: nat, n: nat)
    ensures offset + n <= |text| ==>
              Slice(text, offset, n) == text[offset..offset + n] && Deleted(text, offset, n) == text[..offset] + text[offset + n..]
    ensures offset <= |text| < offset + n ==>
              Slice(text, offset, n) == text[offset..] && Deleted(text, offset, n) == text[..offset]
    ensures offset >= |text| ==> Slice(text, offset, n) == [] && Deleted(text, offset, n) == text + Zeros(offset - |text|)
  {
    if offset >= |text| {
      assert Pad(text, offset) == text + Zeros(offset - |text|);
    }
  }

  /** Deleting what has been inserted gives the text back, padded if the offset was past the end. */
  lemma DeleteUndoesInsert(text: seq<byte>, offset: nat, data: seq<byte>)
    ensures var inserted := Inserted(text, offset, data);
            && Slice(inserted, offset, |data|) == data
            && Deleted(inserted, offset, |data|) == Pad(text, offset)
  {
    var padded := Pad(text, offset);
    var inserted := Inserted(text, offset, data);
    assert Pad(inserted, offset) == inserted;
    assert inserted[offset..offset + |data|] == data;
    assert inserted[offset + |data|..] == padded[offset..];
    assert padded[..offset] + padded[offset..] == padded;
  }

  /** Inserting what has been deleted gives the text back, padded if the offset was past the end. */
  lemma InsertUndoesDelete(text: seq<byte>, offset: nat, n: nat)
    ensures Inserted(Deleted(text, offset, n), offset, Slice(text, offset, n)) == Pad(text, offset)
  {
    var padded, slice := Pad(text, offset), Slice(text, offset, n);
    var deleted := Deleted(text, offset, n);
    assert Pad(deleted, offset) == deleted;
    assert deleted[..offset] == padded[..offset] && deleted[offset..] == padded[offset + |slice|..];
    assert padded[..offset] + slice + padded[offset + |slice|..] == padded;
  }
}
