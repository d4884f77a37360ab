/** CECFrame: a byte buffer of fixed capacity, filled in place. */
module Frames {
  import opened Base

  /** What fits into a frame. */
  function Clip(s: Bytes): Bytes {
    if |s| <= MAX_LENGTH then s else s[..MAX_LENGTH]
  }

  /** At most `count` bytes from `start`; a count of 0 stands for no limit. */
  function SubBytes(s: Bytes, start: nat, count: nat): Bytes {
    if start >= |s| then []
    else if count == 0 || start + count >= |s| then s[start..]
    else s[start..start + count]
  }

  lemma SliceOfSlice(s: Bytes, start: nat, end: nat, len: nat)
    requires start <= end <= len <= |s|
    ensures s[start..end] == s[..len][start..end]
  {
  }

  class CECFrame {
    const buf: array<Byte>
    var len: nat

    ghost predicate Valid()
      reads this
    {
      buf.Length == MAX_LENGTH && len <= MAX_LENGTH
    }

    ghost function Contents(): Bytes
      requires Valid()
      reads this, buf
    {
      buf[..len]
    }

    constructor ()
      ensures Valid() && fresh(buf) && Contents() == []
    {
      buf := new Byte[MAX_LENGTH];
      len := 0;
    }

    method Reset()
      requires Valid()
      modifies this
      ensures Valid() && Contents() == []
    {
      len := 0;
    }

    /** Throws out_of_range, here: returns false, when the frame is full. */
    method Append(b: Byte) returns (ok: bool)
      requires Valid()
      modifies this, buf
      ensures Valid()
      ensures ok <==> old(len) < MAX_LENGTH
      ensures Contents() == if ok then old(Contents()) + [b] else old(Contents())
    {
      if len == MAX_LENGTH {
        return false;
      }
      buf[len] := b;
      len := len + 1;
      return true;
    }

    /** A throw in the middle leaves behind what did fit. */
    method AppendBytes(bytes: Bytes) returns (ok: bool)
      requires Valid()
      modifies this, buf
      ensures Valid()
      ensures ok <==> |old(Contents())| + |bytes| <= MAX_LENGTH
      ensures Contents() == Clip(old(Contents()) + bytes)
    {
      for i := 0 to |bytes|
        invariant Valid()
        invariant Contents() == old(Contents()) + bytes[..i]
      {
        assert bytes[..i + 1] == bytes[..i] + [bytes[i]];
        ok := Append(bytes[i]);
        if !ok {
          assert old(Contents()) + bytes[..i] == (old(Contents()) + bytes)[..MAX_LENGTH];
          return;
        }
      }
      assert bytes[..|bytes|] == bytes;
      ok := true;
    }

    /** The other frame may be this one: its length is read before the first append. */
    method AppendFrame(other: CECFrame) returns (ok: bool)
      requires Valid() && other.Valid()
      modifies this, buf
      ensures Valid()
      ensures ok <==> |old(Contents())| + |old(other.Contents())| <= MAX_LENGTH
      ensures Contents() == Clip(old(Contents()) + old(other.Contents()))
    {
      ok := AppendBytes(other.buf[..other.len]);
    }

    method SubFrame(start: nat, count: nat) returns (frame: CECFrame)
      requires Valid()
      ensures frame.Valid() && fresh(frame) && fresh(frame.buf)
      ensures frame.Contents() == SubBytes(Contents(), start, count)
    {
      frame := new CECFrame();
      var i, left := start, if count == 0 then MAX_LENGTH else count;
      while i < len && left > 0
        invariant fresh(frame) && fresh(frame.buf) && frame.Valid()
        invariant start <= i && (start <= len ==> i <= len) && left >= 0
        invariant i - start + left == if count == 0 then MAX_LENGTH else count
        invariant start <= len ==> frame.Contents() == buf[start..i]
        invariant start > len ==> i == start && frame.Contents() == []
        decreases left
      {
        var ok := frame.Append(buf[i]);
        i, left := i + 1, left - 1;
      }
      if start < len {
        assert i == if count == 0 || start + count >= len then len else start + count;
        SliceOfSlice(buf[..], start, i, len);
      }
    }

    method At(i: nat) returns (b: Option<Byte>)
      requires Valid()
      ensures b == if i < len then Some(Contents()[i]) else None
    {
      return if i < len then Some(buf[i]) else None;
    }

    /** Writing through operator[]. */
    method Put(i: nat, b: Byte) returns (ok: bool)
      requires Valid()
      modifies buf
      ensures Valid()
      ensures ok <==> i < len
      ensures Contents() == if ok then old(Contents())[i := b] else old(Contents())
    {
      ok := i < len;
      if ok {
        buf[i] := b;
      }
    }
  }
}
