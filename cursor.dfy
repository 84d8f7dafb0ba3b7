/** The reader the decoders share: an immutable buffer and a mutable cursor position.
    Each read yields the value `Layout` gives the field at the cursor and moves the cursor
    past it, or fails with OutOfBounds when the field does not fit. */
module Cursor {
  import opened Bytes
  import opened Results
  import opened Layout

  /** Scans for the terminator of the string that starts at `start`. */
  method ScanNullTerminated(data: seq<byte>, start: nat) returns (res: Result<seq<byte>>)
    ensures res == CString(data, start)
  {
    CStringFacts(data, start);
    if start >= |data| {
      return Err(MalformedString);
    }
    var i := start;
    while i < |data| && data[i] != 0
      invariant start <= i <= |data|
      invariant forall k :: start <= k < i ==> data[k] != 0
      decreases |data| - i
    {
      i := i + 1;
    }
    if i == |data| {
      return Err(MalformedString);
    }
    return Ok(data[start..i]);
  }

  class Reader {
    const buf: Buffer
    var pos: nat

    constructor (buf: Buffer, start: nat)
      ensures this.buf == buf && pos == start
    {
      this.buf := buf;
      pos := start;
    }

    method ReadSByte() returns (res: Result<SByte>)
      modifies this
      ensures old(pos) + 1 <= |buf.data| ==> res == Ok(SByteAt(buf, old(pos))) && pos == old(pos) + 1
      ensures old(pos) + 1 > |buf.data| ==> res == Err(OutOfBounds)
    {
      if pos + 1 > |buf.data| {
        return Err(OutOfBounds);
      }
      res := Ok(SByteAt(buf, pos));
      pos := pos + 1;
    }

    method ReadInt32() returns (res: Result<Int32>)
      modifies this
      ensures old(pos) + 4 <= |buf.data| ==> res == Ok(Int32At(buf, old(pos))) && pos == old(pos) + 4
      ensures old(pos) + 4 > |buf.data| ==> res == Err(OutOfBounds)
    {
      if pos + 4 > |buf.data| {
        return Err(OutOfBounds);
      }
      res := Ok(Int32At(buf, pos));
      pos := pos + 4;
    }

    method ReadUInt32() returns (res: Result<UInt32>)
      modifies this
      ensures old(pos) + 4 <= |buf.data| ==> res == Ok(UInt32At(buf, old(pos))) && pos == old(pos) + 4
      ensures old(pos) + 4 > |buf.data| ==> res == Err(OutOfBounds)
    {
      if pos + 4 > |buf.data| {
        return Err(OutOfBounds);
      }
      res := Ok(UInt32At(buf, pos));
      pos := pos + 4;
    }

    /** ReadSingle, kept as the raw 32-bit word. */
    method ReadSingle() returns (res: Result<UInt32>)
      modifies this
      ensures old(pos) + 4 <= |buf.data| ==> res == Ok(UInt32At(buf, old(pos))) && pos == old(pos) + 4
      ensures old(pos) + 4 > |buf.data| ==> res == Err(OutOfBounds)
    {
      res := ReadUInt32();
    }

    method ReadInt64() returns (res: Result<Int64>)
      modifies this
      ensures old(pos) + 8 <= |buf.data| ==> res == Ok(Int64At(buf, old(pos))) && pos == old(pos) + 8
      ensures old(pos) + 8 > |buf.data| ==> res == Err(OutOfBounds)
    {
      if pos + 8 > |buf.data| {
        return Err(OutOfBounds);
      }
      res := Ok(Int64At(buf, pos));
      pos := pos + 8;
    }

    method ReadOffset() returns (res: Result<nat>)
      modifies this
      ensures old(pos) + buf.W() <= |buf.data| ==> res == Ok(OffsetAt(buf, old(pos))) && pos == old(pos) + buf.W()
      ensures old(pos) + buf.W() > |buf.data| ==> res == Err(OutOfBounds)
    {
      if pos + buf.W() > |buf.data| {
        return Err(OutOfBounds);
      }
      res := Ok(OffsetAt(buf, pos));
      pos := pos + buf.W();
    }

    /** SeekCurrent: moving past the end is allowed; the next read fails instead. */
    method SeekCurrent(count: nat)
      modifies this
      ensures pos == old(pos) + count
    {
      pos := pos + count;
    }

    /** ReadString: the null-terminated string at the cursor; the cursor moves past it. */
    method ReadString() returns (res: Result<seq<byte>>)
      modifies this
      ensures Agrees(res, pos, StringField(buf, old(pos)))
    {
      var s :- ScanNullTerminated(buf.data, pos);
      pos := pos + |s| + 1;
      return Ok(s);
    }

    /** ReadStringAtOffset: seeks away and back, so the cursor is left where it was. */
    method ReadStringAtOffset(off: nat) returns (res: Result<Option<seq<byte>>>)
      ensures res == StringAtOffset(buf, off)
    {
      if off == 0 {
        return Ok(None);
      }
      if off >= |buf.data| {
        return Err(InvalidOffset(off));
      }
      var s :- ScanNullTerminated(buf.data, off);
      return Ok(Some(s));
    }

    /** The first half of ReadAtOffset for a non-zero offset: checks the offset, moves the
        cursor there and hands back the position to return to. */
    method EnterOffset(off: nat) returns (res: Result<nat>)
      requires off != 0
      modifies this
      ensures off < |buf.data| ==> res == Ok(old(pos)) && pos == off
      ensures off >= |buf.data| ==> res == Err(InvalidOffset(off))
    {
      if off >= |buf.data| {
        return Err(InvalidOffset(off));
      }
      res := Ok(pos);
      pos := off;
    }

    /** The second half of ReadAtOffset: back to the saved position. */
    method RestorePosition(saved: nat)
      modifies this
      ensures pos == saved
    {
      pos := saved;
    }
  }
}
