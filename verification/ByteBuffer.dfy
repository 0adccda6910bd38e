/**
 `Buffer`: a growing byte vector with a read index and a write index. The bytes between
 them are the contents.
 */
module ByteBuffer {
  import opened Options

  type Byte = bv8

  /** Indices are 32-bit words; totals stay below their range. */
  const Limit: nat := 0x1_0000_0000

  /** Size of the stack buffer of `ReadFromFD`. */
  const Extra: nat := 65536

  const CR: Byte := 13
  const LF: Byte := 10

  /** There is a CR LF at offset `i`. */
  predicate CrlfAt(s: seq<Byte>, i: nat) {
    i + 1 < |s| && s[i] == CR && s[i + 1] == LF
  }

  class Buffer {
    var readIndex: nat
    var writeIndex: nat
    var data: seq<Byte>      // buffer_

    ghost predicate Valid()
      reads this
    {
      readIndex <= writeIndex <= |data| && |data| < Limit
    }

    /** The bytes written and not read. */
    function Contents(): seq<Byte>
      reads this
      requires Valid()
    {
      data[readIndex..writeIndex]
    }

    constructor (size: nat)
      requires size < Limit
      ensures Valid() && Contents() == [] && writeIndex == 0
    {
      readIndex, writeIndex, data := 0, 0, seq(size, _ => 0);
    }

    function WritableBytes(): nat
      reads this
      requires Valid()
    {
      |data| - writeIndex
    }

    function ReadableBytes(): (n: nat)
      reads this
      requires Valid()
      ensures n == |Contents()|
    {
      writeIndex - readIndex
    }

    predicate IsEmpty()
      reads this
      requires Valid()
    {
      ReadableBytes() == 0
    }

    method EnsureWritableBytes(len: nat)
      requires Valid() && writeIndex + len < Limit
      modifies this`data
      ensures Valid() && WritableBytes() >= len && Contents() == old(Contents())
    {
      if WritableBytes() < len {
        data := data + seq(writeIndex + len - |data|, _ => 0);
      }
    }

    /** The given bytes follow the contents. */
    method Append(bytes: seq<Byte>)
      requires Valid() && writeIndex + |bytes| < Limit
      modifies this
      ensures Valid() && Contents() == old(Contents()) + bytes
      ensures writeIndex == old(writeIndex) + |bytes| && readIndex == old(readIndex)
    {
      EnsureWritableBytes(|bytes|);
      data := data[..writeIndex] + bytes + data[writeIndex + |bytes|..];
      writeIndex := writeIndex + |bytes|;
    }

    method ResetIndex()
      requires Valid()
      modifies this`readIndex, this`writeIndex
      ensures Valid() && Contents() == [] && writeIndex == 0
    {
      readIndex, writeIndex := 0, 0;
    }

    /** Drop `len` bytes from the front, or everything when there are not more. */
    method ClearReadIndex(len: nat)
      requires Valid()
      modifies this`readIndex, this`writeIndex
      ensures Valid() && Contents() == if len < |old(Contents())| then old(Contents())[len..] else []
      ensures writeIndex <= old(writeIndex)
    {
      if len < ReadableBytes() {
        readIndex := readIndex + len;
      } else {
        ResetIndex();
      }
    }

    /** `ReadAsString` and `ReadBytes`: at most `len` bytes from the front; what is left stays. */
    method Read(len: nat) returns (bytes: seq<Byte>)
      requires Valid()
      modifies this`readIndex, this`writeIndex
      ensures Valid() && bytes + Contents() == old(Contents())
      ensures |bytes| == if len < |old(Contents())| then len else |old(Contents())|
    {
      var n := if len > ReadableBytes() then ReadableBytes() else len;
      bytes := data[readIndex..readIndex + n];
      ClearReadIndex(n);
    }

    /**
     `ReadFromFD`: `readv` into the free part of the buffer and, when that is small, a
     64 KB stack buffer; `input` is what the kernel delivered, `None` an error.
     */
    method ReadFromFD(input: Option<seq<Byte>>) returns (n: int)
      requires Valid()
      requires input.Some? ==> |input.value| <= WritableBytes() + (if WritableBytes() < Extra then Extra else 0)
      requires input.Some? ==> writeIndex + |input.value| < Limit
      modifies this
      ensures Valid()
      ensures input.None? ==> n < 0 && Contents() == old(Contents())
      ensures input.Some? ==> n == |input.value| && Contents() == old(Contents()) + input.value
    {
      if input.None? { return -1; }
      var bytes, writable := input.value, WritableBytes();
      var direct := if |bytes| <= writable then |bytes| else writable;
      ghost var before := Contents();
      data := data[..writeIndex] + bytes[..direct] + data[writeIndex + direct..];
      writeIndex := writeIndex + direct;
      assert Contents() == before + bytes[..direct];
      if |bytes| > writable {
        Append(bytes[direct..]);
      }
      assert bytes == bytes[..direct] + bytes[direct..];
      n := |bytes|;
    }

    /** The offset of the first CR LF in the contents. */
    method FindCRLF() returns (r: Option<nat>)
      requires Valid()
      ensures r.Some? ==> CrlfAt(Contents(), r.value) && forall i: nat | i < r.value :: !CrlfAt(Contents(), i)
      ensures r.None? ==> forall i: nat :: !CrlfAt(Contents(), i)
    {
      var s := Contents();
      for i := 0 to |s|
        invariant forall j: nat | j < i :: !CrlfAt(s, j)
      {
        if CrlfAt(s, i) { return Some(i); }
      }
      return None;
    }

    /** Drop everything before offset `end` of the contents; an offset outside is an error and changes nothing. */
    method RetrieveUntil(end: int)
      requires Valid()
      modifies this`readIndex, this`writeIndex
      ensures Valid()
      ensures Contents() == if 0 <= end <= |old(Contents())| then old(Contents())[end..] else old(Contents())
    {
      if end < 0 || end > ReadableBytes() { return; }
      ClearReadIndex(end);
    }

    /** Exchange everything with another buffer. */
    method Swap(rhs: Buffer)
      requires Valid() && rhs.Valid()
      modifies this, rhs
      ensures Valid() && rhs.Valid()
      ensures Contents() == old(rhs.Contents()) && rhs.Contents() == old(Contents())
    {
      var d, r, w := data, readIndex, writeIndex;
      data, readIndex, writeIndex := rhs.data, rhs.readIndex, rhs.writeIndex;
      rhs.data, rhs.readIndex, rhs.writeIndex := d, r, w;
    }
  }
}
