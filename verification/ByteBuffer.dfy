/** `byte_buffer` and the operators that fill and drain it (shared/byte_buffer.cc, shared/onl_types.cc,
    shared/rendezvous.cc, shared/message.cc), in place on one array, proved against the functions of `Wire`.

    Writing `x` is described by what it does to any continuation: whatever `tail` is written next, the buffer then
    holds what it held before followed by `PutX(x, tail)`. */
module ByteBuffers {
  import opened Wire

  class ByteBuffer {
    var data: array<Byte>
    var curIndex: nat
    var numStored: nat

    ghost predicate Valid()
      reads this
    {
      curIndex <= numStored <= data.Length
    }

    /** What has been written since the last `Reset`. */
    ghost function Written(): Bytes
      requires Valid()
      reads this, data
    {
      data[..curIndex]
    }

    /** What is left to read. */
    ghost function Remaining(): Bytes
      requires Valid()
      reads this, data
    {
      data[curIndex..numStored]
    }

    constructor ()
      ensures Valid() && fresh(data)
      ensures data.Length == 2048 && curIndex == 0 && numStored == 0
    {
      data := new Byte[2048];
      curIndex, numStored := 0, 0;
    }

    /** Start again at the front; what is stored stays stored. */
    method Reset()
      requires Valid()
      modifies this`curIndex
      ensures Valid() && curIndex == 0 && Written() == []
      ensures Remaining() == old(data[..numStored])
    {
      curIndex := 0;
    }

    /** Empty the buffer and make sure it can hold `newLength` bytes; it never shrinks. */
    method Resize(newLength: nat)
      requires Valid()
      modifies this
      ensures Valid() && curIndex == 0 && numStored == 0
      ensures data.Length == if old(data.Length) < newLength then newLength else old(data.Length)
      ensures data == old(data) || fresh(data)
    {
      if data.Length < newLength {
        data := new Byte[newLength];
      }
      numStored, curIndex := 0, 0;
    }

    // ----------------------------------------------------------- writing

    method PutU8(x: Byte)
      requires Valid() && curIndex + 1 <= data.Length
      modifies this`curIndex, this`numStored, data
      ensures Valid() && numStored == curIndex == old(curIndex) + 1
      ensures Written() == old(Written()) + [x]
      ensures forall tail: Bytes :: Written() + tail == old(Written()) + Wire.PutU8(x, tail)
    {
      data[curIndex] := x;
      curIndex := curIndex + 1;
      numStored := curIndex;
    }

    method PutU16(x: U16)
      requires Valid() && curIndex + 2 <= data.Length
      modifies this`curIndex, this`numStored, data
      ensures Valid() && numStored == curIndex == old(curIndex) + 2
      ensures forall tail: Bytes :: Written() + tail == old(Written()) + Wire.PutU16(x, tail)
    {
      PutU8(x / 0x100);
      PutU8(x % 0x100);
    }

    method PutU32(x: U32)
      requires Valid() && curIndex + 4 <= data.Length
      modifies this`curIndex, this`numStored, data
      ensures Valid() && numStored == curIndex == old(curIndex) + 4
      ensures forall tail: Bytes :: Written() + tail == old(Written()) + Wire.PutU32(x, tail)
    {
      PutU16(x / 0x1_0000);
      PutU16(x % 0x1_0000);
    }

    method PutBool(x: bool)
      requires Valid() && curIndex + 2 <= data.Length
      modifies this`curIndex, this`numStored, data
      ensures Valid() && numStored == curIndex == old(curIndex) + 2
      ensures forall tail: Bytes :: Written() + tail == old(Written()) + Wire.PutBool(x, tail)
    {
      if x {
        PutU16(1);
      } else {
        PutU16(0);
      }
    }

    /** The loop that appends characters or raw bytes one at a time. */
    method PutBytes(s: Bytes)
      requires Valid() && curIndex + |s| <= data.Length
      modifies this`curIndex, this`numStored, data
      ensures Valid() && curIndex == old(curIndex) + |s|
      ensures numStored == if s == [] then old(numStored) else curIndex
      ensures Written() == old(Written()) + s
    {
      for i := 0 to |s|
        invariant Valid() && curIndex == old(curIndex) + i
        invariant numStored == if i == 0 then old(numStored) else curIndex
        invariant Written() == old(Written()) + s[..i]
      {
        PutU8(s[i]);
      }
    }

    method PutStr(s: Str)
      requires Valid() && curIndex + 4 + |s| <= data.Length
      modifies this`curIndex, this`numStored, data
      ensures Valid() && numStored == curIndex == old(curIndex) + 4 + |s|
      ensures forall tail: Bytes :: Written() + tail == old(Written()) + Wire.PutStr(s, tail)
    {
      hide Wire.PutU32, Wire.GetU32;
      PutU32(|s|);
      ghost var w := Written();
      PutBytes(s);
      forall tail: Bytes
        ensures Written() + tail == old(Written()) + Wire.PutStr(s, tail)
      {
        assert w + s + tail == w + (s + tail);
        assert Wire.PutStr(s, tail) == Wire.PutU32(|s|, s + tail);
      }
    }

    // ----------------------------------------------------------- reading

    method GetU8() returns (x: Byte)
      requires Valid() && Wire.GetU8(Remaining()).Got?
      modifies this`curIndex
      ensures Valid() && Wire.GetU8(old(Remaining())) == Got(x, Remaining())
    {
      x := data[curIndex];
      curIndex := curIndex + 1;
    }

    method GetU16() returns (x: U16)
      requires Valid() && Wire.GetU16(Remaining()).Got?
      modifies this`curIndex
      ensures Valid() && Wire.GetU16(old(Remaining())) == Got(x, Remaining())
    {
      var hi: nat := GetU8();
      var lo := GetU8();
      x := hi * 0x100 + lo;
    }

    method GetU32() returns (x: U32)
      requires Valid() && Wire.GetU32(Remaining()).Got?
      modifies this`curIndex
      ensures Valid() && Wire.GetU32(old(Remaining())) == Got(x, Remaining())
    {
      var hi: nat := GetU16();
      var lo := GetU16();
      x := hi * 0x1_0000 + lo;
    }

    method GetBool() returns (x: bool)
      requires Valid() && Wire.GetBool(Remaining()).Got?
      modifies this`curIndex
      ensures Valid() && Wire.GetBool(old(Remaining())) == Got(x, Remaining())
    {
      var w := GetU16();
      x := w != 0;
    }

    method GetBytes(n: nat) returns (s: Bytes)
      requires Valid() && n <= |Remaining()|
      modifies this`curIndex
      ensures Valid() && s == old(Remaining())[..n] && Remaining() == old(Remaining())[n..]
    {
      ghost var r := Remaining();
      s := [];
      for i := 0 to n
        invariant Valid() && curIndex == old(curIndex) + i
        invariant s == r[..i]
      {
        var c := GetU8();
        s := s + [c];
      }
    }

    method GetStr() returns (s: Str)
      requires Valid() && Wire.GetStr(Remaining()).Got?
      modifies this`curIndex
      ensures Valid() && Wire.GetStr(old(Remaining())) == Got(s, Remaining())
    {
      hide Wire.GetU32;
      var l := GetU32();
      s := GetBytes(if l > 255 then 255 else l);
    }
  }

  /** How a message takes over the `mbuf` that was read for it: `buf` grows if need be and is then read from the front. */
  method Receive(mbuf: Bytes) returns (buf: ByteBuffer)
    ensures fresh(buf) && fresh(buf.data) && buf.Valid()
    ensures buf.Remaining() == mbuf && buf.curIndex == 0
    ensures buf.data.Length >= 2048 && buf.data.Length >= |mbuf|
  {
    buf := new ByteBuffer();
    if |mbuf| >= buf.data.Length {
      buf.Resize(|mbuf|);
    }
    buf.PutBytes(mbuf);
    buf.Reset();
  }
}
