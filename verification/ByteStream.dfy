// The byte stream under the wire formats (ReCapABR/common/cf_stream.c).

/** Numbers as bytes, most significant first. */
module ByteCodec {
  import opened Wrappers

  const U8: nat := 0x100
  const U16: nat := 0x1_0000
  const U32: nat := 0x1_0000_0000

  function Put2(v: nat): (b: seq<byte>)
    requires v < U16
    ensures |b| == 2
  {
    [v / U8, v % U8]
  }

  function Get2(b: seq<byte>): (v: nat)
    requires |b| == 2
    ensures v < U16
  {
    b[0] * U8 + b[1]
  }

  function Put4(v: nat): (b: seq<byte>)
    requires v < U32
    ensures |b| == 4
  {
    Put2(v / U16) + Put2(v % U16)
  }

  function Get4(b: seq<byte>): (v: nat)
    requires |b| == 4
    ensures v < U32
  {
    Get2(b[..2]) * U16 + Get2(b[2..])
  }

  /** The two's complement of a signed 32-bit number. */
  function Unsigned(v: int): (u: nat)
    requires -0x8000_0000 <= v < 0x8000_0000
    ensures u < U32
  {
    if v < 0 then v + U32 else v
  }

  function Signed(u: nat): (v: int)
    requires u < U32
    ensures -0x8000_0000 <= v < 0x8000_0000
  {
    if u < 0x8000_0000 then u else u - U32
  }

  // ---- reading from what is left of a stream ----

  /** A value and what is left; a read past the end yields 0 and takes nothing. */
  function Take1(s: seq<byte>): (nat, seq<byte>) {
    if |s| < 1 then (0, s) else (s[0], s[1..])
  }

  function Take2(s: seq<byte>): (nat, seq<byte>) {
    if |s| < 2 then (0, s) else (Get2(s[..2]), s[2..])
  }

  function Take4(s: seq<byte>): (int, seq<byte>) {
    if |s| < 4 then (0, s) else (Signed(Get4(s[..4])), s[4..])
  }

  /** What was put first is taken first. */
  lemma TakeBack(v1: byte, v2: nat, v4: int, rest: seq<byte>)
    requires v2 < U16 && -0x8000_0000 <= v4 < 0x8000_0000
    ensures Take1([v1] + rest) == (v1, rest)
    ensures Take2(Put2(v2) + rest) == (v2, rest)
    ensures Take4(Put4(Unsigned(v4)) + rest) == (v4, rest)
  {
  }
}

/** The growing buffer with its write and read positions. */
module BinStreams {
  import opened Wrappers
  import opened ByteCodec

  const DEFAULT_SIZE: nat := 1024

  class BinStream {
    var data: array<byte>
    var used: nat
    var rsize: nat

    ghost predicate Valid()
      reads this
    {
      rsize <= used <= data.Length && data.Length > 0
    }

    /** All bytes written. */
    ghost function Contents(): seq<byte>
      reads this, data
      requires Valid()
    {
      data[..used]
    }

    /** The bytes written but not read. */
    ghost function Unread(): seq<byte>
      reads this, data
      requires Valid()
    {
      data[rsize..used]
    }

    constructor ()
      ensures Valid() && Contents() == [] && rsize == 0 && fresh(data)
    {
      data := new byte[DEFAULT_SIZE];
      used, rsize := 0, 0;
    }

    method Rewind(reset: bool)
      requires Valid()
      modifies this`used, this`rsize
      ensures Valid() && rsize == 0
      ensures Contents() == if reset then [] else old(Contents())
    {
      if reset {
        used := 0;
      }
      rsize := 0;
    }

    /** Doubles the buffer until the new size fits; the bytes and positions stay. */
    method Resize(newSize: nat)
      requires Valid()
      modifies this`data
      ensures Valid() && data.Length >= newSize && Contents() == old(Contents())
      ensures data == old(data) || fresh(data)
    {
      if newSize <= data.Length {
        return;
      }
      var size := data.Length;
      while newSize > size
        invariant size >= data.Length
        decreases newSize - size
      {
        size := size * 2;
      }
      var moved := new byte[size];
      for i := 0 to used
        invariant moved[..i] == data[..i]
        modifies moved
      {
        moved[i] := data[i];
      }
      data := moved;
    }

    /** RESIZE and the copy of the bytes, shared by the writes. */
    method Append(bytes: seq<byte>)
      requires Valid()
      modifies this`data, this`used, data
      ensures Valid() && Contents() == old(Contents()) + bytes && rsize == old(rsize)
      ensures data == old(data) || fresh(data)
    {
      if data.Length < used + |bytes| {
        Resize(used + |bytes|);
      }
      ghost var before := Contents();
      for i := 0 to |bytes|
        invariant data[..used + i] == before + bytes[..i]
        modifies data
      {
        ghost var written := data[..used + i];
        data[used + i] := bytes[i];
        assert data[..used + i + 1] == written + [bytes[i]];
        assert bytes[..i + 1] == bytes[..i] + [bytes[i]];
      }
      assert bytes[..|bytes|] == bytes;
      used := used + |bytes|;
    }

    method Write1(v: byte)
      requires Valid()
      modifies this`data, this`used, data
      ensures Valid() && Contents() == old(Contents()) + [v] && rsize == old(rsize)
      ensures data == old(data) || fresh(data)
    {
      Append([v]);
    }

    method Write2(v: nat)
      requires Valid() && v < U16
      modifies this`data, this`used, data
      ensures Valid() && Contents() == old(Contents()) + Put2(v) && rsize == old(rsize)
      ensures data == old(data) || fresh(data)
    {
      Append([v / U8, v % U8]);
    }

    method WriteInt4(v: int)
      requires Valid() && -0x8000_0000 <= v < 0x8000_0000
      modifies this`data, this`used, data
      ensures Valid() && Contents() == old(Contents()) + Put4(Unsigned(v)) && rsize == old(rsize)
      ensures data == old(data) || fresh(data)
    {
      var u := Unsigned(v);
      Append([u / U16 / U8, u / U16 % U8, u % U16 / U8, u % U16 % U8]);
    }

    method Read1() returns (v: byte)
      requires Valid()
      modifies this`rsize
      ensures Valid() && (v, Unread()) == Take1(old(Unread()))
    {
      if used < rsize + 1 {
        return 0;
      }
      v := data[rsize];
      rsize := rsize + 1;
    }

    method Read2() returns (v: nat)
      requires Valid()
      modifies this`rsize
      ensures Valid() && (v, Unread()) == Take2(old(Unread()))
    {
      if used < rsize + 2 {
        return 0;
      }
      v := Get2([data[rsize], data[rsize + 1]]);
      assert data[rsize..used][..2] == [data[rsize], data[rsize + 1]];
      rsize := rsize + 2;
    }

    method ReadInt4() returns (v: int)
      requires Valid()
      modifies this`rsize
      ensures Valid() && (v, Unread()) == Take4(old(Unread()))
    {
      if used < rsize + 4 {
        return 0;
      }
      v := Signed(Get4(data[rsize..rsize + 4]));
      assert data[rsize..used][..4] == data[rsize..rsize + 4];
      rsize := rsize + 4;
    }
  }
}
