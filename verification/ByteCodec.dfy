/** The appending writer and the bounded reader of memrpc/src/core/byte_writer.cpp and
    memrpc/src/core/byte_reader.cpp.  Numbers are copied in host order, which is little-endian
    here. */
module ByteCodec {
  import opened Words
  import opened Runs

  type Byte = x: int | 0 <= x < 256

  function BytesOf(v: U32): (b: seq<Byte>)
    ensures |b| == 4
  {
    [v % 256, v / 256 % 256, v / 256 / 256 % 256, v / 256 / 256 / 256]
  }

  function ValueOf(b: seq<Byte>): (v: U32)
    requires |b| == 4
  {
    var b0: int, b1: int, b2: int, b3: int := b[0], b[1], b[2], b[3];
    b0 + 256 * (b1 + 256 * (b2 + 256 * b3))
  }

  lemma ValueOfBytes(v: U32)
    ensures ValueOf(BytesOf(v)) == v
  {
  }

  lemma BytesOfValue(b: seq<Byte>)
    requires |b| == 4
    ensures BytesOf(ValueOf(b)) == b
  {
    var b0: int, b1: int, b2: int, b3: int := b[0], b[1], b[2], b[3];
    var high := b2 + 256 * b3;
    var middle := b1 + 256 * high;
    assert ValueOf(b) / 256 == middle && ValueOf(b) % 256 == b0;
    assert middle / 256 == high && middle % 256 == b1;
  }

  /** The length prefix of a string is truncated to 32 bits, and so is what follows it. */
  function StringLength(s: seq<Byte>): (n: U32)
    ensures n <= |s|
  {
    |s| % WORD
  }

  function StringBytes(s: seq<Byte>): (b: seq<Byte>)
    ensures |b| == 4 + StringLength(s)
  {
    BytesOf(StringLength(s)) + s[..StringLength(s)]
  }

  class ByteWriter {
    var bytes: seq<Byte>

    constructor ()
      ensures bytes == []
    {
      bytes := [];
    }

    method WriteBytes(data: seq<Byte>, size: U32)
      requires size <= |data|
      modifies this
      ensures bytes == old(bytes) + data[..size]
    {
      bytes := bytes + data[..size];
    }

    method WriteUint32(value: U32)
      modifies this
      ensures bytes == old(bytes) + BytesOf(value)
    {
      WriteBytes(BytesOf(value), 4);
    }

    method WriteString(value: seq<Byte>)
      modifies this
      ensures bytes == old(bytes) + StringBytes(value)
    {
      var size: U32 := |value| % WORD;
      WriteUint32(size);
      WriteBytes(value, size);
    }
  }

  class ByteReader {
    const source: seq<Byte>
    var offset: nat

    ghost predicate Valid()
      reads this
    {
      offset <= |source|
    }

    constructor (bytes: seq<Byte>)
      ensures source == bytes && offset == 0 && Valid()
    {
      source := bytes;
      offset := 0;
    }

    /** Reads exactly `size` bytes or, if fewer are left, none. */
    method ReadBytes(size: U32) returns (r: Option<seq<Byte>>)
      requires Valid()
      modifies this
      ensures Valid()
      ensures r.Some? <==> old(offset) + size <= |source|
      ensures r.Some? ==> offset == old(offset) + size && r.value == source[old(offset)..offset]
      ensures r.None? ==> offset == old(offset)
    {
      if offset + size > |source| {
        return None;
      }
      r := Some(source[offset..offset + size]);
      offset := offset + size;
    }

    method ReadUint32() returns (r: Option<U32>)
      requires Valid()
      modifies this
      ensures Valid()
      ensures r.Some? <==> old(offset) + 4 <= |source|
      ensures r.Some? ==> offset == old(offset) + 4 && source[old(offset)..offset] == BytesOf(r.value)
      ensures r.None? ==> offset == old(offset)
    {
      var b := ReadBytes(4);
      if b.None? {
        return None;
      }
      BytesOfValue(b.value);
      r := Some(ValueOf(b.value));
    }

    /** A string that is cut short leaves the cursor after its length prefix. */
    method ReadString() returns (r: Option<seq<Byte>>)
      requires Valid()
      modifies this
      ensures Valid()
      ensures r.Some? ==> |r.value| < WORD && offset == old(offset) + 4 + |r.value|
                          && source[old(offset)..offset] == StringBytes(r.value)
      ensures r.None? ==> old(offset) + 4 > |source|
                          || old(offset) + 4 + ValueOf(source[old(offset)..old(offset) + 4]) > |source|
      ensures r.None? ==> offset == old(offset) || offset == old(offset) + 4
    {
      var start := offset;
      var size := ReadUint32();
      if size.None? {
        return None;
      }
      ValueOfBytes(size.value);
      assert source[start..start + 4] == BytesOf(size.value);
      r := ReadBytes(size.value);
      if r.Some? {
        assert source[start..offset] == source[start..start + 4] + source[start + 4..offset];
        assert r.value[..StringLength(r.value)] == r.value;
      }
    }
  }
}
