/** The file-reference envelope of memrpc/src/core/file_payload.cpp:237-267. */
module Envelope {
  import opened Runs
  import opened Words
  import opened ByteCodec

  const MAGIC: U32 := 0x56465031
  const VERSION: U32 := 1

  datatype FileRef = FileRef(path: seq<Byte>, size: U32)

  function Encode(ref: FileRef): (b: seq<Byte>)
    ensures |b| == 16 + StringLength(ref.path)
  {
    BytesOf(MAGIC) + BytesOf(VERSION) + BytesOf(ref.size) + StringBytes(ref.path)
  }

  /** The reference an envelope stands for; trailing bytes are ignored. */
  function Decode(b: seq<Byte>): (r: Option<FileRef>) {
    if |b| < 16 || ValueOf(b[0..4]) != MAGIC || ValueOf(b[4..8]) != VERSION then None else
    var n := ValueOf(b[12..16]);
    if n == 0 || 16 + n > |b| then None
    else Some(FileRef(b[16..16 + n], ValueOf(b[8..12])))
  }

  /** Four fields of four bytes each, then the rest. */
  lemma Fields(f0: seq<Byte>, f1: seq<Byte>, f2: seq<Byte>, f3: seq<Byte>, rest: seq<Byte>, b: seq<Byte>)
    requires |f0| == |f1| == |f2| == |f3| == 4
    requires b == f0 + f1 + f2 + f3 + rest
    ensures b[0..4] == f0 && b[4..8] == f1 && b[8..12] == f2 && b[12..16] == f3 && b[16..] == rest
  {
  }

  /** An encoded reference decodes to itself exactly when its path is not empty and its length
      fits the 32-bit prefix. */
  lemma DecodeEncode(ref: FileRef, trailing: seq<Byte>)
    ensures Decode(Encode(ref) + trailing) == Some(ref) <==> 0 < |ref.path| < WORD
  {
    var b := Encode(ref) + trailing;
    var n := StringLength(ref.path);
    assert b == BytesOf(MAGIC) + BytesOf(VERSION) + BytesOf(ref.size) + BytesOf(n) + (ref.path[..n] + trailing);
    Fields(BytesOf(MAGIC), BytesOf(VERSION), BytesOf(ref.size), BytesOf(n), ref.path[..n] + trailing, b);
    ValueOfBytes(MAGIC);
    ValueOfBytes(VERSION);
    ValueOfBytes(ref.size);
    ValueOfBytes(n);
    assert b[16..16 + n] == b[16..][..n] == ref.path[..n];
    if |ref.path| < WORD {
      assert ref.path[..n] == ref.path;
    } else {
      assert |ref.path[..n]| < |ref.path|;
    }
  }

  /** Whatever decodes is an envelope followed by bytes that are ignored. */
  lemma EncodeDecode(b: seq<Byte>)
    requires Decode(b).Some?
    ensures Encode(Decode(b).value) <= b
  {
    var ref := Decode(b).value;
    var n := |ref.path|;
    BytesOfValue(b[0..4]);
    BytesOfValue(b[4..8]);
    BytesOfValue(b[8..12]);
    BytesOfValue(b[12..16]);
    assert ref.path[..n] == ref.path;
    assert b[..16 + n] == b[0..4] + b[4..8] + b[8..12] + (b[12..16] + b[16..16 + n]);
  }

  method EncodeFilePayloadEnvelope(ref: FileRef) returns (payload: seq<Byte>)
    ensures payload == Encode(ref)
  {
    var writer := new ByteWriter();
    writer.WriteUint32(MAGIC);
    writer.WriteUint32(VERSION);
    writer.WriteUint32(ref.size);
    writer.WriteString(ref.path);
    payload := writer.bytes;
  }

  method DecodeFilePayloadEnvelope(bytes: seq<Byte>) returns (r: Option<FileRef>)
    ensures r == Decode(bytes)
  {
    var reader := new ByteReader(bytes);
    var magic := reader.ReadUint32();
    if magic.None? || magic.value != MAGIC {
      if magic.Some? { ValueOfBytes(magic.value); }
      return None;
    }
    ValueOfBytes(MAGIC);
    var version := reader.ReadUint32();
    if version.None? || version.value != VERSION {
      if version.Some? { ValueOfBytes(version.value); }
      return None;
    }
    ValueOfBytes(VERSION);
    var size := reader.ReadUint32();
    if size.None? {
      return None;
    }
    ValueOfBytes(size.value);
    var path := reader.ReadString();
    if path.None? {
      return None;
    }
    var n := |path.value|;
    assert bytes[12..16] == BytesOf(n) by {
      assert bytes[12..16 + n] == StringBytes(path.value);
      assert bytes[12..16] == bytes[12..16 + n][..4];
    }
    ValueOfBytes(n);
    assert bytes[16..16 + n] == path.value by {
      assert bytes[16..16 + n] == bytes[12..16 + n][4..];
      assert StringBytes(path.value)[4..] == path.value;
    }
    if path.value == [] {
      return None;
    }
    r := Some(FileRef(path.value, size.value));
  }
}
