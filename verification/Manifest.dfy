/** The TApp manifest and its packed form. */
module Manifest {
  import opened Bytes
  import opened Status
  import opened HandlePlugin
  import opened Fields

  type Text256 = s: seq<byte> | |s| == 256 witness seq(256, _ => 0)
  type Text512 = s: seq<byte> | |s| == 512 witness seq(512, _ => 0)

  datatype Info = Info(
    taid: Handle, multiInstance: byte, multiSession: byte, maxHeapSize: uint32, maxStackSize: uint32,
    serviceName: Text256, vendorName: Text256, description: Text512)

  const LAYOUT: seq<FieldType> :=
    [Buffer(16), Word8, Word8, Word32, Word32, Buffer(256), Buffer(256), Buffer(512)]

  /** TAPPS_INFO_DATA_SIZE. */
  const PACKED_SIZE: nat := 1050

  function InfoFields(i: Info): seq<Field>
  {
    [FBuf(i.taid), F8(i.multiInstance), F8(i.multiSession), F32(i.maxHeapSize), F32(i.maxStackSize),
     FBuf(i.serviceName), FBuf(i.vendorName), FBuf(i.description)]
  }

  function InfoFrom(fs: seq<Field>): Info
    requires Typed(fs, LAYOUT)
  {
    Info(fs[0].bytes, fs[1].b, fs[2].b, fs[3].u, fs[4].u, fs[5].bytes, fs[6].bytes, fs[7].bytes)
  }

  function EncodeInfo(i: Info): seq<byte> { Encode(InfoFields(i)) }

  function DecodeInfo(bs: seq<byte>): Option<Info>
  {
    if |bs| < PACKED_SIZE then None
    else
      LayoutSize();
      EncodeDecode(LAYOUT, bs);
      Some(InfoFrom(Decode(LAYOUT, bs)))
  }

  lemma LayoutSize()
    ensures WireSize(LAYOUT) == PACKED_SIZE
  {
    assert SizeFirst(LAYOUT, 3) == 18;
    assert SizeFirst(LAYOUT, 5) == 26;
    assert SizeFirst(LAYOUT, 7) == 538;
  }

  /** Reading back a packed manifest returns it, whatever follows in the buffer. */
  lemma UnpackPack(i: Info, rest: seq<byte>)
    ensures |EncodeInfo(i)| == PACKED_SIZE
    ensures DecodeInfo(EncodeInfo(i) + rest) == Some(i)
  {
    LayoutSize();
    assert Types(InfoFields(i)) == LAYOUT;
    DecodeEncode(InfoFields(i), rest);
  }

  /** Every buffer of at least the packed size is the packed form of exactly one manifest, plus a rest. */
  lemma PackUnpack(bs: seq<byte>)
    ensures DecodeInfo(bs).None? <==> |bs| < PACKED_SIZE
    ensures DecodeInfo(bs).Some? ==> EncodeInfo(DecodeInfo(bs).value) == bs[..PACKED_SIZE]
  {
    if |bs| >= PACKED_SIZE {
      LayoutSize();
      EncodeDecode(LAYOUT, bs);
      var fs := Decode(LAYOUT, bs);
      assert Typed(fs, LAYOUT);
      assert InfoFields(InfoFrom(fs)) == fs;
    }
  }

  /** The packed manifest byte by byte: the id, the two flags, the two sizes, and the three texts. */
  lemma PackedBytes(i: Info)
    ensures EncodeInfo(i) == i.taid + [i.multiInstance] + [i.multiSession] + BigEndian(i.maxHeapSize, 4)
                             + (BigEndian(i.maxStackSize, 4) + i.serviceName + i.vendorName + i.description)
  {
    hide Encode;
    var fs := InfoFields(i);
    assert fs == fs[..4] + fs[4..];
    assert fs[..4] == [fs[0], fs[1], fs[2], fs[3]] && fs[4..] == [fs[4], fs[5], fs[6], fs[7]];
    EncodeConcat(fs[..4], fs[4..]);
    EncodeFour(fs[0], fs[1], fs[2], fs[3]);
    EncodeFour(fs[4], fs[5], fs[6], fs[7]);
    assert BigEndian(i.multiInstance, 1) == [i.multiInstance] && BigEndian(i.multiSession, 1) == [i.multiSession];
  }

  method StoreProperties(p: Packer, i: Info) returns (o: Outcome)
    requires p.Valid() && p.count == 0 && p.written == []
    modifies p`count, p`written, p.buf
    ensures p.Valid() && (o.Pass? <==> 26 <= p.limit)
    ensures o.Pass? ==> p.count == 26 && p.written == InfoFields(i)[..5]
  {
    o := Pass;
    :- p.StoreBuffer(i.taid);
    :- p.Store8(i.multiInstance);
    :- p.Store8(i.multiSession);
    :- p.Store32(i.maxHeapSize);
    :- p.Store32(i.maxStackSize);
    return Pass;
  }

  method StoreInfo(p: Packer, i: Info) returns (o: Outcome)
    requires p.Valid() && p.count == 0 && p.written == []
    modifies p`count, p`written, p.buf
    ensures p.Valid() && (o.Pass? <==> PACKED_SIZE <= p.limit)
    ensures o.Pass? ==> p.count == PACKED_SIZE && p.written == InfoFields(i)
  {
    o := Pass;
    :- StoreProperties(p, i);
    :- p.StoreBuffer(i.serviceName);
    :- p.StoreBuffer(i.vendorName);
    :- p.StoreBuffer(i.description);
    return Pass;
  }

  /** tapp_manifest_pack_put. */
  method Put(i: Info, buf: array<byte>, size: nat) returns (err: int, newSize: nat)
    requires size <= buf.Length && size + 8 < TWO_32
    modifies buf
    ensures err == if PACKED_SIZE <= size then SUCCESS else INVALID_PARAM
    ensures err == SUCCESS ==> newSize == PACKED_SIZE && buf[..] == EncodeInfo(i) + old(buf[..])[PACKED_SIZE..]
    ensures err != SUCCESS ==> newSize == size && buf[size..] == old(buf[size..])
  {
    var p := new Packer(buf, size);
    var o := StoreInfo(p, i);
    if o.Fail? {
      assert buf[size..] == p.before[size..];
      return INVALID_PARAM, size;
    }
    return SUCCESS, p.count;
  }

  method ReadProperties(u: Unpacker) returns (r: Result<(Handle, byte, byte, uint32, uint32)>)
    requires u.Valid() && u.count == 0 && u.fields == []
    modifies u`count, u`fields
    ensures u.Valid() && (r.Success? <==> 26 <= |u.data|)
    ensures r.Success? ==> u.count == 26
    ensures r.Success? ==> var (t, mi, ms, h, s) := r.value; u.fields == [FBuf(t), F8(mi), F8(ms), F32(h), F32(s)]
  {
    var taid :- u.ReadBuffer(16);
    var instance :- u.Read8();
    var session :- u.Read8();
    var heap :- u.Read32();
    var stack :- u.Read32();
    return Success((taid, instance, session, heap, stack));
  }

  method ReadInfo(u: Unpacker) returns (r: Result<Info>)
    requires u.Valid() && u.count == 0 && u.fields == []
    modifies u`count, u`fields
    ensures u.Valid() && (r.Success? <==> PACKED_SIZE <= |u.data|)
    ensures r.Success? ==> u.count == PACKED_SIZE && u.fields == InfoFields(r.value)
  {
    var p :- ReadProperties(u);
    var service :- u.ReadBuffer(256);
    var vendor :- u.ReadBuffer(256);
    var description :- u.ReadBuffer(512);
    return Success(Info(p.0, p.1, p.2, p.3, p.4, service, vendor, description));
  }

  /** tapp_manifest_pack_get. */
  method Get(buf: seq<byte>) returns (err: int, info: Option<Info>)
    ensures info == DecodeInfo(buf)
    ensures err == if info.Some? then SUCCESS else INVALID_PARAM
  {
    if |buf| == 0 {
      return INVALID_PARAM, None;
    }
    var u := new Unpacker(buf);
    var r := ReadInfo(u);
    if r.Failure? {
      return INVALID_PARAM, None;
    }
    UnpackPack(r.value, buf[u.count..]);
    assert buf == buf[..u.count] + buf[u.count..];
    return SUCCESS, Some(r.value);
  }
}
