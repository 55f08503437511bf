/** The nine message kinds, in both directions, and their wire format. */
module Wire {
  import opened Bytes
  import opened Status
  import opened HandlePlugin
  import opened Fields

  datatype Header = Header(contextId: uint32, smId: uint32, cmd: uint32)

  /** One constructor per command; `Command` gives the number on the wire. */
  datatype Kind =
    | OpenContext | CloseContext | OpenSession | CloseSession | InvokeCommand
    | RegisterMemory | UnregisterMemory | Check | System

  const SK_TAPI_SYSTEM: nat := 8
  const REQUEST: nat := 0
  const RESPONSE: nat := 1

  datatype Body =
    | OpenContextReq(contextId: uint32)
    | OpenContextResp(handle: Handle, status: int32)
    | CloseContextReq(context: Handle)
    | CloseContextResp(status: int32)
    | OpenSessionReq(context: Handle, taid: Handle)
    | OpenSessionResp(handle: Handle, status: int32)
    | CloseSessionReq(context: Handle, session: Handle)
    | CloseSessionResp(status: int32)
    | InvokeReq(context: Handle, session: Handle, cmd: uint32)
    | InvokeResp(status: int32)
    | RegisterReq(context: Handle, memorySize: uint32, flag: uint32, addr: uint32)
    | RegisterResp(addr: uint32, memoryId: Handle, status: int32)
    | UnregisterReq(context: Handle, memoryId: Handle)
    | UnregisterResp(status: int32)
    | CheckReq
    | CheckResp(status: int32)
    | SystemResp(status: int32)

  datatype Message = Message(hdr: Header, body: Body)

  /** Which routine handles a message, and in which direction. */
  datatype Form = Form(kind: Kind, request: bool)

  function Command(k: Kind): uint32
  {
    match k
    case OpenContext => 0
    case CloseContext => 1
    case OpenSession => 2
    case CloseSession => 3
    case InvokeCommand => 4
    case RegisterMemory => 5
    case UnregisterMemory => 6
    case Check => 7
    case System => 8
  }

  function FormOf(b: Body): Form
  {
    match b
    case OpenContextReq(_) => Form(OpenContext, true)
    case OpenContextResp(_, _) => Form(OpenContext, false)
    case CloseContextReq(_) => Form(CloseContext, true)
    case CloseContextResp(_) => Form(CloseContext, false)
    case OpenSessionReq(_, _) => Form(OpenSession, true)
    case OpenSessionResp(_, _) => Form(OpenSession, false)
    case CloseSessionReq(_, _) => Form(CloseSession, true)
    case CloseSessionResp(_) => Form(CloseSession, false)
    case InvokeReq(_, _, _) => Form(InvokeCommand, true)
    case InvokeResp(_) => Form(InvokeCommand, false)
    case RegisterReq(_, _, _, _) => Form(RegisterMemory, true)
    case RegisterResp(_, _, _) => Form(RegisterMemory, false)
    case UnregisterReq(_, _) => Form(UnregisterMemory, true)
    case UnregisterResp(_) => Form(UnregisterMemory, false)
    case CheckReq => Form(Check, true)
    case CheckResp(_) => Form(Check, false)
    case SystemResp(_) => Form(System, false)
  }

  /** What the `type` argument selects. The system routine answers to the number of its own command only. */
  function Select(k: Kind, ty: nat): Option<Form>
  {
    if k == System then (if ty == SK_TAPI_SYSTEM then Some(Form(System, false)) else None)
    else Some(Form(k, ty == REQUEST))
  }

  function BodyFields(b: Body): seq<Field>
  {
    match b
    case OpenContextReq(cid) => [F32(cid)]
    case OpenContextResp(h, s) => [FBuf(h), FS32(s)]
    case CloseContextReq(c) => [FBuf(c)]
    case CloseContextResp(s) => [FS32(s)]
    case OpenSessionReq(c, t) => [FBuf(c), FBuf(t)]
    case OpenSessionResp(h, s) => [FBuf(h), FS32(s)]
    case CloseSessionReq(c, h) => [FBuf(c), FBuf(h)]
    case CloseSessionResp(s) => [FS32(s)]
    case InvokeReq(c, h, cmd) => [FBuf(c), FBuf(h), F32(cmd)]
    case InvokeResp(s) => [FS32(s)]
    case RegisterReq(c, size, flag, addr) => [FBuf(c), F32(size), F32(flag), F32(addr)]
    case RegisterResp(addr, id, s) => [F32(addr), FBuf(id), FS32(s)]
    case UnregisterReq(c, id) => [FBuf(c), FBuf(id)]
    case UnregisterResp(s) => [FS32(s)]
    case CheckReq => []
    case CheckResp(s) => [FS32(s)]
    case SystemResp(s) => [FS32(s)]
  }

  function HeaderFields(h: Header): seq<Field> { [F32(h.contextId), F32(h.smId), F32(h.cmd)] }

  function MessageFields(m: Message): seq<Field> { HeaderFields(m.hdr) + BodyFields(m.body) }

  const HEADER_LAYOUT: seq<FieldType> := [Word32, Word32, Word32]
  const H: FieldType := Buffer(HANDLE_SIZE)

  function BodyLayout(f: Form): seq<FieldType>
  {
    match f.kind
    case OpenContext => if f.request then [Word32] else [H, Signed32]
    case CloseContext => if f.request then [H] else [Signed32]
    case OpenSession => if f.request then [H, H] else [H, Signed32]
    case CloseSession => if f.request then [H, H] else [Signed32]
    case InvokeCommand => if f.request then [H, H, Word32] else [Signed32]
    case RegisterMemory => if f.request then [H, Word32, Word32, Word32] else [Word32, H, Signed32]
    case UnregisterMemory => if f.request then [H, H] else [Signed32]
    case Check => if f.request then [] else [Signed32]
    case System => [Signed32]
  }

  function Layout(f: Form): seq<FieldType> { HEADER_LAYOUT + BodyLayout(f) }

  /** The bytes each form takes on the wire, as numbers. */
  function WireBytes(f: Form): nat
  {
    12 + match f.kind
         case OpenContext => if f.request then 4 else 20
         case CloseContext => if f.request then 16 else 4
         case OpenSession => if f.request then 32 else 20
         case CloseSession => if f.request then 32 else 4
         case InvokeCommand => if f.request then 36 else 4
         case RegisterMemory => if f.request then 28 else 24
         case UnregisterMemory => if f.request then 32 else 4
         case Check => if f.request then 0 else 4
         case System => 4
  }

  /** The system routine has no request direction. */
  predicate Proper(f: Form) { f.kind == System ==> !f.request }

  function BodyFrom(f: Form, fs: seq<Field>): Body
    requires Typed(fs, BodyLayout(f))
  {
    match f.kind
    case OpenContext =>
      if f.request then OpenContextReq(fs[0].u) else OpenContextResp(fs[0].bytes, fs[1].s)
    case CloseContext =>
      if f.request then CloseContextReq(fs[0].bytes) else CloseContextResp(fs[0].s)
    case OpenSession =>
      if f.request then OpenSessionReq(fs[0].bytes, fs[1].bytes) else OpenSessionResp(fs[0].bytes, fs[1].s)
    case CloseSession =>
      if f.request then CloseSessionReq(fs[0].bytes, fs[1].bytes) else CloseSessionResp(fs[0].s)
    case InvokeCommand =>
      if f.request then InvokeReq(fs[0].bytes, fs[1].bytes, fs[2].u) else InvokeResp(fs[0].s)
    case RegisterMemory =>
      if f.request then RegisterReq(fs[0].bytes, fs[1].u, fs[2].u, fs[3].u)
      else RegisterResp(fs[0].u, fs[1].bytes, fs[2].s)
    case UnregisterMemory =>
      if f.request then UnregisterReq(fs[0].bytes, fs[1].bytes) else UnregisterResp(fs[0].s)
    case Check => if f.request then CheckReq else CheckResp(fs[0].s)
    case System => SystemResp(fs[0].s)
  }

  function HeaderFrom(fs: seq<Field>): Header
    requires Typed(fs, HEADER_LAYOUT)
  {
    Header(fs[0].u, fs[1].u, fs[2].u)
  }

  function MessageFrom(f: Form, fs: seq<Field>): Message
    requires Typed(fs, Layout(f))
  {
    assert forall i :: 0 <= i < |BodyLayout(f)| ==> TypeOf(fs[3..][i]) == Layout(f)[3 + i];
    assert forall i :: 0 <= i < 3 ==> TypeOf(fs[..3][i]) == Layout(f)[i];
    Message(HeaderFrom(fs[..3]), BodyFrom(f, fs[3..]))
  }

  function EncodeMessage(m: Message): seq<byte> { Encode(MessageFields(m)) }

  function DecodeMessage(f: Form, bs: seq<byte>): Option<Message>
  {
    if |bs| < WireBytes(f) then None
    else
      LayoutSize(f);
      EncodeDecode(Layout(f), bs);
      Some(MessageFrom(f, Decode(Layout(f), bs)))
  }

  function DecodeHeader(bs: seq<byte>): Option<Header>
  {
    if |bs| < 12 then None
    else
      HeaderSize();
      EncodeDecode(HEADER_LAYOUT, bs);
      Some(HeaderFrom(Decode(HEADER_LAYOUT, bs)))
  }

  // ---------------------------------------------------------------- laws

  lemma HeaderSize()
    ensures WireSize(HEADER_LAYOUT) == 12
  {
    SizeOfThree(Word32, Word32, Word32);
  }

  lemma {:induction false} WireSizeConcat(a: seq<FieldType>, b: seq<FieldType>)
    ensures WireSize(a + b) == WireSize(a) + WireSize(b)
    decreases |b|
  {
    if b == [] {
      assert a + b == a;
    } else {
      var front, last := LastOf(b);
      assert a + b == (a + front) + [last];
      WireSizeConcat(a, front);
      WireSizeAppend(a + front, last);
      WireSizeAppend(front, last);
    }
  }

  lemma LayoutSize(f: Form)
    ensures WireSize(Layout(f)) == WireBytes(f)
  {
    HeaderSize();
    WireSizeConcat(HEADER_LAYOUT, BodyLayout(f));
    BodySize(f);
  }

  lemma SizeOfThree(a: FieldType, b: FieldType, c: FieldType)
    ensures WireSize([a]) == Size(a)
    ensures WireSize([a, b]) == Size(a) + Size(b)
    ensures WireSize([a, b, c]) == Size(a) + Size(b) + Size(c)
  {
    assert [] + [a] == [a] && [a] + [b] == [a, b] && [a, b] + [c] == [a, b, c];
    WireSizeAppend([], a);
    WireSizeAppend([a], b);
    WireSizeAppend([a, b], c);
  }

  lemma BodySize(f: Form)
    ensures WireSize(BodyLayout(f)) == WireBytes(f) - 12
  {
    if f.request {
      match f.kind
      case RegisterMemory =>
        SizeOfThree(H, Word32, Word32);
        assert [H, Word32, Word32] + [Word32] == BodyLayout(f);
        WireSizeAppend([H, Word32, Word32], Word32);
      case OpenContext => SizeOfThree(Word32, H, H);
      case System => SizeOfThree(Signed32, H, H);
      case _ => SizeOfThree(H, H, Word32);
    } else {
      match f.kind
      case RegisterMemory => SizeOfThree(Word32, H, Signed32);
      case OpenContext => SizeOfThree(H, Signed32, H);
      case OpenSession => SizeOfThree(H, Signed32, H);
      case _ => SizeOfThree(Signed32, H, H);
    }
  }

  lemma FieldsOfMessage(m: Message)
    ensures Types(MessageFields(m)) == Layout(FormOf(m.body))
    ensures MessageFrom(FormOf(m.body), MessageFields(m)) == m
  {
    assert MessageFields(m)[..3] == HeaderFields(m.hdr);
    assert MessageFields(m)[3..] == BodyFields(m.body);
  }

  lemma MessageOfFields(f: Form, fs: seq<Field>)
    requires Proper(f) && Typed(fs, Layout(f))
    ensures var m := MessageFrom(f, fs); FormOf(m.body) == f && MessageFields(m) == fs
  {
    var m := MessageFrom(f, fs);
    assert fs == fs[..3] + fs[3..];
    assert fs[..3] == HeaderFields(m.hdr);
    assert BodyFields(m.body) == fs[3..];
  }

  /** Unpacking undoes packing, whatever follows the message in the buffer. */
  lemma UnpackPack(m: Message, rest: seq<byte>)
    ensures |EncodeMessage(m)| == WireBytes(FormOf(m.body))
    ensures DecodeMessage(FormOf(m.body), EncodeMessage(m) + rest) == Some(m)
  {
    FieldsOfMessage(m);
    DecodeEncode(MessageFields(m), rest);
    LayoutSize(FormOf(m.body));
  }

  lemma PrefixDecodes(m: Message, bs: seq<byte>, n: nat)
    requires n <= |bs| && EncodeMessage(m) == bs[..n]
    ensures DecodeMessage(FormOf(m.body), bs) == Some(m)
  {
    assert bs == EncodeMessage(m) + bs[n..];
    UnpackPack(m, bs[n..]);
  }

  /** Unpacking fails exactly on short buffers; packing what was unpacked gives back the bytes consumed. */
  lemma PackUnpack(f: Form, bs: seq<byte>)
    requires Proper(f)
    ensures DecodeMessage(f, bs).None? <==> |bs| < WireBytes(f)
    ensures DecodeMessage(f, bs).Some? ==>
              var m := DecodeMessage(f, bs).value;
              FormOf(m.body) == f && EncodeMessage(m) == bs[..WireBytes(f)]
  {
    if |bs| >= WireBytes(f) {
      LayoutSize(f);
      EncodeDecode(Layout(f), bs);
      MessageOfFields(f, Decode(Layout(f), bs));
    }
  }

  /** The header routine agrees with every message routine on the first twelve bytes. */
  lemma HeaderOfMessage(m: Message, rest: seq<byte>)
    ensures DecodeHeader(EncodeMessage(m) + rest) == Some(m.hdr)
  {
    hide Encode, Decode, WireSize, BodyFields;
    var hf, bf := HeaderFields(m.hdr), BodyFields(m.body);
    EncodeConcat(hf, bf);
    assert Encode(hf + bf) + rest == Encode(hf) + (Encode(bf) + rest);
    assert Types(hf) == HEADER_LAYOUT;
    DecodeEncode(hf, Encode(bf) + rest);
    HeaderSize();
  }

  lemma PrefixHeader(m: Message, bs: seq<byte>, n: nat)
    requires n <= |bs| && EncodeMessage(m) == bs[..n]
    ensures DecodeHeader(bs) == Some(m.hdr)
  {
    assert bs == EncodeMessage(m) + bs[n..];
    HeaderOfMessage(m, bs[n..]);
  }

  // ---------------------------------------------------------------- the bytes at their offsets

  /** The number of a word with these bytes, most significant first. */
  function WordOf(w: int, x: int, y: int, z: int): int { 0x100_0000 * w + 0x1_0000 * x + 0x100 * y + z }

  lemma FourBytes(b: seq<byte>)
    requires |b| == 4
    ensures Value(b) == WordOf(b[0], b[1], b[2], b[3])
  {
    assert b[..3][..2] == b[..2] && b[..2][..1] == b[..1] && b[..1][..0] == [];
    assert Value(b[..1]) == b[0] && Value(b[..2]) == 256 * Value(b[..1]) + b[1];
    assert Value(b[..3]) == 256 * Value(b[..2]) + b[2];
  }

  /** A word's four bytes, most significant first, and a signed status in two's complement. */
  lemma WordBytes(u: uint32, s: int32)
    ensures var b := BigEndian(u, 4); u == WordOf(b[0], b[1], b[2], b[3])
    ensures var b := StatusBytes(s);
            (if s < 0 then s + TWO_32 else s) == WordOf(b[0], b[1], b[2], b[3])
  {
    hide BigEndian, Value, WordOf, Pow256;
    WordRoundTrip(u);
    FourBytes(BigEndian(u, 4));
    Pow256Values();
    ValueOfBigEndian(ToUint64(s), 4);
    LowWord(s);
    FourBytes(StatusBytes(s));
  }

  lemma LowWord(s: int32)
    ensures ToUint64(s) % TWO_32 == if s < 0 then s + TWO_32 else s
  {
    if s < 0 { assert ToUint64(s) == (TWO_32 - 1) * TWO_32 + (s + TWO_32); }
  }

  function StatusBytes(s: int32): seq<byte> { BigEndian(ToUint64(s), 4) }

  /** Every message byte by byte: the context id, the security machine id and the command number in the first twelve,
      and behind them the fields of each body in this order. */
  lemma OnTheWire(m: Message)
    ensures |EncodeMessage(m)| >= 12
    ensures EncodeMessage(m)[..12] == BigEndian(m.hdr.contextId, 4) + BigEndian(m.hdr.smId, 4) + BigEndian(m.hdr.cmd, 4)
    ensures var body := EncodeMessage(m)[12..];
            match m.body
            case OpenContextReq(cid) => body == BigEndian(cid, 4)
            case OpenContextResp(h, s) => body == h + StatusBytes(s)
            case CloseContextReq(c) => body == c
            case CloseContextResp(s) => body == StatusBytes(s)
            case OpenSessionReq(c, taid) => body == c + taid
            case OpenSessionResp(h, s) => body == h + StatusBytes(s)
            case CloseSessionReq(c, h) => body == c + h
            case CloseSessionResp(s) => body == StatusBytes(s)
            case InvokeReq(c, h, cmd) => body == c + h + BigEndian(cmd, 4)
            case InvokeResp(s) => body == StatusBytes(s)
            case RegisterReq(c, size, flag, addr) =>
              body == c + BigEndian(size, 4) + BigEndian(flag, 4) + BigEndian(addr, 4)
            case RegisterResp(addr, id, s) => body == BigEndian(addr, 4) + id + StatusBytes(s)
            case UnregisterReq(c, id) => body == c + id
            case UnregisterResp(s) => body == StatusBytes(s)
            case CheckReq => body == []
            case CheckResp(s) => body == StatusBytes(s)
            case SystemResp(s) => body == StatusBytes(s)
  {
    hide Encode, BigEndian;
    var hf, fs := HeaderFields(m.hdr), BodyFields(m.body);
    EncodeConcat(hf, fs);
    EncodeThree(hf[0], hf[1], hf[2]);
    EncodeBody(fs);
  }

  lemma EncodeBody(fs: seq<Field>)
    ensures |fs| == 0 ==> Encode(fs) == []
    ensures |fs| == 1 ==> Encode(fs) == EncodeField(fs[0])
    ensures |fs| == 2 ==> Encode(fs) == EncodeField(fs[0]) + EncodeField(fs[1])
    ensures |fs| == 3 ==> Encode(fs) == EncodeField(fs[0]) + EncodeField(fs[1]) + EncodeField(fs[2])
    ensures |fs| == 4 ==>
              Encode(fs) == EncodeField(fs[0]) + EncodeField(fs[1]) + EncodeField(fs[2]) + EncodeField(fs[3])
  {
    if |fs| == 1 {
      assert fs == [fs[0]];
      EncodeOne(fs[0]);
    } else if |fs| == 2 {
      assert fs == [fs[0], fs[1]];
      EncodeTwo(fs[0], fs[1]);
    } else if |fs| == 3 {
      assert fs == [fs[0], fs[1], fs[2]];
      EncodeThree(fs[0], fs[1], fs[2]);
    } else if |fs| == 4 {
      assert fs == [fs[0], fs[1], fs[2], fs[3]];
      EncodeFour(fs[0], fs[1], fs[2], fs[3]);
    }
  }

  /** The header is the first three words of what is received. */
  lemma HeaderWords(received: seq<byte>)
    requires |received| >= 12
    ensures DecodeHeader(received).Some?
    ensures var hdr := DecodeHeader(received).value;
            && BigEndian(hdr.contextId, 4) == received[..4] && BigEndian(hdr.smId, 4) == received[4..8]
            && BigEndian(hdr.cmd, 4) == received[8..12]
  {
    hide BigEndian, Encode, Decode;
    HeaderSize();
    EncodeDecode(HEADER_LAYOUT, received);
    var fs := Decode(HEADER_LAYOUT, received);
    var hdr := HeaderFrom(fs);
    assert fs == HeaderFields(hdr) == [F32(hdr.contextId), F32(hdr.smId), F32(hdr.cmd)];
    EncodeThree(F32(hdr.contextId), F32(hdr.smId), F32(hdr.cmd));
    var a, b, c := BigEndian(hdr.contextId, 4), BigEndian(hdr.smId, 4), BigEndian(hdr.cmd, 4);
    assert received[..12] == a + b + c;
    assert received[..4] == received[..12][..4] && received[4..8] == received[..12][4..8];
    assert received[8..12] == received[..12][8..12];
  }
}
