/** The routines of sk_tapi_byte_pack.c and sk_tapi_byte_unpack.c: one store or read per field, in wire
    order, each leaving the routine at once when the buffer is too short. */
module Packing {
  import opened Bytes
  import opened Status
  import opened HandlePlugin
  import opened Fields
  import opened Wire

  /** The packer holds exactly `m` if the buffer is large enough, and has reported failure otherwise. */
  ghost predicate Packed(p: Packer, m: Message, o: Outcome)
    reads p, p.buf
  {
    && p.Valid()
    && (o.Pass? <==> WireBytes(FormOf(m.body)) <= p.limit)
    && (o.Pass? ==> p.count == WireBytes(FormOf(m.body)) && p.written == MessageFields(m))
  }

  method StoreHeader(p: Packer, h: Header) returns (o: Outcome)
    requires p.Valid() && p.count == 0 && p.written == []
    modifies p`count, p`written, p.buf
    ensures p.Valid() && (o.Pass? <==> 12 <= p.limit)
    ensures o.Pass? ==> p.count == 12 && p.written == HeaderFields(h)
  {
    o := Pass;
    :- p.Store32(h.contextId);
    :- p.Store32(h.smId);
    :- p.Store32(h.cmd);
    return Pass;
  }

  method PackOpenContext(p: Packer, m: Message) returns (o: Outcome)
    requires p.Valid() && p.count == 0 && p.written == [] && FormOf(m.body).kind == OpenContext
    modifies p`count, p`written, p.buf
    ensures Packed(p, m, o)
  {
    hide Packer.Valid, Encode;
    o := Pass;
    :- StoreHeader(p, m.hdr);
    match m.body {
      case OpenContextReq(cid) =>
        :- p.Store32(cid);
      case OpenContextResp(h, s) =>
        :- p.StoreBuffer(h);
        :- p.StoreSigned32(s);
    }
    return Pass;
  }

  method PackCloseContext(p: Packer, m: Message) returns (o: Outcome)
    requires p.Valid() && p.count == 0 && p.written == [] && FormOf(m.body).kind == CloseContext
    modifies p`count, p`written, p.buf
    ensures Packed(p, m, o)
  {
    hide Packer.Valid, Encode;
    o := Pass;
    :- StoreHeader(p, m.hdr);
    match m.body {
      case CloseContextReq(c) =>
        :- p.StoreBuffer(c);
      case CloseContextResp(s) =>
        :- p.StoreSigned32(s);
    }
    return Pass;
  }

  method PackOpenSession(p: Packer, m: Message) returns (o: Outcome)
    requires p.Valid() && p.count == 0 && p.written == [] && FormOf(m.body).kind == OpenSession
    modifies p`count, p`written, p.buf
    ensures Packed(p, m, o)
  {
    hide Packer.Valid, Encode;
    o := Pass;
    :- StoreHeader(p, m.hdr);
    match m.body {
      case OpenSessionReq(c, t) =>
        :- p.StoreBuffer(c);
        :- p.StoreBuffer(t);
      case OpenSessionResp(h, s) =>
        :- p.StoreBuffer(h);
        :- p.StoreSigned32(s);
    }
    return Pass;
  }

  method PackCloseSession(p: Packer, m: Message) returns (o: Outcome)
    requires p.Valid() && p.count == 0 && p.written == [] && FormOf(m.body).kind == CloseSession
    modifies p`count, p`written, p.buf
    ensures Packed(p, m, o)
  {
    hide Packer.Valid, Encode;
    o := Pass;
    :- StoreHeader(p, m.hdr);
    match m.body {
      case CloseSessionReq(c, h) =>
        :- p.StoreBuffer(c);
        :- p.StoreBuffer(h);
      case CloseSessionResp(s) =>
        :- p.StoreSigned32(s);
    }
    return Pass;
  }

  method PackInvokeCommand(p: Packer, m: Message) returns (o: Outcome)
    requires p.Valid() && p.count == 0 && p.written == [] && FormOf(m.body).kind == InvokeCommand
    modifies p`count, p`written, p.buf
    ensures Packed(p, m, o)
  {
    hide Packer.Valid, Encode;
    o := Pass;
    :- StoreHeader(p, m.hdr);
    match m.body {
      case InvokeReq(c, h, cmd) =>
        :- p.StoreBuffer(c);
        :- p.StoreBuffer(h);
        :- p.Store32(cmd);
      case InvokeResp(s) =>
        :- p.StoreSigned32(s);
    }
    return Pass;
  }

  method StoreRegisterRequest(p: Packer, h: Header, c: Handle, size: uint32, flag: uint32, addr: uint32)
    returns (o: Outcome)
    requires p.Valid() && p.count == 0 && p.written == []
    modifies p`count, p`written, p.buf
    ensures Packed(p, Message(h, RegisterReq(c, size, flag, addr)), o)
  {
    hide Packer.Valid, Encode;
    o := Pass;
    :- StoreHeader(p, h);
    :- p.StoreBuffer(c);
    assert p.count == 28 && p.written == HeaderFields(h) + [FBuf(c)];
    :- p.Store32(size);
    :- p.Store32(flag);
    assert p.count == 36 && p.written == HeaderFields(h) + [FBuf(c), F32(size), F32(flag)];
    :- p.Store32(addr);
    return Pass;
  }

  method StoreRegisterResponse(p: Packer, h: Header, addr: uint32, id: Handle, s: int32) returns (o: Outcome)
    requires p.Valid() && p.count == 0 && p.written == []
    modifies p`count, p`written, p.buf
    ensures Packed(p, Message(h, RegisterResp(addr, id, s)), o)
  {
    hide Packer.Valid, Encode;
    o := Pass;
    :- StoreHeader(p, h);
    :- p.Store32(addr);
    :- p.StoreBuffer(id);
    :- p.StoreSigned32(s);
    return Pass;
  }

  method PackRegisterMemory(p: Packer, m: Message) returns (o: Outcome)
    requires p.Valid() && p.count == 0 && p.written == [] && FormOf(m.body).kind == RegisterMemory
    modifies p`count, p`written, p.buf
    ensures Packed(p, m, o)
  {
    match m.body {
      case RegisterReq(c, size, flag, addr) => o := StoreRegisterRequest(p, m.hdr, c, size, flag, addr);
      case RegisterResp(addr, id, s) => o := StoreRegisterResponse(p, m.hdr, addr, id, s);
    }
  }

  method PackUnregisterMemory(p: Packer, m: Message) returns (o: Outcome)
    requires p.Valid() && p.count == 0 && p.written == [] && FormOf(m.body).kind == UnregisterMemory
    modifies p`count, p`written, p.buf
    ensures Packed(p, m, o)
  {
    hide Packer.Valid, Encode;
    o := Pass;
    :- StoreHeader(p, m.hdr);
    match m.body {
      case UnregisterReq(c, id) =>
        :- p.StoreBuffer(c);
        :- p.StoreBuffer(id);
      case UnregisterResp(s) =>
        :- p.StoreSigned32(s);
    }
    return Pass;
  }

  method PackCheck(p: Packer, m: Message) returns (o: Outcome)
    requires p.Valid() && p.count == 0 && p.written == [] && FormOf(m.body).kind == Check
    modifies p`count, p`written, p.buf
    ensures Packed(p, m, o)
  {
    hide Packer.Valid, Encode;
    o := Pass;
    :- StoreHeader(p, m.hdr);
    match m.body {
      case CheckReq =>
      case CheckResp(s) =>
        :- p.StoreSigned32(s);
    }
    return Pass;
  }

  method PackSystem(p: Packer, m: Message) returns (o: Outcome)
    requires p.Valid() && p.count == 0 && p.written == [] && FormOf(m.body).kind == System
    modifies p`count, p`written, p.buf
    ensures Packed(p, m, o)
  {
    hide Packer.Valid, Encode;
    o := Pass;
    :- StoreHeader(p, m.hdr);
    match m.body {
      case SystemResp(s) =>
        :- p.StoreSigned32(s);
    }
    return Pass;
  }

  method PackByKind(k: Kind, p: Packer, m: Message) returns (o: Outcome)
    requires p.Valid() && p.count == 0 && p.written == [] && FormOf(m.body).kind == k
    modifies p`count, p`written, p.buf
    ensures Packed(p, m, o)
  {
    match k {
      case OpenContext => o := PackOpenContext(p, m);
      case CloseContext => o := PackCloseContext(p, m);
      case OpenSession => o := PackOpenSession(p, m);
      case CloseSession => o := PackCloseSession(p, m);
      case InvokeCommand => o := PackInvokeCommand(p, m);
      case RegisterMemory => o := PackRegisterMemory(p, m);
      case UnregisterMemory => o := PackUnregisterMemory(p, m);
      case Check => o := PackCheck(p, m);
      case System => o := PackSystem(p, m);
    }
  }

  /** Any of the nine packing routines: `k` names it, `ty` is its type argument, `packLen` the room there is. */
  method Pack(k: Kind, m: Message, buf: array<byte>, packLen: nat, ty: nat) returns (err: int, newLen: nat)
    requires packLen <= buf.Length && packLen + 8 < TWO_32
    requires Select(k, ty).Some? ==> FormOf(m.body) == Select(k, ty).value
    modifies buf
    ensures Select(k, ty).None? ==> err == PACK_INVALID_PARAMS && newLen == 0 && buf[..] == old(buf[..])
    ensures Select(k, ty).Some? ==>
      err == if WireBytes(FormOf(m.body)) <= packLen then PACK_SUCCESS else PACK_FAILED
    ensures err == PACK_SUCCESS ==>
      newLen == |EncodeMessage(m)| <= packLen && buf[..] == EncodeMessage(m) + old(buf[..])[newLen..]
    ensures err == PACK_FAILED ==> newLen == packLen && buf[packLen..] == old(buf[packLen..])
  {
    if Select(k, ty).None? {
      return PACK_INVALID_PARAMS, 0;
    }
    var p := new Packer(buf, packLen);
    var o := PackByKind(k, p, m);
    if o.Fail? {
      assert buf[packLen..] == p.before[packLen..];
      return PACK_FAILED, packLen;
    }
    UnpackPack(m, []);
    return PACK_SUCCESS, p.count;
  }

  // ---------------------------------------------------------------- unpacking

  /** The unpacker has read exactly `m`, or the data was too short for the form. */
  ghost predicate Unpacked(u: Unpacker, f: Form, r: Result<Message>)
    reads u
  {
    && u.Valid()
    && (r.Success? <==> WireBytes(f) <= |u.data|)
    && (r.Success? ==> FormOf(r.value.body) == f && u.fields == MessageFields(r.value))
  }

  method ReadHandle(u: Unpacker) returns (r: Result<Handle>)
    requires u.Valid()
    modifies u`count, u`fields
    ensures u.Got(old(u.count), old(u.fields), H, r.Success?, if r.Success? then FBuf(r.value) else F8(0))
  {
    var bytes :- u.ReadBuffer(HANDLE_SIZE);
    return Success(bytes);
  }

  method ReadHeader(u: Unpacker) returns (r: Result<Header>)
    requires u.Valid() && u.count == 0 && u.fields == []
    modifies u`count, u`fields
    ensures u.Valid() && (r.Success? <==> 12 <= |u.data|)
    ensures r.Success? ==> u.count == 12 && u.fields == HeaderFields(r.value)
  {
    var contextId :- u.Read32();
    var smId :- u.Read32();
    var cmd :- u.Read32();
    return Success(Header(contextId, smId, cmd));
  }

  /** sk_tapi_header_unpack. */
  method UnpackHeader(pack: seq<byte>) returns (err: int, hdr: Option<Header>)
    ensures hdr == DecodeHeader(pack)
    ensures err == if hdr.Some? then PACK_SUCCESS else PACK_FAILED
  {
    var u := new Unpacker(pack);
    var r := ReadHeader(u);
    if r.Failure? {
      return PACK_FAILED, None;
    }
    DecodeEncode(u.fields, pack[12..]);
    HeaderSize();
    assert Types(u.fields) == HEADER_LAYOUT;
    assert u.data == u.data[..12] + pack[12..];
    return PACK_SUCCESS, Some(r.value);
  }

  method UnpackOpenContext(u: Unpacker, request: bool) returns (r: Result<Message>)
    requires u.Valid() && u.count == 0 && u.fields == []
    modifies u`count, u`fields
    ensures Unpacked(u, Form(OpenContext, request), r)
  {
    hide Unpacker.Valid, Encode;
    var hdr :- ReadHeader(u);
    if request {
      var cid :- u.Read32();
      return Success(Message(hdr, OpenContextReq(cid)));
    }
    var h :- ReadHandle(u);
    var s :- u.ReadSigned32();
    return Success(Message(hdr, OpenContextResp(h, s)));
  }

  method UnpackCloseContext(u: Unpacker, request: bool) returns (r: Result<Message>)
    requires u.Valid() && u.count == 0 && u.fields == []
    modifies u`count, u`fields
    ensures Unpacked(u, Form(CloseContext, request), r)
  {
    hide Unpacker.Valid, Encode;
    var hdr :- ReadHeader(u);
    if request {
      var c :- ReadHandle(u);
      return Success(Message(hdr, CloseContextReq(c)));
    }
    var s :- u.ReadSigned32();
    return Success(Message(hdr, CloseContextResp(s)));
  }

  method UnpackOpenSession(u: Unpacker, request: bool) returns (r: Result<Message>)
    requires u.Valid() && u.count == 0 && u.fields == []
    modifies u`count, u`fields
    ensures Unpacked(u, Form(OpenSession, request), r)
  {
    hide Unpacker.Valid, Encode;
    var hdr :- ReadHeader(u);
    if request {
      var c :- ReadHandle(u);
      var t :- ReadHandle(u);
      return Success(Message(hdr, OpenSessionReq(c, t)));
    }
    var h :- ReadHandle(u);
    var s :- u.ReadSigned32();
    return Success(Message(hdr, OpenSessionResp(h, s)));
  }

  method UnpackCloseSession(u: Unpacker, request: bool) returns (r: Result<Message>)
    requires u.Valid() && u.count == 0 && u.fields == []
    modifies u`count, u`fields
    ensures Unpacked(u, Form(CloseSession, request), r)
  {
    hide Unpacker.Valid, Encode;
    var hdr :- ReadHeader(u);
    if request {
      var c :- ReadHandle(u);
      var h :- ReadHandle(u);
      return Success(Message(hdr, CloseSessionReq(c, h)));
    }
    var s :- u.ReadSigned32();
    return Success(Message(hdr, CloseSessionResp(s)));
  }

  method UnpackInvokeCommand(u: Unpacker, request: bool) returns (r: Result<Message>)
    requires u.Valid() && u.count == 0 && u.fields == []
    modifies u`count, u`fields
    ensures Unpacked(u, Form(InvokeCommand, request), r)
  {
    hide Unpacker.Valid, Encode;
    var hdr :- ReadHeader(u);
    if request {
      var c :- ReadHandle(u);
      var h :- ReadHandle(u);
      var cmd :- u.Read32();
      return Success(Message(hdr, InvokeReq(c, h, cmd)));
    }
    var s :- u.ReadSigned32();
    return Success(Message(hdr, InvokeResp(s)));
  }

  method ReadRegisterRequest(u: Unpacker) returns (r: Result<Message>)
    requires u.Valid() && u.count == 0 && u.fields == []
    modifies u`count, u`fields
    ensures Unpacked(u, Form(RegisterMemory, true), r)
  {
    hide Unpacker.Valid, Encode;
    var hdr :- ReadHeader(u);
    var c :- ReadHandle(u);
    assert u.count == 28 && u.fields == HeaderFields(hdr) + [FBuf(c)];
    var size :- u.Read32();
    var flag :- u.Read32();
    assert u.count == 36 && u.fields == HeaderFields(hdr) + [FBuf(c), F32(size), F32(flag)];
    var addr :- u.Read32();
    return Success(Message(hdr, RegisterReq(c, size, flag, addr)));
  }

  method ReadRegisterResponse(u: Unpacker) returns (r: Result<Message>)
    requires u.Valid() && u.count == 0 && u.fields == []
    modifies u`count, u`fields
    ensures Unpacked(u, Form(RegisterMemory, false), r)
  {
    hide Unpacker.Valid, Encode;
    var hdr :- ReadHeader(u);
    var addr :- u.Read32();
    var id :- ReadHandle(u);
    var s :- u.ReadSigned32();
    return Success(Message(hdr, RegisterResp(addr, id, s)));
  }

  method UnpackRegisterMemory(u: Unpacker, request: bool) returns (r: Result<Message>)
    requires u.Valid() && u.count == 0 && u.fields == []
    modifies u`count, u`fields
    ensures Unpacked(u, Form(RegisterMemory, request), r)
  {
    if request {
      r := ReadRegisterRequest(u);
    } else {
      r := ReadRegisterResponse(u);
    }
  }

  method UnpackUnregisterMemory(u: Unpacker, request: bool) returns (r: Result<Message>)
    requires u.Valid() && u.count == 0 && u.fields == []
    modifies u`count, u`fields
    ensures Unpacked(u, Form(UnregisterMemory, request), r)
  {
    hide Unpacker.Valid, Encode;
    var hdr :- ReadHeader(u);
    if request {
      var c :- ReadHandle(u);
      var id :- ReadHandle(u);
      return Success(Message(hdr, UnregisterReq(c, id)));
    }
    var s :- u.ReadSigned32();
    return Success(Message(hdr, UnregisterResp(s)));
  }

  method UnpackCheck(u: Unpacker, request: bool) returns (r: Result<Message>)
    requires u.Valid() && u.count == 0 && u.fields == []
    modifies u`count, u`fields
    ensures Unpacked(u, Form(Check, request), r)
  {
    hide Unpacker.Valid, Encode;
    var hdr :- ReadHeader(u);
    if request {
      return Success(Message(hdr, CheckReq));
    }
    var s :- u.ReadSigned32();
    return Success(Message(hdr, CheckResp(s)));
  }

  method UnpackSystem(u: Unpacker, request: bool) returns (r: Result<Message>)
    requires u.Valid() && u.count == 0 && u.fields == [] && !request
    modifies u`count, u`fields
    ensures Unpacked(u, Form(System, request), r)
  {
    hide Unpacker.Valid, Encode;
    var hdr :- ReadHeader(u);
    var s :- u.ReadSigned32();
    return Success(Message(hdr, SystemResp(s)));
  }

  method UnpackByKind(k: Kind, u: Unpacker, request: bool) returns (r: Result<Message>)
    requires u.Valid() && u.count == 0 && u.fields == [] && Proper(Form(k, request))
    modifies u`count, u`fields
    ensures Unpacked(u, Form(k, request), r)
  {
    match k {
      case OpenContext => r := UnpackOpenContext(u, request);
      case CloseContext => r := UnpackCloseContext(u, request);
      case OpenSession => r := UnpackOpenSession(u, request);
      case CloseSession => r := UnpackCloseSession(u, request);
      case InvokeCommand => r := UnpackInvokeCommand(u, request);
      case RegisterMemory => r := UnpackRegisterMemory(u, request);
      case UnregisterMemory => r := UnpackUnregisterMemory(u, request);
      case Check => r := UnpackCheck(u, request);
      case System => r := UnpackSystem(u, false);
    }
  }

  /** The routines that name an empty buffer an invalid parameter; the others find it too short. */
  predicate RefusesEmpty(k: Kind) { k != System && k != OpenContext && k != CloseContext }

  lemma NothingDecodes(k: Kind, ty: nat)
    ensures Select(k, ty).Some? ==> DecodeMessage(Select(k, ty).value, []).None?
  {
  }

  /** Any of the nine unpacking routines. */
  method Unpack(k: Kind, pack: seq<byte>, ty: nat) returns (err: int, m: Option<Message>)
    ensures Select(k, ty).None? ==> err == PACK_INVALID_PARAMS && m.None?
    ensures Select(k, ty).Some? ==>
      && m == DecodeMessage(Select(k, ty).value, pack)
      && err == if m.Some? then PACK_SUCCESS
                else if pack == [] && RefusesEmpty(k) then PACK_INVALID_PARAMS else PACK_FAILED
  {
    if |pack| == 0 && RefusesEmpty(k) {
      NothingDecodes(k, ty);
      return PACK_INVALID_PARAMS, None;
    }
    if Select(k, ty).None? {
      return PACK_INVALID_PARAMS, None;
    }
    var u := new Unpacker(pack);
    var r := UnpackByKind(k, u, k != System && ty == REQUEST);
    if r.Failure? {
      return PACK_FAILED, None;
    }
    PrefixDecodes(r.value, pack, u.count);
    return PACK_SUCCESS, Some(r.value);
  }
}
