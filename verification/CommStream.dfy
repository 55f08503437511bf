/** What goes over the two byte streams of a connection: length words, messages, the raw operation structure and the
    parameter buffers, and how each side takes it apart again. */
module CommStream {
  import opened Bytes
  import opened Status
  import opened HandlePlugin
  import opened Fields

  const MAXIMUM_OPERATIONS: nat := 4

  /** sk_op_param together with the memory its address leads to. */
  datatype Param = Param(size: uint32, flag: uint32, addr: uint32, id: Handle, data: seq<byte>)

  type Params = ps: seq<Param> | |ps| == MAXIMUM_OPERATIONS
    witness seq(MAXIMUM_OPERATIONS, _ => Param(0, 0, 0, ZeroHandle(), []))

  /** sk_operation. */
  datatype Operation = Operation(numParam: uint32, params: Params)

  /** The bit of SKTEEC_MEMREF_OUT. */
  predicate IsOut(p: Param) { p.flag % 2 == 1 }

  /** The address leads to a buffer of the stated size. */
  predicate Backed(p: Param) { |p.data| == p.size }

  /** An operation within bounds, with its buffers. */
  predicate Ready(o: Operation)
  {
    o.numParam <= MAXIMUM_OPERATIONS && forall i :: 0 <= i < o.numParam ==> Backed(o.params[i])
  }

  // ---------------------------------------------------------------- the raw structure

  const OPERATION_LAYOUT: seq<FieldType> :=
    [Word32, Word32, Word32, Word32, Buffer(16), Word32, Word32, Word32, Buffer(16), Word32, Word32, Word32, Buffer(16),
     Word32, Word32, Word32, Buffer(16)]

  /** sizeof(sk_operation). */
  const OPERATION_SIZE: nat := 116

  function OperationFields(o: Operation): seq<Field>
  {
    var p, q, r, t := o.params[0], o.params[1], o.params[2], o.params[3];
    [F32(o.numParam),
     F32(p.size), F32(p.flag), F32(p.addr), FBuf(p.id), F32(q.size), F32(q.flag), F32(q.addr), FBuf(q.id),
     F32(r.size), F32(r.flag), F32(r.addr), FBuf(r.id), F32(t.size), F32(t.flag), F32(t.addr), FBuf(t.id)]
  }

  function ParamFrom(fs: seq<Field>, at: nat): Param
    requires at + 4 <= |fs| && fs[at].F32? && fs[at + 1].F32? && fs[at + 2].F32?
    requires TypeOf(fs[at + 3]) == Buffer(HANDLE_SIZE)
  {
    Param(fs[at].u, fs[at + 1].u, fs[at + 2].u, fs[at + 3].bytes, [])
  }

  function OperationFrom(fs: seq<Field>): Operation
    requires Typed(fs, OPERATION_LAYOUT)
  {
    assert forall i :: 0 <= i < 17 ==> TypeOf(fs[i]) == OPERATION_LAYOUT[i];
    Operation(fs[0].u, [ParamFrom(fs, 1), ParamFrom(fs, 5), ParamFrom(fs, 9), ParamFrom(fs, 13)])
  }

  /** The structure's bytes. Both ends share one byte order, which is taken to be the network's. */
  function Image(o: Operation): seq<byte> { Encode(OperationFields(o)) }

  lemma OperationSize()
    ensures WireSize(OPERATION_LAYOUT) == OPERATION_SIZE
  {
    assert SizeFirst(OPERATION_LAYOUT, 3) == 12;
    assert SizeFirst(OPERATION_LAYOUT, 5) == 32;
    assert SizeFirst(OPERATION_LAYOUT, 7) == 40;
    assert SizeFirst(OPERATION_LAYOUT, 9) == 60;
    assert SizeFirst(OPERATION_LAYOUT, 11) == 68;
    assert SizeFirst(OPERATION_LAYOUT, 13) == 88;
    assert SizeFirst(OPERATION_LAYOUT, 15) == 96;
    assert SizeFirst(OPERATION_LAYOUT, 16) == 100;
  }

  function DecodeImage(bs: seq<byte>): Operation
    requires |bs| == OPERATION_SIZE
  {
    OperationSize();
    EncodeDecode(OPERATION_LAYOUT, bs);
    OperationFrom(Decode(OPERATION_LAYOUT, bs))
  }

  /** A parameter as it arrives: the address means nothing here. */
  function Bare(p: Param): Param { p.(data := []) }

  lemma ParamBack(fs: seq<Field>, at: nat, p: Param)
    requires at + 4 <= |fs| && fs[at] == F32(p.size) && fs[at + 1] == F32(p.flag) && fs[at + 2] == F32(p.addr)
    requires fs[at + 3] == FBuf(p.id)
    ensures ParamFrom(fs, at) == Bare(p)
  {
  }

  lemma FromFields(o: Operation)
    requires Typed(OperationFields(o), OPERATION_LAYOUT)
    ensures var d := OperationFrom(OperationFields(o));
            d.numParam == o.numParam && forall i :: 0 <= i < MAXIMUM_OPERATIONS ==> d.params[i] == Bare(o.params[i])
  {
    var fs, d := OperationFields(o), OperationFrom(OperationFields(o));
    hide ParamFrom, Bare;
    ParamBack(fs, 1, o.params[0]);
    ParamBack(fs, 5, o.params[1]);
    ParamBack(fs, 9, o.params[2]);
    ParamBack(fs, 13, o.params[3]);
    assert d.params == [Bare(o.params[0]), Bare(o.params[1]), Bare(o.params[2]), Bare(o.params[3])];
  }

  lemma ImageRoundTrip(o: Operation)
    ensures |Image(o)| == OPERATION_SIZE
    ensures var d := DecodeImage(Image(o));
            d.numParam == o.numParam && forall i :: 0 <= i < MAXIMUM_OPERATIONS ==> d.params[i] == Bare(o.params[i])
  {
    hide Encode, Decode, WireSize, OperationFrom, Bare;
    var fs := OperationFields(o);
    assert Types(fs) == OPERATION_LAYOUT;
    OperationSize();
    DecodeEncode(fs, []);
    assert Encode(fs) + [] == Encode(fs);
    FromFields(o);
  }

  /** A parameter's 28 bytes. */
  function ParamImage(p: Param): seq<byte>
  {
    BigEndian(p.size, 4) + BigEndian(p.flag, 4) + BigEndian(p.addr, 4) + p.id
  }

  /** The structure byte by byte: the number of parameters, then size, flag, address and id of each. */
  lemma ImageBytes(o: Operation)
    ensures Image(o) == BigEndian(o.numParam, 4)
                        + (ParamImage(o.params[0]) + ParamImage(o.params[1]) + ParamImage(o.params[2])
                           + ParamImage(o.params[3]))
  {
    hide Encode, BigEndian;
    var n := [F32(o.numParam)];
    var a, b, c, d := Group(o.params[0]), Group(o.params[1]), Group(o.params[2]), Group(o.params[3]);
    assert OperationFields(o) == n + (a + b + c + d);
    EncodeConcat(n, a + b + c + d);
    EncodeConcat(a + b + c, d);
    EncodeConcat(a + b, c);
    EncodeConcat(a, b);
    EncodeOne(n[0]);
    GroupBytes(o.params[0]);
    GroupBytes(o.params[1]);
    GroupBytes(o.params[2]);
    GroupBytes(o.params[3]);
  }

  function Group(p: Param): seq<Field> { [F32(p.size), F32(p.flag), F32(p.addr), FBuf(p.id)] }

  lemma GroupBytes(p: Param)
    ensures Encode(Group(p)) == ParamImage(p)
  {
    EncodeFour(F32(p.size), F32(p.flag), F32(p.addr), FBuf(p.id));
  }

  // ---------------------------------------------------------------- frames

  type Message = m: seq<byte> | |m| < TWO_32 witness []

  function Word(n: uint32): seq<byte> { BigEndian(n, 4) }

  /** The buffers that travel to the server: those flagged OUT. */
  function OutData(ps: seq<Param>): seq<byte>
  {
    if ps == [] then [] else (if IsOut(ps[0]) then ps[0].data else []) + OutData(ps[1..])
  }

  /** The buffers that travel back: the others, each behind its size. */
  function BackData(ps: seq<Param>): seq<byte>
  {
    if ps == [] then [] else (if IsOut(ps[0]) then [] else Word(ps[0].size) + ps[0].data) + BackData(ps[1..])
  }

  function Request(msg: Message, op: Option<Operation>): seq<byte>
    requires op.Some? ==> Ready(op.value)
  {
    Word(|msg|) + msg +
    match op
    case None => Word(0)
    case Some(o) => Word(OPERATION_SIZE) + Image(o) + OutData(o.params[..o.numParam])
  }

  function Response(msg: Message, o: Operation): seq<byte>
    requires Ready(o)
  {
    Word(|msg|) + msg +
    if o.numParam == 0 then Word(0) else Word(OPERATION_SIZE) + Image(o) + BackData(o.params[..o.numParam])
  }

  /** The frames in bytes: lengths come first, most significant byte first. */
  lemma FrameBytes(msg: Message, o: Operation)
    requires Ready(o)
    ensures Request(msg, None) == Word(|msg|) + msg + [0, 0, 0, 0]
    ensures Request(msg, Some(o)) == Word(|msg|) + msg + ([0, 0, 0, 116] + Image(o) + OutData(o.params[..o.numParam]))
    ensures Response(msg, o) == Word(|msg|) + msg +
              if o.numParam == 0 then [0, 0, 0, 0]
              else [0, 0, 0, 116] + Image(o) + BackData(o.params[..o.numParam])
  {
    hide Image, OutData, BackData;
    SmallWord(0);
    SmallWord(116);
  }

  lemma SmallWord(n: byte)
    ensures Word(n) == [0, 0, 0, n]
  {
    assert BigEndian(0, 1) == [0] && BigEndian(0, 2) == [0, 0] && BigEndian(0, 3) == [0, 0, 0];
  }

  // ---------------------------------------------------------------- taking them apart

  /** Short: the stream ends early, or what it announces does not fit. */
  datatype Parsed<+T> = Short | Parsed(value: T, rest: seq<byte>)

  function Take(s: seq<byte>, n: nat): Parsed<seq<byte>>
  {
    if |s| < n then Short else Parsed(s[..n], s[n..])
  }

  function TakeWord(s: seq<byte>): (r: Parsed<uint32>)
    ensures r.Parsed? <==> |s| >= 4
  {
    if |s| < 4 then Short
    else
      WordBytesRoundTrip(s[..4]);
      Parsed(Value(s[..4]), s[4..])
  }

  /** A length word and that many bytes. */
  function TakePacket(s: seq<byte>): (r: Parsed<seq<byte>>)
    ensures r.Parsed? ==> |r.value| < TWO_32
  {
    match TakeWord(s)
    case Short => Short
    case Parsed(n, rest) => Take(rest, n)
  }

  /** The server's reading of the parameter buffers, given what the structure says: none for those not flagged. */
  function TakeOuts(ps: seq<Param>, s: seq<byte>): (r: Parsed<seq<seq<byte>>>)
    ensures r.Parsed? ==> |r.value| == |ps|
    ensures r.Parsed? ==> forall i :: 0 <= i < |ps| && IsOut(ps[i]) ==> |r.value[i]| == ps[i].size
  {
    if ps == [] then Parsed([], s)
    else
      match Take(s, if IsOut(ps[0]) then ps[0].size else 0)
      case Short => Short
      case Parsed(data, rest) =>
        match TakeOuts(ps[1..], rest)
        case Short => Short
        case Parsed(more, end) => Parsed([data] + more, end)
  }

  /** The client's reading of what comes back into its own buffers: at most as much as fits, at their front. */
  function TakeBacks(ps: seq<Param>, s: seq<byte>): (r: Parsed<seq<Param>>)
    requires forall i :: 0 <= i < |ps| ==> Backed(ps[i])
    ensures r.Parsed? ==> |r.value| == |ps| && forall i :: 0 <= i < |ps| ==> Backed(r.value[i])
  {
    if ps == [] then Parsed([], s)
    else
      match TakeBack(ps[0], s)
      case Short => Short
      case Parsed(p, rest) =>
        match TakeBacks(ps[1..], rest)
        case Short => Short
        case Parsed(more, end) => Parsed([p] + more, end)
  }

  function TakeBack(p: Param, s: seq<byte>): (r: Parsed<Param>)
    requires Backed(p)
    ensures r.Parsed? ==> Backed(r.value)
  {
    if IsOut(p) then Parsed(p, s)
    else
      match TakeWord(s)
      case Short => Short
      case Parsed(n, s1) =>
        if n > p.size then Short
        else
          match Take(s1, n)
          case Short => Short
          case Parsed(data, rest) => Parsed(p.(data := data + p.data[n..]), rest)
  }

  // ---------------------------------------------------------------- laws

  lemma TakeFront(a: seq<byte>, rest: seq<byte>)
    ensures Take(a + rest, |a|) == Parsed(a, rest)
  {
  }

  lemma TakeWordOf(n: uint32, rest: seq<byte>)
    ensures TakeWord(Word(n) + rest) == Parsed(n, rest)
  {
    WordRoundTrip(n);
    TakeFront(Word(n), rest);
  }

  lemma TakePacketOf(msg: Message, rest: seq<byte>)
    ensures TakePacket(Word(|msg|) + msg + rest) == Parsed(msg, rest)
  {
    assert Word(|msg|) + msg + rest == Word(|msg|) + (msg + rest);
    TakeWordOf(|msg|, msg + rest);
    TakeFront(msg, rest);
  }

  /** The contents that reach the server. */
  function Flagged(p: Param): seq<byte> { if IsOut(p) then p.data else [] }

  function FlaggedAll(ps: seq<Param>): seq<seq<byte>> { seq(|ps|, i requires 0 <= i < |ps| => Flagged(ps[i])) }

  ghost predicate Announced(p: Param, bare: Param) { bare.size == p.size && bare.flag == p.flag && Backed(p) }

  lemma TakeOutOf(p: Param, bare: Param, rest: seq<byte>)
    requires Announced(p, bare)
    ensures Take(Flagged(p) + rest, if IsOut(bare) then bare.size else 0) == Parsed(Flagged(p), rest)
  {
    TakeFront(Flagged(p), rest);
  }

  /** The server reads exactly the flagged buffers and nothing beyond them. */
  lemma {:induction false} TakeOutsOf(ps: seq<Param>, bare: seq<Param>, rest: seq<byte>)
    requires |bare| == |ps| && forall i :: 0 <= i < |ps| ==> Announced(ps[i], bare[i])
    ensures TakeOuts(bare, OutData(ps) + rest) == Parsed(FlaggedAll(ps), rest)
  {
    if ps == [] {
      assert OutData(ps) + rest == rest;
    } else {
      assert [Flagged(ps[0])] + FlaggedAll(ps[1..]) == FlaggedAll(ps);
      assert OutData(ps) + rest == Flagged(ps[0]) + (OutData(ps[1..]) + rest);
      assert Announced(ps[0], bare[0]);
      TakeOutOf(ps[0], bare[0], OutData(ps[1..]) + rest);
      TakeOutsOf(ps[1..], bare[1..], rest);
    }
  }

  /** A parameter of the client and the server's after its work: same size and flag, a buffer of that size. */
  ghost predicate SameShape(p: Param, q: Param)
  {
    q.size == p.size && q.flag == p.flag && Backed(p) && Backed(q)
  }

  /** What the client's parameter is in the end. */
  function Merged(p: Param, q: Param): Param { if IsOut(p) then p else p.(data := q.data) }

  function MergedAll(ps: seq<Param>, qs: seq<Param>): seq<Param>
    requires |qs| == |ps|
  {
    seq(|ps|, i requires 0 <= i < |ps| => Merged(ps[i], qs[i]))
  }

  lemma TakeBackOf(p: Param, q: Param, rest: seq<byte>)
    requires SameShape(p, q)
    ensures TakeBack(p, (if IsOut(q) then [] else Word(q.size) + q.data) + rest) == Parsed(Merged(p, q), rest)
  {
    if !IsOut(p) {
      assert Word(q.size) + q.data + rest == Word(q.size) + (q.data + rest);
      TakeWordOf(q.size, q.data + rest);
      TakeFront(q.data, rest);
      assert q.data + p.data[|q.data|..] == q.data;
    } else {
      assert [] + rest == rest;
    }
  }

  /** Less may come back than there is room for: it goes to the front, the rest of the buffer stays. More is refused. */
  lemma TakeBackShorter(p: Param, data: seq<byte>, rest: seq<byte>)
    requires Backed(p) && p.flag % 2 == 0 && |data| < TWO_32
    ensures TakeBack(p, Word(|data|) + data + rest) ==
            if |data| <= p.size then Parsed(p.(data := data + p.data[|data|..]), rest) else Short
  {
    assert Word(|data|) + data + rest == Word(|data|) + (data + rest);
    TakeWordOf(|data|, data + rest);
    TakeFront(data, rest);
  }

  /** The client reads exactly the other buffers and nothing beyond them. */
  lemma {:induction false} TakeBacksOf(ps: seq<Param>, qs: seq<Param>, rest: seq<byte>)
    requires |qs| == |ps| && forall i :: 0 <= i < |ps| ==> Backed(ps[i]) && SameShape(ps[i], qs[i])
    ensures TakeBacks(ps, BackData(qs) + rest) ==
            Parsed(MergedAll(ps, qs), rest)
  {
    if ps == [] {
      assert BackData(qs) + rest == rest;
    } else {
      assert [Merged(ps[0], qs[0])] + MergedAll(ps[1..], qs[1..]) == MergedAll(ps, qs);
      var head := if IsOut(qs[0]) then [] else Word(qs[0].size) + qs[0].data;
      assert BackData(qs) + rest == head + (BackData(qs[1..]) + rest);
      assert SameShape(ps[0], qs[0]);
      TakeBackOf(ps[0], qs[0], BackData(qs[1..]) + rest);
      TakeBacksOf(ps[1..], qs[1..], rest);
    }
  }

  /** The same parameters, up to the contents of their buffers. */
  ghost predicate SameButData(ps: seq<Param>, qs: seq<Param>)
  {
    |qs| == |ps| && forall i :: 0 <= i < |ps| ==> Backed(ps[i]) && Backed(qs[i]) && qs[i] == ps[i].(data := qs[i].data)
  }

  /** Every changed buffer has a flag without the lowest bit. */
  ghost predicate OddAgree(ps: seq<Param>, qs: seq<Param>)
    requires |qs| == |ps|
  {
    forall i :: 0 <= i < |ps| && ps[i].flag % 2 == 1 ==> qs[i].data == ps[i].data
  }

  /** What the server is told depends on the contents of the buffers whose flag is odd, and of no others. */
  lemma {:induction false} OnlyOutsTravel(ps: seq<Param>, qs: seq<Param>)
    requires SameButData(ps, qs)
    ensures OutData(ps) == OutData(qs) <==> OddAgree(ps, qs)
    ensures |OutData(ps)| == |OutData(qs)|
    decreases |ps|
  {
    if ps != [] {
      OnlyOutsTravel(ps[1..], qs[1..]);
      assert Backed(ps[0]) && Backed(qs[0]);
      var a, b := if ps[0].flag % 2 == 1 then ps[0].data else [], if ps[0].flag % 2 == 1 then qs[0].data else [];
      assert OutData(ps) == a + OutData(ps[1..]) && OutData(qs) == b + OutData(qs[1..]);
      SameFronts(a, b, OutData(ps[1..]), OutData(qs[1..]));
      OddAgreeStep(ps, qs);
    }
  }

  lemma SameFronts(a: seq<byte>, b: seq<byte>, c: seq<byte>, d: seq<byte>)
    requires |a| == |b|
    ensures a + c == b + d <==> a == b && c == d
  {
    if a + c == b + d {
      assert a == (a + c)[..|a|] == b && c == (a + c)[|a|..] == d;
    }
  }

  lemma OddAgreeStep(ps: seq<Param>, qs: seq<Param>)
    requires |qs| == |ps| && ps != []
    ensures OddAgree(ps, qs) <==> (ps[0].flag % 2 == 1 ==> qs[0].data == ps[0].data) && OddAgree(ps[1..], qs[1..])
  {
    if OddAgree(ps[1..], qs[1..]) && (ps[0].flag % 2 == 1 ==> qs[0].data == ps[0].data) {
      forall i | 0 <= i < |ps| && ps[i].flag % 2 == 1 ensures qs[i].data == ps[i].data {
        if i > 0 { assert ps[i] == ps[1..][i - 1] && qs[i] == qs[1..][i - 1]; }
      }
    }
    if OddAgree(ps, qs) {
      forall i | 0 <= i < |ps[1..]| && ps[1..][i].flag % 2 == 1 ensures qs[1..][i].data == ps[1..][i].data {
        assert ps[1..][i] == ps[i + 1];
      }
    }
  }

  lemma SameImage(o: Operation, p: Operation)
    requires o.numParam == p.numParam <= MAXIMUM_OPERATIONS
    requires SameButData(o.params[..o.numParam], p.params[..p.numParam])
    requires forall i :: o.numParam <= i < MAXIMUM_OPERATIONS ==> p.params[i] == o.params[i]
    ensures Image(o) == Image(p)
  {
    hide Image;
    var n := o.numParam;
    forall i | 0 <= i < MAXIMUM_OPERATIONS ensures ParamImage(o.params[i]) == ParamImage(p.params[i]) {
      if i < n { assert p.params[..n][i] == o.params[..n][i].(data := p.params[..n][i].data); }
    }
    ImageBytes(o);
    ImageBytes(p);
  }

  /** Two operations that differ in the contents of buffers alone are told apart by the server exactly if a buffer with
      an odd flag differs. */
  lemma RequestTells(msg: Message, o: Operation, p: Operation)
    requires o.numParam == p.numParam <= MAXIMUM_OPERATIONS
    requires SameButData(o.params[..o.numParam], p.params[..p.numParam])
    requires forall i :: o.numParam <= i < MAXIMUM_OPERATIONS ==> p.params[i] == o.params[i]
    ensures Request(msg, Some(o)) == Request(msg, Some(p))
            <==> OddAgree(o.params[..o.numParam], p.params[..p.numParam])
  {
    hide Image, OutData, Word, OddAgree;
    var n := o.numParam;
    SameImage(o, p);
    OnlyOutsTravel(o.params[..n], p.params[..n]);
    var front := Word(|msg|) + msg + (Word(OPERATION_SIZE) + Image(o));
    assert Request(msg, Some(o)) == front + OutData(o.params[..n]);
    assert Request(msg, Some(p)) == front + OutData(p.params[..n]);
    SameFronts(front, front, OutData(o.params[..n]), OutData(p.params[..n]));
  }

  /** By the flags' names: the contents behind IN (0) and INOUT (2) stay with the client, those behind OUT (1) and
      ALLOCATE (3) reach the server. */
  lemma ContentsByFlag(msg: Message, o: Operation, k: nat, data: seq<byte>)
    requires Ready(o) && k < o.numParam && |data| == o.params[k].size && data != o.params[k].data
    ensures var p := o.(params := o.params[k := o.params[k].(data := data)]);
            && Ready(p)
            && (o.params[k].flag == 0 || o.params[k].flag == 2 ==> Request(msg, Some(p)) == Request(msg, Some(o)))
            && (o.params[k].flag == 1 || o.params[k].flag == 3 ==> Request(msg, Some(p)) != Request(msg, Some(o)))
  {
    var p := o.(params := o.params[k := o.params[k].(data := data)]);
    hide Request;
    RequestTells(msg, o, p);
    assert p.params[..p.numParam][k].data == data && o.params[..o.numParam][k] == o.params[k];
  }

  // ---------------------------------------------------------------- whole messages

  datatype Received = Received(msg: seq<byte>, op: Option<Operation>, outs: seq<seq<byte>>)

  /** The server's side. A structure of another size, or with more parameters than there is room for, is not modelled
      any further. */
  function ParseRequest(s: seq<byte>): (r: Parsed<Received>)
    ensures r.Parsed? && r.value.op.Some? ==>
              var o := r.value.op.value; o.numParam <= MAXIMUM_OPERATIONS && |r.value.outs| == o.numParam
  {
    match TakePacket(s)
    case Short => Short
    case Parsed(msg, s1) =>
      match TakeWord(s1)
      case Short => Short
      case Parsed(size, s2) =>
        if size == 0 then Parsed(Received(msg, None, []), s2) else ParseOperation(msg, size, s2)
  }

  function ParseOperation(msg: seq<byte>, size: uint32, s: seq<byte>): (r: Parsed<Received>)
    ensures r.Parsed? ==>
              r.value.op.Some? && var o := r.value.op.value;
                o.numParam <= MAXIMUM_OPERATIONS && |r.value.outs| == o.numParam
  {
    if size != OPERATION_SIZE || |s| < OPERATION_SIZE then Short
    else
      var o := DecodeImage(s[..OPERATION_SIZE]);
      if o.numParam > MAXIMUM_OPERATIONS then Short
      else
        match TakeOuts(o.params[..o.numParam], s[OPERATION_SIZE..])
        case Short => Short
        case Parsed(outs, end) => Parsed(Received(msg, Some(o), outs), end)
  }

  /** The client's side, with its own operation, if it sent one. */
  function ParseResponse(own: Option<Operation>, s: seq<byte>): (r: Parsed<(seq<byte>, Option<Operation>)>)
    requires own.Some? ==> Ready(own.value)
  {
    match TakePacket(s)
    case Short => Short
    case Parsed(msg, s1) =>
      match TakeWord(s1)
      case Short => Short
      case Parsed(size, s2) =>
        if size == 0 then Parsed((msg, own), s2)
        else if own.None? then Short
        else ParseBuffers(msg, own.value, size, s2)
  }

  function ParseBuffers(msg: seq<byte>, own: Operation, size: uint32, s: seq<byte>): (r: Parsed<(seq<byte>,
      Option<Operation>)>)
    requires Ready(own)
  {
    if size != OPERATION_SIZE || |s| < OPERATION_SIZE then Short
    else
      var n := DecodeImage(s[..OPERATION_SIZE]).numParam;
      if n > own.numParam then Short
      else
        match TakeBacks(own.params[..n], s[OPERATION_SIZE..])
        case Short => Short
        case Parsed(ps, end) => Parsed((msg, Some(Operation(n, ps + own.params[n..]))), end)
  }

  /** The server gets the client's message, its structure and its flagged buffers, and the stream goes on right
      behind them. */
  lemma RequestParses(msg: Message, op: Option<Operation>, rest: seq<byte>)
    requires op.Some? ==> Ready(op.value)
    ensures var r := ParseRequest(Request(msg, op) + rest);
            && r.Parsed? && r.rest == rest && r.value.msg == msg
            && (op.None? ==> r.value.op.None?)
            && (op.Some? ==>
                  && r.value.op.Some? && r.value.op.value.numParam == op.value.numParam
                  && (forall i :: 0 <= i < MAXIMUM_OPERATIONS ==>
                       r.value.op.value.params[i] == Bare(op.value.params[i]))
                  && r.value.outs == FlaggedAll(op.value.params[..op.value.numParam]))
  {
    var tail := match op
      case None => Word(0)
      case Some(o) => Word(OPERATION_SIZE) + Image(o) + OutData(o.params[..o.numParam]);
    assert Request(msg, op) + rest == Word(|msg|) + msg + (tail + rest);
    hide Image, Word, OutData, DecodeImage;
    TakePacketOf(msg, tail + rest);
    match op
    case None => TakeWordOf(0, rest);
    case Some(o) => OperationParses(msg, o, rest);
  }

  lemma OperationParses(msg: Message, o: Operation, rest: seq<byte>)
    requires Ready(o)
    ensures var s := Word(OPERATION_SIZE) + Image(o) + OutData(o.params[..o.numParam]) + rest;
            && TakeWord(s).Parsed? && TakeWord(s).value == OPERATION_SIZE
            && var r := ParseOperation(msg, OPERATION_SIZE, TakeWord(s).rest);
               && r.Parsed? && r.rest == rest && r.value.msg == msg && r.value.op.value.numParam == o.numParam
               && (forall i :: 0 <= i < MAXIMUM_OPERATIONS ==> r.value.op.value.params[i] == Bare(o.params[i]))
               && r.value.outs == FlaggedAll(o.params[..o.numParam])
  {
    var outs := OutData(o.params[..o.numParam]);
    assert Word(OPERATION_SIZE) + Image(o) + outs + rest == Word(OPERATION_SIZE) + (Image(o) + (outs + rest));
    hide Image, Word, OutData, DecodeImage;
    TakeWordOf(OPERATION_SIZE, Image(o) + (outs + rest));
    ImageRoundTrip(o);
    TakeFront(Image(o), outs + rest);
    var d := DecodeImage(Image(o));
    forall i | 0 <= i < o.numParam ensures Announced(o.params[..o.numParam][i], d.params[..o.numParam][i]) {}
    TakeOutsOf(o.params[..o.numParam], d.params[..o.numParam], rest);
  }

  /** The client's operation in the end: its own, with the server's contents in the buffers not flagged OUT. */
  function MergedOperation(own: Operation, served: Operation): Operation
    requires own.numParam == served.numParam <= MAXIMUM_OPERATIONS
  {
    var n := own.numParam;
    own.(params := MergedAll(own.params[..n], served.params[..n]) + own.params[n..])
  }

  ghost predicate SameShapes(own: Operation, served: Operation)
  {
    own.numParam == served.numParam && ShapesFit(own, served)
  }

  /** The response may cover fewer parameters than the client sent. */
  ghost predicate ShapesFit(own: Operation, served: Operation)
  {
    && served.numParam <= own.numParam <= MAXIMUM_OPERATIONS
    && forall i :: 0 <= i < served.numParam ==> SameShape(own.params[i], served.params[i])
  }

  lemma ResponseParses(msg: Message, own: Operation, served: Operation, rest: seq<byte>)
    requires Ready(own) && Ready(served) && SameShapes(own, served)
    ensures ParseResponse(Some(own), Response(msg, served) + rest) ==
            Parsed((msg, Some(MergedOperation(own, served))), rest)
  {
    FewerComeBack(msg, own, served, rest);
    assert served.numParam == 0 ==> MergedAll(own.params[..0], served.params[..0]) + own.params[0..] == own.params;
  }

  /** A response about fewer parameters: those are merged, the others stay, and the client's count becomes the
      server's; a response without a structure leaves the client's operation as it is. */
  lemma FewerComeBack(msg: Message, own: Operation, served: Operation, rest: seq<byte>)
    requires Ready(own) && Ready(served) && ShapesFit(own, served)
    ensures ParseResponse(Some(own), Response(msg, served) + rest) ==
            Parsed((msg, Some(if served.numParam == 0 then own else MergedFront(own, served))), rest)
  {
    var n := served.numParam;
    var tail := if n == 0 then Word(0) else Word(OPERATION_SIZE) + Image(served) + BackData(served.params[..n]);
    assert Response(msg, served) + rest == Word(|msg|) + msg + (tail + rest);
    hide Image, Word, BackData, DecodeImage;
    TakePacketOf(msg, tail + rest);
    if n == 0 { TakeWordOf(0, rest); } else { BuffersParse(msg, own, served, rest); }
  }

  function MergedFront(own: Operation, served: Operation): Operation
    requires served.numParam <= own.numParam <= MAXIMUM_OPERATIONS
  {
    var n := served.numParam;
    Operation(n, MergedAll(own.params[..n], served.params[..n]) + own.params[n..])
  }

  lemma BuffersParse(msg: Message, own: Operation, served: Operation, rest: seq<byte>)
    requires Ready(own) && Ready(served) && ShapesFit(own, served)
    ensures var s := Word(OPERATION_SIZE) + Image(served) + BackData(served.params[..served.numParam]) + rest;
            && TakeWord(s).Parsed? && TakeWord(s).value == OPERATION_SIZE
            && ParseBuffers(msg, own, OPERATION_SIZE, TakeWord(s).rest) ==
               Parsed((msg, Some(MergedFront(own, served))), rest)
  {
    var n := served.numParam;
    var backs := BackData(served.params[..n]);
    assert Word(OPERATION_SIZE) + Image(served) + backs + rest ==
           Word(OPERATION_SIZE) + (Image(served) + (backs + rest));
    hide Image, Word, BackData, DecodeImage;
    TakeWordOf(OPERATION_SIZE, Image(served) + (backs + rest));
    ImageRoundTrip(served);
    TakeFront(Image(served), backs + rest);
    forall i | 0 <= i < n ensures SameShape(own.params[..n][i], served.params[..n][i]) {
      assert SameShape(own.params[i], served.params[i]);
    }
    TakeBacksOf(own.params[..n], served.params[..n], rest);
  }

  lemma PlainResponseParses(msg: Message, served: Operation, rest: seq<byte>)
    requires served.numParam == 0
    ensures ParseResponse(None, Response(msg, served) + rest) == Parsed((msg, None), rest)
  {
    assert Response(msg, served) + rest == Word(|msg|) + msg + (Word(0) + rest);
    TakePacketOf(msg, Word(0) + rest);
    TakeWordOf(0, rest);
  }
}
