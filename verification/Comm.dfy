/** Both ends of the TCP transport: the client's comm_proc and the server's recv and send, over two byte streams. */
module Comm {
  import opened Bytes
  import opened Status
  import opened HandlePlugin
  import opened Fields
  import opened CommStream

  /** One direction of a connected socket. */
  class Pipe {
    var bytes: seq<byte>

    constructor ()
      ensures bytes == []
    {
      bytes := [];
    }

    method Send(data: seq<byte>)
      modifies this
      ensures bytes == old(bytes) + data
    {
      bytes := bytes + data;
    }

    /** Up to `n` bytes from the front; fewer only at the end of the stream. */
    method Recv(n: nat) returns (data: seq<byte>)
      modifies this
      ensures |old(bytes)| < n ==> |data| < n
      ensures |old(bytes)| >= n ==> Take(old(bytes), n) == Parsed(data, bytes) && |data| == n
    {
      var k := if |bytes| < n then |bytes| else n;
      data, bytes := bytes[..k], bytes[k..];
    }

    method RecvWord() returns (ok: bool, n: uint32)
      modifies this
      ensures ok <==> TakeWord(old(bytes)).Parsed?
      ensures ok ==> TakeWord(old(bytes)) == Parsed(n, bytes)
    {
      var data := Recv(4);
      if |data| != 4 {
        return false, 0;
      }
      WordBytesRoundTrip(data);
      return true, Value(data);
    }
  }

  /** sk_operation in memory, with its parameters' buffers. */
  class Op {
    var numParam: uint32
    const param: array<Param>

    predicate Valid() { param.Length == MAXIMUM_OPERATIONS }

    function View(): Operation
      requires Valid()
      reads this, param
    {
      Operation(numParam, param[..])
    }

    constructor ()
      ensures Valid() && numParam == 0 && fresh(param)
    {
      numParam, param := 0, new Param[MAXIMUM_OPERATIONS](_ => Param(0, 0, 0, ZeroHandle(), []));
    }
  }

  // ---------------------------------------------------------------- the client

  /** comm_proc up to the response. */
  method SendRequest(up: Pipe, send: Message, op: Op?)
    requires op != null ==> op.Valid() && Ready(op.View())
    modifies up
    ensures up.bytes == old(up.bytes) + Request(send, if op == null then None else Some(op.View()))
  {
    hide Image, Word, OutData;
    ghost var start := up.bytes;
    up.Send(Word(|send|));
    up.Send(send);
    if op == null {
      up.Send(Word(0));
      assert up.bytes == start + (Word(|send|) + send + Word(0));
      return;
    }
    up.Send(Word(OPERATION_SIZE));
    SendOperation(up, op);
    ghost var outs := OutData(op.param[..op.numParam]);
    assert up.bytes == start + (Word(|send|) + send + (Word(OPERATION_SIZE) + Image(op.View()) + outs));
  }

  method SendOperation(up: Pipe, op: Op)
    requires op.Valid() && Ready(op.View())
    modifies up
    ensures up.bytes == old(up.bytes) + Image(op.View()) + OutData(op.param[..op.numParam])
  {
    hide Image, OutData;
    up.Send(Image(op.View()));
    ghost var start, ps := up.bytes, op.param[..op.numParam];
    assert start + OutData(ps[0..]) == start + OutData(ps) by { assert ps[0..] == ps; }
    for i := 0 to op.numParam
      invariant up.bytes + OutData(ps[i..]) == start + OutData(ps)
    {
      OutStep(up.bytes, ps, i);
      if op.param[i].flag % 2 == 1 && op.param[i].size > 0 {
        up.Send(op.param[i].data);
      }
    }
    assert ps[op.numParam..] == [];
    NoneLeft();
  }

  lemma OutStep(front: seq<byte>, ps: seq<Param>, i: nat)
    requires i < |ps|
    ensures front + OutData(ps[i..]) == front + Flagged(ps[i]) + OutData(ps[i + 1..])
  {
    assert ps[i..][1..] == ps[i + 1..];
  }

  lemma NoneLeft()
    ensures OutData([]) == [] && BackData([]) == []
  {
  }

  /** One parameter of the response: what comes back goes to the front of the client's buffer. */
  method RecvParam(down: Pipe, op: Op, i: nat) returns (ok: bool)
    requires op.Valid() && i < MAXIMUM_OPERATIONS && Backed(op.param[i])
    modifies down, op.param
    ensures ok <==> TakeBack(old(op.param[i]), old(down.bytes)).Parsed?
    ensures ok ==> TakeBack(old(op.param[i]), old(down.bytes)) == Parsed(op.param[i], down.bytes)
    ensures op.param[..] == old(op.param[..])[i := op.param[i]]
    ensures !ok ==> op.param[i] == old(op.param[i])
  {
    var p := op.param[i];
    if p.flag % 2 == 1 {
      return true;
    }
    var got, nbytes := down.RecvWord();
    if !got || nbytes > p.size {
      return false;
    }
    var data := down.Recv(nbytes);
    if |data| != nbytes {
      return false;
    }
    op.param[i] := p.(data := data + p.data[nbytes..]);
    return true;
  }

  /** The operation part of the response. */
  method RecvOperation(down: Pipe, op: Op, size: uint32) returns (err: int)
    requires op.Valid() && Ready(op.View())
    modifies down, op, op.param
    ensures match ParseBuffers([], old(op.View()), size, old(down.bytes))
            case Short => err == COMM_READ_FAILED
            case Parsed(r, rest) => err == SUCCESS && Some(op.View()) == r.1 && down.bytes == rest
  {
    hide DecodeImage, Image;
    if size != OPERATION_SIZE {
      return COMM_READ_FAILED;
    }
    var image := down.Recv(OPERATION_SIZE);
    if |image| != OPERATION_SIZE {
      return COMM_READ_FAILED;
    }
    var n := DecodeImage(image).numParam;
    if n > op.numParam {
      return COMM_READ_FAILED;
    }
    op.numParam := n;
    err := RecvParams(down, op, n);
  }

  method RecvParams(down: Pipe, op: Op, n: nat) returns (err: int)
    requires op.Valid() && n <= MAXIMUM_OPERATIONS && forall i :: 0 <= i < n ==> Backed(op.param[i])
    modifies down, op.param
    ensures match TakeBacks(old(op.param[..n]), old(down.bytes))
            case Short => err == COMM_READ_FAILED
            case Parsed(ps, rest) => err == SUCCESS && op.param[..] == ps + old(op.param[n..]) && down.bytes == rest
  {
    hide TakeBack, TakeBacks, Joined, Backed;
    ghost var ps, s, all := op.param[..n], down.bytes, op.param[..];
    ghost var done: seq<Param> := [];
    assert ps[0..] == ps;
    JoinedNothing(ps, s);
    for i := 0 to n
      invariant |done| == i && forall j :: i <= j < MAXIMUM_OPERATIONS ==> op.param[j] == all[j]
      invariant forall j :: 0 <= j < i ==> op.param[j] == done[j]
      invariant TakeBacks(ps, s) == Joined(done, TakeBacks(ps[i..], down.bytes))
    {
      assert op.param[i] == all[i] == ps[i];
      ghost var before, rows := down.bytes, op.param[..];
      var ok := RecvParam(down, op, i);
      assert forall j :: 0 <= j < MAXIMUM_OPERATIONS && j != i ==> op.param[j] == rows[j];
      JoinedStep(done, ps, i, before);
      if !ok {
        return COMM_READ_FAILED;
      }
      done := done + [op.param[i]];
    }
    assert ps[n..] == [];
    JoinedAll(done, down.bytes);
    assert op.param[..] == done + all[n..];
    return SUCCESS;
  }

  function Joined(front: seq<Param>, r: Parsed<seq<Param>>): Parsed<seq<Param>>
  {
    match r
    case Short => Short
    case Parsed(more, end) => Parsed(front + more, end)
  }

  lemma JoinedNothing(ps: seq<Param>, s: seq<byte>)
    requires forall i :: 0 <= i < |ps| ==> Backed(ps[i])
    ensures Joined([], TakeBacks(ps, s)) == TakeBacks(ps, s)
  {
    var r := TakeBacks(ps, s);
    assert r.Parsed? ==> [] + r.value == r.value;
  }

  lemma JoinedAll(front: seq<Param>, s: seq<byte>)
    ensures Joined(front, TakeBacks([], s)) == Parsed(front, s)
  {
    assert front + [] == front;
  }

  lemma JoinedStep(front: seq<Param>, ps: seq<Param>, i: nat, s: seq<byte>)
    requires i < |ps| && forall j :: 0 <= j < |ps| ==> Backed(ps[j])
    ensures Joined(front, TakeBacks(ps[i..], s)) ==
            match TakeBack(ps[i], s)
            case Short => Short
            case Parsed(p, rest) => Joined(front + [p], TakeBacks(ps[i + 1..], rest))
  {
    assert ps[i..][1..] == ps[i + 1..];
    var r := TakeBack(ps[i], s);
    if r.Parsed? {
      var more := TakeBacks(ps[i + 1..], r.rest);
      assert more.Parsed? ==> front + ([r.value] + more.value) == front + [r.value] + more.value;
    }
  }

  /** comm_proc from the response on. */
  method RecvResponse(down: Pipe, op: Op?) returns (err: int, recv: seq<byte>)
    requires op != null ==> op.Valid() && Ready(op.View())
    modifies down, if op == null then {} else {op, op.param}
    ensures match ParseResponse(old(if op == null then None else Some(op.View())), old(down.bytes))
            case Short => err == COMM_READ_FAILED
            case Parsed(r, rest) =>
              err == SUCCESS && recv == r.0 && (op != null ==> Some(op.View()) == r.1) && down.bytes == rest
  {
    hide ParseBuffers;
    recv := [];
    var ok, len := down.RecvWord();
    if !ok {
      return COMM_READ_FAILED, recv;
    }
    recv := down.Recv(len);
    if |recv| != len {
      return COMM_READ_FAILED, recv;
    }
    var got, size := down.RecvWord();
    if !got {
      return COMM_READ_FAILED, recv;
    }
    if size == 0 {
      return SUCCESS, recv;
    }
    if op == null {
      return COMM_READ_FAILED, recv;
    }
    ghost var s, own := down.bytes, op.View();
    SameBuffers(recv, own, size, s);
    err := RecvOperation(down, op, size);
  }

  lemma SameBuffers(msg: seq<byte>, own: Operation, size: uint32, s: seq<byte>)
    requires Ready(own)
    ensures match ParseBuffers([], own, size, s)
            case Short => ParseBuffers(msg, own, size, s).Short?
            case Parsed(r, rest) => ParseBuffers(msg, own, size, s) == Parsed((msg, r.1), rest)
  {
  }

  // ---------------------------------------------------------------- the server

  /** malloc: a block of arbitrary contents. */
  method Allocate(size: uint32) returns (addr: uint32, data: seq<byte>)
    ensures |data| == size
  {
    if size == 0 {
      return 0, [];
    }
    var block := new byte[size];
    addr := *;
    data := block[..];
  }

  /** The server's parameter after recv: its own block, filled from the stream if the client's is flagged OUT. */
  ghost predicate Filled(p: Param, sent: Param, data: seq<byte>)
  {
    p.size == sent.size && p.flag == sent.flag && p.id == sent.id && Backed(p) && (IsOut(sent) ==> p.data == data)
  }

  ghost predicate FilledAll(ps: seq<Param>, sent: seq<Param>, datas: seq<seq<byte>>)
  {
    |ps| == |sent| == |datas| && forall i :: 0 <= i < |ps| ==> Filled(ps[i], sent[i], datas[i])
  }

  method FillParam(up: Pipe, op: Op, i: nat) returns (ok: bool, ghost data: seq<byte>)
    requires op.Valid() && i < MAXIMUM_OPERATIONS
    modifies up, op.param
    ensures var p := old(op.param[i]);
            var want := if IsOut(p) then p.size else 0;
            && (ok <==> Take(old(up.bytes), want).Parsed?)
            && (ok ==> Take(old(up.bytes), want) == Parsed(data, up.bytes) && Filled(op.param[i], p, data))
    ensures op.param[..] == old(op.param[..])[i := op.param[i]]
  {
    var p := op.param[i];
    var addr, block := Allocate(p.size);
    data := [];
    if p.flag % 2 == 1 && p.size > 0 {
      block := up.Recv(p.size);
      if |block| != p.size {
        return false, data;
      }
      data := block;
    }
    op.param[i] := p.(addr := addr, data := block);
    return true, data;
  }

  function JoinedOuts(front: seq<seq<byte>>, r: Parsed<seq<seq<byte>>>): Parsed<seq<seq<byte>>>
  {
    match r
    case Short => Short
    case Parsed(more, end) => Parsed(front + more, end)
  }

  lemma JoinedOutsStep(front: seq<seq<byte>>, ps: seq<Param>, i: nat, s: seq<byte>)
    requires i < |ps|
    ensures JoinedOuts(front, TakeOuts(ps[i..], s)) ==
            match Take(s, if IsOut(ps[i]) then ps[i].size else 0)
            case Short => Short
            case Parsed(data, rest) => JoinedOuts(front + [data], TakeOuts(ps[i + 1..], rest))
  {
    assert ps[i..][1..] == ps[i + 1..];
    var r := Take(s, if IsOut(ps[i]) then ps[i].size else 0);
    if r.Parsed? {
      var more := TakeOuts(ps[i + 1..], r.rest);
      assert more.Parsed? ==> front + ([r.value] + more.value) == front + [r.value] + more.value;
    }
  }

  lemma JoinedOutsEnds(front: seq<seq<byte>>, ps: seq<Param>, s: seq<byte>)
    ensures JoinedOuts([], TakeOuts(ps, s)) == TakeOuts(ps, s)
    ensures JoinedOuts(front, TakeOuts([], s)) == Parsed(front, s)
  {
    var r := TakeOuts(ps, s);
    assert r.Parsed? ==> [] + r.value == r.value;
    assert front + [] == front;
  }

  /** The loop over the parameters: every one gets a block, the flagged ones their contents. */
  method FillParams(up: Pipe, op: Op, n: nat) returns (err: int)
    requires op.Valid() && n <= MAXIMUM_OPERATIONS
    modifies up, op.param
    ensures match TakeOuts(old(op.param[..n]), old(up.bytes))
            case Short => err == COMM_READ_FAILED
            case Parsed(datas, rest) =>
              err == SUCCESS && up.bytes == rest && op.param[n..] == old(op.param[n..])
              && FilledAll(op.param[..n], old(op.param[..n]), datas)
  {
    hide TakeOuts, JoinedOuts, Take, Filled, IsOut;
    ghost var ps, s, all := op.param[..n], up.bytes, op.param[..];
    ghost var datas: seq<seq<byte>> := [];
    assert ps[0..] == ps;
    JoinedOutsEnds([], ps, s);
    for i := 0 to n
      invariant |datas| == i && forall j :: i <= j < MAXIMUM_OPERATIONS ==> op.param[j] == all[j]
      invariant forall j :: 0 <= j < i ==> Filled(op.param[j], all[j], datas[j])
      invariant TakeOuts(ps, s) == JoinedOuts(datas, TakeOuts(ps[i..], up.bytes))
    {
      ghost var before, rows := up.bytes, op.param[..];
      var ok;
      ghost var data;
      ok, data := FillParam(up, op, i);
      assert forall j :: 0 <= j < MAXIMUM_OPERATIONS && j != i ==> op.param[j] == rows[j];
      JoinedOutsStep(datas, ps, i, before);
      if !ok {
        return COMM_READ_FAILED;
      }
      datas := datas + [data];
    }
    assert ps[n..] == [];
    JoinedOutsEnds(datas, ps, up.bytes);
    return SUCCESS;
  }

  /** The operation part of a request. */
  method RecvStructure(up: Pipe, op: Op, size: uint32) returns (err: int)
    requires op.Valid()
    modifies up, op, op.param
    ensures match ParseOperation([], size, old(up.bytes))
            case Short => err == COMM_READ_FAILED
            case Parsed(r, rest) =>
              var n := r.op.value.numParam;
              err == SUCCESS && up.bytes == rest && op.numParam == n && op.param[n..] == r.op.value.params[n..]
              && FilledAll(op.param[..n], r.op.value.params[..n], r.outs)
  {
    hide DecodeImage, Image, TakeOuts, FilledAll;
    if size != OPERATION_SIZE {
      return COMM_READ_FAILED;
    }
    var image := up.Recv(OPERATION_SIZE);
    if |image| != OPERATION_SIZE {
      return COMM_READ_FAILED;
    }
    var o := DecodeImage(image);
    op.numParam := o.numParam;
    forall i | 0 <= i < MAXIMUM_OPERATIONS {
      op.param[i] := o.params[i];
    }
    assert op.param[..] == o.params;
    if o.numParam > MAXIMUM_OPERATIONS {
      return COMM_READ_FAILED;
    }
    err := FillParams(up, op, o.numParam);
  }

  /** sk_swld_platform_comm_recv. */
  method RecvRequest(up: Pipe, op: Op) returns (err: int, buf: seq<byte>)
    requires op.Valid()
    modifies up, op, op.param
    ensures match ParseRequest(old(up.bytes))
            case Short => err == COMM_READ_FAILED
            case Parsed(r, rest) =>
              && err == SUCCESS && buf == r.msg && up.bytes == rest
              && (r.op.None? ==> op.View() == old(op.View()))
              && (r.op.Some? ==>
                    var n := r.op.value.numParam;
                    op.numParam == n && op.param[n..] == r.op.value.params[n..]
                    && FilledAll(op.param[..n], r.op.value.params[..n], r.outs))
  {
    hide ParseOperation, FilledAll;
    buf := [];
    var ok, len := up.RecvWord();
    if !ok {
      return COMM_READ_FAILED, buf;
    }
    buf := up.Recv(len);
    if |buf| != len {
      return COMM_READ_FAILED, buf;
    }
    var got, size := up.RecvWord();
    if !got {
      return COMM_READ_FAILED, buf;
    }
    if size == 0 {
      return SUCCESS, buf;
    }
    SameStructure(buf, size, up.bytes);
    err := RecvStructure(up, op, size);
  }

  lemma SameStructure(msg: seq<byte>, size: uint32, s: seq<byte>)
    ensures match ParseOperation([], size, s)
            case Short => ParseOperation(msg, size, s).Short?
            case Parsed(r, rest) => ParseOperation(msg, size, s) == Parsed(r.(msg := msg), rest)
  {
  }

  /** sk_swld_platform_comm_send. */
  method SendResponse(down: Pipe, reply: Message, op: Op)
    requires op.Valid() && Ready(op.View())
    modifies down
    ensures down.bytes == old(down.bytes) + Response(reply, op.View())
  {
    hide Image, Word, BackData;
    ghost var start := down.bytes;
    down.Send(Word(|reply|));
    down.Send(reply);
    if op.numParam == 0 {
      down.Send(Word(0));
      assert down.bytes == start + (Word(|reply|) + reply + Word(0));
      return;
    }
    down.Send(Word(OPERATION_SIZE));
    SendBuffers(down, op);
    ghost var backs := BackData(op.param[..op.numParam]);
    assert down.bytes == start + (Word(|reply|) + reply + (Word(OPERATION_SIZE) + Image(op.View()) + backs));
  }

  function Back(p: Param): seq<byte> { if IsOut(p) then [] else Word(p.size) + p.data }

  method SendBuffers(down: Pipe, op: Op)
    requires op.Valid() && Ready(op.View())
    modifies down
    ensures down.bytes == old(down.bytes) + Image(op.View()) + BackData(op.param[..op.numParam])
  {
    hide Image, Word, BackData;
    down.Send(Image(op.View()));
    ghost var start, ps := down.bytes, op.param[..op.numParam];
    assert ps[0..] == ps;
    for i := 0 to op.numParam
      invariant down.bytes + BackData(ps[i..]) == start + BackData(ps)
    {
      BackStep(down.bytes, ps, i);
      var p := op.param[i];
      if p.flag % 2 == 0 {
        ghost var before := down.bytes;
        down.Send(Word(p.size));
        down.Send(p.data);
        assert down.bytes == before + Back(p);
      }
    }
    assert ps[op.numParam..] == [];
    NoneLeft();
  }

  lemma BackStep(front: seq<byte>, ps: seq<Param>, i: nat)
    requires i < |ps|
    ensures front + BackData(ps[i..]) == front + Back(ps[i]) + BackData(ps[i + 1..])
  {
    assert ps[i..][1..] == ps[i + 1..];
  }

  // ---------------------------------------------------------------- a complete call

  /** What the secure world makes of a message and an operation: its reply, and new contents for every buffer. */
  type Work = (seq<byte>, Operation) -> (Message, seq<seq<byte>>)

  /** The work keeps to the buffers it was given. */
  ghost predicate KeepsSizes(work: Work)
  {
    forall m, o :: Ready(o) ==>
      |work(m, o).1| == o.numParam && forall i :: 0 <= i < o.numParam ==> |work(m, o).1[i]| == o.params[i].size
  }

  /** The client's side after the work, said parameter by parameter. */
  ghost predicate Served(before: Operation, after: Operation, contents: seq<seq<byte>>)
  {
    && before.numParam == |contents| <= MAXIMUM_OPERATIONS && after.numParam == before.numParam
    && forall i :: 0 <= i < MAXIMUM_OPERATIONS ==>
         after.params[i] == if i < before.numParam && !IsOut(before.params[i])
                            then before.params[i].(data := contents[i]) else before.params[i]
  }

  /** What the server has before it goes to work: the client's parameters, with the contents of those flagged OUT. */
  ghost predicate Seen(own: Operation, seen: Operation)
  {
    && seen.numParam == own.numParam <= MAXIMUM_OPERATIONS
    && forall i :: 0 <= i < own.numParam ==> Filled(seen.params[i], own.params[i], own.params[i].data)
  }

  /** Who ends up with whose contents, flag by flag: with the lowest bit set the server has seen the client's buffer,
      and the client's parameter is as before; without it the client has what the server put there. */
  ghost predicate ByFlag(before: Operation, seen: Operation, after: Operation, contents: seq<seq<byte>>)
  {
    && before.numParam == seen.numParam == |contents| <= MAXIMUM_OPERATIONS
    && forall i :: 0 <= i < before.numParam ==>
         && (before.params[i].flag % 2 == 1 ==>
               seen.params[i].data == before.params[i].data && after.params[i] == before.params[i])
         && (before.params[i].flag % 2 == 0 ==> after.params[i] == before.params[i].(data := contents[i]))
  }

  lemma FlagsDecide(before: Operation, seen: Operation, after: Operation, contents: seq<seq<byte>>)
    requires Seen(before, seen) && Served(before, after, contents)
    ensures ByFlag(before, seen, after, contents)
  {
    forall i | 0 <= i < before.numParam ensures Filled(seen.params[i], before.params[i], before.params[i].data) {}
  }

  method PutContents(op: Op, contents: seq<seq<byte>>)
    requires op.Valid() && op.numParam == |contents| <= MAXIMUM_OPERATIONS
    modifies op.param
    ensures forall i :: 0 <= i < MAXIMUM_OPERATIONS ==>
              op.param[i] == if i < |contents| then old(op.param[i]).(data := contents[i]) else old(op.param[i])
  {
    forall i | 0 <= i < |contents| {
      op.param[i] := op.param[i].(data := contents[i]);
    }
  }

  lemma SeenFrom(own: Operation, seen: Operation, outs: seq<seq<byte>>, bare: seq<Param>)
    requires Ready(own) && seen.numParam == own.numParam && |bare| == own.numParam
    requires forall i :: 0 <= i < own.numParam ==> bare[i] == Bare(own.params[i])
    requires outs == FlaggedAll(own.params[..own.numParam])
    requires FilledAll(seen.params[..own.numParam], bare, outs)
    ensures Seen(own, seen) && Ready(seen)
  {
    forall i | 0 <= i < own.numParam ensures Filled(seen.params[i], own.params[i], own.params[i].data) {
      assert Filled(seen.params[..own.numParam][i], bare[i], outs[i]);
    }
  }

  /** recv, on a stream that holds just this request. */
  method Deliver(request: Message, ghost own: Option<Operation>, served: Op, up: Pipe) returns (err: int,
      buf: seq<byte>)
    requires served.Valid() && served.numParam == 0 && (own.Some? ==> Ready(own.value))
    requires up.bytes == Request(request, own)
    modifies up, served, served.param
    ensures err == SUCCESS && buf == request && up.bytes == [] && Ready(served.View())
    ensures own.None? ==> served.numParam == 0
    ensures own.Some? ==> Seen(own.value, served.View())
  {
    hide ParseRequest, FilledAll, Ready, Request, FlaggedAll;
    assert up.bytes + [] == up.bytes;
    RequestParses(request, own, []);
    ghost var r := ParseRequest(up.bytes).value;
    err, buf := RecvRequest(up, served);
    if own.None? {
      NoParamsReady(served.View());
    } else {
      SeenFrom(own.value, served.View(), r.outs, r.op.value.params[..r.op.value.numParam]);
    }
  }

  lemma NoParamsReady(o: Operation)
    requires o.numParam == 0
    ensures Ready(o)
  {
  }

  lemma ServedFrom(own: Operation, seen: Operation, after: Operation, contents: seq<seq<byte>>)
    requires Ready(own) && Seen(own, seen) && after.numParam == seen.numParam == |contents|
    requires forall i :: 0 <= i < |contents| ==> |contents[i]| == seen.params[i].size
    requires forall i :: 0 <= i < |contents| ==> after.params[i] == seen.params[i].(data := contents[i])
    ensures Ready(after) && SameShapes(own, after) && Served(own, MergedOperation(own, after), contents)
  {
    forall i | 0 <= i < own.numParam ensures SameShape(own.params[i], after.params[i]) {
      assert Filled(seen.params[i], own.params[i], own.params[i].data);
    }
  }

  /** The second half, on a stream that holds just this response. */
  method Return(op: Op?, ghost reply: Message, ghost served: Operation, down: Pipe) returns (err: int, recv: seq<byte>)
    requires op != null ==> op.Valid() && Ready(op.View()) && SameShapes(op.View(), served)
    requires op == null ==> served.numParam == 0
    requires Ready(served) && down.bytes == Response(reply, served)
    modifies down, if op == null then {} else {op, op.param}
    ensures err == SUCCESS && recv == reply && down.bytes == []
    ensures op != null ==> op.View() == MergedOperation(old(op.View()), served)
  {
    assert down.bytes + [] == down.bytes;
    if op == null {
      PlainResponseParses(reply, served, []);
    } else {
      ResponseParses(reply, op.View(), served, []);
    }
    hide ParseResponse, Ready, SameShapes, Response, MergedOperation;
    err, recv := RecvResponse(down, op);
  }

  /** The server's turn: recv, the work, send. */
  method Serve(request: Message, ghost own: Option<Operation>, served: Op, up: Pipe, down: Pipe, work: Work)
    returns (ghost seen: Operation, ghost reply: Message)
    requires up != down && served.Valid() && KeepsSizes(work) && (own.Some? ==> Ready(own.value))
    requires up.bytes == Request(request, own) && down.bytes == []
    modifies up, down, served, served.param
    ensures up.bytes == [] && Ready(served.View()) && down.bytes == Response(reply, served.View())
    ensures reply == work(request, seen).0
    ensures own.None? ==> seen.numParam == 0 && served.numParam == 0
    ensures own.Some? ==>
              && Seen(own.value, seen) && SameShapes(own.value, served.View())
              && Served(own.value, MergedOperation(own.value, served.View()), work(request, seen).1)
  {
    hide Request, Response, Ready, Seen, Served, SameShapes, MergedOperation, KeepsSizes;
    served.numParam := 0;
    var _, buf := Deliver(request, own, served, up);
    seen := served.View();
    var answer, contents := work(buf, served.View()).0, work(buf, served.View()).1;
    reply := answer;
    Sizes(work, buf, seen);
    PutContents(served, contents);
    if own.Some? {
      ServedFrom(own.value, seen, served.View(), contents);
    } else {
      NoParamsReady(served.View());
    }
    SendResponse(down, answer, served);
    assert [] + Response(answer, served.View()) == Response(answer, served.View());
  }

  /** A complete call over two streams that are idle: for any message, any operation with up to four parameters of any
      sizes and flags, and any work of the secure world, both streams are idle again afterwards; the server has seen
      exactly the contents of the buffers flagged OUT; the client has the reply, and the server's contents in exactly
      the other buffers. */
  method Rpc(request: Message, op: Op?, served: Op, up: Pipe, down: Pipe, work: Work)
    returns (err: int, recv: seq<byte>, ghost seen: Operation)
    requires up != down && up.bytes == [] && down.bytes == [] && KeepsSizes(work)
    requires op != null ==> op != served && op.Valid() && Ready(op.View()) && op.param != served.param
    requires served.Valid()
    modifies up, down, served, served.param, if op == null then {} else {op, op.param}
    ensures up.bytes == [] && down.bytes == []
    ensures err == SUCCESS && recv == work(request, seen).0
    ensures op == null ==> seen.numParam == 0
    ensures op != null ==> Seen(old(op.View()), seen) && Served(old(op.View()), op.View(), work(request, seen).1)
    ensures op != null ==> ByFlag(old(op.View()), seen, op.View(), work(request, seen).1)
  {
    hide ByFlag, Request, Response, Ready, Seen, Served, SameShapes, MergedOperation, KeepsSizes;
    ghost var own := if op == null then None else Some(op.View());
    SendRequest(up, request, op);
    assert up.bytes == Request(request, own) by { assert [] + Request(request, own) == Request(request, own); }
    ghost var reply;
    seen, reply := Serve(request, own, served, up, down, work);
    err, recv := Return(op, reply, served.View(), down);
    if op != null { FlagsDecide(own.value, seen, op.View(), work(request, seen).1); }
  }

  lemma Sizes(work: Work, m: seq<byte>, o: Operation)
    requires KeepsSizes(work) && Ready(o)
    ensures |work(m, o).1| == o.numParam <= MAXIMUM_OPERATIONS
    ensures forall i :: 0 <= i < o.numParam ==> |work(m, o).1[i]| == o.params[i].size
  {
  }
}
