/** The normal world's connection table as a value, and what each call does to it given what the channel returns. */
module ClientModel {
  import opened Bytes
  import opened Status
  import opened HandlePlugin
  import opened Counting
  import opened Wire

  /** tSkSysSession. */
  datatype CSession = CSession(handle: Handle, used: bool)

  /** tSkSysConnection. `index` also stands for the pointer to that information slot's communication object.
      No sessions means a null session table. */
  datatype Conn = Conn(contextId: uint32, index: nat, handle: Handle, sessions: seq<CSession>, numSessions: nat,
                       used: bool)

  /** tSkSysContextIDInfo. */
  datatype Info = Info(contextId: uint32, count: nat, used: bool)

  /** sk_nwld_tapi. `leaks` is history: for each information slot, the counts taken by open_context calls that went
      on to fail. */
  datatype Client = Client(smId: uint32, infos: seq<Info>, numIds: nat, conns: seq<Conn>, numConns: nat,
                         leaks: seq<nat>)

  function ZeroConn(): Conn { Conn(0, 0, ZeroHandle(), [], 0, false) }

  function ZeroSession(): CSession { CSession(ZeroHandle(), false) }

  /** What a call returns; `Aborted` where an assertion of the source ends the process. `value` is the handle or the
      address handed to the caller, `id` the id of a region just registered. */
  datatype Returned = Returned(client: Client, err: int, value: nat, id: Option<Handle> := None) | Aborted

  /** The sizes of the caller's two message buffers. */
  datatype Buffers = Buffers(send: nat, recv: nat)

  /** Every call starts by refusing an empty buffer. */
  predicate NoBuffer(b: Buffers) { b.send == 0 || b.recv == 0 }

  /** The first part of a call: an early return, or a request for the channel of an information slot. */
  datatype Begun = Early(client: Client, err: int) | Ask(client: Client, index: nat, request: Message) | Dead

  datatype Verdict = Bad(err: int) | Good(body: Body)

  function StatusOf(b: Body): int
    requires !FormOf(b).request
  {
    match b
    case OpenContextResp(_, s) => s
    case CloseContextResp(s) => s
    case OpenSessionResp(_, s) => s
    case CloseSessionResp(s) => s
    case InvokeResp(s) => s
    case RegisterResp(_, _, s) => s
    case UnregisterResp(s) => s
    case CheckResp(s) => s
    case SystemResp(s) => s
  }

  /** What every call makes of the received bytes, none if the channel failed: length, command, status. */
  function Judge(k: Kind, reply: Option<seq<byte>>): (v: Verdict)
    requires k != System
    ensures v.Good? ==> FormOf(v.body) == Form(k, false) && StatusOf(v.body) == SUCCESS
    ensures v.Good? ==> reply.Some? && var m := DecodeMessage(Form(k, false), reply.value);
                                          m.Some? && m.value.body == v.body && m.value.hdr.cmd == Command(k)
    ensures v.Bad? ==> v.err != SUCCESS
    ensures v == Bad(COMM_FAILED) <==> reply.None? || DecodeMessage(Form(k, false), reply.value).None?
  {
    match reply
    case None => Bad(COMM_FAILED)
    case Some(bytes) =>
      PackUnpack(Form(k, false), bytes);
      match DecodeMessage(Form(k, false), bytes)
      case None => Bad(COMM_FAILED)
      case Some(m) =>
        if m.hdr.cmd == Command(System) then Bad(FAILED)
        else if m.hdr.cmd != Command(k) then Bad(INVALID_CMD)
        else if StatusOf(m.body) != SUCCESS then Bad(FAILED)
        else Good(m.body)
  }

  /** What the client makes of an honest reply. */
  lemma JudgeReply(k: Kind, hdr: Header, body: Body)
    requires k != System && hdr.cmd == Command(k) && FormOf(body) == Form(k, false)
    ensures Judge(k, Some(EncodeMessage(Message(hdr, body)))) ==
            if StatusOf(body) == SUCCESS then Good(body) else Bad(FAILED)
  {
    var m := Message(hdr, body);
    assert EncodeMessage(m) + [] == EncodeMessage(m);
    UnpackPack(m, []);
  }

  function Used(infos: seq<Info>): seq<bool> { seq(|infos|, i requires 0 <= i < |infos| => infos[i].used) }

  function UsedConns(conns: seq<Conn>): seq<bool> { seq(|conns|, c requires 0 <= c < |conns| => conns[c].used) }

  function UsedSessions(ss: seq<CSession>): seq<bool> { seq(|ss|, s requires 0 <= s < |ss| => ss[s].used) }

  /** The used slot that holds context id `cid`. */
  function FindId(infos: seq<Info>, cid: uint32): (r: Option<nat>)
    ensures r.Some? ==> r.value < |infos| && infos[r.value].used && infos[r.value].contextId == cid
    ensures r.None? <==> forall i :: 0 <= i < |infos| && infos[i].used ==> infos[i].contextId != cid
  {
    FindIdFrom(infos, cid, 0)
  }

  function FindIdFrom(infos: seq<Info>, cid: uint32, from: nat): (r: Option<nat>)
    requires from <= |infos|
    ensures r.Some? ==> from <= r.value < |infos| && infos[r.value].used && infos[r.value].contextId == cid
    ensures r.None? <==> forall i :: from <= i < |infos| && infos[i].used ==> infos[i].contextId != cid
    decreases |infos| - from
  {
    if from == |infos| then None
    else if infos[from].used && infos[from].contextId == cid then Some(from)
    else FindIdFrom(infos, cid, from + 1)
  }

  ghost predicate ClientShape(cl: Client) { |cl.leaks| == |cl.infos| }

  // ---------------------------------------------------------------- the calls

  function Taken(cl: Client, i: nat): Client
    requires ClientShape(cl) && i < |cl.infos|
  {
    cl.(infos := cl.infos[i := cl.infos[i].(count := cl.infos[i].count + 1)], leaks := cl.leaks[i := cl.leaks[i] + 1])
  }

  /** A free slot `i` taken for a new context id. */
  function Added(cl: Client, i: nat, cid: uint32): Client
    requires ClientShape(cl) && i < |cl.infos|
  {
    var next := Taken(cl, i);
    next.(infos := next.infos[i := Info(cid, next.infos[i].count, true)], numIds := cl.numIds + 1)
  }

  function OpenContextBegin(cl: Client, cid: uint32, registerErr: int): Begun
    requires ClientShape(cl)
  {
    if cid == 0 then Early(cl, INVALID_PARAM)
    else
      match FindId(cl.infos, cid)
      case Some(i) =>
        Ask(Taken(cl, i), i, Message(Header(cid, cl.smId, Command(OpenContext)), OpenContextReq(cid)))
      case None =>
        if cl.numIds >= |cl.infos| then Early(cl, OPEN_CONTEXT)
        else
          match FirstFree(Used(cl.infos))
          case None => Dead
          case Some(i) =>
            if registerErr != SUCCESS then Early(Added(cl, i, cid), OPEN_FAILED)
            else Ask(Added(cl, i, cid), i, Message(Header(cid, cl.smId, Command(OpenContext)), OpenContextReq(cid)))
  }

  function OpenContextFinish(cl: Client, i: nat, reply: Option<seq<byte>>): Returned
    requires ClientShape(cl) && i < |cl.infos| && cl.leaks[i] > 0
  {
    match Judge(OpenContext, reply)
    case Bad(err) => Returned(cl, err, 0)
    case Good(body) =>
      match FirstFree(UsedConns(cl.conns))
      case None => Returned(cl, COMM_FAILED, 0)
      case Some(c) =>
        var conn := cl.conns[c].(contextId := cl.infos[i].contextId, index := i, used := true, handle := body.handle);
        Returned(cl.(conns := cl.conns[c := conn], numConns := cl.numConns + 1,
                     leaks := cl.leaks[i := cl.leaks[i] - 1]),
                 SUCCESS, c)
  }

  predicate IsOpen(cl: Client, h: nat) { h < |cl.conns| && cl.conns[h].used }

  function RequestOn(cl: Client, h: nat, body: Body): Message
    requires IsOpen(cl, h)
  {
    Message(Header(cl.conns[h].contextId, cl.smId, Command(FormOf(body).kind)), body)
  }

  function CloseContextBegin(cl: Client, h: nat): Begun
  {
    if !IsOpen(cl, h) then Early(cl, CONTEXT_HANDLE_NOT_FOUND)
    else Ask(cl, cl.conns[h].index, RequestOn(cl, h, CloseContextReq(cl.conns[h].handle)))
  }

  /** One count less for slot `i`; at zero the slot is unregistered and free again. */
  function Released(cl: Client, i: nat): Client
    requires i < |cl.infos| && cl.infos[i].count > 0 && (cl.infos[i].count == 1 ==> cl.numIds > 0)
  {
    if cl.infos[i].count == 1
    then cl.(infos := cl.infos[i := Info(0, 0, false)], numIds := cl.numIds - 1)
    else cl.(infos := cl.infos[i := cl.infos[i].(count := cl.infos[i].count - 1)])
  }

  function CloseContextFinish(cl: Client, h: nat, reply: Option<seq<byte>>): Returned
    requires IsOpen(cl, h) && cl.conns[h].index < |cl.infos|
  {
    var i := cl.conns[h].index;
    match Judge(CloseContext, reply)
    case Bad(err) => Returned(cl, err, 0)
    case Good(_) =>
      if cl.infos[i].count == 0 || (cl.infos[i].count == 1 && cl.numIds == 0) || cl.numConns == 0 then Aborted
      else Returned(Released(cl, i).(numConns := cl.numConns - 1, conns := cl.conns[h := ZeroConn()]), SUCCESS, 0)
  }

  function OpenSessionBegin(cl: Client, h: nat, taid: Handle): Begun
  {
    if !IsOpen(cl, h) then Early(cl, CONTEXT_HANDLE_NOT_FOUND)
    else Ask(cl, cl.conns[h].index, RequestOn(cl, h, OpenSessionReq(cl.conns[h].handle, taid)))
  }

  function OpenSessionFinish(cl: Client, h: nat, reply: Option<seq<byte>>): Returned
    requires IsOpen(cl, h)
  {
    match Judge(OpenSession, reply)
    case Bad(err) => Returned(cl, err, 0)
    case Good(body) =>
      var conn := cl.conns[h];
      if conn.sessions == [] then Aborted
      else
        match FirstFree(UsedSessions(conn.sessions))
        case None => Returned(cl, SESSION_HANDLE_NOT_FOUND, 0)
        case Some(s) =>
          var after := conn.(sessions := conn.sessions[s := CSession(body.handle, true)],
                             numSessions := conn.numSessions + 1);
          Returned(cl.(conns := cl.conns[h := after]), SUCCESS, s)
  }

  predicate IsOpenSession(cl: Client, h: nat, s: nat)
  {
    IsOpen(cl, h) && s < |cl.conns[h].sessions| && cl.conns[h].sessions[s].used
  }

  function CloseSessionBegin(cl: Client, h: nat, s: nat): Begun
  {
    if !IsOpen(cl, h) then Early(cl, CONTEXT_HANDLE_NOT_FOUND)
    else if !IsOpenSession(cl, h, s) then Early(cl, SESSION_HANDLE_NOT_FOUND)
    else Ask(cl, cl.conns[h].index,
             RequestOn(cl, h, CloseSessionReq(cl.conns[h].handle, cl.conns[h].sessions[s].handle)))
  }

  function CloseSessionFinish(cl: Client, h: nat, s: nat, reply: Option<seq<byte>>): Returned
    requires IsOpenSession(cl, h, s)
  {
    match Judge(CloseSession, reply)
    case Bad(err) => Returned(cl, err, 0)
    case Good(_) =>
      var conn := cl.conns[h];
      if conn.numSessions == 0 then Aborted
      else
        var after := conn.(sessions := conn.sessions[s := ZeroSession()], numSessions := conn.numSessions - 1);
        Returned(cl.(conns := cl.conns[h := after]), SUCCESS, 0)
  }

  function InvokeBegin(cl: Client, h: nat, s: nat, cmd: uint32): Begun
  {
    if !IsOpen(cl, h) then Early(cl, CONTEXT_HANDLE_NOT_FOUND)
    else if !IsOpenSession(cl, h, s) then Early(cl, SESSION_HANDLE_NOT_FOUND)
    else Ask(cl, cl.conns[h].index,
             RequestOn(cl, h, InvokeReq(cl.conns[h].handle, cl.conns[h].sessions[s].handle, cmd)))
  }

  function InvokeFinish(cl: Client, reply: Option<seq<byte>>): Returned
  {
    match Judge(InvokeCommand, reply)
    case Bad(err) => Returned(cl, err, 0)
    case Good(_) => Returned(cl, SUCCESS, 0)
  }

  function RegisterBegin(cl: Client, h: nat, size: uint32, flag: uint32, addr: uint32): Begun
  {
    if !IsOpen(cl, h) then Early(cl, CONTEXT_HANDLE_NOT_FOUND)
    else Ask(cl, cl.conns[h].index, RequestOn(cl, h, RegisterReq(cl.conns[h].handle, size, flag, addr)))
  }

  /** `openErr` is what the platform says when it opens the region. */
  function RegisterFinish(cl: Client, openErr: int, reply: Option<seq<byte>>): Returned
  {
    match Judge(RegisterMemory, reply)
    case Bad(err) => Returned(cl, err, 0)
    case Good(body) =>
      if openErr != SUCCESS then Returned(cl, REGMEM_CMD, 0)
      else Returned(cl, SUCCESS, body.addr, Some(body.memoryId))
  }

  function UnregisterBegin(cl: Client, h: nat, id: Handle): Begun
  {
    if !IsOpen(cl, h) then Early(cl, CONTEXT_HANDLE_NOT_FOUND)
    else Ask(cl, cl.conns[h].index, RequestOn(cl, h, UnregisterReq(cl.conns[h].handle, id)))
  }

  /** A region that cannot be closed gets the error of one that cannot be opened. */
  function UnregisterFinish(cl: Client, closeErr: int, reply: Option<seq<byte>>): Returned
  {
    match Judge(UnregisterMemory, reply)
    case Bad(err) => Returned(cl, err, 0)
    case Good(_) => if closeErr != SUCCESS then Returned(cl, REGMEM_CMD, 0) else Returned(cl, SUCCESS, 0)
  }

  // ---------------------------------------------------------------- all of them together

  datatype Call =
    | OpenContextCall(cid: uint32, registerErr: int)
    | CloseContextCall(h: nat)
    | OpenSessionCall(h: nat, taid: Handle)
    | CloseSessionCall(h: nat, s: nat)
    | InvokeCall(h: nat, s: nat, cmd: uint32)
    | RegisterCall(h: nat, size: uint32, flag: uint32, addr: uint32, openErr: int)
    | UnregisterCall(h: nat, id: Handle, closeErr: int)

  function Begin(cl: Client, call: Call): Begun
    requires ClientShape(cl)
  {
    match call
    case OpenContextCall(cid, registerErr) => OpenContextBegin(cl, cid, registerErr)
    case CloseContextCall(h) => CloseContextBegin(cl, h)
    case OpenSessionCall(h, taid) => OpenSessionBegin(cl, h, taid)
    case CloseSessionCall(h, s) => CloseSessionBegin(cl, h, s)
    case InvokeCall(h, s, cmd) => InvokeBegin(cl, h, s, cmd)
    case RegisterCall(h, size, flag, addr, _) => RegisterBegin(cl, h, size, flag, addr)
    case UnregisterCall(h, id, _) => UnregisterBegin(cl, h, id)
  }

  /** What must hold between the two parts of a call. */
  ghost predicate Asked(cl: Client, call: Call, i: nat)
  {
    && ClientShape(cl) && i < |cl.infos|
    && match call
       case OpenContextCall(_, _) => cl.leaks[i] > 0
       case CloseContextCall(h) => IsOpen(cl, h) && cl.conns[h].index == i
       case OpenSessionCall(h, _) => IsOpen(cl, h) && cl.conns[h].index == i
       case CloseSessionCall(h, s) => IsOpenSession(cl, h, s) && cl.conns[h].index == i
       case InvokeCall(h, s, _) => IsOpenSession(cl, h, s) && cl.conns[h].index == i
       case RegisterCall(h, _, _, _, _) => IsOpen(cl, h) && cl.conns[h].index == i
       case UnregisterCall(h, _, _) => IsOpen(cl, h) && cl.conns[h].index == i
  }

  function Finish(cl: Client, call: Call, i: nat, reply: Option<seq<byte>>): Returned
    requires Asked(cl, call, i)
  {
    match call
    case OpenContextCall(_, _) => OpenContextFinish(cl, i, reply)
    case CloseContextCall(h) => CloseContextFinish(cl, h, reply)
    case OpenSessionCall(h, _) => OpenSessionFinish(cl, h, reply)
    case CloseSessionCall(h, s) => CloseSessionFinish(cl, h, s, reply)
    case InvokeCall(_, _, _) => InvokeFinish(cl, reply)
    case RegisterCall(_, _, _, _, openErr) => RegisterFinish(cl, openErr, reply)
    case UnregisterCall(_, _, closeErr) => UnregisterFinish(cl, closeErr, reply)
  }

  /** init. */
  function Fresh(smId: uint32, ids: nat, connections: nat, sessions: nat): Client
    requires connections > 0
  {
    Client(smId, seq(ids, _ => Info(0, 0, false)), 0,
           [ZeroConn().(sessions := seq(sessions, _ => ZeroSession()))] + seq(connections - 1, _ => ZeroConn()), 0,
           seq(ids, _ => 0))
  }

  // ---------------------------------------------------------------- the invariant

  /** The open connections that refer to information slot `i`. */
  function ConnsAt(conns: seq<Conn>, i: nat): seq<bool>
  {
    seq(|conns|, c requires 0 <= c < |conns| => conns[c].used && conns[c].index == i)
  }

  /** The count of a slot is the number of open connections that refer to it, plus the leaks; the slot is used
      exactly while its count is positive. */
  ghost predicate Refcounts(cl: Client)
    requires ClientShape(cl)
  {
    forall i :: 0 <= i < |cl.infos| ==>
      && cl.infos[i].count == Count(ConnsAt(cl.conns, i)) + cl.leaks[i]
      && (cl.infos[i].used <==> cl.infos[i].count > 0)
  }

  /** Used slots hold distinct context ids, none of them 0. */
  ghost predicate DistinctIds(infos: seq<Info>)
  {
    && (forall i :: 0 <= i < |infos| && infos[i].used ==> infos[i].contextId != 0)
    && (forall i, j :: 0 <= i < j < |infos| && infos[i].used && infos[j].used ==>
         infos[i].contextId != infos[j].contextId)
  }

  /** An open connection refers to a slot that holds its context id. */
  ghost predicate Refers(cl: Client)
  {
    forall c :: 0 <= c < |cl.conns| && cl.conns[c].used ==>
      cl.conns[c].index < |cl.infos| && cl.infos[cl.conns[c].index].contextId == cl.conns[c].contextId
  }

  /** Each connection counts its open sessions; only the first one can have a session table; closed ones hold none. */
  ghost predicate SessionTables(conns: seq<Conn>)
  {
    forall c :: 0 <= c < |conns| ==>
      && conns[c].numSessions == Count(UsedSessions(conns[c].sessions))
      && (c > 0 ==> conns[c].sessions == [])
      && (!conns[c].used ==> conns[c].numSessions == 0)
  }

  ghost predicate Totals(cl: Client)
  {
    cl.numIds == Count(Used(cl.infos)) && cl.numConns == Count(UsedConns(cl.conns))
  }

  ghost predicate ClientInv(cl: Client)
  {
    ClientShape(cl) && Refcounts(cl) && DistinctIds(cl.infos) && Refers(cl) && SessionTables(cl.conns) && Totals(cl)
  }

  type SoundClient = cl: Client | ClientInv(cl) witness Client(0, [], 0, [], 0, [])
}
