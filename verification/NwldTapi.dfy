/** The normal world's service object: the information slots and connections in memory, and the calls on them. */
module NwldTapi {
  import opened Bytes
  import opened Status
  import opened HandlePlugin
  import opened Counting
  import opened Wire
  import opened ClientModel
  import opened ClientRuns
  import Packing

  /** One request and its answer: pack, hand to the channel, unpack, check command and status. `reply` is what the
      channel returns for the request, none if it fails. */
  method Exchange(k: Kind, request: Message, send: array<byte>, reply: Option<seq<byte>>) returns (v: Verdict)
    requires FormOf(request.body) == Form(k, true) && k != System && send.Length + 8 < TWO_32
    modifies send
    ensures v == if |EncodeMessage(request)| > send.Length then Bad(COMM_FAILED) else Judge(k, reply)
    ensures |EncodeMessage(request)| <= send.Length ==>
              send[..] == EncodeMessage(request) + old(send[..])[|EncodeMessage(request)|..]
  {
    hide EncodeMessage, DecodeMessage, WireBytes;
    UnpackPack(request, []);
    var packErr, _ := Packing.Pack(k, request, send, send.Length, REQUEST);
    if packErr != PACK_SUCCESS {
      return Bad(COMM_FAILED);
    }
    if reply.None? {
      return Bad(COMM_FAILED);
    }
    PackUnpack(Form(k, false), reply.value);
    var _, m := Packing.Unpack(k, reply.value, RESPONSE);
    if m.None? {
      return Bad(COMM_FAILED);
    }
    if m.value.hdr.cmd == Command(System) {
      return Bad(FAILED);
    } else if m.value.hdr.cmd != Command(k) {
      return Bad(INVALID_CMD);
    }
    if StatusOf(m.value.body) != SUCCESS {
      return Bad(FAILED);
    }
    return Good(m.value.body);
  }

  /** sk_nwld_tapi. */
  class Tapi {
    const smId: uint32
    const info: array<Info>
    const clist: array<Conn>
    var numContextId: nat
    var numConnections: nat
    ghost var leaks: seq<nat>

    ghost function Model(): Client
      reads this, info, clist
    {
      Client(smId, info[..], numContextId, clist[..], numConnections, leaks)
    }

    ghost predicate Valid()
      reads this, info, clist
    {
      ClientInv(Model())
    }

    /** sk_nwld_tapi_init. */
    constructor (ids: nat, connections: nat, sessions: nat, smId: uint32)
      requires connections > 0
      ensures Valid() && Model() == Fresh(smId, ids, connections, sessions)
      ensures fresh(info) && fresh(clist)
    {
      this.smId := smId;
      var infos := NewInfos(ids);
      var conns := NewConns(connections, sessions);
      info, clist := infos, conns;
      numContextId, numConnections, leaks := 0, 0, seq(ids, _ => 0);
      FreshInv(smId, ids, connections, sessions);
      new;
      hide ClientInv;
    }

    /** find_context_id: none for the source's -1. */
    method FindContextId(cid: uint32) returns (r: Option<nat>)
      ensures r == FindId(info[..], cid)
    {
      for i := 0 to info.Length
        invariant FindId(info[..], cid) == FindIdFrom(info[..], cid, i)
      {
        if info[i].used && info[i].contextId == cid {
          return Some(i);
        }
      }
      return None;
    }

    /** The scan of open_context for a free information slot. */
    method FindFreeInfo() returns (r: Option<nat>)
      ensures r == FirstFree(Used(info[..]))
    {
      for i := 0 to info.Length
        invariant FirstFree(Used(info[..])) == FirstFreeFrom(Used(info[..]), i)
      {
        if !info[i].used {
          return Some(i);
        }
      }
      return None;
    }

    /** get_conn_handle. */
    method GetConnHandle() returns (r: Option<nat>)
      ensures r == FirstFree(UsedConns(clist[..]))
    {
      for i := 0 to clist.Length
        invariant FirstFree(UsedConns(clist[..])) == FirstFreeFrom(UsedConns(clist[..]), i)
      {
        if !clist[i].used {
          return Some(i);
        }
      }
      return None;
    }

    /** get_session_handle. */
    static method GetSessionHandle(sess: seq<CSession>) returns (r: Option<nat>)
      ensures r == FirstFree(UsedSessions(sess))
    {
      for i := 0 to |sess|
        invariant FirstFree(UsedSessions(sess)) == FirstFreeFrom(UsedSessions(sess), i)
      {
        if !sess[i].used {
          return Some(i);
        }
      }
      return None;
    }

    method CountAgain(j: nat)
      requires Valid() && j < info.Length && info[j].used
      modifies this`leaks, info
      ensures |old(leaks)| == info.Length && Model() == Taken(old(Model()), j)
    {
      info[j] := info[j].(count := info[j].count + 1);
      leaks := leaks[j := leaks[j] + 1];
    }

    method AddContextId(j: nat, cid: uint32)
      requires Valid() && j < info.Length
      modifies this`numContextId, this`leaks, info
      ensures |old(leaks)| == info.Length && Model() == Added(old(Model()), j, cid)
    {
      info[j] := Info(cid, info[j].count + 1, true);
      numContextId := numContextId + 1;
      leaks := leaks[j := leaks[j] + 1];
    }

    /** open_context up to the request: the count, and for a new id its slot. */
    method TakeContextId(cid: uint32, registerErr: int) returns (err: int, i: nat)
      requires Valid()
      modifies this`numContextId, this`leaks, info
      ensures match OpenContextBegin(old(Model()), cid, registerErr)
              case Early(after, e) => Model() == after && err == e != SUCCESS
              case Ask(after, index, m) => Model() == after && err == SUCCESS && i == index < info.Length
              case Dead => false
    {
      assert ClientShape(Model());
      hide ClientInv, Used, Taken, FindId, FirstFree;
      OpenContextBeginKeeps(Model(), cid, registerErr);
      i := 0;
      if cid == 0 {
        return INVALID_PARAM, 0;
      }
      var known := FindContextId(cid);
      if known.Some? {
        CountAgain(known.value);
        return SUCCESS, known.value;
      }
      if numContextId >= info.Length {
        return OPEN_CONTEXT, 0;
      }
      var free := FindFreeInfo();
      assert free.Some?;
      AddContextId(free.value, cid);
      return if registerErr != SUCCESS then OPEN_FAILED else SUCCESS, free.value;
    }

    /** open_context once the secure world has agreed. */
    method BindConnection(i: nat, c: nat, handle: Handle)
      requires Valid() && i < info.Length == |leaks| && leaks[i] > 0 && c < clist.Length
      modifies this`numConnections, this`leaks, clist
      ensures var cl := old(Model());
              var conn := cl.conns[c].(contextId := cl.infos[i].contextId, index := i, used := true, handle := handle);
              Model() == cl.(conns := cl.conns[c := conn], numConns := cl.numConns + 1,
                             leaks := cl.leaks[i := cl.leaks[i] - 1])
    {
      clist[c] := clist[c].(contextId := info[i].contextId, index := i, used := true, handle := handle);
      numConnections := numConnections + 1;
      leaks := leaks[i := leaks[i] - 1];
    }

    /** open_context from the request on. */
    method RequestContext(cid: uint32, i: nat, send: array<byte>, reply: Option<seq<byte>>) returns (err: int,
        handle: nat)
      requires Valid() && i < info.Length == |leaks| && leaks[i] > 0 && send.Length + 8 < TWO_32
      modifies this`numConnections, this`leaks, clist, send
      ensures var request := Message(Header(cid, smId, Command(OpenContext)), OpenContextReq(cid));
              Returned(Model(), err, handle) ==
              if |EncodeMessage(request)| > send.Length then Returned(old(Model()), COMM_FAILED, 0)
              else OpenContextFinish(old(Model()), i, reply)
    {
      hide ClientInv, EncodeMessage, Judge, FirstFree;
      var v := Exchange(OpenContext, Message(Header(cid, smId, Command(OpenContext)), OpenContextReq(cid)),
                        send, reply);
      if v.Bad? {
        return v.err, 0;
      }
      var free := GetConnHandle();
      if free.None? {
        return COMM_FAILED, 0;
      }
      BindConnection(i, free.value, v.body.handle);
      return SUCCESS, free.value;
    }

    /** sk_nwld_tapi_open_context. */
    method OpenContextFor(cid: uint32, registerErr: int, send: array<byte>, recvSize: nat, reply: Option<seq<byte>>)
      returns (err: int, handle: nat)
      requires Valid() && send.Length + 8 < TWO_32
      modifies this`numContextId, this`numConnections, this`leaks, info, clist, send
      ensures Valid()
      ensures Returned(Model(), err, handle) ==
              Perform(old(Model()), OpenContextCall(cid, registerErr), Buffers(send.Length, recvSize), reply)
    {
      hide ClientInv, OpenContextBegin, OpenContextFinish, EncodeMessage, Undisturbed, WellAsked, Aborts, Judge;
      ghost var cl := Model();
      HasShape(cl);
      OpenContextBeginKeeps(cl, cid, registerErr);
      PerformKeeps(cl, OpenContextCall(cid, registerErr), Buffers(send.Length, recvSize), reply);
      AskedOf(cl, cid, registerErr);
      if send.Length == 0 || recvSize == 0 {
        return INVALID_PARAM, 0;
      }
      var i;
      err, i := TakeContextId(cid, registerErr);
      if err != SUCCESS {
        return err, 0;
      }
      err, handle := RequestContext(cid, i, send, reply);
    }

    /** The last part of close_context. False if one of its assertions fires. */
    method ReleaseConnection(h: nat) returns (ok: bool)
      requires h < clist.Length && clist[h].used && clist[h].index < info.Length
      modifies this`numContextId, this`numConnections, info, clist
      ensures var cl := old(Model());
              var i := cl.conns[h].index;
              && ok == !(cl.infos[i].count == 0 || (cl.infos[i].count == 1 && cl.numIds == 0) || cl.numConns == 0)
              && (ok ==> Model() == Released(cl, i).(numConns := cl.numConns - 1, conns := cl.conns[h := ZeroConn()]))
    {
      var i := clist[h].index;
      if info[i].count == 0 {
        return false;
      }
      info[i] := info[i].(count := info[i].count - 1);
      if info[i].count == 0 {
        info[i] := Info(0, info[i].count, false);
        if numContextId == 0 {
          return false;
        }
        numContextId := numContextId - 1;
      }
      if numConnections == 0 {
        return false;
      }
      numConnections := numConnections - 1;
      clist[h] := ZeroConn();
      return true;
    }

    /** close_context on an open connection. */
    method RequestClose(h: nat, send: array<byte>, reply: Option<seq<byte>>) returns (ok: bool, err: int)
      requires IsOpen(Model(), h) && clist[h].index < info.Length && send.Length + 8 < TWO_32
      modifies this`numContextId, this`numConnections, info, clist, send
      ensures var cl := old(Model());
              var r := if |EncodeMessage(RequestOn(cl, h, CloseContextReq(cl.conns[h].handle)))| > send.Length
                       then Returned(cl, COMM_FAILED, 0) else CloseContextFinish(cl, h, reply);
              if ok then r == Returned(Model(), err, 0) else r == Aborted
    {
      hide Judge, EncodeMessage, Released;
      var conn := clist[h];
      var v := Exchange(CloseContext, Message(Header(conn.contextId, smId, Command(CloseContext)),
                                              CloseContextReq(conn.handle)), send, reply);
      if v.Bad? {
        return true, v.err;
      }
      ok := ReleaseConnection(h);
      return ok, SUCCESS;
    }

    /** sk_nwld_tapi_close_context. Its assertions never fire. */
    method CloseContextOf(h: nat, send: array<byte>, recvSize: nat, reply: Option<seq<byte>>) returns (err: int)
      requires Valid() && send.Length + 8 < TWO_32
      modifies this`numContextId, this`numConnections, info, clist, send
      ensures Valid()
      ensures Returned(Model(), err, 0) ==
              Perform(old(Model()), CloseContextCall(h), Buffers(send.Length, recvSize), reply)
    {
      ghost var cl := Model();
      PerformKeeps(cl, CloseContextCall(h), Buffers(send.Length, recvSize), reply);
      OtherBeginKeeps(cl, CloseContextCall(h));
      hide ClientInv, Judge, EncodeMessage, CloseContextFinish;
      if send.Length == 0 || recvSize == 0 {
        return INVALID_PARAM;
      }
      if h >= clist.Length || !clist[h].used {
        return CONTEXT_HANDLE_NOT_FOUND;
      }
      var ok;
      ok, err := RequestClose(h, send, reply);
      assert ok;
    }

    method SetConnection(h: nat, conn: Conn)
      requires h < clist.Length
      modifies clist
      ensures Model() == old(Model()).(conns := old(clist[..])[h := conn])
    {
      clist[h] := conn;
    }

    /** open_session on an open connection; it aborts when the connection has no session table. */
    method RequestSession(h: nat, taid: Handle, send: array<byte>, reply: Option<seq<byte>>)
      returns (aborted: bool, err: int, session: nat)
      requires IsOpen(Model(), h) && send.Length + 8 < TWO_32
      modifies clist, send
      ensures var cl := old(Model());
              (if |EncodeMessage(RequestOn(cl, h, OpenSessionReq(cl.conns[h].handle, taid)))| > send.Length
               then Returned(cl, COMM_FAILED, 0) else OpenSessionFinish(cl, h, reply))
              == if aborted then Aborted else Returned(Model(), err, session)
    {
      hide Judge, EncodeMessage, FirstFree;
      var conn := clist[h];
      var v := Exchange(OpenSession, Message(Header(conn.contextId, smId, Command(OpenSession)),
                                             OpenSessionReq(conn.handle, taid)), send, reply);
      if v.Bad? {
        return false, v.err, 0;
      }
      if |conn.sessions| == 0 {
        return true, FAILED, 0;
      }
      var free := GetSessionHandle(conn.sessions);
      if free.None? {
        return false, SESSION_HANDLE_NOT_FOUND, 0;
      }
      SetConnection(h, conn.(sessions := conn.sessions[free.value := CSession(v.body.handle, true)],
                             numSessions := conn.numSessions + 1));
      return false, SUCCESS, free.value;
    }

    /** sk_nwld_tapi_open_session. */
    method OpenSessionOn(h: nat, taid: Handle, send: array<byte>, recvSize: nat, reply: Option<seq<byte>>)
      returns (aborted: bool, err: int, session: nat)
      requires Valid() && send.Length + 8 < TWO_32
      modifies clist, send
      ensures Valid() || aborted
      ensures Perform(old(Model()), OpenSessionCall(h, taid), Buffers(send.Length, recvSize), reply) ==
              if aborted then Aborted else Returned(Model(), err, session)
    {
      ghost var cl := Model();
      PerformKeeps(cl, OpenSessionCall(h, taid), Buffers(send.Length, recvSize), reply);
      OtherBeginKeeps(cl, OpenSessionCall(h, taid));
      hide ClientInv, Judge, EncodeMessage, OpenSessionFinish;
      if send.Length == 0 || recvSize == 0 {
        return false, INVALID_PARAM, 0;
      }
      if h >= clist.Length || !clist[h].used {
        return false, CONTEXT_HANDLE_NOT_FOUND, 0;
      }
      aborted, err, session := RequestSession(h, taid, send, reply);
    }

    /** sk_nwld_tapi_close_session. */
    method CloseSessionOn(h: nat, s: nat, send: array<byte>, recvSize: nat, reply: Option<seq<byte>>) returns (err: int)
      requires Valid() && send.Length + 8 < TWO_32
      modifies clist, send
      ensures Valid()
      ensures Returned(Model(), err, 0) ==
              Perform(old(Model()), CloseSessionCall(h, s), Buffers(send.Length, recvSize), reply)
    {
      ghost var cl := Model();
      PerformKeeps(cl, CloseSessionCall(h, s), Buffers(send.Length, recvSize), reply);
      OtherBeginKeeps(cl, CloseSessionCall(h, s));
      if IsOpenSession(cl, h, s) { SessionRemovedKeeps(cl, h, s); }
      hide ClientInv, Judge, EncodeMessage;
      if send.Length == 0 || recvSize == 0 {
        return INVALID_PARAM;
      }
      if h >= clist.Length || !clist[h].used {
        return CONTEXT_HANDLE_NOT_FOUND;
      }
      var conn := clist[h];
      if s >= |conn.sessions| || !conn.sessions[s].used {
        return SESSION_HANDLE_NOT_FOUND;
      }
      var v := Exchange(CloseSession, Message(Header(conn.contextId, smId, Command(CloseSession)),
                                              CloseSessionReq(conn.handle, conn.sessions[s].handle)), send, reply);
      if v.Bad? {
        return v.err;
      }
      assert conn.numSessions != 0;
      SetConnection(h, conn.(sessions := conn.sessions[s := ZeroSession()], numSessions := conn.numSessions - 1));
      return SUCCESS;
    }

    /** sk_nwld_tapi_invoke_command. */
    method Invoke(h: nat, s: nat, cmd: uint32, send: array<byte>, recvSize: nat, reply: Option<seq<byte>>)
      returns (err: int)
      requires Valid() && send.Length + 8 < TWO_32
      modifies send
      ensures Returned(Model(), err, 0) ==
              Perform(Model(), InvokeCall(h, s, cmd), Buffers(send.Length, recvSize), reply)
    {
      OtherBeginKeeps(Model(), InvokeCall(h, s, cmd));
      hide ClientInv, Judge, EncodeMessage;
      if send.Length == 0 || recvSize == 0 {
        return INVALID_PARAM;
      }
      if h >= clist.Length || !clist[h].used {
        return CONTEXT_HANDLE_NOT_FOUND;
      }
      var conn := clist[h];
      if s >= |conn.sessions| || !conn.sessions[s].used {
        return SESSION_HANDLE_NOT_FOUND;
      }
      var v := Exchange(InvokeCommand, Message(Header(conn.contextId, smId, Command(InvokeCommand)),
                                               InvokeReq(conn.handle, conn.sessions[s].handle, cmd)), send, reply);
      return if v.Bad? then v.err else SUCCESS;
    }

    /** sk_nwld_tapi_register_memory. */
    method Register(h: nat, size: uint32, flag: uint32, addr: uint32, openErr: int, send: array<byte>, recvSize: nat,
                    reply: Option<seq<byte>>)
      returns (err: int, at: nat, id: Option<Handle>)
      requires Valid() && send.Length + 8 < TWO_32
      modifies send
      ensures Returned(Model(), err, at, id) ==
              Perform(Model(), RegisterCall(h, size, flag, addr, openErr), Buffers(send.Length, recvSize), reply)
    {
      OtherBeginKeeps(Model(), RegisterCall(h, size, flag, addr, openErr));
      hide ClientInv, Judge, EncodeMessage;
      if send.Length == 0 || recvSize == 0 {
        return INVALID_PARAM, 0, None;
      }
      if h >= clist.Length || !clist[h].used {
        return CONTEXT_HANDLE_NOT_FOUND, 0, None;
      }
      var conn := clist[h];
      var v := Exchange(RegisterMemory, Message(Header(conn.contextId, smId, Command(RegisterMemory)),
                                                RegisterReq(conn.handle, size, flag, addr)), send, reply);
      if v.Bad? {
        return v.err, 0, None;
      }
      if openErr != SUCCESS {
        return REGMEM_CMD, 0, None;
      }
      return SUCCESS, v.body.addr, Some(v.body.memoryId);
    }

    /** sk_nwld_tapi_unregister_memory. */
    method Unregister(h: nat, id: Handle, closeErr: int, send: array<byte>, recvSize: nat, reply: Option<seq<byte>>)
      returns (err: int)
      requires Valid() && send.Length + 8 < TWO_32
      modifies send
      ensures Returned(Model(), err, 0) ==
              Perform(Model(), UnregisterCall(h, id, closeErr), Buffers(send.Length, recvSize), reply)
    {
      OtherBeginKeeps(Model(), UnregisterCall(h, id, closeErr));
      hide ClientInv, Judge, EncodeMessage;
      if send.Length == 0 || recvSize == 0 {
        return INVALID_PARAM;
      }
      if h >= clist.Length || !clist[h].used {
        return CONTEXT_HANDLE_NOT_FOUND;
      }
      var conn := clist[h];
      var v := Exchange(UnregisterMemory, Message(Header(conn.contextId, smId, Command(UnregisterMemory)),
                                                  UnregisterReq(conn.handle, id)), send, reply);
      if v.Bad? {
        return v.err;
      }
      return if closeErr != SUCCESS then REGMEM_CMD else SUCCESS;
    }
  }

  method NewInfos(n: nat) returns (a: array<Info>)
    ensures fresh(a) && a[..] == seq(n, _ => Info(0, 0, false))
  {
    a := new Info[n](_ => Info(0, 0, false));
  }

  /** The cleared connections; only the first one gets a session table. */
  method NewConns(n: nat, sessions: nat) returns (a: array<Conn>)
    requires n > 0
    ensures fresh(a)
    ensures a[..] == [ZeroConn().(sessions := seq(sessions, _ => ZeroSession()))] + seq(n - 1, _ => ZeroConn())
  {
    a := new Conn[n](_ => ZeroConn());
    a[0] := a[0].(sessions := seq(sessions, _ => ZeroSession()));
  }
}
