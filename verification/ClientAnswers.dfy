/** What each of the normal world's calls returns, and when: error codes, handle numbers, and what they stand for. */
module ClientAnswers {
  import opened Bytes
  import opened Status
  import opened HandlePlugin
  import opened Counting
  import opened Wire
  import opened ClientModel
  import opened ClientRuns

  // ---------------------------------------------------------------- the verdict on a reply

  /** What a reply is taken for, by its length, its command number and its status. */
  lemma JudgeExact(k: Kind, reply: Option<seq<byte>>)
    requires k != System
    ensures Judge(k, reply) == Bad(COMM_FAILED) <==> reply.None? || |reply.value| < WireBytes(Form(k, false))
    ensures reply.Some? && |reply.value| >= WireBytes(Form(k, false)) ==>
              && DecodeMessage(Form(k, false), reply.value).Some?
              && var v, m := Judge(k, reply), DecodeMessage(Form(k, false), reply.value).value;
                 && FormOf(m.body) == Form(k, false)
                 && (v == Good(m.body) <==> m.hdr.cmd == Command(k) && StatusOf(m.body) == SUCCESS)
                 && (v == Bad(INVALID_CMD) <==> m.hdr.cmd != Command(k) && m.hdr.cmd != 8)
                 && (v == Bad(FAILED) <==> m.hdr.cmd == 8 || (m.hdr.cmd == Command(k) && StatusOf(m.body) != SUCCESS))
  {
    if reply.Some? { PackUnpack(Form(k, false), reply.value); }
  }

  // ---------------------------------------------------------------- calls on an open connection

  /** The session number that a call needs to be open. */
  predicate NeedsSession(call: Call) { call.CloseSessionCall? || call.InvokeCall? }

  /** The request of a call on a connection goes out. */
  predicate GoesOut(cl: Client, call: Call, bufs: Buffers)
    requires !call.OpenContextCall?
  {
    && !NoBuffer(bufs) && IsOpen(cl, call.h) && (NeedsSession(call) ==> IsOpenSession(cl, call.h, call.s))
    && WireBytes(Form(KindOfCall(call), true)) <= bufs.send
  }

  /** Why a request does not go out, in the order in which the call looks; nothing has changed then. */
  lemma StaysIn(cl: SoundClient, call: Call, bufs: Buffers, reply: Option<seq<byte>>)
    requires !call.OpenContextCall? && !GoesOut(cl, call, bufs)
    ensures Perform(cl, call, bufs, reply) ==
            Returned(cl, if NoBuffer(bufs) then INVALID_PARAM
                         else if !IsOpen(cl, call.h) then CONTEXT_HANDLE_NOT_FOUND
                         else if NeedsSession(call) && !IsOpenSession(cl, call.h, call.s) then SESSION_HANDLE_NOT_FOUND
                         else COMM_FAILED, 0)
  {
    hide ClientInv, EncodeMessage, WireBytes, Finish;
    OtherBeginKeeps(cl, call);
    HasShape(cl);
    var b := Begin(cl, call);
    if b.Ask? { RequestSize(b.client, call, b.index, b.request); }
  }

  lemma RequestSize(cl: Client, call: Call, i: nat, m: Message)
    requires WellAsked(cl, call, i, m)
    ensures |EncodeMessage(m)| == WireBytes(Form(KindOfCall(call), true))
  {
    UnpackPack(m, []);
  }

  /** A request that goes out is finished with the reply; the client's own tables are as before up to then. */
  lemma Finished(cl: SoundClient, call: Call, bufs: Buffers, reply: Option<seq<byte>>)
    requires !call.OpenContextCall? && GoesOut(cl, call, bufs)
    ensures Asked(cl, call, cl.conns[call.h].index)
    ensures Perform(cl, call, bufs, reply) == Finish(cl, call, cl.conns[call.h].index, reply)
  {
    hide ClientInv, EncodeMessage, WireBytes, Finish;
    OtherBeginKeeps(cl, call);
    HasShape(cl);
    var b := Begin(cl, call);
    RequestSize(b.client, call, b.index, b.request);
  }

  /** A reply that is no agreement: its error is returned, nothing changes. */
  lemma Disagreed(cl: SoundClient, call: Call, bufs: Buffers, reply: Option<seq<byte>>)
    requires !call.OpenContextCall? && GoesOut(cl, call, bufs) && Judge(KindOfCall(call), reply).Bad?
    ensures Perform(cl, call, bufs, reply) == Returned(cl, Judge(KindOfCall(call), reply).err, 0)
  {
    Finished(cl, call, bufs, reply);
    hide ClientInv, Perform, Judge;
  }

  // ---------------------------------------------------------------- open_session

  /** Session `v` of connection `h` is new, and holds the handle; every other session and connection is as before. */
  ghost predicate NewSession(cl: Client, after: Client, h: nat, v: nat, handle: Handle)
  {
    && !IsOpenSession(cl, h, v) && IsOpenSession(after, h, v) && after.conns[h].sessions[v].handle == handle
    && |after.conns| == |cl.conns| && IsOpen(cl, h) && |after.conns[h].sessions| == |cl.conns[h].sessions|
    && (forall s :: 0 <= s < |cl.conns[h].sessions| && s != v ==> after.conns[h].sessions[s] == cl.conns[h].sessions[s])
    && (forall g :: 0 <= g < |cl.conns| && g != h ==> after.conns[g] == cl.conns[g])
    && after.conns[h].handle == cl.conns[h].handle && after.infos == cl.infos
  }

  /** open_session hands out the number of the session it has just stored, under the handle in the reply. */
  lemma SessionHanded(cl: SoundClient, h: nat, taid: Handle, bufs: Buffers, reply: Option<seq<byte>>)
    ensures var r := Perform(cl, OpenSessionCall(h, taid), bufs, reply);
            r.Returned? && r.err == SUCCESS ==>
              && reply.Some? && DecodeMessage(Form(OpenSession, false), reply.value).Some?
              && var body := DecodeMessage(Form(OpenSession, false), reply.value).value.body;
                 body.OpenSessionResp? && body.status == SUCCESS && NewSession(cl, r.client, h, r.value, body.handle)
  {
    var call := OpenSessionCall(h, taid);
    var r := Perform(cl, call, bufs, reply);
    if !GoesOut(cl, call, bufs) {
      StaysIn(cl, call, bufs, reply);
    } else {
      Finished(cl, call, bufs, reply);
      hide ClientInv, Perform, Judge, WireBytes;
      var v := Judge(OpenSession, reply);
      if r.Returned? && r.err == SUCCESS {
        assert v.Good?;
        assert v.body.OpenSessionResp?;
      }
    }
  }

  /** ... and when it succeeds: the request goes out, the server agrees, and a session is free in the connection's
      table. */
  lemma OpenSessionReturns(cl: SoundClient, h: nat, taid: Handle, bufs: Buffers, reply: Option<seq<byte>>)
    ensures var call := OpenSessionCall(h, taid);
            var r := Perform(cl, call, bufs, reply);
            && (r.Returned? && r.err == SUCCESS <==>
                  && GoesOut(cl, call, bufs) && Judge(OpenSession, reply).Good?
                  && exists s :: 0 <= s < |cl.conns[h].sessions| && !cl.conns[h].sessions[s].used)
            && (r.Returned? && r.err == SESSION_HANDLE_NOT_FOUND <==>
                  && GoesOut(cl, call, bufs) && Judge(OpenSession, reply).Good? && cl.conns[h].sessions != []
                  && forall s :: 0 <= s < |cl.conns[h].sessions| ==> cl.conns[h].sessions[s].used)
  {
    var call := OpenSessionCall(h, taid);
    if !GoesOut(cl, call, bufs) {
      StaysIn(cl, call, bufs, reply);
    } else {
      Finished(cl, call, bufs, reply);
      JudgeErrors(OpenSession, reply);
      hide ClientInv, Perform, Judge, WireBytes;
      var used := UsedSessions(cl.conns[h].sessions);
      assert forall s :: 0 <= s < |used| ==> used[s] == cl.conns[h].sessions[s].used;
    }
  }

  /** The errors a reply can lead to. */
  lemma JudgeErrors(k: Kind, reply: Option<seq<byte>>)
    requires k != System
    ensures var v := Judge(k, reply); v.Bad? ==> v.err == COMM_FAILED || v.err == INVALID_CMD || v.err == FAILED
  {
  }

  // ---------------------------------------------------------------- the other calls on a connection

  /** An information slot with one reference less. */
  function OneLess(info: Info): Info
    requires info.count > 0
  {
    if info.count == 1 then Info(0, 0, false) else info.(count := info.count - 1)
  }

  /** close_context that succeeds clears that connection and no other, and takes one reference from its slot and no
      other; the slot is cleared with the last. */
  lemma ConnectionClosed(cl: SoundClient, h: nat, bufs: Buffers, reply: Option<seq<byte>>)
    ensures var call := CloseContextCall(h);
            var r := Perform(cl, call, bufs, reply);
            && r.Returned?
            && (r.err == SUCCESS <==> GoesOut(cl, call, bufs) && Judge(CloseContext, reply).Good?)
            && (r.err == SUCCESS ==>
                  && h < |cl.conns| && r.client.conns == cl.conns[h := ZeroConn()]
                  && var i := cl.conns[h].index;
                     i < |cl.infos| && cl.infos[i].count > 0
                     && r.client.infos == cl.infos[i := OneLess(cl.infos[i])])
            && (r.err != SUCCESS ==> r.client == cl)
  {
    hide ClientInv, Perform, Judge, WireBytes, CloseContextFinish, GoesOut, Aborts;
    var call := CloseContextCall(h);
    PerformKeeps(cl, call, bufs, reply);
    if GoesOut(cl, call, bufs) {
      OutIsOpen(cl, call, bufs);
      Finished(cl, call, bufs, reply);
      CloseIsDefined(cl, h);
      CloseFinishes(cl, h, reply);
    } else {
      StaysIn(cl, call, bufs, reply);
    }
  }

  lemma OutIsOpen(cl: Client, call: Call, bufs: Buffers)
    requires !call.OpenContextCall? && GoesOut(cl, call, bufs)
    ensures IsOpen(cl, call.h) && !NoBuffer(bufs)
  {
  }

  lemma CloseFinishes(cl: Client, h: nat, reply: Option<seq<byte>>)
    requires IsOpen(cl, h) && cl.conns[h].index < |cl.infos| && cl.infos[cl.conns[h].index].count > 0
    requires cl.numIds > 0 && cl.numConns > 0
    ensures var i, r := cl.conns[h].index, CloseContextFinish(cl, h, reply);
            && r.Returned? && (r.err == SUCCESS <==> Judge(CloseContext, reply).Good?)
            && (r.err == SUCCESS ==>
                  r.client.conns == cl.conns[h := ZeroConn()] && r.client.infos == cl.infos[i := OneLess(cl.infos[i])])
            && (r.err != SUCCESS ==> r.client == cl)
  {
    JudgeErrors(CloseContext, reply);
    hide Judge;
  }

  /** close_session that succeeds clears that session and no other. */
  lemma SessionClosed(cl: SoundClient, h: nat, s: nat, bufs: Buffers, reply: Option<seq<byte>>)
    ensures var call := CloseSessionCall(h, s);
            var r := Perform(cl, call, bufs, reply);
            && r.Returned?
            && (r.err == SUCCESS <==> GoesOut(cl, call, bufs) && Judge(CloseSession, reply).Good?)
            && (r.err == SUCCESS ==>
                  && IsOpenSession(cl, h, s) && !IsOpenSession(r.client, h, s) && |r.client.conns| == |cl.conns|
                  && r.client.infos == cl.infos && r.client.conns[h].handle == cl.conns[h].handle
                  && r.client.conns[h].sessions == cl.conns[h].sessions[s := ZeroSession()]
                  && (forall g :: 0 <= g < |cl.conns| && g != h ==> r.client.conns[g] == cl.conns[g]))
            && (r.err != SUCCESS ==> r.client == cl)
  {
    var call := CloseSessionCall(h, s);
    PerformKeeps(cl, call, bufs, reply);
    if !GoesOut(cl, call, bufs) {
      StaysIn(cl, call, bufs, reply);
    } else {
      Finished(cl, call, bufs, reply);
      JudgeErrors(CloseSession, reply);
      hide ClientInv, Perform, Judge, WireBytes;
    }
  }

  /** invoke_command succeeds when the request goes out and the TApp agrees; it changes nothing. */
  lemma Invoked(cl: SoundClient, h: nat, s: nat, cmd: uint32, bufs: Buffers, reply: Option<seq<byte>>)
    ensures var call := InvokeCall(h, s, cmd);
            var r := Perform(cl, call, bufs, reply);
            && r.Returned? && r.client == cl
            && (r.err == SUCCESS <==> GoesOut(cl, call, bufs) && Judge(InvokeCommand, reply).Good?)
  {
    var call := InvokeCall(h, s, cmd);
    if !GoesOut(cl, call, bufs) {
      StaysIn(cl, call, bufs, reply);
    } else {
      Finished(cl, call, bufs, reply);
      JudgeErrors(InvokeCommand, reply);
      hide ClientInv, Perform, Judge, WireBytes;
    }
  }

  /** register_memory hands out the address and the id in the reply, once the platform has opened the region. */
  lemma RegionHanded(cl: SoundClient, h: nat, size: uint32, flag: uint32, addr: uint32, openErr: int, bufs: Buffers,
                     reply: Option<seq<byte>>)
    ensures var call := RegisterCall(h, size, flag, addr, openErr);
            var r := Perform(cl, call, bufs, reply);
            var agreed := GoesOut(cl, call, bufs) && Judge(RegisterMemory, reply).Good?;
            && r.Returned? && r.client == cl
            && (r.err == SUCCESS <==> agreed && openErr == SUCCESS)
            && (r.err == REGMEM_CMD <==> agreed && openErr != SUCCESS)
            && (r.err == SUCCESS ==>
                  && reply.Some? && DecodeMessage(Form(RegisterMemory, false), reply.value).Some?
                  && r.id.Some?
                  && DecodeMessage(Form(RegisterMemory, false), reply.value).value.body.RegisterResp?
                  && DecodeMessage(Form(RegisterMemory, false), reply.value).value.body ==
                     RegisterResp(r.value, r.id.value, SUCCESS))
            && (r.err != SUCCESS ==> r.id == None)
  {
    var call := RegisterCall(h, size, flag, addr, openErr);
    if !GoesOut(cl, call, bufs) {
      StaysIn(cl, call, bufs, reply);
    } else {
      Finished(cl, call, bufs, reply);
      JudgeErrors(RegisterMemory, reply);
      hide ClientInv, Perform, Judge, WireBytes;
    }
  }

  /** unregister_memory succeeds once the server has agreed and the platform has closed the region. */
  lemma RegionGone(cl: SoundClient, h: nat, id: Handle, closeErr: int, bufs: Buffers, reply: Option<seq<byte>>)
    ensures var call := UnregisterCall(h, id, closeErr);
            var r := Perform(cl, call, bufs, reply);
            var agreed := GoesOut(cl, call, bufs) && Judge(UnregisterMemory, reply).Good?;
            && r.Returned? && r.client == cl
            && (r.err == SUCCESS <==> agreed && closeErr == SUCCESS)
            && (r.err == REGMEM_CMD <==> agreed && closeErr != SUCCESS)
  {
    var call := UnregisterCall(h, id, closeErr);
    if !GoesOut(cl, call, bufs) {
      StaysIn(cl, call, bufs, reply);
    } else {
      Finished(cl, call, bufs, reply);
      JudgeErrors(UnregisterMemory, reply);
      hide ClientInv, Perform, Judge, WireBytes;
    }
  }

  // ---------------------------------------------------------------- open_context

  /** Connection `v` is new: it has the context id, a slot that holds that id, and the handle; every other connection is
      as before. */
  ghost predicate NewConnection(cl: Client, after: Client, v: nat, cid: uint32, handle: Handle)
  {
    && !IsOpen(cl, v) && IsOpen(after, v) && |after.conns| == |cl.conns|
    && after.conns[v].handle == handle && after.conns[v].contextId == cid
    && after.conns[v].index < |after.infos| && after.infos[after.conns[v].index].contextId == cid
    && after.conns[v].sessions == cl.conns[v].sessions
    && (forall g :: 0 <= g < |cl.conns| && g != v ==> after.conns[g] == cl.conns[g])
  }

  /** Where open_context counts the opening: in a slot that then holds the id. */
  lemma AsksForId(cl: SoundClient, cid: uint32, registerErr: int)
    requires OpenContextBegin(cl, cid, registerErr).Ask?
    ensures var b := OpenContextBegin(cl, cid, registerErr);
            && b.client.conns == cl.conns && b.index < |b.client.infos| && b.client.infos[b.index].contextId == cid
            && |EncodeMessage(b.request)| == WireBytes(Form(OpenContext, true))
  {
    OpenContextBeginKeeps(cl, cid, registerErr);
    var b := OpenContextBegin(cl, cid, registerErr);
    RequestSize(b.client, OpenContextCall(cid, registerErr), b.index, b.request);
    hide ClientInv, EncodeMessage, WireBytes;
    HasShape(cl);
  }

  lemma FinishHands(cl: Client, i: nat, reply: Option<seq<byte>>)
    requires ClientShape(cl) && i < |cl.infos| && cl.leaks[i] > 0
    ensures var r := OpenContextFinish(cl, i, reply);
            && r.Returned?
            && (r.err == SUCCESS ==>
                  && reply.Some? && DecodeMessage(Form(OpenContext, false), reply.value).Some?
                  && var body := DecodeMessage(Form(OpenContext, false), reply.value).value.body;
                     body.OpenContextResp? && body.status == SUCCESS
                     && NewConnection(cl, r.client, r.value, cl.infos[i].contextId, body.handle))
            && (r.err != SUCCESS ==> r.client.conns == cl.conns)
  {
    hide Judge, WireBytes;
    var v := Judge(OpenContext, reply);
    if v.Good? { assert v.body.OpenContextResp?; }
  }

  /** open_context hands out the number of the connection it has just stored, under the handle in the reply. */
  lemma ConnectionHanded(cl: SoundClient, cid: uint32, registerErr: int, bufs: Buffers, reply: Option<seq<byte>>)
    ensures var r := Perform(cl, OpenContextCall(cid, registerErr), bufs, reply);
            && r.Returned?
            && (r.err == SUCCESS ==>
                  && reply.Some? && DecodeMessage(Form(OpenContext, false), reply.value).Some?
                  && var body := DecodeMessage(Form(OpenContext, false), reply.value).value.body;
                     body.OpenContextResp? && body.status == SUCCESS
                     && NewConnection(cl, r.client, r.value, cid, body.handle))
            && (r.err != SUCCESS ==> r.client.conns == cl.conns)
  {
    var call := OpenContextCall(cid, registerErr);
    PerformKeeps(cl, call, bufs, reply);
    OpenContextBeginKeeps(cl, cid, registerErr);
    hide ClientInv, OpenContextBegin, OpenContextFinish, Judge, EncodeMessage, WireBytes, Aborts;
    HasShape(cl);
    var b := OpenContextBegin(cl, cid, registerErr);
    if b.Ask? {
      AsksForId(cl, cid, registerErr);
      FinishHands(b.client, b.index, reply);
    }
  }

  /** What open_context returns before it takes a count, and what it takes for failures later on. */
  lemma OpenContextReturns(cl: SoundClient, cid: uint32, registerErr: int, bufs: Buffers, reply: Option<seq<byte>>)
    ensures var call := OpenContextCall(cid, registerErr);
            var r, v := Perform(cl, call, bufs, reply), Judge(OpenContext, reply);
            && r.Returned?
            && (r.err == INVALID_PARAM <==> NoBuffer(bufs) || cid == 0)
            && (r.err == OPEN_CONTEXT <==>
                  !NoBuffer(bufs) && cid != 0 && FindId(cl.infos, cid).None? && cl.numIds >= |cl.infos|)
            && (r.err == OPEN_FAILED <==>
                  Counted(cl, call, bufs) && FindId(cl.infos, cid).None? && registerErr != SUCCESS)
            && (r.err == SUCCESS <==> Counted(cl, call, bufs) && !FailsLater(cl, call, bufs, reply))
            && (r.err == INVALID_PARAM || r.err == OPEN_CONTEXT ==> r.client == cl)
  {
    var call := OpenContextCall(cid, registerErr);
    PerformKeeps(cl, call, bufs, reply);
    JudgeErrors(OpenContext, reply);
    BeforeTheCount(cl, cid, registerErr);
    if Counted(cl, call, bufs) { FailsWhen(cl, call, bufs, reply); }
    hide ClientInv, OpenContextBegin, Judge, EncodeMessage, WireBytes, WellAsked, FailsLater, Aborts;
  }

  lemma BeforeTheCount(cl: SoundClient, cid: uint32, registerErr: int)
    ensures ClientShape(cl)
    ensures var b, unknown := OpenContextBegin(cl, cid, registerErr), FindId(cl.infos, cid).None?;
            && !b.Dead?
            && (b.Early? && b.err == INVALID_PARAM <==> cid == 0)
            && (b.Early? && b.err == OPEN_CONTEXT <==> cid != 0 && unknown && cl.numIds >= |cl.infos|)
            && (b.Early? && b.err == OPEN_FAILED <==>
                  cid != 0 && unknown && cl.numIds < |cl.infos| && registerErr != SUCCESS)
            && (b.Early? && b.err != OPEN_FAILED ==> b.client == cl)
            && (b.Early? ==> b.err == INVALID_PARAM || b.err == OPEN_CONTEXT || b.err == OPEN_FAILED)
  {
    RoomMeansFree(cl);
    hide ClientInv, FindId, FirstFree, Used;
  }
}
