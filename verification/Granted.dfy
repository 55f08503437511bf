/** What a granted call of the client means at its server: from the caller's success back to the server's tables. */
module Granted {
  import opened Bytes
  import opened Status
  import opened HandlePlugin
  import opened Counting
  import opened Wire
  import opened ServerModel
  import opened ServerRequests
  import opened ServerRuns
  import opened ServerAnswers
  import opened ClientModel
  import C = ClientRuns
  import A = ClientAnswers
  import opened HandleLinks
  import opened Channel
  import opened EndToEnd

  /** The server behind connection `h`. */
  function PeerOf(sys: Worlds, h: nat): Peer
    requires IsOpen(sys.client, h) && sys.client.conns[h].index < |sys.peers|
  {
    sys.peers[sys.client.conns[h].index]
  }

  /** A call on an open connection that brings an agreement: the server has served the very request, and says so. */
  lemma ServedAndAgreed(sys: Worlds, call: Call, sendRoom: nat, room: nat, env: Env)
    returns (body: Body, o: Outcome, reply: Option<seq<byte>>)
    requires Wired(sys) && room >= MAX_REPLY && !call.OpenContextCall?
    requires A.GoesOut(sys.client, call, Buffers(sendRoom, room))
    ensures sys.client.conns[call.h].index < |sys.peers|
    ensures Sends(sys.client, call, body) && FormOf(body).request
    ensures o == Serve(PeerOf(sys, call.h).server, body, env)
    ensures ClientShape(sys.client) && Asked(sys.client, call, sys.client.conns[call.h].index)
    ensures var st, k := EndToEnd.Step(sys, call, sendRoom, room, env), C.KindOfCall(call);
            match Finish(sys.client, call, sys.client.conns[call.h].index, reply)
            case Aborted => st == Ended
            case Returned(after, err, value, id) =>
              && st.Stepped? && st.sys.client == after && st.err == err && st.value == value && st.id == id
              && |st.sys.peers| == |sys.peers|
              && (Judge(k, reply).Good? ==>
                    && o.Reply? && o.body == Judge(k, reply).body
                    && st.sys.peers[sys.client.conns[call.h].index].server == o.server)
  {
    var bufs, cl, i := Buffers(sendRoom, room), sys.client, sys.client.conns[call.h].index;
    hide EncodeMessage, Judge, ClientInv, Inv, Shape, Answer, Serve, EndToEnd.Step, Finish, C.Perform, WireBytes,
      MoveOf, A.GoesOut;
    C.HasShape(cl);
    reply := StepIsPerform(sys, call, sendRoom, room, env);
    A.Finished(cl, call, bufs, reply);
    var m := TheRequest(cl, call, bufs);
    body := m.body;
    var p := sys.peers[i];
    o := Serve(p.server, body, env);
    var _ := AnswerEffect(p, C.KindOfCall(call), m, room, env);
    AnswerServes(p, C.KindOfCall(call), m, room, env);
    JudgeNone(C.KindOfCall(call));
  }

  /** Behind a reply stands the handler's new state. */
  lemma AnswerServes(p: Peer, k: Kind, m: Message, room: nat, env: Env)
    requires IsRequest(k, m)
    ensures var a, o := Answer(p, EncodeMessage(m), room, env), Serve(p.server, m.body, env);
            a.reply.Some? ==> o.Reply? && a.peer.server == o.server
  {
    AnswersOrIsDown(p, EncodeMessage(m), room, env);
    if m.hdr.contextId != p.server.contextId || m.hdr.smId != p.server.smId {
      WrongAddress(p.server, k, m);
    } else {
      AcceptsWellFormed(p.server, m);
    }
    hide Accept, EncodeMessage, Serve;
  }

  lemma JudgeNone(k: Kind)
    requires k != System
    ensures Judge(k, None).Bad?
  {
  }

  lemma TheRequest(cl: SoundClient, call: Call, bufs: Buffers) returns (m: Message)
    requires !call.OpenContextCall? && A.GoesOut(cl, call, bufs)
    ensures ClientShape(cl) && Begin(cl, call) == Ask(cl, cl.conns[call.h].index, m)
    ensures |EncodeMessage(m)| <= bufs.send && !NoBuffer(bufs)
    ensures IsRequest(C.KindOfCall(call), m) && Sends(cl, call, m.body) && cl.conns[call.h].index < |cl.infos|
  {
    hide ClientInv, EncodeMessage, WireBytes;
    C.HasShape(cl);
    C.OtherBeginKeeps(cl, call);
    BeginSends(cl, call);
    m := Begin(cl, call).request;
    A.RequestSize(cl, call, cl.conns[call.h].index, m);
  }

  /** A session the client is told to be open: the server had room in the connection's context and a free slot, the TApp
      has loaded and started, the slot has joined that context with the TApp's id, and the handle the client has stored
      under the number it returns is the slot's. */
  lemma SessionGranted(sys: Worlds, h: nat, taid: Handle, sendRoom: nat, room: nat, env: Env) returns (c: nat, s: nat)
    requires Wired(sys) && room >= MAX_REPLY
    requires var st := EndToEnd.Step(sys, OpenSessionCall(h, taid), sendRoom, room, env);
             st.Stepped? && st.err == SUCCESS
    ensures IsOpen(sys.client, h) && sys.client.conns[h].index < |sys.peers|
    ensures env.loadErr == SUCCESS && env.initErr == SUCCESS
    ensures var st, t := EndToEnd.Step(sys, OpenSessionCall(h, taid), sendRoom, room, env), PeerOf(sys, h).server.table;
            && HasRoom(t, sys.client.conns[h].handle, c) && FirstUnused(t.sactive, s)
            && |st.sys.peers| == |sys.peers|
            && var u := st.sys.peers[sys.client.conns[h].index].server.table;
               && Joined(t, u, c, s, taid)
               && IsOpenSession(st.sys.client, h, st.value)
               && st.sys.client.conns[h].sessions[st.value].handle == u.shandles[s]
  {
    var call := OpenSessionCall(h, taid);
    var st := EndToEnd.Step(sys, call, sendRoom, room, env);
    MustGoOut(sys, call, sendRoom, room, env);
    hide EncodeMessage, Judge, ClientInv, Inv, Answer, Serve, EndToEnd.Step, A.GoesOut, HasRoom, FirstUnused, Joined,
      FirstFree, Finish;
    var body, o, reply := ServedAndAgreed(sys, call, sendRoom, room, env);
    var p, conn := PeerOf(sys, h), sys.client.conns[h];
    SuccessIsAgreed(sys.client, call, sys.client.conns[h].index, reply);
    OpenSessionSucceedsWhen(p.server, conn.handle, taid, env);
    c, s := RoomAndSlot(p.server.table, conn.handle);
    OpenSessionVerdict(p.server, conn.handle, taid, env, c, s);
  }

  /** A call that ends in success was agreed to, and open_session has stored what came. */
  lemma SuccessIsAgreed(cl: Client, call: Call, i: nat, reply: Option<seq<byte>>)
    requires Asked(cl, call, i) && !call.OpenContextCall?
    ensures var r, v := Finish(cl, call, i, reply), Judge(C.KindOfCall(call), reply);
            r.Returned? && r.err == SUCCESS ==>
              && v.Good?
              && (call.OpenSessionCall? ==>
                    && v.body.OpenSessionResp? && v.body.status == SUCCESS && IsOpenSession(r.client, call.h, r.value)
                    && r.client.conns[call.h].sessions[r.value].handle == v.body.handle)
              && (call.InvokeCall? ==> v.body.InvokeResp? && v.body.status == SUCCESS)
              && (call.RegisterCall? ==>
                    && v.body.RegisterResp? && r.value == v.body.addr && r.id == Some(v.body.memoryId))
  {
    AgreedBody(C.KindOfCall(call), reply);
    hide Judge;
  }

  lemma AgreedBody(k: Kind, reply: Option<seq<byte>>)
    requires k != System
    ensures var v := Judge(k, reply);
            if v.Good? then FormOf(v.body) == Form(k, false) && StatusOf(v.body) == SUCCESS else v.err != SUCCESS
  {
  }

  lemma RoomAndSlot(t: Table, h: Handle) returns (c: nat, s: nat)
    requires Shape(t) && (exists c: nat :: HasRoom(t, h, c)) && !AllActive(t.sactive)
    ensures HasRoom(t, h, c) && FirstUnused(t.sactive, s)
  {
    c :| HasRoom(t, h, c);
    FreeIsFirst(t.sactive, 0);
    s := FirstFree(t.sactive).value;
    FreeIsFirst(t.sactive, s);
  }

  /** A call that succeeds has sent its request. */
  lemma MustGoOut(sys: Worlds, call: Call, sendRoom: nat, room: nat, env: Env)
    requires Wired(sys) && !call.OpenContextCall?
    requires var st := EndToEnd.Step(sys, call, sendRoom, room, env); st.Stepped? && st.err == SUCCESS
    ensures A.GoesOut(sys.client, call, Buffers(sendRoom, room)) && IsOpen(sys.client, call.h)
  {
    hide C.Perform, EndToEnd.Step;
    var reply := StepIsPerform(sys, call, sendRoom, room, env);
    if !A.GoesOut(sys.client, call, Buffers(sendRoom, room)) {
      A.StaysIn(sys.client, call, Buffers(sendRoom, room), reply);
    }
  }

  /** A command the client is told to have been run: its handles named a session of the connection's context, and the
      TApp has taken the command. */
  lemma CommandGranted(sys: Worlds, h: nat, k: nat, cmd: uint32, sendRoom: nat, room: nat, env: Env)
    returns (c: nat, s: nat)
    requires Wired(sys) && room >= MAX_REPLY
    requires var st := EndToEnd.Step(sys, InvokeCall(h, k, cmd), sendRoom, room, env);
             st.Stepped? && st.err == SUCCESS
    ensures IsOpenSession(sys.client, h, k) && sys.client.conns[h].index < |sys.peers|
    ensures env.pullErr == SUCCESS
    ensures var conn := sys.client.conns[h];
            NamesBoth(PeerOf(sys, h).server.table, conn.handle, conn.sessions[k].handle, c, s)
  {
    var call := InvokeCall(h, k, cmd);
    MustGoOut(sys, call, sendRoom, room, env);
    hide EncodeMessage, Judge, ClientInv, Inv, Answer, Serve, EndToEnd.Step, NamesBoth, Finish;
    var body, o, reply := ServedAndAgreed(sys, call, sendRoom, room, env);
    var p, conn := PeerOf(sys, h), sys.client.conns[h];
    SuccessIsAgreed(sys.client, call, sys.client.conns[h].index, reply);
    SessionRequestsSucceedWhen(p.server, conn.handle, conn.sessions[k].handle, cmd, env);
    c, s :| NamesBoth(p.server.table, conn.handle, conn.sessions[k].handle, c, s);
  }

  /** Memory the client is told to be registered: the server holds the region, with the size and flag that were asked
      for, under the id and at the address that are handed to the caller. */
  lemma RegionGranted(sys: Worlds, h: nat, size: uint32, flag: uint32, addr: uint32, openErr: int, sendRoom: nat,
                      room: nat, env: Env)
    requires Wired(sys) && room >= MAX_REPLY
    requires var st := EndToEnd.Step(sys, RegisterCall(h, size, flag, addr, openErr), sendRoom, room, env);
             st.Stepped? && st.err == SUCCESS
    ensures IsOpen(sys.client, h) && sys.client.conns[h].index < |sys.peers|
    ensures var st := EndToEnd.Step(sys, RegisterCall(h, size, flag, addr, openErr), sendRoom, room, env);
            && |st.sys.peers| == |sys.peers| && st.id.Some? && st.value == (if flag == 3 then 0 else addr)
            && st.sys.peers[sys.client.conns[h].index].server.regions ==
               PeerOf(sys, h).server.regions + [Region(st.id.value, flag, size, st.value)]
  {
    var call := RegisterCall(h, size, flag, addr, openErr);
    MustGoOut(sys, call, sendRoom, room, env);
    hide EncodeMessage, Judge, ClientInv, Inv, Answer, Serve, EndToEnd.Step, Finish;
    var body, o, reply := ServedAndAgreed(sys, call, sendRoom, room, env);
    SuccessIsAgreed(sys.client, call, sys.client.conns[h].index, reply);
    RegisterAnswers(PeerOf(sys, h).server, sys.client.conns[h].handle, size, flag, addr, env);
  }
}
