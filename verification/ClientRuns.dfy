/** What holds over every run of the normal world's calls, whatever the channel returns. */
module ClientRuns {
  import opened Bytes
  import opened Status
  import opened HandlePlugin
  import opened Counting
  import opened Wire
  import opened ClientModel

  // ---------------------------------------------------------------- one record changes

  lemma ConnsAtUpdate(conns: seq<Conn>, c: nat, x: Conn, i: nat)
    requires c < |conns|
    ensures ConnsAt(conns[c := x], i) == ConnsAt(conns, i)[c := x.used && x.index == i]
    ensures Count(ConnsAt(conns[c := x], i)) == Count(ConnsAt(conns, i))
              + (if x.used && x.index == i then 1 else 0) - (if conns[c].used && conns[c].index == i then 1 else 0)
  {
    CountUpdate(ConnsAt(conns, i), c, x.used && x.index == i);
  }

  lemma UsedConnsUpdate(conns: seq<Conn>, c: nat, x: Conn)
    requires c < |conns|
    ensures Count(UsedConns(conns[c := x])) ==
            Count(UsedConns(conns)) + (if x.used then 1 else 0) - (if conns[c].used then 1 else 0)
  {
    assert UsedConns(conns[c := x]) == UsedConns(conns)[c := x.used];
    CountUpdate(UsedConns(conns), c, x.used);
  }

  lemma UsedUpdate(infos: seq<Info>, i: nat, x: Info)
    requires i < |infos|
    ensures Count(Used(infos[i := x])) ==
            Count(Used(infos)) + (if x.used then 1 else 0) - (if infos[i].used then 1 else 0)
  {
    assert Used(infos[i := x]) == Used(infos)[i := x.used];
    CountUpdate(Used(infos), i, x.used);
  }

  lemma UsedSessionsUpdate(ss: seq<CSession>, s: nat, x: CSession)
    requires s < |ss|
    ensures Count(UsedSessions(ss[s := x])) ==
            Count(UsedSessions(ss)) + (if x.used then 1 else 0) - (if ss[s].used then 1 else 0)
  {
    assert UsedSessions(ss[s := x]) == UsedSessions(ss)[s := x.used];
    CountUpdate(UsedSessions(ss), s, x.used);
  }

  /** A used element makes the count positive. */
  lemma CountAtLeastOne(bs: seq<bool>, i: nat)
    requires i < |bs| && bs[i]
    ensures Count(bs) > 0
  {
    CountBound(bs);
  }

  // ---------------------------------------------------------------- the first parts

  /** Slots that were in use keep their context id, and no connection changes. */
  ghost predicate Undisturbed(cl: Client, after: Client)
  {
    && after.conns == cl.conns && after.smId == cl.smId && |after.infos| == |cl.infos|
    && forall j :: 0 <= j < |cl.infos| && cl.infos[j].used ==>
         after.infos[j].used && after.infos[j].contextId == cl.infos[j].contextId
  }

  /** Counting one more opening of context id `cid`, in its own slot or in a free one. */
  lemma TakenKeeps(cl: Client, i: nat)
    requires ClientInv(cl) && i < |cl.infos| && cl.infos[i].used
    ensures ClientInv(Taken(cl, i)) && Undisturbed(cl, Taken(cl, i))
  {
    var infos := cl.infos;
    UsedUpdate(infos, i, infos[i].(count := infos[i].count + 1));
  }

  lemma AddedKeeps(cl: Client, i: nat, cid: uint32)
    requires ClientInv(cl) && i < |cl.infos| && !cl.infos[i].used && cid != 0
    requires FindId(cl.infos, cid).None?
    ensures ClientInv(Added(cl, i, cid)) && Undisturbed(cl, Added(cl, i, cid))
  {
    var info := Info(cid, cl.infos[i].count + 1, true);
    var after := Added(cl, i, cid);
    assert after.infos == cl.infos[i := info];
    UsedUpdate(cl.infos, i, info);
    forall c | 0 <= c < |cl.conns| && cl.conns[c].used ensures cl.conns[c].index != i {
      if cl.conns[c].index == i { CountAtLeastOne(ConnsAt(cl.conns, i), c); }
    }
  }

  /** Whoever refers to a slot finds it used. */
  lemma ReferredIsUsed(cl: Client, c: nat)
    requires ClientInv(cl) && c < |cl.conns| && cl.conns[c].used
    ensures ClientShape(cl) && cl.conns[c].index < |cl.infos|
    ensures cl.infos[cl.conns[c].index].used && cl.infos[cl.conns[c].index].contextId == cl.conns[c].contextId
    ensures Count(ConnsAt(cl.conns, cl.conns[c].index)) > 0
  {
    CountAtLeastOne(ConnsAt(cl.conns, cl.conns[c].index), c);
  }

  function KindOfCall(call: Call): Kind
  {
    match call
    case OpenContextCall(_, _) => OpenContext
    case CloseContextCall(_) => CloseContext
    case OpenSessionCall(_, _) => OpenSession
    case CloseSessionCall(_, _) => CloseSession
    case InvokeCall(_, _, _) => InvokeCommand
    case RegisterCall(_, _, _, _, _) => RegisterMemory
    case UnregisterCall(_, _, _) => UnregisterMemory
  }

  /** The request goes to a slot in use, under the context id registered there. */
  ghost predicate WellAsked(cl: Client, call: Call, i: nat, m: Message)
  {
    && ClientInv(cl) && Asked(cl, call, i)
    && cl.infos[i].used && m.hdr == Header(cl.infos[i].contextId, cl.smId, Command(KindOfCall(call)))
    && FormOf(m.body) == Form(KindOfCall(call), true)
  }

  /** The scan for a free slot succeeds whenever the count of ids leaves room. */
  lemma RoomMeansFree(cl: Client)
    requires ClientInv(cl)
    ensures ClientShape(cl)
    ensures var free := FirstFree(Used(cl.infos));
            && (cl.numIds < |cl.infos| ==> free.Some?)
            && (free.Some? ==> free.value < |cl.infos| && !cl.infos[free.value].used)
  {
    CountBound(Used(cl.infos));
  }

  lemma OpenContextBeginKeeps(cl: Client, cid: uint32, registerErr: int)
    requires ClientInv(cl)
    ensures match OpenContextBegin(cl, cid, registerErr)
            case Dead => false
            case Early(after, err) => ClientInv(after) && Undisturbed(cl, after) && err != SUCCESS
            case Ask(after, i, m) =>
              WellAsked(after, OpenContextCall(cid, registerErr), i, m) && Undisturbed(cl, after)
              && m == Message(Header(cid, cl.smId, Command(OpenContext)), OpenContextReq(cid))
  {
    hide ClientInv, Used;
    RoomMeansFree(cl);
    if cid != 0 {
      match FindId(cl.infos, cid)
      case Some(i) => TakenKeeps(cl, i);
      case None =>
        var free := FirstFree(Used(cl.infos));
        if free.Some? {
          AddedKeeps(cl, free.value, cid);
        }
    }
  }

  lemma AskedOf(cl: Client, cid: uint32, registerErr: int)
    requires ClientInv(cl)
    ensures ClientShape(cl)
    ensures var b := OpenContextBegin(cl, cid, registerErr);
            b.Ask? ==> ClientInv(b.client) && Asked(b.client, OpenContextCall(cid, registerErr), b.index)
  {
    hide ClientInv;
    OpenContextBeginKeeps(cl, cid, registerErr);
    RoomMeansFree(cl);
  }

  lemma OtherBeginKeeps(cl: Client, call: Call)
    requires ClientInv(cl) && !call.OpenContextCall?
    ensures match Begin(cl, call)
            case Dead => false
            case Early(after, err) => after == cl && err != SUCCESS
            case Ask(after, i, m) => after == cl && WellAsked(cl, call, i, m)
  {
    hide ClientInv;
    if IsOpen(cl, call.h) { ReferredIsUsed(cl, call.h); }
  }

  /** The first part of every call: no assertion fires, the invariant holds also while the request is under way,
      and slots in use stay as they are. */
  lemma BeginKeeps(cl: Client, call: Call)
    requires ClientInv(cl)
    ensures match Begin(cl, call)
            case Dead => false
            case Early(after, err) => ClientInv(after) && Undisturbed(cl, after) && err != SUCCESS
            case Ask(after, i, m) => WellAsked(after, call, i, m) && Undisturbed(cl, after)
  {
    if call.OpenContextCall? {
      OpenContextBeginKeeps(cl, call.cid, call.registerErr);
    } else {
      OtherBeginKeeps(cl, call);
    }
  }

  // ---------------------------------------------------------------- the second parts

  lemma BoundKeeps(cl: Client, i: nat, c: nat, handle: Handle)
    requires ClientInv(cl) && i < |cl.infos| && cl.leaks[i] > 0 && c < |cl.conns| && !cl.conns[c].used
    ensures var conn := cl.conns[c].(contextId := cl.infos[i].contextId, index := i, used := true, handle := handle);
            ClientInv(cl.(conns := cl.conns[c := conn], numConns := cl.numConns + 1,
                          leaks := cl.leaks[i := cl.leaks[i] - 1]))
  {
    var conn := cl.conns[c].(contextId := cl.infos[i].contextId, index := i, used := true, handle := handle);
    UsedConnsUpdate(cl.conns, c, conn);
    forall j | 0 <= j < |cl.infos|
      ensures Count(ConnsAt(cl.conns[c := conn], j)) == Count(ConnsAt(cl.conns, j)) + if j == i then 1 else 0
    {
      ConnsAtUpdate(cl.conns, c, conn, j);
    }
  }

  /** Closing a connection: none of the three assertions can fire. */
  lemma CloseIsDefined(cl: Client, h: nat)
    requires ClientInv(cl) && IsOpen(cl, h)
    ensures var i := cl.conns[h].index;
            i < |cl.infos| && cl.infos[i].count > 0 && cl.infos[i].used && cl.numIds > 0 && cl.numConns > 0
  {
    ReferredIsUsed(cl, h);
    CountAtLeastOne(UsedConns(cl.conns), h);
    CountAtLeastOne(Used(cl.infos), cl.conns[h].index);
  }

  function Unbound(cl: Client, h: nat): Client
    requires IsOpen(cl, h) && cl.conns[h].index < |cl.infos| && cl.infos[cl.conns[h].index].count > 0
    requires cl.numConns > 0 && cl.numIds > 0
  {
    Released(cl, cl.conns[h].index).(numConns := cl.numConns - 1, conns := cl.conns[h := ZeroConn()])
  }

  lemma ZeroConnUpdate(cl: Client, h: nat)
    requires ClientInv(cl) && IsOpen(cl, h)
    ensures forall j :: 0 <= j < |cl.infos| ==>
              Count(ConnsAt(cl.conns[h := ZeroConn()], j)) ==
                Count(ConnsAt(cl.conns, j)) - if j == cl.conns[h].index then 1 else 0
    ensures Count(UsedConns(cl.conns[h := ZeroConn()])) == Count(UsedConns(cl.conns)) - 1
    ensures SessionTables(cl.conns[h := ZeroConn()])
  {
    UsedConnsUpdate(cl.conns, h, ZeroConn());
    forall j | 0 <= j < |cl.infos|
      ensures Count(ConnsAt(cl.conns[h := ZeroConn()], j)) ==
              Count(ConnsAt(cl.conns, j)) - if j == cl.conns[h].index then 1 else 0
    {
      ConnsAtUpdate(cl.conns, h, ZeroConn(), j);
    }
  }

  /** The last connection of a slot is gone: nobody refers to it any more. */
  lemma NobodyRefers(conns: seq<Conn>, i: nat)
    requires Count(ConnsAt(conns, i)) == 0
    ensures forall c :: 0 <= c < |conns| && conns[c].used ==> conns[c].index != i
  {
    forall c | 0 <= c < |conns| && conns[c].used ensures conns[c].index != i {
      if conns[c].index == i { CountAtLeastOne(ConnsAt(conns, i), c); }
    }
  }

  lemma UnboundKeeps(cl: Client, h: nat)
    requires ClientInv(cl) && IsOpen(cl, h)
    requires cl.conns[h].index < |cl.infos| && cl.infos[cl.conns[h].index].count > 0 && cl.numConns > 0 && cl.numIds > 0
    ensures ClientInv(Unbound(cl, h))
  {
    hide ClientInv;
    if cl.infos[cl.conns[h].index].count == 1 { LastUnbound(cl, h); } else { OneUnbound(cl, h); }
  }

  lemma LastUnbound(cl: Client, h: nat)
    requires ClientInv(cl) && IsOpen(cl, h)
    requires cl.conns[h].index < |cl.infos| && cl.infos[cl.conns[h].index].count == 1
    requires cl.numConns > 0 && cl.numIds > 0
    ensures ClientInv(Unbound(cl, h))
  {
    ZeroConnUpdate(cl, h);
    NobodyRefers(cl.conns[h := ZeroConn()], cl.conns[h].index);
    UsedUpdate(cl.infos, cl.conns[h].index, Info(0, 0, false));
    hide Count, UsedConns, Used, ConnsAt, UsedSessions, SessionTables;
  }

  lemma OneUnbound(cl: Client, h: nat)
    requires ClientInv(cl) && IsOpen(cl, h)
    requires cl.conns[h].index < |cl.infos| && cl.infos[cl.conns[h].index].count > 1 && cl.numConns > 0 && cl.numIds > 0
    ensures ClientInv(Unbound(cl, h))
  {
    var i := cl.conns[h].index;
    ZeroConnUpdate(cl, h);
    UsedUpdate(cl.infos, i, cl.infos[i].(count := cl.infos[i].count - 1));
    hide Count, UsedConns, Used, ConnsAt, UsedSessions, SessionTables;
  }

  /** A change of one connection's session table. */
  lemma SessionsKeep(cl: Client, h: nat, conn: Conn)
    requires ClientInv(cl) && IsOpen(cl, h)
    requires conn == cl.conns[h].(sessions := conn.sessions, numSessions := conn.numSessions)
    requires conn.numSessions == Count(UsedSessions(conn.sessions)) && |conn.sessions| == |cl.conns[h].sessions|
    ensures ClientInv(cl.(conns := cl.conns[h := conn]))
  {
    UsedConnsUpdate(cl.conns, h, conn);
    forall j ensures Count(ConnsAt(cl.conns[h := conn], j)) == Count(ConnsAt(cl.conns, j)) {
      ConnsAtUpdate(cl.conns, h, conn, j);
    }
  }

  lemma SessionAddedKeeps(cl: Client, h: nat, s: nat, handle: Handle)
    requires ClientInv(cl) && IsOpen(cl, h) && s < |cl.conns[h].sessions| && !cl.conns[h].sessions[s].used
    ensures var conn := cl.conns[h];
            ClientInv(cl.(conns := cl.conns[h := conn.(sessions := conn.sessions[s := CSession(handle, true)],
                                                       numSessions := conn.numSessions + 1)]))
  {
    var conn := cl.conns[h];
    UsedSessionsUpdate(conn.sessions, s, CSession(handle, true));
    SessionsKeep(cl, h, conn.(sessions := conn.sessions[s := CSession(handle, true)],
                             numSessions := conn.numSessions + 1));
  }

  lemma SessionRemovedKeeps(cl: Client, h: nat, s: nat)
    requires ClientInv(cl) && IsOpenSession(cl, h, s)
    ensures cl.conns[h].numSessions > 0
    ensures var conn := cl.conns[h];
            ClientInv(cl.(conns := cl.conns[h := conn.(sessions := conn.sessions[s := ZeroSession()],
                                                       numSessions := conn.numSessions - 1)]))
  {
    var conn := cl.conns[h];
    CountAtLeastOne(UsedSessions(conn.sessions), s);
    UsedSessionsUpdate(conn.sessions, s, ZeroSession());
    SessionsKeep(cl, h, conn.(sessions := conn.sessions[s := ZeroSession()], numSessions := conn.numSessions - 1));
  }

  /** The one assertion that can fire: a session opened for a connection without a session table. */
  ghost predicate NoSessionTable(cl: Client, call: Call, reply: Option<seq<byte>>)
  {
    && call.OpenSessionCall? && IsOpen(cl, call.h) && cl.conns[call.h].sessions == []
    && Judge(OpenSession, reply).Good?
  }

  lemma OpenContextFinishKeeps(cl: Client, i: nat, reply: Option<seq<byte>>)
    requires ClientInv(cl) && ClientShape(cl) && i < |cl.infos| && cl.leaks[i] > 0
    ensures var r := OpenContextFinish(cl, i, reply); r.Returned? && ClientInv(r.client)
  {
    hide ClientInv, ClientShape;
    var free := FirstFree(UsedConns(cl.conns));
    if Judge(OpenContext, reply).Good? && free.Some? {
      BoundKeeps(cl, i, free.value, Judge(OpenContext, reply).body.handle);
    }
  }

  lemma CloseContextFinishKeeps(cl: Client, h: nat, reply: Option<seq<byte>>)
    requires ClientInv(cl) && IsOpen(cl, h) && cl.conns[h].index < |cl.infos|
    ensures var r := CloseContextFinish(cl, h, reply); r.Returned? && ClientInv(r.client)
  {
    hide ClientInv;
    CloseIsDefined(cl, h);
    UnboundKeeps(cl, h);
  }

  lemma OpenSessionFinishKeeps(cl: Client, h: nat, reply: Option<seq<byte>>)
    requires ClientInv(cl) && IsOpen(cl, h)
    ensures var r := OpenSessionFinish(cl, h, reply);
            && (r.Aborted? <==> cl.conns[h].sessions == [] && Judge(OpenSession, reply).Good?)
            && (r.Returned? ==> ClientInv(r.client))
  {
    hide ClientInv;
    var free := FirstFree(UsedSessions(cl.conns[h].sessions));
    if Judge(OpenSession, reply).Good? && free.Some? {
      SessionAddedKeeps(cl, h, free.value, Judge(OpenSession, reply).body.handle);
    }
  }

  lemma CloseSessionFinishKeeps(cl: Client, h: nat, s: nat, reply: Option<seq<byte>>)
    requires ClientInv(cl) && IsOpenSession(cl, h, s)
    ensures var r := CloseSessionFinish(cl, h, s, reply); r.Returned? && ClientInv(r.client)
  {
    hide ClientInv;
    SessionRemovedKeeps(cl, h, s);
  }

  /** The second part of every call, whatever bytes the channel returns. */
  lemma FinishKeeps(cl: Client, call: Call, i: nat, reply: Option<seq<byte>>)
    requires ClientInv(cl) && Asked(cl, call, i)
    ensures Finish(cl, call, i, reply).Aborted? <==> NoSessionTable(cl, call, reply)
    ensures Finish(cl, call, i, reply).Returned? ==> ClientInv(Finish(cl, call, i, reply).client)
  {
    hide ClientInv, Judge, OpenContextFinish, CloseContextFinish, OpenSessionFinish, CloseSessionFinish;
    match call
    case OpenContextCall(_, _) => OpenContextFinishKeeps(cl, i, reply);
    case CloseContextCall(h) => CloseContextFinishKeeps(cl, h, reply);
    case OpenSessionCall(h, _) => OpenSessionFinishKeeps(cl, h, reply);
    case CloseSessionCall(h, s) => CloseSessionFinishKeeps(cl, h, s, reply);
    case InvokeCall(_, _, _) =>
    case RegisterCall(_, _, _, _, _) =>
    case UnregisterCall(_, _, _) =>
  }

  // ---------------------------------------------------------------- whole calls

  /** From the request on: `room` is the size of the caller's send buffer, `reply` what the channel returns, if
      anything. */
  function Complete(cl: Client, call: Call, i: nat, m: Message, room: nat, reply: Option<seq<byte>>): Returned
    requires Asked(cl, call, i)
  {
    if |EncodeMessage(m)| > room then Returned(cl, COMM_FAILED, 0) else Finish(cl, call, i, reply)
  }

  /** A whole call: an empty buffer is refused before anything else. */
  function Perform(cl: SoundClient, call: Call, bufs: Buffers, reply: Option<seq<byte>>): Returned
  {
    if NoBuffer(bufs) then Returned(cl, INVALID_PARAM, 0)
    else
      BeginKeeps(cl, call);
      match Begin(cl, call)
      case Early(after, err) => Returned(after, err, 0)
      case Ask(after, i, m) => Complete(after, call, i, m, bufs.send, reply)
  }

  lemma CompleteKeeps(cl: Client, call: Call, i: nat, m: Message, room: nat, reply: Option<seq<byte>>)
    requires WellAsked(cl, call, i, m)
    ensures var r := Complete(cl, call, i, m, room, reply);
            && (r.Returned? ==> ClientInv(r.client))
            && (r.Aborted? <==> NoSessionTable(cl, call, reply) && WireBytes(Form(OpenSession, true)) <= room)
  {
    hide ClientInv, Finish, Judge, EncodeMessage, WireBytes, ClientShape;
    UnpackPack(m, []);
    FinishKeeps(cl, call, i, reply);
  }

  lemma HasShape(cl: SoundClient)
    ensures ClientShape(cl)
  {
  }

  /** The process ends in one case only. */
  ghost predicate Aborts(cl: Client, call: Call, bufs: Buffers, reply: Option<seq<byte>>)
  {
    !NoBuffer(bufs) && NoSessionTable(cl, call, reply) && WireBytes(Form(OpenSession, true)) <= bufs.send
  }

  /** A whole call: the invariant holds afterwards unless the process has ended. */
  lemma PerformKeeps(cl: SoundClient, call: Call, bufs: Buffers, reply: Option<seq<byte>>)
    ensures var r := Perform(cl, call, bufs, reply);
            && (r.Returned? ==> ClientInv(r.client))
            && (r.Aborted? <==> Aborts(cl, call, bufs, reply))
  {
    hide ClientInv, ClientShape, Undisturbed, WellAsked, Begin, Complete, Judge, EncodeMessage, WireBytes;
    HasShape(cl);
    BeginKeeps(cl, call);
    if call.OpenSessionCall? { OpenSessionAsks(cl, call); }
    var b := Begin(cl, call);
    if b.Ask? { CompleteKeeps(b.client, call, b.index, b.request, bufs.send, reply); }
  }

  lemma OpenSessionAsks(cl: Client, call: Call)
    requires ClientShape(cl) && call.OpenSessionCall?
    ensures Begin(cl, call).Ask? <==> IsOpen(cl, call.h)
    ensures Begin(cl, call).Ask? ==> Begin(cl, call).client == cl
  {
  }

  /** A connection that stays open keeps its slot, and the slot stays in use under the same context id: it is
      neither unregistered nor given to another id. */
  lemma SlotsAreSafe(cl: SoundClient, call: Call, bufs: Buffers, reply: Option<seq<byte>>, c: nat)
    requires IsOpen(cl, c)
    ensures var r := Perform(cl, call, bufs, reply);
            r.Returned? && IsOpen(r.client, c) ==>
              var i := cl.conns[c].index;
              && r.client.conns[c].index == i && i < |r.client.infos|
              && r.client.infos[i].used && r.client.infos[i].contextId == cl.conns[c].contextId
  {
    PerformKeeps(cl, call, bufs, reply);
    var r := Perform(cl, call, bufs, reply);
    if r.Returned? && IsOpen(r.client, c) {
      SameConnection(cl, call, bufs, reply, c);
      ReferredIsUsed(r.client, c);
    }
  }

  lemma SameConnection(cl: SoundClient, call: Call, bufs: Buffers, reply: Option<seq<byte>>, c: nat)
    requires IsOpen(cl, c)
    ensures var r := Perform(cl, call, bufs, reply);
            r.Returned? && IsOpen(r.client, c) ==>
              r.client.conns[c].index == cl.conns[c].index && r.client.conns[c].contextId == cl.conns[c].contextId
  {
    hide ClientInv, Judge, EncodeMessage, Added, Taken;
    BeginKeeps(cl, call);
  }

  // ---------------------------------------------------------------- leaks

  /** open_context takes a count: it finds the id or has room for it. */
  predicate Counted(cl: Client, call: Call, bufs: Buffers)
  {
    && call.OpenContextCall? && call.cid != 0 && !NoBuffer(bufs)
    && (FindId(cl.infos, call.cid).Some? || cl.numIds < |cl.infos|)
  }

  /** What makes open_context fail once it has taken its count: the new id's channel cannot be registered, the request
      does not fit, the answer is no agreement, or there is no connection to spare. */
  predicate FailsLater(cl: Client, call: Call, bufs: Buffers, reply: Option<seq<byte>>)
    requires call.OpenContextCall?
  {
    || (FindId(cl.infos, call.cid).None? && call.registerErr != SUCCESS)
    || bufs.send < WireBytes(Form(OpenContext, true))
    || Judge(OpenContext, reply).Bad?
    || FirstFree(UsedConns(cl.conns)).None?
  }

  predicate Leaks(cl: Client, call: Call, bufs: Buffers, reply: Option<seq<byte>>)
  {
    Counted(cl, call, bufs) && FailsLater(cl, call, bufs, reply)
  }

  lemma OpenContextAsks(cl: Client, call: Call, bufs: Buffers)
    requires ClientInv(cl) && Counted(cl, call, bufs)
    ensures match OpenContextBegin(cl, call.cid, call.registerErr)
            case Dead => false
            case Early(_, _) => FindId(cl.infos, call.cid).None? && call.registerErr != SUCCESS
            case Ask(after, _, m) =>
              && (FindId(cl.infos, call.cid).None? ==> call.registerErr == SUCCESS)
              && after.conns == cl.conns && m.body == OpenContextReq(call.cid)
  {
    OpenContextBeginKeeps(cl, call.cid, call.registerErr);
    hide ClientInv, WellAsked, Used, FindId;
  }

  /** Once counted, an open_context returns, and it fails exactly on these conditions. */
  lemma FailsWhen(cl: SoundClient, call: Call, bufs: Buffers, reply: Option<seq<byte>>)
    requires Counted(cl, call, bufs)
    ensures var r := Perform(cl, call, bufs, reply);
            r.Returned? && (r.err != SUCCESS <==> FailsLater(cl, call, bufs, reply))
  {
    hide ClientInv, ClientShape, OpenContextBegin, Judge, EncodeMessage, WireBytes, FindId, Undisturbed;
    HasShape(cl);
    OpenContextAsks(cl, call, bufs);
    BeginKeeps(cl, call);
    match OpenContextBegin(cl, call.cid, call.registerErr)
    case Early(_, _) =>
    case Ask(_, _, m) => UnpackPack(m, []);
  }

  lemma OtherLeaks(cl: Client, call: Call, i: nat, m: Message, room: nat, reply: Option<seq<byte>>)
    requires Asked(cl, call, i) && !call.OpenContextCall?
    ensures var r := Complete(cl, call, i, m, room, reply); r.Returned? ==> r.client.leaks == cl.leaks
  {
    hide Judge, FirstFree;
  }

  lemma OpenLeaks(cl: SoundClient, call: Call, bufs: Buffers, reply: Option<seq<byte>>)
    requires call.OpenContextCall?
    ensures var r := Perform(cl, call, bufs, reply);
            r.Returned? ==>
              Sum(r.client.leaks) == Sum(cl.leaks) + if Counted(cl, call, bufs) && r.err != SUCCESS then 1 else 0
  {
    OpenContextBeginKeeps(cl, call.cid, call.registerErr);
    LeakTaken(cl, call.cid, call.registerErr, bufs, reply);
    hide ClientInv, OpenContextBegin, OpenContextFinish, Undisturbed, Counted, EncodeMessage;
    var b := OpenContextBegin(cl, call.cid, call.registerErr);
  }

  /** A count leaks exactly when open_context takes it and fails later on, which the caller's arguments, the tables
      and the answer decide: nothing else adds to the difference between counts and connections, and nothing ever
      takes it back. */
  lemma LeaksWhen(cl: SoundClient, call: Call, bufs: Buffers, reply: Option<seq<byte>>)
    ensures var r := Perform(cl, call, bufs, reply);
            r.Returned? ==> Sum(r.client.leaks) == Sum(cl.leaks) + if Leaks(cl, call, bufs, reply) then 1 else 0
  {
    if call.OpenContextCall? {
      OpenLeaks(cl, call, bufs, reply);
      hide ClientInv, Perform, Counted, FailsLater;
      if Counted(cl, call, bufs) { FailsWhen(cl, call, bufs, reply); }
    } else {
      OtherBeginKeeps(cl, call);
      hide ClientInv, Complete, Sum;
      match Begin(cl, call)
      case Early(after, err) =>
      case Ask(after, i, m) => OtherLeaks(cl, call, i, m, bufs.send, reply);
    }
  }

  lemma LeakTaken(cl: Client, cid: uint32, registerErr: int, bufs: Buffers, reply: Option<seq<byte>>)
    requires ClientShape(cl)
    ensures !NoBuffer(bufs) ==>
              var counted := Counted(cl, OpenContextCall(cid, registerErr), bufs);
              match OpenContextBegin(cl, cid, registerErr)
              case Dead => true
              case Early(after, err) => Sum(after.leaks) == Sum(cl.leaks) + if counted then 1 else 0
              case Ask(after, i, _) =>
                && counted && Sum(after.leaks) == Sum(cl.leaks) + 1
                && (i < |after.infos| == |after.leaks| && after.leaks[i] > 0 ==>
                      var r := OpenContextFinish(after, i, reply);
                      r.Returned? ==> Sum(r.client.leaks) == Sum(cl.leaks) + if r.err == SUCCESS then 0 else 1)
  {
    hide Judge, UsedConns, Sum;
    var b := OpenContextBegin(cl, cid, registerErr);
    if b.Ask? {
      SumUpdate(cl.leaks, b.index, cl.leaks[b.index] + 1);
      SumUpdate(b.client.leaks, b.index, cl.leaks[b.index]);
    } else if b.Early? && Counted(cl, OpenContextCall(cid, registerErr), bufs) {
      var free := FirstFree(Used(cl.infos));
      SumUpdate(cl.leaks, free.value, cl.leaks[free.value] + 1);
    }
  }

  /** The counts taken before the request stay taken. */
  lemma LeaksOfBegin(cl: Client, call: Call)
    requires ClientShape(cl)
    ensures match Begin(cl, call)
            case Dead => true
            case Early(after, _) =>
              |after.leaks| == |cl.leaks| && forall j :: 0 <= j < |cl.leaks| ==> after.leaks[j] >= cl.leaks[j]
            case Ask(after, k, _) =>
              && |after.leaks| == |cl.leaks|
              && forall j :: 0 <= j < |cl.leaks| ==>
                   after.leaks[j] >= cl.leaks[j] + if call.OpenContextCall? && j == k then 1 else 0
  {
  }

  /** The second part gives back the one count that the first part took, if any, and frees no slot with a leak. */
  lemma LeaksOfFinish(cl: Client, call: Call, k: nat, reply: Option<seq<byte>>, i: nat)
    requires ClientInv(cl) && Asked(cl, call, k) && i < |cl.infos| && cl.leaks[i] > 0
    ensures var r := Finish(cl, call, k, reply);
            r.Returned? ==>
              && |r.client.infos| == |cl.infos| && |r.client.leaks| == |cl.leaks|
              && r.client.infos[i].contextId == cl.infos[i].contextId
              && r.client.leaks[i] >= cl.leaks[i] - if call.OpenContextCall? && i == k then 1 else 0
  {
    hide ClientInv, Judge, FirstFree;
    if call.CloseContextCall? { CountedTwice(cl, call.h); }
  }

  /** A leak keeps the count of an open connection's slot above one. */
  lemma CountedTwice(cl: Client, h: nat)
    requires ClientInv(cl) && IsOpen(cl, h)
    ensures ClientShape(cl) && cl.conns[h].index < |cl.infos|
    ensures cl.leaks[cl.conns[h].index] > 0 ==> cl.infos[cl.conns[h].index].count > 1
  {
    ReferredIsUsed(cl, h);
  }

  lemma LeakedIsUsed(cl: SoundClient, i: nat)
    ensures ClientShape(cl)
    ensures i < |cl.infos| && cl.leaks[i] > 0 ==> cl.infos[i].used
  {
  }

  /** A slot that has leaked a count is lost for every other context id: it stays in use, under the same id, whatever
      is called. */
  lemma LeakedIsLost(cl: SoundClient, call: Call, bufs: Buffers, reply: Option<seq<byte>>, i: nat)
    requires i < |cl.infos| == |cl.leaks| && cl.leaks[i] > 0
    ensures cl.infos[i].used
    ensures var r := Perform(cl, call, bufs, reply);
            r.Returned? ==>
              && |r.client.infos| == |r.client.leaks| == |cl.infos|
              && r.client.leaks[i] >= cl.leaks[i] && r.client.infos[i].used
              && r.client.infos[i].contextId == cl.infos[i].contextId
  {
    hide ClientInv, Judge, EncodeMessage, Begin, Finish, NoSessionTable;
    LeakedIsUsed(cl, i);
    BeginKeeps(cl, call);
    LeaksOfBegin(cl, call);
    PerformKeeps(cl, call, bufs, reply);
    var r := Perform(cl, call, bufs, reply);
    if !NoBuffer(bufs) && Begin(cl, call).Ask? {
      var b := Begin(cl, call);
      LeaksOfFinish(b.client, call, b.index, reply, i);
    }
    if r.Returned? { LeakedIsUsed(r.client, i); }
  }

  /** Nobody hands out a second session table: once the first connection has been closed, no connection has one. */
  lemma TablesNeverReturn(cl: SoundClient, call: Call, bufs: Buffers, reply: Option<seq<byte>>, c: nat)
    requires c < |cl.conns|
    ensures var r := Perform(cl, call, bufs, reply);
            r.Returned? ==>
              && |r.client.conns| == |cl.conns|
              && |r.client.conns[c].sessions| ==
                   (if IsOpen(cl, c) && !IsOpen(r.client, c) then 0 else |cl.conns[c].sessions|)
  {
    hide ClientInv, Judge, EncodeMessage, Added, Taken;
    BeginKeeps(cl, call);
  }

  // ---------------------------------------------------------------- release

  /** A successful close frees the information slot, and unregisters its communication object, exactly when no other
      connection refers to the slot and no count has leaked there. */
  lemma ReleasedWhen(cl: SoundClient, h: nat, reply: Option<seq<byte>>)
    requires IsOpen(cl, h) && cl.conns[h].index < |cl.infos| && Judge(CloseContext, reply).Good?
    ensures var i, r := cl.conns[h].index, CloseContextFinish(cl, h, reply);
            && r.Returned? && |r.client.infos| == |cl.infos|
            && (!r.client.infos[i].used <==> Count(ConnsAt(cl.conns, i)) == 1 && cl.leaks[i] == 0)
  {
    CloseIsDefined(cl, h);
    CloseContextFinishKeeps(cl, h, reply);
  }

  // ---------------------------------------------------------------- runs

  lemma {:induction false} NoneUsed(bs: seq<bool>)
    requires forall i :: 0 <= i < |bs| ==> !bs[i]
    ensures Count(bs) == 0
  {
    CountBound(bs);
  }

  lemma FreshInv(smId: uint32, ids: nat, connections: nat, sessions: nat)
    requires connections > 0
    ensures ClientInv(Fresh(smId, ids, connections, sessions))
    ensures Sum(Fresh(smId, ids, connections, sessions).leaks) == 0
  {
    var cl := Fresh(smId, ids, connections, sessions);
    NoneUsed(Used(cl.infos));
    NoneUsed(UsedConns(cl.conns));
    SumOfZeros(cl.leaks);
    forall i ensures Count(ConnsAt(cl.conns, i)) == 0 { NoneUsed(ConnsAt(cl.conns, i)); }
    forall c | 0 <= c < |cl.conns| ensures Count(UsedSessions(cl.conns[c].sessions)) == 0 {
      NoneUsed(UsedSessions(cl.conns[c].sessions));
    }
  }

  /** One call of a run: what is asked for, the caller's buffers, and what the channel returns. */
  datatype Event = Event(call: Call, bufs: Buffers, reply: Option<seq<byte>>)

  /** None once an assertion has ended the process. */
  function Run(cl: SoundClient, events: seq<Event>): Option<Client>
    decreases |events|
  {
    if events == [] then Some(cl)
    else
      PerformKeeps(cl, events[0].call, events[0].bufs, events[0].reply);
      var r := Perform(cl, events[0].call, events[0].bufs, events[0].reply);
      if r.Aborted? then None else Run(r.client, events[1..])
  }

  /** The open_context calls of a run that take a count and fail. */
  ghost function FailedOpens(cl: SoundClient, events: seq<Event>): nat
    decreases |events|
  {
    if events == [] then 0
    else
      var e := events[0];
      PerformKeeps(cl, e.call, e.bufs, e.reply);
      var r := Perform(cl, e.call, e.bufs, e.reply);
      if r.Aborted? then 0
      else (if Leaks(cl, e.call, e.bufs, e.reply) then 1 else 0) + FailedOpens(r.client, events[1..])
  }

  lemma {:induction false} RunKeeps(cl: SoundClient, events: seq<Event>)
    ensures Run(cl, events).Some? ==>
              var after := Run(cl, events).value;
              ClientInv(after) && Sum(after.leaks) == Sum(cl.leaks) + FailedOpens(cl, events)
    decreases |events|
  {
    hide ClientInv, Perform, Leaks;
    if events != [] {
      var e := events[0];
      PerformKeeps(cl, e.call, e.bufs, e.reply);
      LeaksWhen(cl, e.call, e.bufs, e.reply);
      var r := Perform(cl, e.call, e.bufs, e.reply);
      if r.Returned? { RunKeeps(r.client, events[1..]); }
    }
  }

  /** ... for as long as the client lives. */
  lemma {:induction false} LostForGood(cl: SoundClient, events: seq<Event>, i: nat)
    requires i < |cl.infos| == |cl.leaks| && cl.leaks[i] > 0
    ensures Run(cl, events).Some? ==>
              var after := Run(cl, events).value;
              i < |after.infos| && after.infos[i].used && after.infos[i].contextId == cl.infos[i].contextId
    decreases |events|
  {
    hide ClientInv, Perform;
    LeakedIsUsed(cl, i);
    if events != [] {
      var e := events[0];
      PerformKeeps(cl, e.call, e.bufs, e.reply);
      LeakedIsLost(cl, e.call, e.bufs, e.reply, i);
      var r := Perform(cl, e.call, e.bufs, e.reply);
      if r.Returned? { LostForGood(r.client, events[1..], i); }
    }
  }

  // ---------------------------------------------------------------- all references together

  function Counts(infos: seq<Info>): seq<nat> { seq(|infos|, i requires 0 <= i < |infos| => infos[i].count) }

  function References(conns: seq<Conn>, n: nat): (r: seq<nat>)
    ensures |r| == n
  {
    seq(n, i requires 0 <= i < n => Count(ConnsAt(conns, i)))
  }

  lemma {:induction false} SumAdds(a: seq<nat>, b: seq<nat>, c: seq<nat>)
    requires |a| == |b| == |c| && forall i :: 0 <= i < |a| ==> a[i] == b[i] + c[i]
    ensures Sum(a) == Sum(b) + Sum(c)
  {
    if a != [] {
      var n := |a| - 1;
      SumAdds(a[..n], b[..n], c[..n]);
    }
  }

  lemma LastReference(conns: seq<Conn>, n: nat)
    requires conns != []
    ensures var front, last := conns[..|conns| - 1], conns[|conns| - 1];
            References(conns, n) == if last.used && last.index < n
                                    then References(front, n)[last.index := References(front, n)[last.index] + 1]
                                    else References(front, n)
  {
    var front := conns[..|conns| - 1];
    forall i | 0 <= i < n ensures ConnsAt(conns, i)[..|front|] == ConnsAt(front, i) {}
  }

  /** Counted per slot or all at once, the open connections are the same. */
  lemma {:induction false} ReferencesAddUp(conns: seq<Conn>, n: nat)
    requires forall c :: 0 <= c < |conns| && conns[c].used ==> conns[c].index < n
    ensures Sum(References(conns, n)) == Count(UsedConns(conns))
    decreases |conns|
  {
    hide References, UsedConns, Count, Sum;
    if conns == [] {
      NoReferences(n);
    } else {
      var front, last := conns[..|conns| - 1], conns[|conns| - 1];
      ReferencesAddUp(front, n);
      LastReference(conns, n);
      LastUsed(conns);
      if last.used {
        SumUpdate(References(front, n), last.index, References(front, n)[last.index] + 1);
      }
    }
  }

  lemma NoReferences(n: nat)
    ensures Sum(References([], n)) == Count(UsedConns([])) == 0
  {
    SumOfZeros(References([], n));
  }

  lemma LastUsed(conns: seq<Conn>)
    requires conns != []
    ensures var front, last := conns[..|conns| - 1], conns[|conns| - 1];
            Count(UsedConns(conns)) == Count(UsedConns(front)) + if last.used then 1 else 0
  {
    var front := conns[..|conns| - 1];
    assert UsedConns(conns)[..|front|] == UsedConns(front);
  }

  /** In every state that a freshly initialised client reaches, whatever the channel returns, the reference counts
      add up to the open connections plus the openings that failed after being counted. */
  lemma EveryReachableClient(smId: uint32, ids: nat, connections: nat, sessions: nat, events: seq<Event>)
    requires connections > 0
    ensures var init := Fresh(smId, ids, connections, sessions);
            ClientInv(init)
            && (Run(init, events).Some? ==>
                  var cl := Run(init, events).value;
                  ClientInv(cl) && Sum(Counts(cl.infos)) == cl.numConns + FailedOpens(init, events))
  {
    var init := Fresh(smId, ids, connections, sessions);
    FreshInv(smId, ids, connections, sessions);
    RunKeeps(init, events);
    if Run(init, events).Some? {
      CountsAddUp(Run(init, events).value);
    }
  }

  lemma CountsAddUp(cl: SoundClient)
    ensures Sum(Counts(cl.infos)) == cl.numConns + Sum(cl.leaks)
  {
    ReferencesAddUp(cl.conns, |cl.infos|);
    SumAdds(Counts(cl.infos), References(cl.conns, |cl.infos|), cl.leaks);
  }
}
