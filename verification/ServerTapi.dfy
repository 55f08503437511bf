/** The secure world's service object: the tables in memory and the handlers that update them in place. */
module ServerTapi {
  import opened Bytes
  import opened Status
  import opened Rc4
  import opened HandlePlugin
  import opened Counting
  import opened Wire
  import opened ServerModel
  import opened ServerRequests
  import opened ServerRuns
  import opened ConnectionTable
  import Packing
  import RegisteredMemory

  /** What a handler leaves behind: an answer, an error of its own, or the end of the process. */
  datatype Answer = Replied(body: Body) | Failed(err: int) | Halted(why: Reason)

  function AnswerOf(o: Outcome): Answer
  {
    match o
    case Reply(_, body) => Replied(body)
    case Fail(_, err) => Failed(err)
    case Halt(why) => Halted(why)
  }

  class Tapi {
    const contextId: uint32
    const smId: uint32
    const conn: Connections
    const cthandles: array<byte>
    const sthandles: array<byte>
    const prng: Prng
    const rmem: RegisteredMemory.RegionList
    const msend: array<byte>
    var msendSize: nat

    ghost predicate Tables()
      reads conn, conn.ctable, conn.stable
    {
      conn.Links(conn.model.lists) && conn.Flags(conn.model)
    }

    /** The flat handle tables and the generator agree with `t`. */
    ghost predicate Handles(t: Table)
      reads cthandles, sthandles, prng, prng.buf
    {
      && cthandles != sthandles && cthandles != prng.buf && sthandles != prng.buf
      && msend != cthandles && msend != sthandles && msend != prng.buf && msend.Length + 8 < TWO_32
      && cthandles.Length == HANDLE_SIZE * |t.chandles| && sthandles.Length == HANDLE_SIZE * |t.shandles|
      && prng.Running() && prng.View() == t.gen
      && Slots(cthandles[..]) == t.chandles && Slots(sthandles[..]) == t.shandles
    }

    ghost predicate Valid()
      reads conn, conn.ctable, conn.stable, cthandles, sthandles, prng, prng.buf, rmem, rmem.nodes
    {
      Tables() && Handles(conn.model) && rmem.Valid()
    }

    ghost function Model(): Server
      reads conn, rmem
    {
      Server(contextId, smId, conn.model, rmem.Contents())
    }

    /** sk_swld_tapi_init, for tables and a send buffer of the given capacities. */
    constructor (contextId: uint32, smId: uint32, contexts: nat, sessions: nat, room: nat, entropy: seq<byte>)
      requires room + 8 < TWO_32
      ensures Valid() && Model() == Initial(contextId, smId, contexts, sessions, prng.View())
      ensures entropy != [] ==> prng.View() == KeySetup(KeyBuffer(entropy), Min(|entropy|, 256))
      ensures msend.Length == room
    {
      hide *;
      this.contextId, this.smId := contextId, smId;
      var p := Initialize(entropy);
      var c := new Connections(contexts, sessions, p.View());
      var ch := NewBytes(HANDLE_SIZE * contexts);
      var sh := NewBytes(HANDLE_SIZE * sessions);
      var ms := NewBytes(room);
      conn, prng, cthandles, sthandles, msend, msendSize := c, p, ch, sh, ms, room;
      rmem := new RegisteredMemory.RegionList();
      new;
      ZeroHandles(contexts, sessions, prng.View());
      Initially(contexts, sessions);
    }

    lemma ZeroHandles(contexts: nat, sessions: nat, gen: Gen)
      requires cthandles != sthandles && cthandles != prng.buf && sthandles != prng.buf
      requires msend != cthandles && msend != sthandles && msend != prng.buf && msend.Length + 8 < TWO_32
      requires prng.Running() && prng.View() == gen
      requires cthandles.Length == HANDLE_SIZE * contexts && sthandles.Length == HANDLE_SIZE * sessions
      requires Zeros(cthandles[..]) && Zeros(sthandles[..])
      ensures Handles(EmptyTable(contexts, sessions, gen))
    {
      ZeroSlots(cthandles[..]);
      ZeroSlots(sthandles[..]);
    }

    lemma Initially(contexts: nat, sessions: nat)
      requires conn.Links(conn.model.lists) && conn.Flags(conn.model) && Handles(conn.model)
      requires rmem.Valid() && rmem.Contents() == []
      requires conn.model == EmptyTable(contexts, sessions, prng.View())
      ensures Valid() && Model() == Initial(contextId, smId, contexts, sessions, prng.View())
    {
    }

    // -------------------------------------------------------------- handles

    method DrawContextHandle(c: nat, ghost t: SoundTable) returns (handle: Handle)
      requires Handles(t) && Legal(t, Opened(c))
      modifies prng, prng.buf, cthandles
      ensures Handles(After(t, Opened(c))) && c < |t.chandles| && handle == After(t, Opened(c)).chandles[c]
    {
      var _ := Generate(prng, cthandles, c);
      SlotAt(cthandles[..], c);
      handle := cthandles[HANDLE_SIZE * c..HANDLE_SIZE * c + HANDLE_SIZE];
    }

    method DrawSessionHandle(c: nat, s: nat, taid: Handle, ghost t: SoundTable) returns (handle: Handle)
      requires Handles(t) && Legal(t, Attached(c, s, taid))
      modifies prng, prng.buf, sthandles
      ensures var u := After(t, Attached(c, s, taid)); Handles(u) && s < |u.shandles| && handle == u.shandles[s]
    {
      var _ := Generate(prng, sthandles, s);
      SlotAt(sthandles[..], s);
      handle := sthandles[HANDLE_SIZE * s..HANDLE_SIZE * s + HANDLE_SIZE];
    }

    // -------------------------------------------------------------- open_context, close_context

    method OpenContextNw(cid: uint32, env: Env) returns (a: Answer)
      requires Valid()
      modifies conn, conn.ctable, conn.stable, prng, prng.buf, cthandles
      ensures var o := ServerRequests.OpenContextNw(old(Model()), cid, env);
              a == AnswerOf(o) && (!o.Halt? ==> Valid() && Model() == o.server)
    {
      hide Inv, Shape, After, Connections.Links, Connections.Flags, Handles, RegisteredMemory.RegionList.Valid;
      conn.Sizes();
      if cid != contextId {
        return Replied(OpenContextResp(env.junk, BAD_CONTEXT_ID));
      }
      if conn.numContexts >= |conn.ctable| {
        return Replied(OpenContextResp(env.junk, OPEN_CONTEXT));
      }
      var i := conn.FreeContext();
      if i == |conn.ctable| {
        return Halted(NoFreeContext);
      }
      AfterOpened(conn.model, i);
      var handle := DrawContextHandle(i, conn.model);
      conn.OpenContext(i);
      return Replied(OpenContextResp(handle, SUCCESS));
    }

    /** The plugin's search and the division that follows it. */
    method FindContext(context: Handle) returns (found: bool, idx: nat)
      requires Handles(conn.model) && conn.Flags(conn.model)
      ensures Find(conn.model.chandles, context) == if found then Some(idx) else None
    {
      var err, offset := FindHandle(|conn.ctable|, cthandles, context);
      return err == SUCCESS, offset / HANDLE_SIZE;
    }

    method FindSession(session: Handle) returns (found: bool, idx: nat)
      requires Handles(conn.model) && conn.Flags(conn.model)
      ensures Find(conn.model.shandles, session) == if found then Some(idx) else None
    {
      var err, offset := FindHandle(|conn.stable|, sthandles, session);
      return err == SUCCESS, offset / HANDLE_SIZE;
    }

    method CloseContextNw(context: Handle) returns (a: Answer)
      requires Valid()
      modifies conn, conn.ctable, conn.stable
      ensures var o := ServerRequests.CloseContextNw(old(Model()), context);
              a == AnswerOf(o) && (!o.Halt? ==> Valid() && Model() == o.server)
    {
      hide Inv, Shape, After, Connections.Links, Connections.Flags, Handles, RegisteredMemory.RegionList.Valid;
      conn.Sizes();
      var found, idx := FindContext(context);
      if !found {
        return Replied(CloseContextResp(CONTEXT_HANDLE_NOT_FOUND));
      }
      if !conn.IsActive(idx) {
        return Halted(InactiveContext);
      }
      ghost var t := conn.model;
      AfterClosed(t, idx);
      var ok := conn.CloseContext(idx);
      if !ok {
        return Halted(CountExhausted);
      }
      SameHandles(t, conn.model);
      return Replied(CloseContextResp(SUCCESS));
    }

    lemma SameHandles(t: Table, u: Table)
      requires Handles(t) && u.chandles == t.chandles && u.shandles == t.shandles && u.gen == t.gen
      ensures Handles(u)
    {
    }

    // -------------------------------------------------------------- open_session

    /** Drawing the handle and entering the session, once both slots are known. */
    method EnterSession(c: nat, s: nat, taid: Handle) returns (handle: Handle)
      requires Tables() && Handles(conn.model) && Legal(conn.model, Attached(c, s, taid))
      modifies conn, conn.ctable, conn.stable, prng, prng.buf, sthandles
      ensures Tables() && Handles(conn.model) && conn.model == After(old(conn.model), Attached(c, s, taid))
      ensures s < |conn.model.shandles| && handle == conn.model.shandles[s]
    {
      hide Inv, Shape, After, Connections.Links, Connections.Flags, Handles, Legal;
      handle := DrawSessionHandle(c, s, taid, conn.model);
      conn.OpenSession(c, s, taid);
    }

    method OpenSessionNw(context: Handle, taid: Handle, env: Env) returns (a: Answer)
      requires Valid()
      modifies conn, conn.ctable, conn.stable, prng, prng.buf, sthandles
      ensures var o := ServerRequests.OpenSessionNw(old(Model()), context, taid, env);
              a == AnswerOf(o) && (!o.Halt? ==> Valid() && Model() == o.server)
    {
      hide Inv, Shape, After, Connections.Links, Connections.Flags, Handles, RegisteredMemory.RegionList.Valid;
      conn.Sizes();
      var found, c := FindContext(context);
      if !found {
        return Replied(OpenSessionResp(env.junk, CONTEXT_HANDLE_NOT_FOUND));
      }
      if !conn.IsActive(c) {
        return Halted(InactiveContext);
      }
      if conn.Connected(c) >= |conn.stable| {
        return Replied(OpenSessionResp(env.junk, OPEN_SESSION));
      }
      var s := conn.FreeSession();
      if s == |conn.stable| {
        return Halted(NoFreeSession);
      }
      AfterAttached(conn.model, c, s, taid);
      var handle := EnterSession(c, s, taid);
      if env.loadErr != SUCCESS {
        return Replied(OpenSessionResp(env.junk, TAPP_LOAD));
      }
      if env.initErr != SUCCESS {
        return Replied(OpenSessionResp(env.junk, if env.initErr != TIMEOUT then TAPP_CALL else TAPP_TIMEOUT));
      }
      return Replied(OpenSessionResp(handle, SUCCESS));
    }

    // -------------------------------------------------------------- find_objects, close_session, invoke_command

    method FindObjects(context: Handle, session: Handle) returns (r: Lookup)
      requires Valid()
      ensures r == ServerRequests.FindObjects(conn.model, context, session)
    {
      hide Inv, Shape, After, Connections.Links, Connections.Flags, Handles, RegisteredMemory.RegionList.Valid;
      conn.Sizes();
      var found, c := FindContext(context);
      if !found {
        return Missing(CONTEXT_HANDLE_NOT_FOUND);
      }
      if !conn.IsActive(c) {
        return Broken(InactiveContext);
      }
      var foundSession, s := FindSession(session);
      if !foundSession {
        return Missing(SESSION_HANDLE_NOT_FOUND);
      }
      if !conn.IsActiveSession(s) {
        return Broken(InactiveSession);
      }
      var attached := conn.IsAttached(c, s);
      return if attached then Lookup.Found(c, s) else Missing(VERIFY_FAILED);
    }

    method CloseSessionNw(context: Handle, session: Handle) returns (a: Answer)
      requires Valid()
      modifies conn, conn.ctable, conn.stable
      ensures var o := ServerRequests.CloseSessionNw(old(Model()), context, session);
              a == AnswerOf(o) && (!o.Halt? ==> Valid() && Model() == o.server)
    {
      hide Inv, Shape, After, Connections.Links, Connections.Flags, Handles, RegisteredMemory.RegionList.Valid;
      var r := FindObjects(context, session);
      match r {
        case Found(c, s) =>
          ghost var t := conn.model;
          AfterDetached(t, c, s);
          var _ := conn.RemoveSession(c, s);
          SameHandles(t, conn.model);
          return Replied(CloseSessionResp(SUCCESS));
        case Missing(err) =>
          if err == VERIFY_FAILED {
            return Failed(err);
          }
          return Replied(CloseSessionResp(err));
        case Broken(why) =>
          return Halted(why);
      }
    }

    method InvokeCommandNw(context: Handle, session: Handle, env: Env) returns (a: Answer)
      requires Valid()
      ensures a == AnswerOf(ServerRequests.InvokeCommandNw(Model(), context, session, env))
    {
      hide Inv, Shape, After, Connections.Links, Connections.Flags, Handles, RegisteredMemory.RegionList.Valid;
      var r := FindObjects(context, session);
      match r {
        case Found(_, _) =>
          return Replied(InvokeResp(if env.pullErr == SUCCESS then SUCCESS
                                    else if env.pullErr != TIMEOUT then TAPP_CALL else TAPP_TIMEOUT));
        case Missing(err) =>
          if err == VERIFY_FAILED {
            return Failed(err);
          }
          return Replied(InvokeResp(err));
        case Broken(why) =>
          return Halted(why);
      }
    }

    // -------------------------------------------------------------- register_memory, unregister_memory, check

    /** The context's byte offset, used as an index to stamp the time of access. */
    method StampAccess(context: Handle) returns (found: bool, inTable: bool)
      requires Handles(conn.model) && conn.Flags(conn.model)
      ensures var at := Find(conn.model.chandles, context);
              found == at.Some? && (found ==> inTable == (HANDLE_SIZE * at.value < |conn.model.cactive|))
    {
      var err, offset := FindHandle(|conn.ctable|, cthandles, context);
      return err == SUCCESS, offset < |conn.ctable|;
    }

    method RegisterMemoryNw(context: Handle, size: uint32, flag: uint32, addr: uint32, env: Env) returns (a: Answer)
      requires Valid()
      modifies rmem, rmem.nodes
      ensures var o := ServerRequests.RegisterMemoryNw(old(Model()), context, size, flag, addr, env);
              a == AnswerOf(o) && (!o.Halt? ==> Valid() && Model() == o.server)
      ensures forall n :: n in rmem.nodes ==> n in old(rmem.nodes) || fresh(n)
    {
      hide Inv, Shape, After, Connections.Links, Connections.Flags, Handles, RegisteredMemory.RegionList.Valid;
      conn.Sizes();
      var found, inTable := StampAccess(context);
      if !found {
        return Failed(CONTEXT_HANDLE_NOT_FOUND);
      }
      if !inTable {
        return Halted(OffsetBeyondTable);
      }
      if env.outOfMemory {
        return Failed(NO_MEMORY);
      }
      var ptr := if flag != MEM_ALLOCATE then addr else 0;
      if env.allocErr != SUCCESS {
        return Failed(FAILED_SHARED_MEMORY_REQ);
      }
      rmem.Register(Region(env.regionId, flag, size, ptr));
      return Replied(RegisterResp(ptr, env.regionId, SUCCESS));
    }

    method UnregisterMemoryNw(context: Handle, id: Handle, env: Env) returns (a: Answer)
      requires Valid()
      modifies rmem, rmem.nodes
      ensures var o := ServerRequests.UnregisterMemoryNw(old(Model()), context, id, env);
              a == AnswerOf(o) && (!o.Halt? ==> Valid() && Model() == o.server)
      ensures forall n :: n in rmem.nodes ==> n in old(rmem.nodes)
    {
      hide Inv, Shape, After, Connections.Links, Connections.Flags, Handles, RegisteredMemory.RegionList.Valid;
      conn.Sizes();
      var found, inTable := StampAccess(context);
      if !found {
        return Failed(CONTEXT_HANDLE_NOT_FOUND);
      }
      if !inTable {
        return Halted(OffsetBeyondTable);
      }
      var known := rmem.Unregister(id);
      if !known {
        return Failed(NO_MEMORY);
      }
      if env.freeErr != SUCCESS {
        return Failed(FAILED_SHARED_MEMORY_REQ);
      }
      return Replied(UnregisterResp(SUCCESS));
    }

    method CheckNw() returns (a: Answer)
      requires Valid()
      ensures a == AnswerOf(ServerRequests.CheckNw(Model()))
    {
      hide Inv, Shape, After, Connections.Links, Connections.Flags, Handles, RegisteredMemory.RegionList.Valid;
      conn.Sizes();
      var ok := conn.EveryContextHasSession();
      return if ok then Replied(CheckResp(SUCCESS)) else Halted(NoSessionToCheck);
    }

    // -------------------------------------------------------------- process

    method Dispatch(request: Body, env: Env) returns (a: Answer)
      requires Valid() && FormOf(request).request
      modifies conn, conn.ctable, conn.stable, cthandles, sthandles, prng, prng.buf, rmem, rmem.nodes
      ensures var o := Serve(old(Model()), request, env);
              a == AnswerOf(o) && (!o.Halt? ==> Valid() && Model() == o.server)
      ensures forall n :: n in rmem.nodes ==> n in old(rmem.nodes) || fresh(n)
    {
      hide Inv, Connections.Links, Shape, After, Connections.Flags, Handles, RegisteredMemory.RegionList.Valid;
      match request {
        case OpenContextReq(cid) => a := OpenContextNw(cid, env);
        case CloseContextReq(context) => a := CloseContextNw(context);
        case OpenSessionReq(context, taid) => a := OpenSessionNw(context, taid, env);
        case CloseSessionReq(context, session) => a := CloseSessionNw(context, session);
        case InvokeReq(context, session, _) => a := InvokeCommandNw(context, session, env);
        case RegisterReq(context, size, flag, addr) => a := RegisterMemoryNw(context, size, flag, addr, env);
        case UnregisterReq(context, id) => a := UnregisterMemoryNw(context, id, env);
        case CheckReq => a := CheckNw();
      }
    }

    /** The checks before a handler: header, addressee, command, and the length its own routine asks for. */
    method Admit(received: seq<byte>) returns (r: Accepted)
      requires Valid()
      ensures r == Accept(Model(), received)
    {
      hide Valid, Serve;
      var _, hdr := Packing.UnpackHeader(received);
      if hdr.None? {
        return Rejected(INVALID_PARAM);
      }
      if hdr.value.contextId != contextId {
        return Rejected(BAD_CONTEXT_ID);
      }
      if hdr.value.smId != smId {
        return Rejected(BAD_SM_ID);
      }
      match KindOf(hdr.value.cmd) {
        case None => return Rejected(INVALID_CMD);
        case Some(k) =>
          var _, m := Packing.Unpack(k, received, REQUEST);
          return if m.None? then Rejected(ErrorOf(k)) else Request(m.value);
      }
    }

    /** Every reply starts with the full buffer as its limit; false when the packer finds it too small. */
    method Respond(reply: Message) returns (ok: bool)
      requires FormOf(reply.body).kind != System && !FormOf(reply.body).request && msend.Length + 8 < TWO_32
      modifies msend, `msendSize
      ensures ok <==> |EncodeMessage(reply)| <= msend.Length
      ensures ok ==> msendSize == |EncodeMessage(reply)| && msend[..msendSize] == EncodeMessage(reply)
    {
      var err, size := Packing.Pack(FormOf(reply.body).kind, reply, msend, msend.Length, RESPONSE);
      msendSize := size;
      UnpackPack(reply, []);
      return err == PACK_SUCCESS;
    }

    lemma Replies(sv: Server, request: Body, env: Env)
      requires Valid() && Inv(sv.table) && FormOf(request).request
      ensures msend.Length + 8 < TWO_32 && msend != cthandles && msend != sthandles && msend != prng.buf
      ensures var o := Serve(sv, request, env);
              o.Reply? ==> !FormOf(o.body).request && FormOf(o.body).kind != System
    {
      ServeMoves(sv, request, env);
      assert FormOf(request).kind != System;
    }

    /** What process leaves behind for the outcome `p`. */
    ghost predicate Leaves(p: Processed, err: int, halted: Option<Reason>)
      reads this, conn, conn.ctable, conn.stable, cthandles, sthandles, prng, prng.buf, rmem, rmem.nodes, msend
    {
      match p
      case Stopped(why) => halted == Some(why)
      case Refused(after, e) => halted.None? && err == e && Valid() && Model() == after
      case Sent(after, bytes) =>
        && halted.None? && err == SUCCESS && Valid() && Model() == after
        && msendSize == |bytes| <= msend.Length && msend[..msendSize] == bytes
    }

    /** sk_swld_tapi_process on the bytes received. */
    method Process(received: seq<byte>, env: Env) returns (err: int, halted: Option<Reason>)
      requires Valid()
      modifies this, msend, conn, conn.ctable, conn.stable, cthandles, sthandles, prng, prng.buf, rmem, rmem.nodes
      ensures Leaves(ServerRuns.Process(old(Model()), received, msend.Length, env), err, halted)
    {
      hide Valid, Serve, Accept, EncodeMessage;
      var r := Admit(received);
      match r {
        case Rejected(e) => return e, None;
        case Request(m) =>
          Replies(Model(), m.body, env);
          var failure := ErrorOf(FormOf(m.body).kind);
          var a := Dispatch(m.body, env);
          match a {
            case Halted(why) => return failure, Some(why);
            case Failed(_) => return failure, None;
            case Replied(body) =>
              var ok := Respond(Message(m.hdr, body));
              return if ok then SUCCESS else failure, None;
          }
      }
    }
  }

  lemma AfterAttached(t: SoundTable, c: nat, s: nat, taid: Handle)
    requires Legal(t, Attached(c, s, taid))
    ensures Shape(t) && After(t, Attached(c, s, taid)) == Attach(t, c, s, taid)
  {
  }

  lemma AfterDetached(t: SoundTable, c: nat, s: nat)
    requires c < |t.lists| && s in t.lists[c]
    ensures Inv(t) && Legal(t, Detached(c, s))
    ensures var u := After(t, Detached(c, s));
            s < |t.sactive| && t.connected[c] > 0 && t.numSessions > 0 && u == Detach(t, c, s)
  {
    ListedIsCounted(t, c, s);
  }

  lemma AfterOpened(t: SoundTable, c: nat)
    requires Legal(t, Opened(c))
    ensures Shape(t) && After(t, Opened(c)) == Activate(t, c)
    ensures Activate(t, c).chandles[c] == After(t, Opened(c)).chandles[c]
  {
  }

  lemma AfterClosed(t: SoundTable, c: nat)
    requires c < |t.cactive| && t.cactive[c]
    ensures Shape(t) && (t.numContexts > 0 ==> After(t, Closed(c)) == CloseSlot(t, c))
  {
  }

  ghost predicate Zeros(bs: seq<byte>) { forall i :: 0 <= i < |bs| ==> bs[i] == 0 }

  lemma ZeroSlots(table: seq<byte>)
    requires Zeros(table)
    ensures Slots(table) == seq(|table| / HANDLE_SIZE, _ => ZeroHandle())
  {
    forall i | 0 <= i < |table| / HANDLE_SIZE ensures Slots(table)[i] == ZeroHandle() {}
  }

  method NewBytes(n: nat) returns (a: array<byte>)
    ensures fresh(a) && a.Length == n && Zeros(a[..])
  {
    a := new byte[n](_ => 0);
  }
}
