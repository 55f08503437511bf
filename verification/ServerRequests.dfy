/** The secure world's request handlers over the table, and what holds over every run of them. */
module ServerRequests {
  import opened Bytes
  import opened Status
  import opened Rc4
  import opened HandlePlugin
  import opened Counting
  import opened Wire
  import opened ServerModel

  /** A registered memory region. */
  datatype Region = Region(id: Handle, flag: uint32, size: uint32, ptr: uint32)

  datatype Server = Server(contextId: uint32, smId: uint32, table: Table, regions: seq<Region>)

  /** What lies outside: the stack bytes an error reply carries in its handle field, the TApp loader and the TApp,
      the allocator and the memory driver. */
  datatype Env = Env(junk: Handle, loadErr: int, initErr: int, pullErr: int,
                     outOfMemory: bool, allocErr: int, regionId: Handle, freeErr: int)

  /** Why the process ends: an assertion of the source, or a use of its tables beyond their bounds. */
  datatype Reason =
    | InactiveContext      // tapi.c:83, 726, 840
    | InactiveSession      // tapi.c:103
    | NoFreeContext        // tapi.c:622
    | CountExhausted       // tapi.c:759
    | NoFreeSession        // tapi.c:856-872: the scan ends one past the table
    | OffsetBeyondTable    // tapi.c:1349, 1497: a byte offset used as an index
    | NoSessionToCheck     // tapi.c:1646: the first session of a context that has none

  datatype Outcome =
    | Reply(server: Server, body: Body)
    | Fail(server: Server, err: int)
    | Halt(why: Reason)

  const MEM_ALLOCATE: uint32 := 3

  function OpenContextNw(sv: Server, cid: uint32, env: Env): Outcome
    requires Shape(sv.table)
  {
    var t := sv.table;
    if cid != sv.contextId then Reply(sv, OpenContextResp(env.junk, BAD_CONTEXT_ID))
    else if t.numContexts >= |t.cactive| then Reply(sv, OpenContextResp(env.junk, OPEN_CONTEXT))
    else
      match FirstFree(t.cactive)
      case None => Halt(NoFreeContext)
      case Some(c) =>
        var u := Activate(t, c);
        Reply(sv.(table := u), OpenContextResp(u.chandles[c], SUCCESS))
  }

  function CloseContextNw(sv: Server, context: Handle): Outcome
    requires Shape(sv.table)
  {
    var t := sv.table;
    match Find(t.chandles, context)
    case None => Reply(sv, CloseContextResp(CONTEXT_HANDLE_NOT_FOUND))
    case Some(c) =>
      if !t.cactive[c] then Halt(InactiveContext)
      else if t.numContexts == 0 then Halt(CountExhausted)
      else Reply(sv.(table := CloseSlot(t, c)), CloseContextResp(SUCCESS))
  }

  function OpenSessionNw(sv: Server, context: Handle, taid: Handle, env: Env): Outcome
    requires Shape(sv.table)
  {
    var t := sv.table;
    match Find(t.chandles, context)
    case None => Reply(sv, OpenSessionResp(env.junk, CONTEXT_HANDLE_NOT_FOUND))
    case Some(c) =>
      if !t.cactive[c] then Halt(InactiveContext)
      else if t.connected[c] >= |t.sactive| then Reply(sv, OpenSessionResp(env.junk, OPEN_SESSION))
      else
        match FirstFree(t.sactive)
        case None => Halt(NoFreeSession)
        case Some(s) =>
          var u := Attach(t, c, s, taid);
          var after := sv.(table := u);
          if env.loadErr != SUCCESS then Reply(after, OpenSessionResp(env.junk, TAPP_LOAD))
          else if env.initErr == SUCCESS then Reply(after, OpenSessionResp(u.shandles[s], SUCCESS))
          else Reply(after, OpenSessionResp(env.junk, if env.initErr == TIMEOUT then TAPP_TIMEOUT else TAPP_CALL))
  }

  datatype Lookup = Found(c: nat, s: nat) | Missing(err: int) | Broken(why: Reason)

  /** find_objects. */
  function FindObjects(t: Table, context: Handle, session: Handle): (r: Lookup)
    requires Shape(t)
    ensures r.Found? ==> r.c < |t.lists| && r.s < |t.sactive| && t.cactive[r.c] && t.sactive[r.s] && r.s in t.lists[r.c]
    ensures r.Found? ==> t.chandles[r.c] == context && t.shandles[r.s] == session
    ensures r.Missing? && r.err != VERIFY_FAILED ==> context !in t.chandles || session !in t.shandles
  {
    match Find(t.chandles, context)
    case None => Missing(CONTEXT_HANDLE_NOT_FOUND)
    case Some(c) =>
      if !t.cactive[c] then Broken(InactiveContext)
      else
        match Find(t.shandles, session)
        case None => Missing(SESSION_HANDLE_NOT_FOUND)
        case Some(s) =>
          if !t.sactive[s] then Broken(InactiveSession)
          else if s in t.lists[c] then Found(c, s)
          else Missing(VERIFY_FAILED)
  }

  function CloseSessionNw(sv: Server, context: Handle, session: Handle): Outcome
    requires Inv(sv.table)
  {
    match FindObjects(sv.table, context, session)
    case Found(c, s) =>
      ListedIsCounted(sv.table, c, s);
      Reply(sv.(table := Detach(sv.table, c, s)), CloseSessionResp(SUCCESS))
    case Missing(err) => if err == VERIFY_FAILED then Fail(sv, err) else Reply(sv, CloseSessionResp(err))
    case Broken(why) => Halt(why)
  }

  function InvokeCommandNw(sv: Server, context: Handle, session: Handle, env: Env): Outcome
    requires Shape(sv.table)
  {
    match FindObjects(sv.table, context, session)
    case Found(_, _) =>
      Reply(sv, InvokeResp(if env.pullErr == SUCCESS then SUCCESS
                           else if env.pullErr == TIMEOUT then TAPP_TIMEOUT else TAPP_CALL))
    case Missing(err) => if err == VERIFY_FAILED then Fail(sv, err) else Reply(sv, InvokeResp(err))
    case Broken(why) => Halt(why)
  }

  function RegisterMemoryNw(sv: Server, context: Handle, size: uint32, flag: uint32, addr: uint32, env: Env): Outcome
    requires Shape(sv.table)
  {
    match Find(sv.table.chandles, context)
    case None => Fail(sv, CONTEXT_HANDLE_NOT_FOUND)
    case Some(c) =>
      if HANDLE_SIZE * c >= |sv.table.cactive| then Halt(OffsetBeyondTable)
      else if env.outOfMemory then Fail(sv, NO_MEMORY)
      else if env.allocErr != SUCCESS then Fail(sv, FAILED_SHARED_MEMORY_REQ)
      else
        var ptr := if flag != MEM_ALLOCATE then addr else 0;
        Reply(sv.(regions := sv.regions + [Region(env.regionId, flag, size, ptr)]),
              RegisterResp(ptr, env.regionId, SUCCESS))
  }

  /** The regions without the first one of the given id. */
  function WithoutRegion(rs: seq<Region>, id: Handle): seq<Region>
  {
    if rs == [] then [] else if rs[0].id == id then rs[1..] else [rs[0]] + WithoutRegion(rs[1..], id)
  }

  predicate HasRegion(rs: seq<Region>, id: Handle) { exists r :: r in rs && r.id == id }

  function UnregisterMemoryNw(sv: Server, context: Handle, id: Handle, env: Env): Outcome
    requires Shape(sv.table)
  {
    match Find(sv.table.chandles, context)
    case None => Fail(sv, CONTEXT_HANDLE_NOT_FOUND)
    case Some(c) =>
      if HANDLE_SIZE * c >= |sv.table.cactive| then Halt(OffsetBeyondTable)
      else if !HasRegion(sv.regions, id) then Fail(sv, NO_MEMORY)
      else
        var after := sv.(regions := WithoutRegion(sv.regions, id));
        if env.freeErr != SUCCESS then Fail(after, FAILED_SHARED_MEMORY_REQ)
        else Reply(after, UnregisterResp(SUCCESS))
  }

  /** check with the default time-outs: nothing expires, but every active context must have a session to look at. */
  function CheckNw(sv: Server): Outcome
    requires Shape(sv.table)
  {
    if exists c :: 0 <= c < |sv.table.cactive| && sv.table.cactive[c] && sv.table.lists[c] == []
    then Halt(NoSessionToCheck)
    else Reply(sv, CheckResp(SUCCESS))
  }

  /** The handler that a decoded request reaches. */
  function Serve(sv: Server, request: Body, env: Env): Outcome
    requires Inv(sv.table) && FormOf(request).request
  {
    match request
    case OpenContextReq(cid) => OpenContextNw(sv, cid, env)
    case CloseContextReq(context) => CloseContextNw(sv, context)
    case OpenSessionReq(context, taid) => OpenSessionNw(sv, context, taid, env)
    case CloseSessionReq(context, session) => CloseSessionNw(sv, context, session)
    case InvokeReq(context, session, _) => InvokeCommandNw(sv, context, session, env)
    case RegisterReq(context, size, flag, addr) => RegisterMemoryNw(sv, context, size, flag, addr, env)
    case UnregisterReq(context, id) => UnregisterMemoryNw(sv, context, id, env)
    case CheckReq => CheckNw(sv)
  }

  // ---------------------------------------------------------------- every request is one move of the table

  /** The move a request amounts to. */
  ghost function MoveOf(sv: Server, request: Body): Move
    requires Shape(sv.table)
  {
    var t := sv.table;
    match request
    case OpenContextReq(cid) =>
      if cid == sv.contextId && t.numContexts < |t.cactive| && FirstFree(t.cactive).Some?
      then Opened(FirstFree(t.cactive).value) else Stay
    case CloseContextReq(context) =>
      var at := Find(t.chandles, context);
      if at.Some? && t.cactive[at.value] && t.numContexts > 0 then Closed(at.value) else Stay
    case OpenSessionReq(context, taid) =>
      var at, free := Find(t.chandles, context), FirstFree(t.sactive);
      if at.Some? && t.cactive[at.value] && t.connected[at.value] < |t.sactive| && free.Some?
      then Attached(at.value, free.value, taid) else Stay
    case CloseSessionReq(context, session) =>
      var r := FindObjects(t, context, session);
      if r.Found? then Detached(r.c, r.s) else Stay
    case _ => Stay
  }

  /** What every handler guarantees unless the process ends: one legal move of the table, an unchanged identity,
      and an answer to the command that was asked. */
  ghost predicate Moves(sv: Server, k: Kind, o: Outcome, m: Move)
    requires Inv(sv.table)
  {
    && Legal(sv.table, m)
    && (!o.Halt? ==> o.server == sv.(table := Apply(sv.table, m), regions := o.server.regions))
    && (o.Reply? ==> FormOf(o.body) == Form(k, false))
  }

  lemma OpenContextMoves(sv: Server, cid: uint32, env: Env)
    requires Inv(sv.table)
    ensures Moves(sv, OpenContext, OpenContextNw(sv, cid, env), MoveOf(sv, OpenContextReq(cid)))
  {
  }

  lemma CloseContextMoves(sv: Server, context: Handle)
    requires Inv(sv.table)
    ensures Moves(sv, CloseContext, CloseContextNw(sv, context), MoveOf(sv, CloseContextReq(context)))
  {
  }

  lemma OpenSessionMoves(sv: Server, context: Handle, taid: Handle, env: Env)
    requires Inv(sv.table)
    ensures Moves(sv, OpenSession, OpenSessionNw(sv, context, taid, env), MoveOf(sv, OpenSessionReq(context, taid)))
  {
  }

  lemma CloseSessionMoves(sv: Server, context: Handle, session: Handle)
    requires Inv(sv.table)
    ensures Moves(sv, CloseSession, CloseSessionNw(sv, context, session), MoveOf(sv, CloseSessionReq(context, session)))
  {
  }

  lemma InvokeCommandMoves(sv: Server, context: Handle, session: Handle, env: Env)
    requires Inv(sv.table)
    ensures Moves(sv, InvokeCommand, InvokeCommandNw(sv, context, session, env), Stay)
  {
  }

  lemma RegisterMemoryMoves(sv: Server, context: Handle, size: uint32, flag: uint32, addr: uint32, env: Env)
    requires Inv(sv.table)
    ensures Moves(sv, RegisterMemory, RegisterMemoryNw(sv, context, size, flag, addr, env), Stay)
  {
  }

  lemma UnregisterMemoryMoves(sv: Server, context: Handle, id: Handle, env: Env)
    requires Inv(sv.table)
    ensures Moves(sv, UnregisterMemory, UnregisterMemoryNw(sv, context, id, env), Stay)
  {
  }

  /** Every request that gets an answer, and every one that is refused, is one legal move: also the opens whose
      TApp fails to load or to start, which stay in the table. */
  lemma ServeMoves(sv: Server, request: Body, env: Env)
    requires Inv(sv.table) && FormOf(request).request
    ensures Moves(sv, FormOf(request).kind, Serve(sv, request, env), MoveOf(sv, request))
  {
    match request
    case OpenContextReq(cid) => OpenContextMoves(sv, cid, env);
    case CloseContextReq(context) => CloseContextMoves(sv, context);
    case OpenSessionReq(context, taid) => OpenSessionMoves(sv, context, taid, env);
    case CloseSessionReq(context, session) => CloseSessionMoves(sv, context, session);
    case InvokeReq(context, session, _) => InvokeCommandMoves(sv, context, session, env);
    case RegisterReq(context, size, flag, addr) => RegisterMemoryMoves(sv, context, size, flag, addr, env);
    case UnregisterReq(context, id) => UnregisterMemoryMoves(sv, context, id, env);
    case CheckReq =>
  }

  lemma ServeKeepsInv(sv: Server, request: Body, env: Env)
    requires Inv(sv.table) && FormOf(request).request
    ensures !Serve(sv, request, env).Halt? ==> Inv(Serve(sv, request, env).server.table)
  {
    ServeMoves(sv, request, env);
    MoveKeepsInv(sv.table, MoveOf(sv, request));
  }
}
