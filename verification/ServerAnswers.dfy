/** What each request is answered, and when: statuses, handles and tables, said of the table before the request. */
module ServerAnswers {
  import opened Bytes
  import opened Status
  import opened Rc4
  import opened HandlePlugin
  import opened Counting
  import opened Wire
  import opened ServerModel
  import opened ServerRequests
  import opened ServerRuns

  // ---------------------------------------------------------------- slots

  /** Slot `i` is the first that holds the handle. */
  ghost predicate FirstAt(handles: seq<Handle>, h: Handle, i: nat)
  {
    i < |handles| && handles[i] == h && forall j :: 0 <= j < i ==> handles[j] != h
  }

  lemma FindIsFirst(handles: seq<Handle>, h: Handle, i: nat)
    ensures Find(handles, h) == Some(i) <==> FirstAt(handles, h, i)
    ensures Find(handles, h) == None <==> h !in handles
  {
    if FirstAt(handles, h, i) { assert handles[i] in handles; }
  }

  /** Slot `i` is the first that is not in use. */
  ghost predicate FirstUnused(used: seq<bool>, i: nat)
  {
    i < |used| && !used[i] && forall j :: 0 <= j < i ==> used[j]
  }

  lemma FreeIsFirst(used: seq<bool>, i: nat)
    ensures FirstFree(used) == Some(i) <==> FirstUnused(used, i)
    ensures FirstFree(used) == None <==> AllActive(used)
  {
  }

  /** The handle's first slot is an active context. */
  ghost predicate NamesContext(t: Table, h: Handle, c: nat)
    requires Shape(t)
  {
    FirstAt(t.chandles, h, c) && t.cactive[c]
  }

  ghost predicate NamesSession(t: Table, h: Handle, s: nat)
    requires Shape(t)
  {
    FirstAt(t.shandles, h, s) && t.sactive[s]
  }

  /** Nothing about sessions differs. */
  ghost predicate SameSessions(t: Table, u: Table)
  {
    && u.sactive == t.sactive && u.taids == t.taids && u.shandles == t.shandles && u.numSessions == t.numSessions
    && u.lists == t.lists && u.connected == t.connected
  }

  /** Nothing about contexts differs but their sessions. */
  ghost predicate SameContexts(t: Table, u: Table)
  {
    u.cactive == t.cactive && u.chandles == t.chandles && u.numContexts == t.numContexts
  }

  // ---------------------------------------------------------------- open_context, close_context

  lemma OpenContextAnswers(sv: Server, cid: uint32, env: Env)
    requires Inv(sv.table)
    ensures var t, o := sv.table, Serve(sv, OpenContextReq(cid), env);
            && (o.Halt? || (o.Reply? && o.body.OpenContextResp?))
            && (o.Reply? ==>
                  && (o.body.status == SUCCESS <==> cid == sv.contextId && t.numContexts < |t.cactive|)
                  && (o.body.status == OPEN_CONTEXT <==> cid == sv.contextId && t.numContexts >= |t.cactive|)
                  && (o.body.status == BAD_CONTEXT_ID <==> cid != sv.contextId)
                  && (o.body.status != SUCCESS ==> o.server == sv))
  {
  }

  /** What an open_context that is granted changes: one context slot, which holds the handle that is returned. */
  lemma OpenContextTakes(sv: Server, env: Env, c: nat)
    requires Inv(sv.table) && FirstUnused(sv.table.cactive, c) && sv.table.numContexts < |sv.table.cactive|
    ensures var t, o := sv.table, Serve(sv, OpenContextReq(sv.contextId), env);
            && o.Reply? && o.server == sv.(table := o.server.table)
            && var u := o.server.table;
               && u.cactive == t.cactive[c := true] && u.numContexts == t.numContexts + 1 && SameSessions(t, u)
               && u.chandles == t.chandles[c := XorSeq(t.chandles[c], Keystream(t.gen, HANDLE_SIZE))]
               && o.body == OpenContextResp(u.chandles[c], SUCCESS)
  {
    FreeIsFirst(sv.table.cactive, c);
  }

  lemma CloseContextAnswers(sv: Server, h: Handle, env: Env)
    requires Inv(sv.table)
    ensures var t, o := sv.table, Serve(sv, CloseContextReq(h), env);
            && (o.Halt? || (o.Reply? && o.body.CloseContextResp?))
            && (o.Reply? && o.body.status == SUCCESS <==> t.numContexts > 0 && exists c: nat :: NamesContext(t, h, c))
            && (o.Reply? && o.body.status == CONTEXT_HANDLE_NOT_FOUND <==> h !in t.chandles)
            && (o.Reply? && o.body.status != SUCCESS ==> o == Reply(sv, CloseContextResp(CONTEXT_HANDLE_NOT_FOUND)))
  {
    var at := Find(sv.table.chandles, h);
    if at.Some? {
      FindIsFirst(sv.table.chandles, h, at.value);
      assert sv.table.cactive[at.value] ==> NamesContext(sv.table, h, at.value);
    }
    forall c: nat | NamesContext(sv.table, h, c) ensures at == Some(c) { FindIsFirst(sv.table.chandles, h, c); }
  }

  /** What a close_context that is granted changes: the count, and the flag of the context if it has no sessions. */
  lemma CloseContextFrees(sv: Server, h: Handle, env: Env, c: nat)
    requires Inv(sv.table) && NamesContext(sv.table, h, c) && sv.table.numContexts > 0
    ensures var t, o := sv.table, Serve(sv, CloseContextReq(h), env);
            && o.Reply? && o.server == sv.(table := o.server.table)
            && var u := o.server.table;
               && u.cactive == (if t.lists[c] == [] then t.cactive[c := false] else t.cactive)
               && u.numContexts == t.numContexts - 1 && u.chandles == t.chandles && SameSessions(t, u)
  {
    FindIsFirst(sv.table.chandles, h, c);
  }

  // ---------------------------------------------------------------- open_session

  /** The context a session can be opened in. */
  ghost predicate HasRoom(t: Table, h: Handle, c: nat)
    requires Shape(t)
  {
    NamesContext(t, h, c) && t.connected[c] < |t.sactive|
  }

  lemma RoomAt(t: Table, h: Handle, c: nat)
    requires Shape(t) && HasRoom(t, h, c)
    ensures Find(t.chandles, h) == Some(c) && t.cactive[c]
  {
    FindIsFirst(t.chandles, h, c);
  }

  /** When open_session is granted: the handle names an active context with room, a slot is free, and the TApp loads
      and starts. */
  lemma OpenSessionSucceedsWhen(sv: Server, h: Handle, taid: Handle, env: Env)
    requires Inv(sv.table)
    ensures var t, o := sv.table, Serve(sv, OpenSessionReq(h, taid), env);
            && (o.Halt? || (o.Reply? && o.body.OpenSessionResp?))
            && (o.Reply? && o.body.status == SUCCESS <==>
                  && (exists c: nat :: HasRoom(t, h, c)) && !AllActive(t.sactive)
                  && env.loadErr == SUCCESS && env.initErr == SUCCESS)
            && (o.Reply? && o.body.status == CONTEXT_HANDLE_NOT_FOUND <==> h !in t.chandles)
            && (o.Reply? && o.body.status == OPEN_SESSION <==>
                  exists c: nat :: NamesContext(t, h, c) && t.connected[c] >= |t.sactive|)
            && (h !in t.chandles ==> o.Reply? && o.server == sv)
            && (o.Reply? && o.body.status == OPEN_SESSION ==> o.server == sv)
  {
    var t := sv.table;
    var at := Find(t.chandles, h);
    if at.Some? {
      FindIsFirst(t.chandles, h, at.value);
      assert t.cactive[at.value] ==> NamesContext(t, h, at.value);
      assert t.cactive[at.value] && t.connected[at.value] < |t.sactive| ==> HasRoom(t, h, at.value);
    }
    forall c: nat | NamesContext(t, h, c) ensures at == Some(c) { FindIsFirst(t.chandles, h, c); }
    FreeIsFirst(t.sactive, 0);
  }

  /** With both slots found, the answer is the TApp's: a failed load, a start that timed out, one that failed
      otherwise, or success with the handle of the slot. The session stays in the table in every case. */
  lemma OpenSessionVerdict(sv: Server, h: Handle, taid: Handle, env: Env, c: nat, s: nat)
    requires Inv(sv.table) && HasRoom(sv.table, h, c) && FirstUnused(sv.table.sactive, s)
    ensures var t, o := sv.table, Serve(sv, OpenSessionReq(h, taid), env);
            && o.Reply? && o.body.OpenSessionResp? && o.server == sv.(table := o.server.table)
            && (o.body.status == TAPP_LOAD <==> env.loadErr != SUCCESS)
            && (o.body.status == TAPP_TIMEOUT <==> env.loadErr == SUCCESS && env.initErr == TIMEOUT)
            && (o.body.status == TAPP_CALL <==>
                  env.loadErr == SUCCESS && env.initErr != SUCCESS && env.initErr != TIMEOUT)
            && (o.body.status == SUCCESS <==> env.loadErr == SUCCESS && env.initErr == SUCCESS)
            && Joined(t, o.server.table, c, s, taid)
            && (o.body.status == SUCCESS ==> o.body.handle == o.server.table.shandles[s])
  {
    RoomAt(sv.table, h, c);
    FreeIsFirst(sv.table.sactive, s);
  }

  /** Session slot `s` has joined context `c`: it carries the TApp's id and a fresh draw over its old handle; no other
      slot differs. */
  ghost predicate Joined(t: Table, u: Table, c: nat, s: nat, taid: Handle)
    requires Shape(t) && c < |t.lists| && s < |t.sactive|
  {
    && |u.sactive| == |t.sactive| == |u.taids| == |u.shandles| && |u.lists| == |t.lists| && SameContexts(t, u)
    && u.sactive[s] && u.taids[s] == taid && u.shandles[s] == XorSeq(t.shandles[s], Keystream(t.gen, HANDLE_SIZE))
    && u.lists[c] == t.lists[c] + [s] && u.numSessions == t.numSessions + 1
    && (forall x :: 0 <= x < |t.sactive| && x != s ==>
          u.sactive[x] == t.sactive[x] && u.taids[x] == t.taids[x] && u.shandles[x] == t.shandles[x])
    && (forall d :: 0 <= d < |t.lists| && d != c ==> u.lists[d] == t.lists[d])
  }

  // ---------------------------------------------------------------- close_session, invoke_command

  /** The two handles name an active context and a session in its list. */
  ghost predicate NamesBoth(t: Table, hc: Handle, hs: Handle, c: nat, s: nat)
    requires Shape(t)
  {
    NamesContext(t, hc, c) && NamesSession(t, hs, s) && s in t.lists[c]
  }

  /** What find_objects says, by the handles. */
  lemma LookupAnswers(t: Table, hc: Handle, hs: Handle, c: nat, s: nat)
    requires Shape(t)
    ensures var r := FindObjects(t, hc, hs);
            && (r == Found(c, s) <==> NamesBoth(t, hc, hs, c, s))
            && (r == Missing(CONTEXT_HANDLE_NOT_FOUND) <==> hc !in t.chandles)
            && (r == Missing(SESSION_HANDLE_NOT_FOUND) <==>
                  hs !in t.shandles && exists d: nat :: NamesContext(t, hc, d))
            && (r == Missing(VERIFY_FAILED) <==>
                  exists d: nat, x: nat :: NamesContext(t, hc, d) && NamesSession(t, hs, x) && x !in t.lists[d])
            && (r.Missing? ==> r.err == CONTEXT_HANDLE_NOT_FOUND || r.err == SESSION_HANDLE_NOT_FOUND
                               || r.err == VERIFY_FAILED)
  {
    var a, b := Find(t.chandles, hc), Find(t.shandles, hs);
    FindIsFirst(t.chandles, hc, c);
    FindIsFirst(t.shandles, hs, s);
    if a.Some? {
      FindIsFirst(t.chandles, hc, a.value);
      assert t.cactive[a.value] ==> NamesContext(t, hc, a.value);
    }
    if b.Some? {
      FindIsFirst(t.shandles, hs, b.value);
      assert t.sactive[b.value] ==> NamesSession(t, hs, b.value);
    }
    forall d: nat | NamesContext(t, hc, d) ensures a == Some(d) { FindIsFirst(t.chandles, hc, d); }
    forall x: nat | NamesSession(t, hs, x) ensures b == Some(x) { FindIsFirst(t.shandles, hs, x); }
  }

  /** close_session and invoke_command on handles that do not go together. */
  lemma StrayHandles(sv: Server, hc: Handle, hs: Handle, cmd: uint32, env: Env)
    requires Inv(sv.table)
    ensures var t := sv.table;
            var close, invoke := Serve(sv, CloseSessionReq(hc, hs), env), Serve(sv, InvokeReq(hc, hs, cmd), env);
            && (hc !in t.chandles ==>
                  && close == Reply(sv, CloseSessionResp(CONTEXT_HANDLE_NOT_FOUND))
                  && invoke == Reply(sv, InvokeResp(CONTEXT_HANDLE_NOT_FOUND)))
            && (hs !in t.shandles && (exists d: nat :: NamesContext(t, hc, d)) ==>
                  && close == Reply(sv, CloseSessionResp(SESSION_HANDLE_NOT_FOUND))
                  && invoke == Reply(sv, InvokeResp(SESSION_HANDLE_NOT_FOUND)))
            && ((exists d: nat, x: nat :: NamesContext(t, hc, d) && NamesSession(t, hs, x) && x !in t.lists[d]) ==>
                  close == Fail(sv, VERIFY_FAILED) && invoke == Fail(sv, VERIFY_FAILED))
  {
    LookupAnswers(sv.table, hc, hs, 0, 0);
  }

  /** ... and on handles that do: the session leaves its context, or the TApp is asked. */
  lemma CloseSessionAnswers(sv: Server, hc: Handle, hs: Handle, env: Env, c: nat, s: nat)
    requires Inv(sv.table) && NamesBoth(sv.table, hc, hs, c, s)
    ensures var t, o := sv.table, Serve(sv, CloseSessionReq(hc, hs), env);
            && o == Reply(o.server, CloseSessionResp(SUCCESS)) && o.server == sv.(table := o.server.table)
            && Left(t, o.server.table, c, s)
  {
    LookupAnswers(sv.table, hc, hs, c, s);
    ListedIsCounted(sv.table, c, s);
  }

  /** Session slot `s` has left context `c`: its TApp id is cleared, its handle bytes stay; no other slot differs. */
  ghost predicate Left(t: Table, u: Table, c: nat, s: nat)
    requires Shape(t) && c < |t.lists| && s < |t.sactive|
  {
    && |u.sactive| == |t.sactive| == |u.taids| && |u.lists| == |t.lists| && SameContexts(t, u)
    && !u.sactive[s] && u.taids[s] == ZeroHandle() && u.shandles == t.shandles && u.numSessions == t.numSessions - 1
    && (forall x :: 0 <= x < |t.sactive| && x != s ==> u.sactive[x] == t.sactive[x] && u.taids[x] == t.taids[x])
    && (forall d :: 0 <= d < |t.lists| && d != c ==> u.lists[d] == t.lists[d])
    && u.lists[c] == Without(t.lists[c], s)
  }

  lemma InvokeAnswers(sv: Server, hc: Handle, hs: Handle, cmd: uint32, env: Env, c: nat, s: nat)
    requires Inv(sv.table) && NamesBoth(sv.table, hc, hs, c, s)
    ensures var o := Serve(sv, InvokeReq(hc, hs, cmd), env);
            && o.Reply? && o.server == sv && o.body.InvokeResp?
            && (o.body.status == SUCCESS <==> env.pullErr == SUCCESS)
            && (o.body.status == TAPP_TIMEOUT <==> env.pullErr == TIMEOUT)
            && (o.body.status == TAPP_CALL <==> env.pullErr != SUCCESS && env.pullErr != TIMEOUT)
  {
    LookupAnswers(sv.table, hc, hs, c, s);
  }

  /** When the two are granted. */
  lemma SessionRequestsSucceedWhen(sv: Server, hc: Handle, hs: Handle, cmd: uint32, env: Env)
    requires Inv(sv.table)
    ensures var t := sv.table;
            var close, invoke := Serve(sv, CloseSessionReq(hc, hs), env), Serve(sv, InvokeReq(hc, hs, cmd), env);
            && (close.Reply? && close.body == CloseSessionResp(SUCCESS) <==>
                  exists c: nat, s: nat :: NamesBoth(t, hc, hs, c, s))
            && (invoke.Reply? && invoke.body == InvokeResp(SUCCESS) <==>
                  env.pullErr == SUCCESS && exists c: nat, s: nat :: NamesBoth(t, hc, hs, c, s))
  {
    var r := FindObjects(sv.table, hc, hs);
    LookupAnswers(sv.table, hc, hs, if r.Found? then r.c else 0, if r.Found? then r.s else 0);
    forall c: nat, s: nat | NamesBoth(sv.table, hc, hs, c, s) ensures r == Found(c, s) {
      LookupAnswers(sv.table, hc, hs, c, s);
    }
    hide NamesBoth, FindObjects;
  }

  // ---------------------------------------------------------------- memory

  /** The context handle that the memory requests accept: its slot need not be active, but its byte offset must lie
      within the table that it is used to index. */
  ghost predicate StampsInside(t: Table, h: Handle, c: nat)
    requires Shape(t)
  {
    FirstAt(t.chandles, h, c) && HANDLE_SIZE * c < |t.cactive|
  }

  /** register_memory by its outcome; an answer means one more region, with the request's size and flag, and the
      address and id that are answered. */
  lemma RegisterAnswers(sv: Server, h: Handle, size: uint32, flag: uint32, addr: uint32, env: Env)
    requires Inv(sv.table)
    ensures var t, o := sv.table, Serve(sv, RegisterReq(h, size, flag, addr), env);
            && (o.Reply? <==> (exists c: nat :: StampsInside(t, h, c)) && !env.outOfMemory && env.allocErr == SUCCESS)
            && (o.Reply? ==>
                  && o.body == RegisterResp(if flag == 3 then 0 else addr, env.regionId, SUCCESS)
                  && o.server == sv.(regions := sv.regions + [Region(o.body.memoryId, flag, size, o.body.addr)]))
            && (o.Fail? ==> o.server == sv)
            && (o == Fail(sv, CONTEXT_HANDLE_NOT_FOUND) <==> h !in t.chandles)
            && (o == Fail(sv, NO_MEMORY) <==> (exists c: nat :: StampsInside(t, h, c)) && env.outOfMemory)
            && (o == Fail(sv, FAILED_SHARED_MEMORY_REQ) <==>
                  (exists c: nat :: StampsInside(t, h, c)) && !env.outOfMemory && env.allocErr != SUCCESS)
  {
    StampFound(sv.table, h);
  }

  lemma StampFound(t: Table, h: Handle)
    requires Shape(t)
    ensures var at := Find(t.chandles, h);
            && (at.None? <==> h !in t.chandles)
            && ((exists c: nat :: StampsInside(t, h, c)) <==> at.Some? && HANDLE_SIZE * at.value < |t.cactive|)
  {
    var at := Find(t.chandles, h);
    if at.Some? {
      FindIsFirst(t.chandles, h, at.value);
      assert HANDLE_SIZE * at.value < |t.cactive| ==> StampsInside(t, h, at.value);
    }
    forall c: nat | StampsInside(t, h, c) ensures at == Some(c) { FindIsFirst(t.chandles, h, c); }
  }

  /** unregister_memory by its outcome; the first region with the id goes, also when the driver cannot free it. */
  lemma UnregisterAnswers(sv: Server, h: Handle, id: Handle, env: Env)
    requires Inv(sv.table)
    ensures var t, o := sv.table, Serve(sv, UnregisterReq(h, id), env);
            && (o.Reply? <==>
                  (exists c: nat :: StampsInside(t, h, c)) && HasRegion(sv.regions, id) && env.freeErr == SUCCESS)
            && (o.Reply? ==> o == Reply(sv.(regions := WithoutRegion(sv.regions, id)), UnregisterResp(SUCCESS)))
            && (o == Fail(sv, CONTEXT_HANDLE_NOT_FOUND) <==> h !in t.chandles)
            && (o == Fail(sv, NO_MEMORY) <==> (exists c: nat :: StampsInside(t, h, c)) && !HasRegion(sv.regions, id))
            && ((exists c: nat :: StampsInside(t, h, c)) && HasRegion(sv.regions, id) && env.freeErr != SUCCESS ==>
                  o == Fail(sv.(regions := WithoutRegion(sv.regions, id)), FAILED_SHARED_MEMORY_REQ))
  {
    StampFound(sv.table, h);
  }

  /** Whatever was registered can be unregistered under the id that was answered, through the same handle; if the id
      was new, that leaves the regions there were before. */
  lemma RegisteredCanGo(sv: Server, h: Handle, size: uint32, flag: uint32, addr: uint32, env: Env, later: Env)
    requires Inv(sv.table) && Serve(sv, RegisterReq(h, size, flag, addr), env).Reply?
    ensures var o := Serve(sv, RegisterReq(h, size, flag, addr), env);
            && Inv(o.server.table) && o.body.RegisterResp?
            && var p := Serve(o.server, UnregisterReq(h, o.body.memoryId), later);
               if later.freeErr == SUCCESS then p.Reply? && p.body == UnregisterResp(SUCCESS)
               else p.Fail? && p.err == FAILED_SHARED_MEMORY_REQ
    ensures var o := Serve(sv, RegisterReq(h, size, flag, addr), env);
            var p := Serve(o.server, UnregisterReq(h, o.body.memoryId), later);
            !HasRegion(sv.regions, o.body.memoryId) ==> p.server == sv
  {
    RegisterAnswers(sv, h, size, flag, addr, env);
    var o := Serve(sv, RegisterReq(h, size, flag, addr), env);
    var r := Region(o.body.memoryId, flag, size, o.body.addr);
    UnregisterAnswers(o.server, h, o.body.memoryId, later);
    hide Serve;
    assert r in o.server.regions && r.id == o.body.memoryId;
    if !HasRegion(sv.regions, r.id) { WithoutLast(sv.regions, r); }
  }

  lemma {:induction false} WithoutLast(rs: seq<Region>, r: Region)
    requires !HasRegion(rs, r.id)
    ensures WithoutRegion(rs + [r], r.id) == rs
  {
    if rs != [] {
      assert rs[0] in rs;
      assert (rs + [r])[1..] == rs[1..] + [r];
      WithoutLast(rs[1..], r);
    }
  }

  /** Only the two memory requests touch the regions, and they touch nothing else. */
  lemma WhoTouchesRegions(sv: Server, request: Body, env: Env)
    requires Inv(sv.table) && FormOf(request).request
    ensures var o := Serve(sv, request, env);
            !o.Halt? ==>
              if request.RegisterReq? || request.UnregisterReq? then o.server.table == sv.table
              else o.server.regions == sv.regions
  {
  }

  // ---------------------------------------------------------------- check

  lemma CheckAnswers(sv: Server, env: Env)
    requires Inv(sv.table)
    ensures var t, o := sv.table, Serve(sv, CheckReq, env);
            && (o == Reply(sv, CheckResp(SUCCESS)) <==>
                  forall c :: 0 <= c < |t.cactive| && t.cactive[c] ==> t.connected[c] > 0)
            && (o == Halt(NoSessionToCheck) <==>
                  exists c :: 0 <= c < |t.cactive| && t.cactive[c] && t.connected[c] == 0)
  {
    var t := sv.table;
    forall c | 0 <= c < |t.cactive| ensures t.connected[c] == 0 <==> t.lists[c] == [] {}
  }

  // ---------------------------------------------------------------- process, by command number

  /** The error of each refused command, and the length of each request, by the command's number. */
  const ERRORS: seq<int> := [OPEN_CONTEXT, CLOSE_CONTEXT, OPEN_SESSION, CLOSE_SESSION, INV_CMD, REGMEM_CMD,
                             UNREGMEM_CMD, CHECK_CMD]
  const LENGTHS: seq<nat> := [16, 28, 44, 44, 48, 40, 44, 12]

  /** The request that a command number asks for. */
  predicate IsCommand(cmd: uint32, b: Body)
  {
    match cmd
    case 0 => b.OpenContextReq?
    case 1 => b.CloseContextReq?
    case 2 => b.OpenSessionReq?
    case 3 => b.CloseSessionReq?
    case 4 => b.InvokeReq?
    case 5 => b.RegisterReq?
    case 6 => b.UnregisterReq?
    case 7 => b.CheckReq?
    case _ => false
  }

  /** What stands before a handler, in order: a whole header, the right context, the right machine, a known command,
      and the length it needs. */
  lemma TurnedAwayWhen(sv: Server, received: seq<byte>)
    ensures var a := Accept(sv, received);
            if |received| < 12 then a == Rejected(INVALID_PARAM)
            else
              && DecodeHeader(received).Some?
              && var hdr := DecodeHeader(received).value;
                 if hdr.contextId != sv.contextId then a == Rejected(BAD_CONTEXT_ID)
                 else if hdr.smId != sv.smId then a == Rejected(BAD_SM_ID)
                 else if hdr.cmd > 7 then a == Rejected(INVALID_CMD)
                 else if |received| < LENGTHS[hdr.cmd] then a == Rejected(ERRORS[hdr.cmd])
                 else a.Request? && a.m.hdr == hdr && IsCommand(hdr.cmd, a.m.body)
  {
    if |received| >= 12 { HeaderWords(received); }
    var a := Accept(sv, received);
    if a.Request? { AcceptedHeader(sv, received); }
    hide DecodeMessage, DecodeHeader;
  }

  /** Behind those checks the handler decides: its new state is kept whatever becomes of the reply, and a refusal
      carries the error of the command. */
  lemma ProcessOutcome(sv: Server, received: seq<byte>, room: nat, env: Env)
    requires Inv(sv.table) && Accept(sv, received).Request?
    ensures var m, p := Accept(sv, received).m, Process(sv, received, room, env);
            m.hdr.cmd < 8 && FormOf(m.body).request
            && match Serve(sv, m.body, env)
               case Halt(why) => p == Stopped(why)
               case Fail(after, _) => p == Refused(after, ERRORS[m.hdr.cmd])
               case Reply(after, body) =>
                 var bytes := EncodeMessage(Message(m.hdr, body));
                 p == if |bytes| <= room then Sent(after, bytes) else Refused(after, ERRORS[m.hdr.cmd])
  {
    AcceptedHeader(sv, received);
    hide Serve, Accept, EncodeMessage;
  }
}
