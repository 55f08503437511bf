/** What holds over every run of the secure world: its counters, its assertions, its handles, its replies. */
module ServerRuns {
  import opened Bytes
  import opened Status
  import opened Rc4
  import opened HandlePlugin
  import opened Counting
  import opened Wire
  import opened ServerModel
  import opened ServerRequests

  // ---------------------------------------------------------------- when the assertions can fire

  ghost predicate AllActive(bs: seq<bool>) { forall i :: 0 <= i < |bs| ==> bs[i] }

  /** open_context ends the process exactly when every slot is taken and an earlier close was answered while
      sessions were open: only such a close makes the count fall below the number of active contexts. */
  lemma OpenContextHaltsWhen(sv: Server, cid: uint32, env: Env)
    requires Inv(sv.table)
    ensures OpenContextNw(sv, cid, env).Halt? <==>
            cid == sv.contextId && AllActive(sv.table.cactive) && sv.table.stale > 0
  {
    CountBound(sv.table.cactive);
  }

  /** close_context ends the process exactly when the handle names an inactive slot or the stale closes have used
      up the count. */
  lemma CloseContextHaltsWhen(sv: Server, context: Handle)
    requires Inv(sv.table)
    ensures CloseContextNw(sv, context).Halt? <==>
            var at := Find(sv.table.chandles, context);
            at.Some? && (!sv.table.cactive[at.value] || sv.table.stale == Count(sv.table.cactive))
  {
  }

  /** open_session runs past the table exactly when no slot is free although the context's own count leaves room. */
  lemma OpenSessionHaltsWhen(sv: Server, context: Handle, taid: Handle, env: Env)
    requires Inv(sv.table)
    ensures OpenSessionNw(sv, context, taid, env).Halt? <==>
            var at := Find(sv.table.chandles, context);
            at.Some? && (!sv.table.cactive[at.value]
                         || (AllActive(sv.table.sactive) && sv.table.connected[at.value] < |sv.table.sactive|))
  {
    CountBound(sv.table.sactive);
  }

  /** The connection count is the number of active contexts exactly when no stale close has happened ... */
  lemma CountIsExact(t: Table)
    requires Inv(t)
    ensures t.numContexts == Count(t.cactive) <==> t.stale == 0
    ensures t.numContexts <= |t.cactive| && t.numSessions <= |t.sactive|
  {
    CountBound(t.cactive);
    CountBound(t.sactive);
  }

  ghost predicate ClosesWithSessions(sv: Server, request: Body)
    requires Shape(sv.table)
  {
    && request.CloseContextReq?
    && Find(sv.table.chandles, request.context).Some?
    && sv.table.lists[Find(sv.table.chandles, request.context).value] != []
  }

  /** ... and a stale close is the answered close of a context whose chain is not empty: nothing else. */
  lemma StaleGrowsWhen(sv: Server, request: Body, env: Env)
    requires Inv(sv.table) && FormOf(request).request
    ensures var o := Serve(sv, request, env);
            !o.Halt? ==> o.server.table.stale == sv.table.stale + if ClosesWithSessions(sv, request) then 1 else 0
  {
    ServeMoves(sv, request, env);
    var m := MoveOf(sv, request);
    if request.CloseContextReq? {
      var at := Find(sv.table.chandles, request.context);
      if at.Some? { assert sv.table.connected[at.value] == |sv.table.lists[at.value]|; }
    } else {
      assert !m.Closed?;
      StaleOnlyOnClose(sv.table, m);
    }
  }

  lemma StaleOnlyOnClose(t: Table, m: Move)
    requires Inv(t) && Legal(t, m) && !m.Closed?
    ensures Apply(t, m).stale == t.stale
  {
  }

  function Initial(contextId: uint32, smId: uint32, contexts: nat, sessions: nat, gen: Gen): Server
  {
    Server(contextId, smId, EmptyTable(contexts, sessions, gen), [])
  }

  lemma InitialInv(contextId: uint32, smId: uint32, contexts: nat, sessions: nat, gen: Gen)
    ensures Inv(Initial(contextId, smId, contexts, sessions, gen).table)
  {
    EmptyInv(contexts, sessions, gen);
  }

  // ---------------------------------------------------------------- handles

  /** The handle of an active slot occurs in no other slot. */
  ghost predicate UniqueHandles(t: Table)
    requires Shape(t)
  {
    && (forall c :: 0 <= c < |t.cactive| && t.cactive[c] ==> OnlyAt(t.chandles, c))
    && (forall s :: 0 <= s < |t.sactive| && t.sactive[s] ==> OnlyAt(t.shandles, s))
  }

  /** The assumption on the generator: the handle of a slot just opened differs from every other slot's. */
  ghost predicate FreshHandles(before: Table, after: Table)
    requires Shape(before) && Shape(after)
    requires |before.cactive| == |after.cactive| && |before.sactive| == |after.sactive|
  {
    && (forall c :: 0 <= c < |after.cactive| && after.cactive[c] && !before.cactive[c] ==> OnlyAt(after.chandles, c))
    && (forall s :: 0 <= s < |after.sactive| && after.sactive[s] && !before.sactive[s] ==> OnlyAt(after.shandles, s))
  }

  /** At most one handle changes in a step, and only that of a slot just opened. */
  ghost predicate OneDraw(before: seq<Handle>, after: seq<Handle>, wasActive: seq<bool>, isActive: seq<bool>)
    requires |before| == |after| == |wasActive| == |isActive|
  {
    forall i :: 0 <= i < |after| && after[i] != before[i] ==>
      !wasActive[i] && isActive[i] && after == before[i := after[i]]
  }

  lemma MoveDrawsOnce(t: Table, m: Move)
    requires Inv(t) && Legal(t, m)
    ensures Inv(Apply(t, m)) && |Apply(t, m).cactive| == |t.cactive| && |Apply(t, m).sactive| == |t.sactive|
    ensures OneDraw(t.chandles, Apply(t, m).chandles, t.cactive, Apply(t, m).cactive)
    ensures OneDraw(t.shandles, Apply(t, m).shandles, t.sactive, Apply(t, m).sactive)
  {
    MoveKeepsInv(t, m);
  }

  lemma OnlyAtAfterDraw(before: seq<Handle>, after: seq<Handle>, was: seq<bool>, is_: seq<bool>, i: nat)
    requires |before| == |after| == |was| == |is_| && i < |after|
    requires OneDraw(before, after, was, is_)
    requires forall j :: 0 <= j < |after| && was[j] ==> OnlyAt(before, j)
    requires forall j :: 0 <= j < |after| && is_[j] && !was[j] ==> OnlyAt(after, j)
    requires is_[i]
    ensures OnlyAt(after, i)
  {
    if was[i] {
      forall j | 0 <= j < |after| && j != i ensures after[j] != after[i] {
        if after[j] != before[j] {
          assert OnlyAt(after, j);
        }
      }
    }
  }

  /** With fresh handles, uniqueness lasts; so a handle held by an active slot finds exactly that slot. */
  lemma UniqueHandlesKept(t: Table, m: Move)
    requires Inv(t) && Legal(t, m) && UniqueHandles(t)
    requires Inv(Apply(t, m)) && |Apply(t, m).cactive| == |t.cactive| && |Apply(t, m).sactive| == |t.sactive|
    requires FreshHandles(t, Apply(t, m))
    ensures UniqueHandles(Apply(t, m))
  {
    var u := Apply(t, m);
    MoveDrawsOnce(t, m);
    forall c | 0 <= c < |u.cactive| && u.cactive[c] ensures OnlyAt(u.chandles, c) {
      OnlyAtAfterDraw(t.chandles, u.chandles, t.cactive, u.cactive, c);
    }
    forall s | 0 <= s < |u.sactive| && u.sactive[s] ensures OnlyAt(u.shandles, s) {
      OnlyAtAfterDraw(t.shandles, u.shandles, t.sactive, u.sactive, s);
    }
  }

  // ---------------------------------------------------------------- handle accounting

  /** The `k`-th 16-byte block of the keystream. */
  function Block(start: Gen, k: nat): Handle { Keystream(Advance(start, HANDLE_SIZE * k), HANDLE_SIZE) }

  /** Exclusive or of the blocks whose draw went to `slot`. */
  function Folded(start: Gen, draws: seq<SlotName>, slot: SlotName): Handle
  {
    if draws == [] then ZeroHandle()
    else
      var n := |draws| - 1;
      var before := Folded(start, draws[..n], slot);
      if draws[n] == slot then XorSeq(before, Block(start, n)) else before
  }

  /** Every handle slot is accounted for by the draws, and the generator stands 16 steps per draw from the start. */
  ghost predicate Accounted(t: Table, start: Gen)
  {
    && t.gen == Advance(start, HANDLE_SIZE * |t.draws|)
    && (forall c :: 0 <= c < |t.chandles| ==> t.chandles[c] == Folded(start, t.draws, ContextSlot(c)))
    && (forall s :: 0 <= s < |t.shandles| ==> t.shandles[s] == Folded(start, t.draws, SessionSlot(s)))
  }

  lemma DrawIsNextBlock(start: Gen, draws: seq<SlotName>, name: SlotName)
    ensures Drawn(Advance(start, HANDLE_SIZE * |draws|)) == Advance(start, HANDLE_SIZE * |draws + [name]|)
    ensures forall slot :: Folded(start, draws + [name], slot) ==
                           if name == slot then Draw(Advance(start, HANDLE_SIZE * |draws|), Folded(start, draws, slot))
                           else Folded(start, draws, slot)
  {
    AdvanceAdds(start, HANDLE_SIZE * |draws|, HANDLE_SIZE);
    assert (draws + [name])[..|draws|] == draws;
  }

  lemma ActivateAccounted(t: Table, c: nat, start: Gen)
    requires Shape(t) && c < |t.cactive| && Accounted(t, start)
    ensures Accounted(Activate(t, c), start)
  {
    hide Folded, Advance, Draw, Drawn;
    DrawIsNextBlock(start, t.draws, ContextSlot(c));
  }

  lemma AttachAccounted(t: Table, c: nat, s: nat, taid: Handle, start: Gen)
    requires Shape(t) && c < |t.lists| && s < |t.sactive| && Accounted(t, start)
    ensures Accounted(Attach(t, c, s, taid), start)
  {
    hide Folded, Advance, Draw, Drawn;
    DrawIsNextBlock(start, t.draws, SessionSlot(s));
  }

  lemma MoveAccounted(t: Table, m: Move, start: Gen)
    requires Inv(t) && Legal(t, m) && Accounted(t, start)
    ensures Accounted(Apply(t, m), start)
  {
    hide Folded, Advance, Draw, Drawn;
    match m
    case Opened(c) => ActivateAccounted(t, c, start);
    case Attached(c, s, taid) => AttachAccounted(t, c, s, taid, start);
    case _ =>
  }

  /** The blocks are consecutive pieces of one keystream: no byte is used twice. */
  lemma BlocksAreConsecutive(start: Gen, k: nat, n: nat)
    requires k < n
    ensures Keystream(start, HANDLE_SIZE * n)[HANDLE_SIZE * k..HANDLE_SIZE * k + HANDLE_SIZE] == Block(start, k)
  {
    PieceOfKeystream(start, HANDLE_SIZE * k, HANDLE_SIZE, HANDLE_SIZE * (n - k - 1));
  }

  lemma PieceOfKeystream(g: Gen, a: nat, b: nat, c: nat)
    ensures Keystream(g, a + b + c)[a..a + b] == Keystream(Advance(g, a), b)
  {
    hide Keystream, Advance;
    var p, q, r := Keystream(g, a), Keystream(Advance(g, a), b), Keystream(Advance(g, a + b), c);
    var pq := Keystream(g, a + b);
    assert pq == p + q by { KeystreamAdds(g, a, b); }
    assert Keystream(g, a + b + c) == pq + r by { KeystreamAdds(g, a + b, c); }
    MiddleOf(pq, p, q, r);
  }

  lemma MiddleOf(pq: seq<byte>, p: seq<byte>, q: seq<byte>, r: seq<byte>)
    requires pq == p + q
    ensures (pq + r)[|p|..|p| + |q|] == q
  {
  }

  // ---------------------------------------------------------------- from bytes to bytes

  function KindOf(cmd: uint32): Option<Kind>
  {
    match cmd
    case 0 => Some(OpenContext)
    case 1 => Some(CloseContext)
    case 2 => Some(OpenSession)
    case 3 => Some(CloseSession)
    case 4 => Some(InvokeCommand)
    case 5 => Some(RegisterMemory)
    case 6 => Some(UnregisterMemory)
    case 7 => Some(Check)
    case _ => None
  }

  /** What process makes of a handler's own error. */
  function ErrorOf(k: Kind): int
  {
    match k
    case OpenContext => OPEN_CONTEXT
    case CloseContext => CLOSE_CONTEXT
    case OpenSession => OPEN_SESSION
    case CloseSession => CLOSE_SESSION
    case InvokeCommand => INV_CMD
    case RegisterMemory => REGMEM_CMD
    case UnregisterMemory => UNREGMEM_CMD
    case Check => CHECK_CMD
    case System => INVALID_CMD
  }

  datatype Processed =
    | Sent(server: Server, bytes: seq<byte>)
    | Refused(server: Server, err: int)
    | Stopped(why: Reason)

  datatype Accepted = Rejected(err: int) | Request(m: Message)

  /** The checks that come before a handler: header, addressee, command, and the request's own length. */
  function Accept(sv: Server, received: seq<byte>): (r: Accepted)
    ensures r.Request? ==> FormOf(r.m.body).request && DecodeMessage(FormOf(r.m.body), received) == Some(r.m)
    ensures r.Request? ==>
            DecodeHeader(received).Some? && KindOf(DecodeHeader(received).value.cmd) == Some(FormOf(r.m.body).kind)
  {
    match DecodeHeader(received)
    case None => Rejected(INVALID_PARAM)
    case Some(hdr) =>
      if hdr.contextId != sv.contextId then Rejected(BAD_CONTEXT_ID)
      else if hdr.smId != sv.smId then Rejected(BAD_SM_ID)
      else
        match KindOf(hdr.cmd)
        case None => Rejected(INVALID_CMD)
        case Some(k) =>
          PackUnpack(Form(k, true), received);
          match DecodeMessage(Form(k, true), received)
          case None => Rejected(ErrorOf(k))
          case Some(m) => Request(m)
  }

  /** sk_swld_tapi_process on the received bytes, with `room` bytes for the reply. */
  function Process(sv: Server, received: seq<byte>, room: nat, env: Env): Processed
    requires Inv(sv.table)
  {
    match Accept(sv, received)
    case Rejected(err) => Refused(sv, err)
    case Request(m) =>
      var failure := ErrorOf(FormOf(m.body).kind);
      match Serve(sv, m.body, env)
      case Halt(why) => Stopped(why)
      case Fail(after, _) => Refused(after, failure)
      case Reply(after, body) =>
        var reply := EncodeMessage(Message(m.hdr, body));
        if |reply| > room then Refused(after, failure) else Sent(after, reply)
  }

  lemma AcceptedHeader(sv: Server, received: seq<byte>)
    requires Accept(sv, received).Request?
    ensures var m := Accept(sv, received).m;
            DecodeHeader(received) == Some(m.hdr) && KindOf(m.hdr.cmd) == Some(FormOf(m.body).kind)
  {
    var m := Accept(sv, received).m;
    PackUnpack(FormOf(m.body), received);
    PrefixHeader(m, received, WireBytes(FormOf(m.body)));
  }

  /** A reply fits its buffer, carries the request's header, and decodes as the answer to that very command: the
      client never sees the header of another command. */
  lemma ReplyMatchesRequest(sv: Server, received: seq<byte>, room: nat, env: Env)
    requires Inv(sv.table)
    ensures var p := Process(sv, received, room, env);
            p.Sent? ==>
              && |p.bytes| <= room
              && Accept(sv, received).Request?
              && DecodeHeader(p.bytes) == DecodeHeader(received) == Some(Accept(sv, received).m.hdr)
              && var answer := DecodeMessage(Form(FormOf(Accept(sv, received).m.body).kind, false), p.bytes);
                 answer.Some? && answer.value.hdr == Accept(sv, received).m.hdr
  {
    if Process(sv, received, room, env).Sent? {
      var m := Accept(sv, received).m;
      AcceptedHeader(sv, received);
      ServeMoves(sv, m.body, env);
      var reply := Message(m.hdr, Serve(sv, m.body, env).body);
      assert EncodeMessage(reply) + [] == EncodeMessage(reply);
      HeaderOfMessage(reply, []);
      UnpackPack(reply, []);
    }
  }

  lemma AcceptsWellFormed(sv: Server, m: Message)
    requires FormOf(m.body).request && m.hdr == Header(sv.contextId, sv.smId, Command(FormOf(m.body).kind))
    ensures Accept(sv, EncodeMessage(m)) == Request(m)
  {
    assert EncodeMessage(m) + [] == EncodeMessage(m);
    HeaderOfMessage(m, []);
    UnpackPack(m, []);
    assert KindOf(Command(FormOf(m.body).kind)) == Some(FormOf(m.body).kind);
  }

  // ---------------------------------------------------------------- runs

  /** The dispatch loop: it goes on as long as requests are answered. None once it has stopped. */
  function Run(sv: Server, requests: seq<(seq<byte>, Env)>, room: nat): Option<Server>
    requires Inv(sv.table)
    decreases |requests|
  {
    if requests == [] then Some(sv)
    else
      var p := Process(sv, requests[0].0, room, requests[0].1);
      ProcessKeeps(sv, requests[0].0, room, requests[0].1);
      if p.Sent? then Run(p.server, requests[1..], room) else None
  }

  /** Whether processing these bytes is a close answered while the context still has sessions. */
  ghost predicate StaleClose(sv: Server, received: seq<byte>)
    requires Inv(sv.table)
  {
    Accept(sv, received).Request? && ClosesWithSessions(sv, Accept(sv, received).m.body)
  }

  lemma ProcessKeeps(sv: Server, received: seq<byte>, room: nat, env: Env)
    requires Inv(sv.table)
    ensures var p := Process(sv, received, room, env);
            !p.Stopped? ==>
              && Inv(p.server.table)
              && p.server.table.stale == sv.table.stale + (if StaleClose(sv, received) then 1 else 0)
  {
    if Accept(sv, received).Request? {
      ServeKeepsInv(sv, Accept(sv, received).m.body, env);
      StaleGrowsWhen(sv, Accept(sv, received).m.body, env);
    }
  }

  lemma ProcessAccounts(sv: Server, received: seq<byte>, room: nat, env: Env, start: Gen)
    requires Inv(sv.table) && Accounted(sv.table, start)
    ensures var p := Process(sv, received, room, env); !p.Stopped? ==> Accounted(p.server.table, start)
  {
    if Accept(sv, received).Request? {
      var request := Accept(sv, received).m.body;
      ServeMoves(sv, request, env);
      MoveAccounted(sv.table, MoveOf(sv, request), start);
    }
  }

  /** How many closes of a run were answered while the context still had sessions. */
  ghost function StaleCloses(sv: Server, requests: seq<(seq<byte>, Env)>, room: nat): nat
    requires Inv(sv.table)
    decreases |requests|
  {
    if requests == [] then 0
    else
      var p := Process(sv, requests[0].0, room, requests[0].1);
      ProcessKeeps(sv, requests[0].0, room, requests[0].1);
      (if StaleClose(sv, requests[0].0) then 1 else 0) +
      if p.Sent? then StaleCloses(p.server, requests[1..], room) else 0
  }

  lemma {:induction false} RunKeeps(sv: Server, requests: seq<(seq<byte>, Env)>, room: nat, start: Gen)
    requires Inv(sv.table) && Accounted(sv.table, start)
    ensures Run(sv, requests, room).Some? ==>
              var after := Run(sv, requests, room).value.table;
              && Inv(after) && Accounted(after, start)
              && after.stale == sv.table.stale + StaleCloses(sv, requests, room)
    decreases |requests|
  {
    if requests != [] {
      var p := Process(sv, requests[0].0, room, requests[0].1);
      ProcessKeeps(sv, requests[0].0, room, requests[0].1);
      ProcessAccounts(sv, requests[0].0, room, requests[0].1, start);
      if p.Sent? { RunKeeps(p.server, requests[1..], room, start); }
    }
  }

  /** In every state that a freshly initialised server reaches, whatever bytes it is sent: the session counters
      equal what they count, the chains are disjoint and hold exactly the active sessions, the connection count
      falls short of the active contexts by exactly the number of stale closes, and every handle slot holds
      exactly the keystream blocks drawn for it. */
  lemma EveryReachableState(contextId: uint32, smId: uint32, contexts: nat, sessions: nat, gen: Gen,
                            requests: seq<(seq<byte>, Env)>, room: nat)
    ensures var init := Initial(contextId, smId, contexts, sessions, gen);
            Inv(init.table)
            && (Run(init, requests, room).Some? ==>
                  var t := Run(init, requests, room).value.table;
                  && Inv(t) && t.numSessions == Count(t.sactive) && t.numSessions == Sum(t.connected)
                  && t.numContexts + StaleCloses(init, requests, room) == Count(t.cactive)
                  && Chains(t.lists, t.sactive)
                  && Accounted(t, gen))
  {
    InitialInv(contextId, smId, contexts, sessions, gen);
    RunKeeps(Initial(contextId, smId, contexts, sessions, gen), requests, room, gen);
  }

  /** As long as no close is answered while its context still has sessions, the connection count is exact, and the
      two assertions that rely on it cannot fire: neither the one behind open_context's scan nor close_context's. */
  lemma CleanRunsNeverHaltThere(contextId: uint32, smId: uint32, contexts: nat, sessions: nat, gen: Gen,
                                requests: seq<(seq<byte>, Env)>, room: nat, cid: uint32, context: Handle, env: Env)
    ensures var init := Initial(contextId, smId, contexts, sessions, gen);
            Inv(init.table)
            && (Run(init, requests, room).Some? && StaleCloses(init, requests, room) == 0 ==>
                  var sv := Run(init, requests, room).value;
                  && Inv(sv.table) && sv.table.numContexts == Count(sv.table.cactive)
                  && !OpenContextNw(sv, cid, env).Halt?
                  && CloseContextNw(sv, context) != Halt(CountExhausted))
  {
    var init := Initial(contextId, smId, contexts, sessions, gen);
    EveryReachableState(contextId, smId, contexts, sessions, gen, requests, room);
    if Run(init, requests, room).Some? && StaleCloses(init, requests, room) == 0 {
      var sv := Run(init, requests, room).value;
      hide Run, StaleCloses, Accounted;
      OpenContextHaltsWhen(sv, cid, env);
      CountBound(sv.table.cactive);
    }
  }

  // ---------------------------------------------------------------- requests that end the process

  lemma OpensContext(cid: uint32, sm: uint32, gen: Gen, env: Env) returns (first: Outcome, h: Handle)
    ensures Inv(Initial(cid, sm, 1, 1, gen).table)
    ensures first == Serve(Initial(cid, sm, 1, 1, gen), OpenContextReq(cid), env)
    ensures first.Reply? && first.body == OpenContextResp(h, SUCCESS) && first.server.contextId == cid
    ensures var t := first.server.table;
            && Inv(t) && t.chandles == [h] && t.cactive == [true] && t.lists == [[]] && t.connected == [0]
            && t.sactive == [false] && t.numContexts == 1
  {
    var sv := Initial(cid, sm, 1, 1, gen);
    InitialInv(cid, sm, 1, 1, gen);
    first := Serve(sv, OpenContextReq(cid), env);
    ServeKeepsInv(sv, OpenContextReq(cid), env);
    assert FirstFree(sv.table.cactive) == Some(0);
    h := first.body.handle;
  }

  lemma OpensSession(sv: Server, h: Handle, taid: Handle, env: Env) returns (second: Outcome)
    requires env.loadErr == SUCCESS && env.initErr == SUCCESS
    requires Inv(sv.table) && sv.table.cactive == [true] && sv.table.chandles == [h] && sv.table.lists == [[]]
    requires sv.table.connected == [0] && sv.table.sactive == [false] && sv.table.numContexts == 1
    ensures second == Serve(sv, OpenSessionReq(h, taid), env)
    ensures second.Reply? && second.body.OpenSessionResp? && second.body.status == SUCCESS
    ensures var t := second.server.table;
            Inv(t) && t.cactive == [true] && t.chandles == [h] && t.lists == [[0]] && t.numContexts == 1
            && second.server.contextId == sv.contextId
  {
    assert Find([h], h) == Some(0) by { FindUnique([h], 0); }
    second := Serve(sv, OpenSessionReq(h, taid), env);
    ServeKeepsInv(sv, OpenSessionReq(h, taid), env);
    assert FirstFree(sv.table.sactive) == Some(0);
    assert second.server.table.lists == [sv.table.lists[0] + [0]];
    assert sv.table.lists[0] + [0] == [0];
  }

  lemma StaleCloseThenOpen(sv: Server, h: Handle, env: Env) returns (third: Outcome)
    requires Inv(sv.table) && sv.table.cactive == [true] && sv.table.chandles == [h] && sv.table.lists == [[0]]
    requires sv.table.numContexts == 1
    ensures third == Serve(sv, CloseContextReq(h), env)
    ensures third.Reply? && third.body == CloseContextResp(SUCCESS)
    ensures var t := third.server.table;
            Inv(t) && t.cactive == [true] && t.lists == [[0]] && t.numContexts == 0
    ensures Serve(third.server, OpenContextReq(sv.contextId), env) == Halt(NoFreeContext)
  {
    assert Find([h], h) == Some(0) by { FindUnique([h], 0); }
    assert sv.table.connected[0] == 1;
    third := Serve(sv, CloseContextReq(h), env);
    ServeKeepsInv(sv, CloseContextReq(h), env);
  }

  /** The count can fall short: four well-formed requests to a server with one slot of each kind, from any
      generator state and with a TApp that loads, and the fourth ends the process. */
  lemma FourRequestsToHalt(cid: uint32, sm: uint32, gen: Gen, taid: Handle, env: Env)
    returns (first: Outcome, second: Outcome, third: Outcome)
    requires env.loadErr == SUCCESS && env.initErr == SUCCESS
    ensures Inv(Initial(cid, sm, 1, 1, gen).table)
    ensures first == Serve(Initial(cid, sm, 1, 1, gen), OpenContextReq(cid), env)
    ensures first.Reply? && first.body.OpenContextResp? && first.body.status == SUCCESS && Inv(first.server.table)
    ensures second == Serve(first.server, OpenSessionReq(first.body.handle, taid), env)
    ensures second.Reply? && second.body.OpenSessionResp? && second.body.status == SUCCESS
    ensures Inv(second.server.table)
    ensures third == Serve(second.server, CloseContextReq(first.body.handle), env)
    ensures third.Reply? && third.body == CloseContextResp(SUCCESS) && Inv(third.server.table)
    ensures third.server.table.cactive == [true] && third.server.table.numContexts == 0
    ensures Serve(third.server, OpenContextReq(cid), env) == Halt(NoFreeContext)
  {
    var h;
    first, h := OpensContext(cid, sm, gen, env);
    second := OpensSession(first.server, h, taid, env);
    third := StaleCloseThenOpen(second.server, h, env);
  }

  lemma ZeroTakesBlock(start: Gen, k: nat)
    ensures Draw(Advance(start, HANDLE_SIZE * k), ZeroHandle()) == Block(start, k)
  {
    XorSeqOfZeros(ZeroHandle(), Block(start, k));
  }

  lemma OpensInSlot(sv: Server, c: nat, env: Env) returns (o: Outcome)
    requires Inv(sv.table) && FirstFree(sv.table.cactive) == Some(c) && sv.table.numContexts < |sv.table.cactive|
    ensures c < |sv.table.cactive| == |sv.table.chandles|
    ensures o == Serve(sv, OpenContextReq(sv.contextId), env)
    ensures o == Reply(sv.(table := Activate(sv.table, c)),
                       OpenContextResp(Draw(sv.table.gen, sv.table.chandles[c]), SUCCESS))
    ensures Inv(o.server.table)
  {
    o := Serve(sv, OpenContextReq(sv.contextId), env);
    ServeKeepsInv(sv, OpenContextReq(sv.contextId), env);
  }

  /** Two contexts of a server with two slots for them: their handles are the first two blocks. */
  lemma OpensTwoContexts(cid: uint32, sm: uint32, gen: Gen, env: Env) returns (first: Outcome, second: Outcome)
    ensures Inv(Initial(cid, sm, 2, 1, gen).table)
    ensures first == Serve(Initial(cid, sm, 2, 1, gen), OpenContextReq(cid), env)
    ensures first.Reply? && first.body == OpenContextResp(Block(gen, 0), SUCCESS)
    ensures first.server == Initial(cid, sm, 2, 1, gen).(table := first.server.table)
    ensures var t := first.server.table;
            Inv(t) && t.chandles == [Block(gen, 0), ZeroHandle()] && t.cactive == [true, false] && t.sactive == [false]
    ensures second == Serve(first.server, OpenContextReq(cid), env)
    ensures second.Reply? && second.body == OpenContextResp(Block(gen, 1), SUCCESS)
    ensures second.server == first.server.(table := second.server.table)
    ensures var t := second.server.table;
            && Inv(t) && t.chandles == [Block(gen, 0), Block(gen, 1)] && t.cactive == [true, true]
            && t.lists == [[], []] && t.connected == [0, 0] && t.sactive == [false]
  {
    hide Draw, Drawn, Block, Inv, Serve, Advance, Keystream;
    InitialInv(cid, sm, 2, 1, gen);
    var sv := Initial(cid, sm, 2, 1, gen);
    assert sv.table.cactive == [false, false] && FirstFree([false, false]) == Some(0);
    ZeroTakesBlock(gen, 0);
    first := OpensInSlot(sv, 0, env);
    assert first.server.table.cactive == [true, false] && FirstFree([true, false]) == Some(1);
    ZeroTakesBlock(gen, 1);
    FirstStates(gen);
    second := OpensInSlot(first.server, 1, env);
  }

  lemma FirstStates(gen: Gen)
    ensures Drawn(gen) == Advance(gen, HANDLE_SIZE * 1) && Advance(gen, HANDLE_SIZE * 0) == gen
  {
  }

  /** The session scan runs past its table: two contexts, one session slot, a session in the first context, and the
      request for one in the second ends the process, unless both contexts were given the same handle. */
  lemma FourRequestsPastTheTable(cid: uint32, sm: uint32, gen: Gen, taid: Handle, env: Env)
    returns (first: Outcome, second: Outcome, third: Outcome)
    requires env.loadErr == SUCCESS && env.initErr == SUCCESS
    ensures Inv(Initial(cid, sm, 2, 1, gen).table)
    ensures first == Serve(Initial(cid, sm, 2, 1, gen), OpenContextReq(cid), env)
    ensures first.Reply? && first.body == OpenContextResp(Block(gen, 0), SUCCESS) && Inv(first.server.table)
    ensures second == Serve(first.server, OpenContextReq(cid), env)
    ensures second.Reply? && second.body == OpenContextResp(Block(gen, 1), SUCCESS) && Inv(second.server.table)
    ensures third == Serve(second.server, OpenSessionReq(Block(gen, 0), taid), env)
    ensures third.Reply? && third.body.OpenSessionResp? && third.body.status == SUCCESS && Inv(third.server.table)
    ensures Serve(third.server, OpenSessionReq(Block(gen, 1), taid), env) == Halt(NoFreeSession)
            <==> Block(gen, 0) != Block(gen, 1)
  {
    hide Draw, Drawn, Block, Inv;
    first, second := OpensTwoContexts(cid, sm, gen, env);
    var sv := second.server;
    assert Find(sv.table.chandles, Block(gen, 0)) == Some(0);
    assert FirstFree(sv.table.sactive) == Some(0);
    third := Serve(sv, OpenSessionReq(Block(gen, 0), taid), env);
    ServeKeepsInv(sv, OpenSessionReq(Block(gen, 0), taid), env);
    assert FirstFree([true]) == None;
  }
}
