/** The client and its servers together, over every run: the client's stored handles never dangle. */
module EndToEnd {
  import opened Bytes
  import opened Status
  import opened HandlePlugin
  import opened Counting
  import opened Wire
  import opened ServerModel
  import opened ServerRequests
  import opened ServerRuns
  import opened ClientModel
  import C = ClientRuns
  import opened HandleLinks
  import opened Channel

  /** One client, and behind each of its information slots the server that slot's channel leads to. */
  datatype Worlds = Worlds(client: SoundClient, peers: seq<Peer>)

  ghost predicate Wired(sys: Worlds) { |sys.peers| == |sys.client.infos| }

  // ---------------------------------------------------------------- the invariant

  /** The connection's handle finds an active context, and each of its sessions' handles an active session of that
      very context. */
  ghost predicate Linked(t: Table, conn: Conn)
  {
    && (exists c :: Names(t, conn.handle, c))
    && (forall i :: 0 <= i < |conn.sessions| && conn.sessions[i].used ==>
          exists c, s :: Finds(t, conn.handle, conn.sessions[i].handle, c, s))
  }

  /** Open sessions of a connection hold different handles. */
  ghost predicate SessionsDiffer(conn: Conn)
  {
    forall i, j :: 0 <= i < j < |conn.sessions| && conn.sessions[i].used && conn.sessions[j].used ==>
      conn.sessions[i].handle != conn.sessions[j].handle
  }

  /** Open connections to one server hold different handles. */
  ghost predicate ConnsDiffer(conns: seq<Conn>)
  {
    forall c, d ::
      (0 <= c < |conns| && 0 <= d < |conns| && c != d &&
       conns[c].used && conns[d].used && conns[c].index == conns[d].index)
      ==> conns[c].handle != conns[d].handle
  }

  ghost predicate ConnSound(conn: Conn, peers: seq<Peer>)
  {
    conn.used ==> conn.index < |peers| && Linked(peers[conn.index].server.table, conn) && SessionsDiffer(conn)
  }

  ghost predicate Sound(conns: seq<Conn>, peers: seq<Peer>)
  {
    && (forall i :: 0 <= i < |peers| ==> Exclusive(peers[i].server.table))
    && (forall c :: 0 <= c < |conns| ==> ConnSound(conns[c], peers))
    && ConnsDiffer(conns)
  }

  // ---------------------------------------------------------------- the server moves, a connection looks on

  lemma NamesOne(t: Table, h: Handle, c: nat, d: nat)
    requires Names(t, h, c) && Names(t, h, d)
    ensures c == d
  {
  }

  lemma FindsNames(t: Table, hc: Handle, hs: Handle, c: nat, s: nat)
    requires Finds(t, hc, hs, c, s)
    ensures Names(t, hc, c)
  {
  }

  /** A move may concern one context's removal of itself or of a session. */
  predicate Spares(m: Move, c: nat) { m != Closed(c) && !(m.Detached? && m.c == c) }

  /** A connection keeps its links through a move that spares its context. */
  lemma LinkedKept(t: Table, m: Move, u: Table, conn: Conn, c: nat)
    requires FreshMove(t, m, u) && Linked(t, conn) && Names(t, conn.handle, c) && Spares(m, c)
    ensures Linked(u, conn) && Names(u, conn.handle, c)
  {
    hide FreshMove, Names, Finds;
    NameKept(t, m, u, conn.handle, c);
    forall i | 0 <= i < |conn.sessions| && conn.sessions[i].used
      ensures exists d, s :: Finds(u, conn.handle, conn.sessions[i].handle, d, s)
    {
      var d, s :| Finds(t, conn.handle, conn.sessions[i].handle, d, s);
      FindsNames(t, conn.handle, conn.sessions[i].handle, d, s);
      NamesOne(t, conn.handle, c, d);
      FindKept(t, m, u, conn.handle, conn.sessions[i].handle, d, s);
    }
  }

  lemma OtherName(t: Table, h: Handle, c: nat, k: Handle, d: nat)
    requires Names(t, h, c) && Names(t, k, d) && h != k
    ensures c != d
  {
  }

  /** Moves that remove nothing spare every context. */
  predicate Additive(m: Move) { m.Stay? || m.Opened? || m.Attached? }

  /** What the other connections see of a move at peer `i`: either it removes nothing, or only within the context
      named by `h`, which is the handle of connection `x`. */
  ghost predicate Harmless(conns: seq<Conn>, i: nat, x: nat, t: Table, m: Move)
  {
    Additive(m)
    || (x < |conns| && conns[x].used && conns[x].index == i &&
        (m.Closed? || m.Detached?) && Names(t, conns[x].handle, m.c))
  }

  lemma OthersKept(conns: seq<Conn>, peers: seq<Peer>, i: nat, p: Peer, m: Move, x: nat, c: nat)
    requires Sound(conns, peers) && i < |peers| && FreshMove(peers[i].server.table, m, p.server.table)
    requires Harmless(conns, i, x, peers[i].server.table, m)
    requires c < |conns| && (c != x || Additive(m))
    ensures ConnSound(conns[c], peers[i := p])
  {
    hide FreshMove, Names, Exclusive, Inv, Shape;
    var conn, t, u := conns[c], peers[i].server.table, p.server.table;
    assert ConnSound(conn, peers);
    if conn.used && conn.index == i {
      hide Sound;
      var k :| Names(t, conn.handle, k);
      if !Additive(m) { OtherName(t, conn.handle, k, conns[x].handle, m.c); }
      LinkedKept(t, m, u, conn, k);
    }
  }

  /** Peer `i` made a fresh move to `p`; what it was before, and after. */
  ghost predicate Moved(peers: seq<Peer>, i: nat, m: Move, p: Peer)
  {
    i < |peers| && FreshMove(peers[i].server.table, m, p.server.table)
  }

  lemma ExclusiveKept(conns: seq<Conn>, peers: seq<Peer>, i: nat, p: Peer, m: Move)
    requires Sound(conns, peers) && Moved(peers, i, m, p)
    ensures var after := peers[i := p]; forall j :: 0 <= j < |after| ==> Exclusive(after[j].server.table)
  {
    FreshMoveIsExclusive(peers[i].server.table, m, p.server.table);
  }

  /** The client changes nothing and the server removes nothing. */
  lemma AdditiveSound(conns: seq<Conn>, peers: seq<Peer>, i: nat, p: Peer, m: Move)
    requires Sound(conns, peers) && Moved(peers, i, m, p) && Additive(m)
    ensures Sound(conns, peers[i := p])
  {
    ExclusiveKept(conns, peers, i, p, m);
    forall c | 0 <= c < |conns| ensures ConnSound(conns[c], peers[i := p]) {
      OthersKept(conns, peers, i, p, m, |conns|, c);
    }
  }

  /** The client forgets connection `h`; the server has closed the context it named, or only part of its business. */
  lemma ForgottenSound(conns: seq<Conn>, peers: seq<Peer>, i: nat, p: Peer, m: Move, h: nat)
    requires Sound(conns, peers) && Moved(peers, i, m, p)
    requires h < |conns| && Harmless(conns, i, h, peers[i].server.table, m)
    ensures Sound(conns[h := ZeroConn()], peers[i := p])
  {
    ExclusiveKept(conns, peers, i, p, m);
    var after := conns[h := ZeroConn()];
    forall c | 0 <= c < |after| ensures ConnSound(after[c], peers[i := p]) {
      if c != h { OthersKept(conns, peers, i, p, m, h, c); }
    }
  }

  /** Connection `h` changes, keeping its handle, and still fits the server. */
  lemma ChangedSound(conns: seq<Conn>, peers: seq<Peer>, i: nat, p: Peer, m: Move, h: nat, conn: Conn)
    requires Sound(conns, peers) && Moved(peers, i, m, p)
    requires h < |conns| && conns[h].used && Harmless(conns, i, h, peers[i].server.table, m)
    requires conn.used && conn.index == conns[h].index == i && conn.handle == conns[h].handle
    requires Linked(p.server.table, conn) && SessionsDiffer(conn)
    ensures Sound(conns[h := conn], peers[i := p])
  {
    ExclusiveKept(conns, peers, i, p, m);
    var after := conns[h := conn];
    forall c | 0 <= c < |after| ensures ConnSound(after[c], peers[i := p]) {
      if c != h { OthersKept(conns, peers, i, p, m, h, c); }
    }
  }

  /** A new connection takes a free place and the handle of the context just opened. */
  lemma BoundSound(conns: seq<Conn>, peers: seq<Peer>, i: nat, p: Peer, m: Move, h: nat, conn: Conn)
    requires Sound(conns, peers) && Moved(peers, i, m, p) && m.Opened? && m.c < |p.server.table.chandles|
    requires h < |conns| && !conns[h].used
    requires conn.used && conn.index == i && conn.handle == p.server.table.chandles[m.c]
    requires forall s :: 0 <= s < |conn.sessions| ==> !conn.sessions[s].used
    ensures Sound(conns[h := conn], peers[i := p])
  {
    var t, u := peers[i].server.table, p.server.table;
    ExclusiveKept(conns, peers, i, p, m);
    NewName(t, m, u, m.c);
    assert Linked(u, conn);
    var after := conns[h := conn];
    forall c | 0 <= c < |after|
      ensures ConnSound(after[c], peers[i := p])
      ensures c != h && conns[c].used && conns[c].index == i ==> conns[c].handle != conn.handle
    {
      if c != h {
        OthersKept(conns, peers, i, p, m, h, c);
        assert ConnSound(conns[c], peers);
      }
    }
  }

  // ---------------------------------------------------------------- sessions of one connection

  lemma SessionBound(t: Table, m: Move, u: Table, conn: Conn, c: nat, s: nat, taid: Handle, k: nat)
    requires FreshMove(t, m, u) && Linked(t, conn) && SessionsDiffer(conn) && Names(t, conn.handle, c)
    requires m == Attached(c, s, taid) && s < |u.shandles| && k < |conn.sessions| && !conn.sessions[k].used
    ensures var after := conn.(sessions := conn.sessions[k := CSession(u.shandles[s], true)],
                               numSessions := conn.numSessions + 1);
            Linked(u, after) && SessionsDiffer(after)
  {
    hide FreshMove, Names, Finds;
    LinkedKept(t, m, u, conn, c);
    NewSession(t, m, u, conn.handle, c, s, taid);
  }

  lemma OtherFound(t: Table, hc: Handle, hs: Handle, ks: Handle, c: nat, s: nat, d: nat, x: nat)
    requires Finds(t, hc, hs, c, s) && Finds(t, hc, ks, d, x) && hs != ks
    ensures s != x
  {
  }

  lemma SessionDropped(t: Table, m: Move, u: Table, conn: Conn, c: nat, s: nat, k: nat, n: nat)
    requires FreshMove(t, m, u) && Linked(t, conn) && SessionsDiffer(conn)
    requires k < |conn.sessions| && conn.sessions[k].used
    requires Finds(t, conn.handle, conn.sessions[k].handle, c, s) && m == Detached(c, s)
    ensures var after := conn.(sessions := conn.sessions[k := ZeroSession()], numSessions := n);
            Linked(u, after) && SessionsDiffer(after)
  {
    hide FreshMove, Names, Finds;
    FindsNames(t, conn.handle, conn.sessions[k].handle, c, s);
    NameKept(t, m, u, conn.handle, c);
    forall i | 0 <= i < |conn.sessions| && i != k && conn.sessions[i].used
      ensures exists d, x :: Finds(u, conn.handle, conn.sessions[i].handle, d, x)
    {
      var d, x :| Finds(t, conn.handle, conn.sessions[i].handle, d, x);
      OtherFound(t, conn.handle, conn.sessions[i].handle, conn.sessions[k].handle, d, x, c, s);
      FindKept(t, m, u, conn.handle, conn.sessions[i].handle, d, x);
    }
  }

  // ---------------------------------------------------------------- one call

  datatype Stepped = Stepped(sys: Worlds, err: int, value: nat, id: Option<Handle> := None) | Ended

  /** One call of the client over the channel of its slot: `sendRoom` is the size of its send buffer, `room` that of its
      receive buffer and of the server's send buffer. Ended when the client's process ends. */
  function Step(sys: Worlds, call: Call, sendRoom: nat, room: nat, env: Env): Stepped
    requires Wired(sys)
  {
    if NoBuffer(Buffers(sendRoom, room)) then Stepped(sys, INVALID_PARAM, 0)
    else
      C.BeginKeeps(sys.client, call);
      match Begin(sys.client, call)
      case Early(after, err) => Stepped(Worlds(after, sys.peers), err, 0)
      case Ask(after, i, m) =>
        if |EncodeMessage(m)| > sendRoom then Stepped(Worlds(after, sys.peers), COMM_FAILED, 0)
        else Talk(after, sys.peers, call, i, m, room, env)
  }

  /** The request of a call goes to peer `i` and the call is finished with what comes back. */
  function Talk(cl: SoundClient, peers: seq<Peer>, call: Call, i: nat, m: Message, room: nat, env: Env): Stepped
    requires Asked(cl, call, i) && i < |peers|
  {
    var a := Answer(peers[i], EncodeMessage(m), room, env);
    C.FinishKeeps(cl, call, i, a.reply);
    match Finish(cl, call, i, a.reply)
    case Aborted => Ended
    case Returned(after, err, value, id) => Stepped(Worlds(after, peers[i := a.peer]), err, value, id)
  }

  lemma AskedOf(cl: Client, call: Call, i: nat, m: Message)
    requires C.WellAsked(cl, call, i, m)
    ensures Asked(cl, call, i) && ClientInv(cl) && i < |cl.infos|
  {
  }

  /** A step is the client's call with what its server sends back, so that all that holds of calls with any reply holds
      of steps. */
  lemma StepIsPerform(sys: Worlds, call: Call, sendRoom: nat, room: nat, env: Env) returns (reply: Option<seq<byte>>)
    requires Wired(sys)
    ensures var st := Step(sys, call, sendRoom, room, env);
            match C.Perform(sys.client, call, Buffers(sendRoom, room), reply)
            case Aborted => st == Ended
            case Returned(after, err, value, id) =>
              st.Stepped? && st.sys.client == after && st.err == err && st.value == value && st.id == id
    ensures ClientShape(sys.client)
    ensures var b, st := Begin(sys.client, call), Step(sys, call, sendRoom, room, env);
            if !NoBuffer(Buffers(sendRoom, room)) && b.Ask? && |EncodeMessage(b.request)| <= sendRoom
            then b.index < |sys.peers|
                 && var a := Answer(sys.peers[b.index], EncodeMessage(b.request), room, env);
                    reply == a.reply && (st.Stepped? ==> st.sys.peers == sys.peers[b.index := a.peer])
            else st.Stepped? && st.sys.peers == sys.peers
  {
    hide Answer, EncodeMessage, ClientInv, Finish, Begin, Inv, Shape;
    C.HasShape(sys.client);
    C.BeginKeeps(sys.client, call);
    var b := Begin(sys.client, call);
    reply := None;
    if b.Ask? {
      AskedOf(b.client, call, b.index, b.request);
      reply := Answer(sys.peers[b.index], EncodeMessage(b.request), room, env).reply;
    }
  }

  /** The assumption on the generators: no slot opened in a step got the handle of another slot. */
  ghost predicate HandlesFresh(before: Peer, after: Peer)
  {
    var t, u := before.server.table, after.server.table;
    && Shape(t) && Shape(u) && |u.cactive| == |t.cactive| && |u.sactive| == |t.sactive|
    && FreshHandles(t, u)
  }

  /** An answer is a fresh move of the peer; without a reply nothing has moved, and a reply is the handler's answer to
      the move that was asked for. */
  lemma AnswerMoves(p: Peer, k: Kind, m: Message, room: nat, env: Env) returns (mv: Move, a: Answered, v: Verdict)
    requires Exclusive(p.server.table) && IsRequest(k, m) && room >= MAX_REPLY
    requires HandlesFresh(p, Answer(p, EncodeMessage(m), room, env).peer)
    ensures a == Answer(p, EncodeMessage(m), room, env) && v == Judge(k, a.reply)
    ensures FreshMove(p.server.table, mv, a.peer.server.table)
    ensures v.Good? ==> FormOf(v.body) == Form(k, false)
    ensures mv == Stay || mv == MoveOf(p.server, m.body)
    ensures a.reply.None? ==> mv == Stay && v.Bad?
    ensures a.reply.Some? ==>
              var o := Serve(p.server, m.body, env);
              && mv == MoveOf(p.server, m.body) && o.Reply? && FormOf(o.body) == Form(k, false)
              && v == if StatusOf(o.body) == SUCCESS then Good(o.body) else Bad(FAILED)
  {
    hide Answer, Serve, EncodeMessage, MoveOf, FreshHandles, WireBytes, UniqueHandles;
    a, v := Answer(p, EncodeMessage(m), room, env), Judge(k, Answer(p, EncodeMessage(m), room, env).reply);
    mv := AnswerEffect(p, k, m, room, env);
  }

  /** open_context at its server. */
  lemma ContextOpened(p: Peer, m: Message, cid: uint32, room: nat, env: Env) returns (mv: Move, a: Answered, v: Verdict)
    requires Exclusive(p.server.table) && IsRequest(OpenContext, m) && room >= MAX_REPLY
    requires m.body == OpenContextReq(cid)
    requires HandlesFresh(p, Answer(p, EncodeMessage(m), room, env).peer)
    ensures a == Answer(p, EncodeMessage(m), room, env) && v == Judge(OpenContext, a.reply)
    ensures FreshMove(p.server.table, mv, a.peer.server.table) && Additive(mv)
    ensures v.Good? ==> mv.Opened? && mv.c < |a.peer.server.table.chandles|
                        && v.body == OpenContextResp(a.peer.server.table.chandles[mv.c], SUCCESS)
  {
    hide Answer, Serve, Judge, EncodeMessage, MoveOf, HandlesFresh, Exclusive;
    OpenContextEffect(p.server, cid, env);
    mv, a, v := AnswerMoves(p, OpenContext, m, room, env);
  }

  /** close_context at its server, on a handle that names a context. */
  lemma ContextClosed(p: Peer, m: Message, h: Handle, c: nat, room: nat, env: Env) returns (mv: Move, a: Answered,
      v: Verdict)
    requires Exclusive(p.server.table) && IsRequest(CloseContext, m) && room >= MAX_REPLY
    requires m.body == CloseContextReq(h)
    requires HandlesFresh(p, Answer(p, EncodeMessage(m), room, env).peer) && Names(p.server.table, h, c)
    ensures a == Answer(p, EncodeMessage(m), room, env) && v == Judge(CloseContext, a.reply)
    ensures FreshMove(p.server.table, mv, a.peer.server.table)
    ensures mv == if v.Good? then Closed(c) else Stay
  {
    hide Answer, Serve, Judge, EncodeMessage, MoveOf, HandlesFresh, Exclusive, Names;
    CloseContextEffect(p.server, h, c, env);
    mv, a, v := AnswerMoves(p, CloseContext, m, room, env);
  }

  /** open_session at its server, on a handle that names a context. */
  lemma SessionOpened(p: Peer, m: Message, h: Handle, c: nat, taid: Handle, room: nat, env: Env)
    returns (mv: Move, a: Answered, v: Verdict)
    requires Exclusive(p.server.table) && IsRequest(OpenSession, m) && room >= MAX_REPLY
    requires m.body == OpenSessionReq(h, taid)
    requires HandlesFresh(p, Answer(p, EncodeMessage(m), room, env).peer) && Names(p.server.table, h, c)
    ensures a == Answer(p, EncodeMessage(m), room, env) && v == Judge(OpenSession, a.reply)
    ensures FreshMove(p.server.table, mv, a.peer.server.table) && Additive(mv)
    ensures v.Good? ==> mv.Attached? && mv == Attached(c, mv.s, taid) && mv.s < |a.peer.server.table.shandles|
                        && v.body == OpenSessionResp(a.peer.server.table.shandles[mv.s], SUCCESS)
  {
    hide Answer, Serve, Judge, EncodeMessage, MoveOf, HandlesFresh, Exclusive, Names;
    OpenSessionEffect(p.server, h, c, taid, env);
    mv, a, v := AnswerMoves(p, OpenSession, m, room, env);
  }

  /** close_session at its server, on handles that find a session. */
  lemma SessionClosed(p: Peer, m: Message, hc: Handle, hs: Handle, c: nat, s: nat, room: nat, env: Env)
    returns (mv: Move, a: Answered, v: Verdict)
    requires Exclusive(p.server.table) && IsRequest(CloseSession, m) && room >= MAX_REPLY
    requires m.body == CloseSessionReq(hc, hs)
    requires HandlesFresh(p, Answer(p, EncodeMessage(m), room, env).peer) && Finds(p.server.table, hc, hs, c, s)
    ensures a == Answer(p, EncodeMessage(m), room, env) && v == Judge(CloseSession, a.reply)
    ensures FreshMove(p.server.table, mv, a.peer.server.table)
    ensures mv == if v.Good? then Detached(c, s) else Stay
  {
    hide Answer, Serve, Judge, EncodeMessage, MoveOf, HandlesFresh, Exclusive, Finds;
    CloseSessionEffect(p.server, hc, hs, c, s, env);
    mv, a, v := AnswerMoves(p, CloseSession, m, room, env);
  }

  // ---------------------------------------------------------------- call by call

  lemma NoneUsedInClosed(cl: SoundClient, c: nat)
    requires c < |cl.conns| && !cl.conns[c].used
    ensures forall s :: 0 <= s < |cl.conns[c].sessions| ==> !cl.conns[c].sessions[s].used
  {
    CountBound(UsedSessions(cl.conns[c].sessions));
    forall s | 0 <= s < |cl.conns[c].sessions| ensures !cl.conns[c].sessions[s].used {
      assert !UsedSessions(cl.conns[c].sessions)[s];
    }
  }

  lemma ExclusiveAt(conns: seq<Conn>, peers: seq<Peer>, i: nat)
    requires Sound(conns, peers) && i < |peers|
    ensures Exclusive(peers[i].server.table)
  {
  }

  lemma OpenContextSound(cl: SoundClient, peers: seq<Peer>, i: nat, m: Message, cid: uint32, room: nat, env: Env)
    requires Sound(cl.conns, peers) && i < |peers| == |cl.infos| && ClientShape(cl) && cl.leaks[i] > 0
    requires room >= MAX_REPLY
    requires IsRequest(OpenContext, m) && m.body == OpenContextReq(cid)
    requires HandlesFresh(peers[i], Answer(peers[i], EncodeMessage(m), room, env).peer)
    ensures var a := Answer(peers[i], EncodeMessage(m), room, env);
            var r := OpenContextFinish(cl, i, a.reply);
            r.Returned? ==> Sound(r.client.conns, peers[i := a.peer])
  {
    hide Answer, Judge, EncodeMessage, Sound, ClientInv, FreshMove, HandlesFresh, Exclusive;
    ExclusiveAt(cl.conns, peers, i);
    var mv, a, v := ContextOpened(peers[i], m, cid, room, env);
    var free := FirstFree(UsedConns(cl.conns));
    if v.Good? && free.Some? {
      var c := free.value;
      NoneUsedInClosed(cl, c);
      BoundSound(cl.conns, peers, i, a.peer, mv, c,
                 cl.conns[c].(contextId := cl.infos[i].contextId, index := i, used := true, handle := v.body.handle));
    } else {
      AdditiveSound(cl.conns, peers, i, a.peer, mv);
    }
  }

  /** Connection `h` of the client is open, its server is `peers[i]`, and `m` is a request of kind `k` to it. */
  ghost predicate Asks(cl: Client, peers: seq<Peer>, h: nat, i: nat, k: Kind, m: Message, room: nat, env: Env)
  {
    && Sound(cl.conns, peers) && IsOpen(cl, h) && cl.conns[h].index == i < |peers| == |cl.infos|
    && IsRequest(k, m) && room >= MAX_REPLY
    && HandlesFresh(peers[i], Answer(peers[i], EncodeMessage(m), room, env).peer)
  }

  lemma LinkOf(conns: seq<Conn>, peers: seq<Peer>, h: nat, i: nat) returns (c: nat)
    requires Sound(conns, peers) && h < |conns| && conns[h].used && conns[h].index == i < |peers|
    ensures Exclusive(peers[i].server.table) && Linked(peers[i].server.table, conns[h]) && SessionsDiffer(conns[h])
    ensures Names(peers[i].server.table, conns[h].handle, c)
  {
    assert ConnSound(conns[h], peers);
    c :| Names(peers[i].server.table, conns[h].handle, c);
  }

  lemma CloseContextSound(cl: Client, peers: seq<Peer>, h: nat, i: nat, m: Message, room: nat, env: Env)
    requires Asks(cl, peers, h, i, CloseContext, m, room, env) && m.body == CloseContextReq(cl.conns[h].handle)
    ensures var a := Answer(peers[i], EncodeMessage(m), room, env);
            var r := CloseContextFinish(cl, h, a.reply);
            r.Returned? ==> Sound(r.client.conns, peers[i := a.peer])
  {
    hide Answer, Judge, EncodeMessage, Sound, FreshMove, Linked, SessionsDiffer, Names, HandlesFresh, Exclusive;
    var c := LinkOf(cl.conns, peers, h, i);
    var mv, a, v := ContextClosed(peers[i], m, cl.conns[h].handle, c, room, env);
    if v.Good? {
      ForgottenSound(cl.conns, peers, i, a.peer, mv, h);
    } else {
      AdditiveSound(cl.conns, peers, i, a.peer, mv);
    }
  }

  /** The connection enters the session just opened. */
  lemma AttachedSound(conns: seq<Conn>, peers: seq<Peer>, i: nat, p: Peer, m: Move, h: nat, c: nat, k: nat)
    requires Sound(conns, peers) && Moved(peers, i, m, p) && m.Attached? && m.c == c && m.s < |p.server.table.shandles|
    requires h < |conns| && conns[h].used && conns[h].index == i && Names(peers[i].server.table, conns[h].handle, c)
    requires k < |conns[h].sessions| && !conns[h].sessions[k].used
    ensures var conn := conns[h];
            Sound(conns[h := conn.(sessions := conn.sessions[k := CSession(p.server.table.shandles[m.s], true)],
                                   numSessions := conn.numSessions + 1)], peers[i := p])
  {
    hide Sound, FreshMove, Linked, SessionsDiffer, Names, Exclusive, Inv, Shape;
    var conn := conns[h];
    var _ := LinkOf(conns, peers, h, i);
    SessionBound(peers[i].server.table, m, p.server.table, conn, c, m.s, m.taid, k);
    ChangedSound(conns, peers, i, p, m, h,
                 conn.(sessions := conn.sessions[k := CSession(p.server.table.shandles[m.s], true)],
                       numSessions := conn.numSessions + 1));
  }

  lemma OpenSessionSound(cl: Client, peers: seq<Peer>, h: nat, i: nat, m: Message, taid: Handle, room: nat, env: Env)
    requires Asks(cl, peers, h, i, OpenSession, m, room, env) && m.body == OpenSessionReq(cl.conns[h].handle, taid)
    ensures var a := Answer(peers[i], EncodeMessage(m), room, env);
            var r := OpenSessionFinish(cl, h, a.reply);
            r.Returned? ==> Sound(r.client.conns, peers[i := a.peer])
  {
    hide Answer, Judge, EncodeMessage, Sound, FreshMove, Linked, SessionsDiffer, Names, HandlesFresh, Exclusive,
      FirstFree, Additive, Inv, Shape, WireBytes;
    var conn := cl.conns[h];
    var c := LinkOf(cl.conns, peers, h, i);
    var mv, a, v := SessionOpened(peers[i], m, conn.handle, c, taid, room, env);
    var free := FirstFree(UsedSessions(conn.sessions));
    if v.Good? && conn.sessions != [] && free.Some? {
      AttachedSound(cl.conns, peers, i, a.peer, mv, h, c, free.value);
    } else {
      AdditiveSound(cl.conns, peers, i, a.peer, mv);
    }
  }

  lemma FoundOf(t: Table, conn: Conn, s: nat) returns (c: nat, x: nat)
    requires Linked(t, conn) && s < |conn.sessions| && conn.sessions[s].used
    ensures Finds(t, conn.handle, conn.sessions[s].handle, c, x) && Names(t, conn.handle, c)
  {
    c, x :| Finds(t, conn.handle, conn.sessions[s].handle, c, x);
  }

  lemma CloseSessionSound(cl: Client, peers: seq<Peer>, h: nat, s: nat, i: nat, m: Message, room: nat, env: Env)
    requires Asks(cl, peers, h, i, CloseSession, m, room, env) && IsOpenSession(cl, h, s)
    requires m.body == CloseSessionReq(cl.conns[h].handle, cl.conns[h].sessions[s].handle)
    ensures var a := Answer(peers[i], EncodeMessage(m), room, env);
            var r := CloseSessionFinish(cl, h, s, a.reply);
            r.Returned? ==> Sound(r.client.conns, peers[i := a.peer])
  {
    hide Answer, Judge, EncodeMessage, Sound, FreshMove, Linked, SessionsDiffer, Names, Finds, HandlesFresh,
      Exclusive, Inv, Shape;
    var conn, t := cl.conns[h], peers[i].server.table;
    var _ := LinkOf(cl.conns, peers, h, i);
    var c, x := FoundOf(t, conn, s);
    var mv, a, v := SessionClosed(peers[i], m, conn.handle, conn.sessions[s].handle, c, x, room, env);
    if v.Bad? {
      AdditiveSound(cl.conns, peers, i, a.peer, mv);
    } else if conn.numSessions > 0 {
      SessionDropped(t, mv, a.peer.server.table, conn, c, x, s, conn.numSessions - 1);
      ChangedSound(cl.conns, peers, i, a.peer, mv, h,
                   conn.(sessions := conn.sessions[s := ZeroSession()], numSessions := conn.numSessions - 1));
    }
  }

  /** The requests that move no table: the client changes nothing either. */
  predicate MovesNothing(k: Kind) { k == InvokeCommand || k == RegisterMemory || k == UnregisterMemory }

  lemma UnmovedSound(cl: Client, peers: seq<Peer>, h: nat, i: nat, k: Kind, m: Message, room: nat, env: Env)
    requires Asks(cl, peers, h, i, k, m, room, env) && MovesNothing(k)
    ensures Sound(cl.conns, peers[i := Answer(peers[i], EncodeMessage(m), room, env).peer])
  {
    ExclusiveAt(cl.conns, peers, i);
    assert MoveOf(peers[i].server, m.body) == Stay;
    hide Answer, Judge, EncodeMessage, Sound, FreshMove, HandlesFresh, Exclusive, MoveOf;
    var mv, a, _ := AnswerMoves(peers[i], k, m, room, env);
    AdditiveSound(cl.conns, peers, i, a.peer, mv);
  }

  // ---------------------------------------------------------------- every call

  /** The request that a call sends. */
  ghost predicate Sends(cl: Client, call: Call, body: Body)
  {
    match call
    case OpenContextCall(cid, _) => body == OpenContextReq(cid)
    case CloseContextCall(h) => IsOpen(cl, h) && body == CloseContextReq(cl.conns[h].handle)
    case OpenSessionCall(h, taid) => IsOpen(cl, h) && body == OpenSessionReq(cl.conns[h].handle, taid)
    case CloseSessionCall(h, s) =>
      IsOpenSession(cl, h, s) && body == CloseSessionReq(cl.conns[h].handle, cl.conns[h].sessions[s].handle)
    case InvokeCall(h, s, cmd) =>
      IsOpenSession(cl, h, s) && body == InvokeReq(cl.conns[h].handle, cl.conns[h].sessions[s].handle, cmd)
    case RegisterCall(h, size, flag, addr, _) =>
      IsOpen(cl, h) && body == RegisterReq(cl.conns[h].handle, size, flag, addr)
    case UnregisterCall(h, id, _) => IsOpen(cl, h) && body == UnregisterReq(cl.conns[h].handle, id)
  }

  lemma BeginSends(cl: Client, call: Call)
    requires ClientShape(cl)
    ensures Begin(cl, call).Ask? ==> Sends(Begin(cl, call).client, call, Begin(cl, call).request.body)
  {
  }

  lemma FinishSound(cl: SoundClient, peers: seq<Peer>, call: Call, i: nat, m: Message, room: nat, env: Env)
    requires Sound(cl.conns, peers) && i < |peers| == |cl.infos| && room >= MAX_REPLY
    requires C.WellAsked(cl, call, i, m) && Sends(cl, call, m.body)
    requires HandlesFresh(peers[i], Answer(peers[i], EncodeMessage(m), room, env).peer)
    ensures var a := Answer(peers[i], EncodeMessage(m), room, env);
            var r := Finish(cl, call, i, a.reply);
            r.Returned? ==> Sound(r.client.conns, peers[i := a.peer])
  {
    hide Answer, Judge, EncodeMessage, Sound, ClientInv, HandlesFresh, OpenContextFinish, CloseContextFinish,
      OpenSessionFinish, CloseSessionFinish, Inv, Shape;
    match call
    case OpenContextCall(cid, _) => OpenContextSound(cl, peers, i, m, cid, room, env);
    case CloseContextCall(h) => CloseContextSound(cl, peers, h, i, m, room, env);
    case OpenSessionCall(h, taid) => OpenSessionSound(cl, peers, h, i, m, taid, room, env);
    case CloseSessionCall(h, s) => CloseSessionSound(cl, peers, h, s, i, m, room, env);
    case InvokeCall(h, _, _) => UnmovedSound(cl, peers, h, i, InvokeCommand, m, room, env);
    case RegisterCall(h, _, _, _, _) => UnmovedSound(cl, peers, h, i, RegisterMemory, m, room, env);
    case UnregisterCall(h, _, _) => UnmovedSound(cl, peers, h, i, UnregisterMemory, m, room, env);
  }

  /** What holds of the two worlds together. */
  ghost predicate SystemInv(sys: Worlds)
  {
    Wired(sys) && Sound(sys.client.conns, sys.peers)
  }

  /** No slot opened in the step from `before` to `after` got the handle of another slot. */
  ghost predicate StepFresh(before: Worlds, after: Worlds)
  {
    |after.peers| == |before.peers| &&
    forall i :: 0 <= i < |before.peers| ==> HandlesFresh(before.peers[i], after.peers[i])
  }

  lemma TalkKeeps(cl: SoundClient, peers: seq<Peer>, call: Call, i: nat, m: Message, room: nat, env: Env)
    requires Sound(cl.conns, peers) && i < |peers| == |cl.infos| && room >= MAX_REPLY
    requires C.WellAsked(cl, call, i, m) && Sends(cl, call, m.body)
    ensures var st := Talk(cl, peers, call, i, m, room, env);
            st.Stepped? && StepFresh(Worlds(cl, peers), st.sys) ==> Sound(st.sys.client.conns, st.sys.peers)
  {
    hide Answer, EncodeMessage, Sound, ClientInv, HandlesFresh, Finish, Inv, Shape, Sends;
    var st := Talk(cl, peers, call, i, m, room, env);
    if st.Stepped? && StepFresh(Worlds(cl, peers), st.sys) {
      assert HandlesFresh(peers[i], st.sys.peers[i]);
      FinishSound(cl, peers, call, i, m, room, env);
    }
  }

  lemma TalkIsWired(cl: SoundClient, peers: seq<Peer>, call: Call, i: nat, m: Message, room: nat, env: Env)
    requires Asked(cl, call, i) && i < |peers| == |cl.infos|
    ensures var st := Talk(cl, peers, call, i, m, room, env); st.Stepped? ==> Wired(st.sys)
  {
    hide Answer, EncodeMessage, Judge, ClientInv, Inv, Shape;
  }

  /** Any call, answered over a reliable channel by a server in any state, keeps every stored handle good. */
  lemma StepKeeps(sys: Worlds, call: Call, sendRoom: nat, room: nat, env: Env)
    requires SystemInv(sys) && room >= MAX_REPLY
    ensures var st := Step(sys, call, sendRoom, room, env);
            st.Stepped? && StepFresh(sys, st.sys) ==> SystemInv(st.sys)
  {
    hide Answer, EncodeMessage, Sound, ClientInv, HandlesFresh, Finish, Begin, Inv, Shape, Talk, Sends, C.WellAsked;
    C.HasShape(sys.client);
    C.BeginKeeps(sys.client, call);
    BeginSends(sys.client, call);
    match Begin(sys.client, call)
    case Early(after, _) =>
    case Ask(after, i, m) =>
      AskedOf(after, call, i, m);
      TalkKeeps(after, sys.peers, call, i, m, room, env);
      TalkIsWired(after, sys.peers, call, i, m, room, env);
  }

  // ---------------------------------------------------------------- every run

  datatype Turn = Turn(call: Call, sendRoom: nat, room: nat, env: Env)

  lemma StepIsWired(sys: Worlds, turn: Turn)
    requires Wired(sys)
    ensures var st := Step(sys, turn.call, turn.sendRoom, turn.room, turn.env); st.Stepped? ==> Wired(st.sys)
  {
    hide Answer, EncodeMessage, ClientInv, Finish, Begin, Inv, Shape, Talk, C.WellAsked;
    C.HasShape(sys.client);
    C.BeginKeeps(sys.client, turn.call);
    match Begin(sys.client, turn.call)
    case Early(after, _) =>
    case Ask(after, i, m) =>
      AskedOf(after, turn.call, i, m);
      TalkIsWired(after, sys.peers, turn.call, i, m, turn.room, turn.env);
  }

  /** The state after all the turns, none if the client's process has ended. */
  function Run(sys: Worlds, turns: seq<Turn>): Option<Worlds>
    requires Wired(sys)
    decreases |turns|
  {
    if turns == [] then Some(sys)
    else
      StepIsWired(sys, turns[0]);
      var st := Step(sys, turns[0].call, turns[0].sendRoom, turns[0].room, turns[0].env);
      if st.Ended? then None else Run(st.sys, turns[1..])
  }

  /** The generators give out fresh handles all along, and the servers' send buffers hold every reply. */
  ghost predicate FreshRun(sys: Worlds, turns: seq<Turn>)
    requires Wired(sys)
    decreases |turns|
  {
    turns != [] ==>
      var st := Step(sys, turns[0].call, turns[0].sendRoom, turns[0].room, turns[0].env);
      && turns[0].room >= MAX_REPLY
      && (st.Stepped? ==>
            StepFresh(sys, st.sys) && (StepIsWired(sys, turns[0]); FreshRun(st.sys, turns[1..])))
  }

  lemma {:induction false} RunKeeps(sys: Worlds, turns: seq<Turn>)
    requires SystemInv(sys) && FreshRun(sys, turns)
    ensures Run(sys, turns).Some? ==> SystemInv(Run(sys, turns).value)
    decreases |turns|
  {
    hide Sound, Step, StepFresh;
    if turns != [] {
      var turn := turns[0];
      var st := Step(sys, turn.call, turn.sendRoom, turn.room, turn.env);
      StepKeeps(sys, turn.call, turn.sendRoom, turn.room, turn.env);
      if st.Stepped? { RunKeeps(st.sys, turns[1..]); }
    }
  }

  /** A fresh client, and behind each of its channels a fresh server for some context. */
  ghost predicate Start(sys: Worlds)
  {
    && Wired(sys)
    && (forall c :: 0 <= c < |sys.client.conns| ==> !sys.client.conns[c].used)
    && (forall i :: 0 <= i < |sys.peers| ==> FreshServer(sys.peers[i].server))
  }

  ghost predicate FreshServer(sv: Server)
  {
    exists contexts, sessions, gen :: sv.table == EmptyTable(contexts, sessions, gen)
  }

  lemma StartIsSound(sys: Worlds)
    requires Start(sys)
    ensures SystemInv(sys)
  {
    forall i | 0 <= i < |sys.peers| ensures Exclusive(sys.peers[i].server.table) {
      assert FreshServer(sys.peers[i].server);
    }
  }

  /** `sys` is what a run with fresh handles over reliable channels leads to. */
  ghost predicate Reached(start: Worlds, turns: seq<Turn>, sys: Worlds)
  {
    Start(start) && FreshRun(start, turns) && Run(start, turns) == Some(sys)
  }

  lemma ReachedIsSound(start: Worlds, turns: seq<Turn>, sys: Worlds)
    requires Reached(start, turns, sys)
    ensures SystemInv(sys)
  {
    StartIsSound(start);
    RunKeeps(start, turns);
  }

  // ---------------------------------------------------------------- what that means

  /** find_objects succeeds for every session of the connection, and its context is active. */
  ghost predicate StandsFor(t: SoundTable, conn: Conn)
  {
    var at := Find(t.chandles, conn.handle);
    && at.Some? && t.cactive[at.value]
    && forall s :: 0 <= s < |conn.sessions| && conn.sessions[s].used ==>
         FindObjects(t, conn.handle, conn.sessions[s].handle).Found?
  }

  lemma LinkedStands(t: SoundTable, conn: Conn)
    requires Linked(t, conn)
    ensures StandsFor(t, conn)
  {
    var c :| Names(t, conn.handle, c);
    forall s | 0 <= s < |conn.sessions| && conn.sessions[s].used
      ensures FindObjects(t, conn.handle, conn.sessions[s].handle).Found?
    {
      var d, x := FoundOf(t, conn, s);
    }
  }

  /** In every state of every run with fresh handles over reliable channels: each open connection's stored handle
      finds an active context of its server, and each of its open sessions' handles an active session of that very
      context. */
  lemma HandlesNeverDangle(start: Worlds, turns: seq<Turn>, sys: Worlds, h: nat)
    requires Reached(start, turns, sys) && IsOpen(sys.client, h)
    ensures var conn := sys.client.conns[h];
            conn.index < |sys.peers| && StandsFor(sys.peers[conn.index].server.table, conn)
  {
    hide Reached, StandsFor, Linked, ClientInv, Inv, Exclusive;
    ReachedIsSound(start, turns, sys);
    var conn := sys.client.conns[h];
    assert ConnSound(conn, sys.peers);
    LinkedStands(sys.peers[conn.index].server.table, conn);
  }

  /** ... different connections to one server stand for different contexts ... */
  lemma ContextsAreTheirOwn(start: Worlds, turns: seq<Turn>, sys: Worlds, h: nat, g: nat)
    requires Reached(start, turns, sys) && h != g && IsOpen(sys.client, h) && IsOpen(sys.client, g)
    requires sys.client.conns[h].index == sys.client.conns[g].index
    ensures var i := sys.client.conns[h].index;
            i < |sys.peers|
            && var t := sys.peers[i].server.table;
               Find(t.chandles, sys.client.conns[h].handle) != Find(t.chandles, sys.client.conns[g].handle)
  {
    hide Reached, Linked, ClientInv, Inv, Exclusive;
    ReachedIsSound(start, turns, sys);
    var i := sys.client.conns[h].index;
    assert ConnSound(sys.client.conns[h], sys.peers);
    var c := LinkOf(sys.client.conns, sys.peers, h, i);
    var d := LinkOf(sys.client.conns, sys.peers, g, i);
  }

  /** invoke_command brings the TApp's verdict, and close_session succeeds. */
  ghost predicate Serves(sv: SoundServer, hc: Handle, hs: Handle, cmd: uint32, env: Env)
  {
    var invoked, closed := Serve(sv, InvokeReq(hc, hs, cmd), env), Serve(sv, CloseSessionReq(hc, hs), env);
    && invoked.Reply? && invoked.body.InvokeResp? && (invoked.body.status == SUCCESS <==> env.pullErr == SUCCESS)
    && closed.Reply? && closed.body == CloseSessionResp(SUCCESS)
  }

  lemma FoundIsServed(sv: SoundServer, hc: Handle, hs: Handle, c: nat, x: nat, cmd: uint32, env: Env)
    requires Finds(sv.table, hc, hs, c, x)
    ensures Serves(sv, hc, hs, cmd, env)
  {
    InvokeEffect(sv, hc, hs, cmd, c, x, env);
    CloseSessionEffect(sv, hc, hs, c, x, env);
  }

  /** ... and requests on an open session are served: no assertion of the server fires. */
  lemma OpenSessionsAreServed(start: Worlds, turns: seq<Turn>, sys: Worlds, h: nat, s: nat, cmd: uint32, env: Env)
    requires Reached(start, turns, sys) && IsOpenSession(sys.client, h, s)
    ensures var conn := sys.client.conns[h];
            conn.index < |sys.peers|
            && Serves(sys.peers[conn.index].server, conn.handle, conn.sessions[s].handle, cmd, env)
  {
    hide Reached, Serves, Linked, ClientInv, Inv, Exclusive, Finds;
    ReachedIsSound(start, turns, sys);
    var conn := sys.client.conns[h];
    assert ConnSound(conn, sys.peers);
    var sv := sys.peers[conn.index].server;
    var c, x := FoundOf(sv.table, conn, s);
    FoundIsServed(sv, conn.handle, conn.sessions[s].handle, c, x, cmd, env);
  }

  /** The client's wrong-command branch is dead: whatever state client and server are in, no reply carries the header
      of another command. */
  lemma NeverAnotherCommand(p: Peer, k: Kind, m: Message, room: nat, env: Env)
    requires IsRequest(k, m) && room >= MAX_REPLY
    ensures var v := Judge(k, Answer(p, EncodeMessage(m), room, env).reply);
            v.Good? || v.err == COMM_FAILED || v.err == FAILED
  {
    var mv := AnswerEffect(p, k, m, room, env);
  }
}
