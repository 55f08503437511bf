/** The theorems about client and servers are not about nothing: a run that opens a context and a session in it, and
    one that opens two contexts at one server. */
module FirstRun {
  import opened Bytes
  import opened Status
  import opened Rc4
  import opened HandlePlugin
  import opened Counting
  import opened Wire
  import opened ServerModel
  import opened ServerRequests
  import opened ServerRuns
  import opened ClientModel
  import C = ClientRuns
  import opened ClientExamples
  import opened HandleLinks
  import opened Channel
  import opened EndToEnd

  /** An answer of the handler that fits goes out. */
  lemma AnsweredWhenServed(p: Peer, k: Kind, m: Message, room: nat, env: Env)
    requires p.up && IsRequest(k, m) &&
             m.hdr == Header(p.server.contextId, p.server.smId, Command(k)) && room >= MAX_REPLY
    requires Serve(p.server, m.body, env).Reply?
    ensures Inv(Serve(p.server, m.body, env).server.table)
    ensures var o := Serve(p.server, m.body, env);
            Answer(p, EncodeMessage(m), room, env) ==
            Answered(Peer(o.server, true), Some(EncodeMessage(Wire.Message(m.hdr, o.body))))
  {
    hide Serve, Accept, EncodeMessage;
    AcceptsWellFormed(p.server, m);
    ServeMoves(p.server, m.body, env);
    ServeKeepsInv(p.server, m.body, env);
    ReplyFits(Wire.Message(m.hdr, Serve(p.server, m.body, env).body));
  }

  /** A table of one slot each: handles cannot clash. */
  lemma OneSlotIsFresh(before: Peer, after: Peer)
    requires Shape(before.server.table) && Shape(after.server.table)
    requires |before.server.table.cactive| == |after.server.table.cactive| == 1
    requires |before.server.table.sactive| == |after.server.table.sactive| == 1
    ensures HandlesFresh(before, after)
  {
  }

  /** The client after its first call. */
  function Opened1(cid: uint32, sm: uint32, h: Handle): Client
  {
    Client(sm, [Info(cid, 1, true)], 1, [Conn(cid, 0, h, [ZeroSession()], 0, true)], 1, [0])
  }

  function Opened2(cid: uint32, sm: uint32, h: Handle, hs: Handle): Client
  {
    Client(sm, [Info(cid, 1, true)], 1, [Conn(cid, 0, h, [CSession(hs, true)], 1, true)], 1, [0])
  }

  lemma FirstBegin(cid: uint32, sm: uint32)
    requires cid != 0
    ensures var cl := Fresh(sm, 1, 1, 1);
            ClientInv(cl)
            && Begin(cl, OpenContextCall(cid, SUCCESS)) ==
               Ask(Client(sm, [Info(cid, 1, true)], 1, [ZeroConn().(sessions := [ZeroSession()])], 0, [1]), 0,
                   Wire.Message(Header(cid, sm, Command(OpenContext)), OpenContextReq(cid)))
  {
    C.FreshInv(sm, 1, 1, 1);
    var cl := Fresh(sm, 1, 1, 1);
    assert seq(1, _ => ZeroSession()) == [ZeroSession()];
    assert cl.conns == [ZeroConn().(sessions := [ZeroSession()])];
    assert FindId(cl.infos, cid) == None && FirstFree(Used(cl.infos)) == Some(0);
  }

  const SEND_ROOM: nat := 64

  lemma FirstFinish(cid: uint32, sm: uint32, h: Handle, reply: Option<seq<byte>>)
    requires Judge(OpenContext, reply) == Good(OpenContextResp(h, SUCCESS))
    ensures var cl := Client(sm, [Info(cid, 1, true)], 1, [ZeroConn().(sessions := [ZeroSession()])], 0, [1]);
            OpenContextFinish(cl, 0, reply) == Returned(Opened1(cid, sm, h), SUCCESS, 0)
  {
    var cl := Client(sm, [Info(cid, 1, true)], 1, [ZeroConn().(sessions := [ZeroSession()])], 0, [1]);
    assert FirstFree(UsedConns(cl.conns)) == Some(0);
  }

  lemma SecondFinish(cid: uint32, sm: uint32, h: Handle, hs: Handle, reply: Option<seq<byte>>)
    requires Judge(OpenSession, reply) == Good(OpenSessionResp(hs, SUCCESS))
    ensures OpenSessionFinish(Opened1(cid, sm, h), 0, reply) == Returned(Opened2(cid, sm, h, hs), SUCCESS, 0)
  {
    assert FirstFree(UsedSessions([ZeroSession()])) == Some(0);
    assert [ZeroSession()][0 := CSession(hs, true)] == [CSession(hs, true)];
    var conns := Opened1(cid, sm, h).conns;
    assert conns[0 := Opened2(cid, sm, h, hs).conns[0]] == Opened2(cid, sm, h, hs).conns;
  }

  /** The one slot's table after open_context. */
  ghost predicate HasContext(sv: Server, cid: uint32, sm: uint32, h: Handle)
  {
    var t := sv.table;
    && Inv(t) && sv.contextId == cid && sv.smId == sm && t.chandles == [h] && t.cactive == [true] && t.lists == [[]]
    && t.connected == [0] && t.sactive == [false] && t.numContexts == 1
  }

  /** open_context at a fresh server. */
  lemma FirstAnswer(cid: uint32, sm: uint32, gen: Gen, env: Env)
    returns (m: Message, sv: SoundServer, h: Handle, reply: seq<byte>)
    ensures Inv(Initial(cid, sm, 1, 1, gen).table)
    ensures m == Wire.Message(Header(cid, sm, Command(OpenContext)), OpenContextReq(cid))
    ensures Answer(Peer(Initial(cid, sm, 1, 1, gen), true), EncodeMessage(m), MAX_REPLY, env) ==
            Answered(Peer(sv, true), Some(reply))
    ensures HasContext(sv, cid, sm, h) && Judge(OpenContext, Some(reply)) == Good(OpenContextResp(h, SUCCESS))
    ensures |EncodeMessage(m)| <= SEND_ROOM
  {
    InitialInv(cid, sm, 1, 1, gen);
    m := Wire.Message(Header(cid, sm, Command(OpenContext)), OpenContextReq(cid));
    var first;
    first, h := OpensContext(cid, sm, gen, env);
    sv := first.server;
    reply := EncodeMessage(Wire.Message(m.hdr, first.body));
    hide Serve, EncodeMessage, Judge, Answer;
    AnsweredWhenServed(Peer(Initial(cid, sm, 1, 1, gen), true), OpenContext, m, MAX_REPLY, env);
    JudgeReply(OpenContext, m.hdr, first.body);
    UnpackPack(m, []);
  }

  /** One call, from what the client asks to what it makes of the answer. */
  lemma CallStep(cl: SoundClient, p: SoundServer, q: SoundServer, call: Call, m: Message, mid: Client, reply: seq<byte>,
                 cl2: Client, v: nat, env: Env)
    requires ClientShape(cl) && |cl.infos| == 1 && Begin(cl, call) == Ask(mid, 0, m) && |EncodeMessage(m)| <= SEND_ROOM
    requires Answer(Peer(p, true), EncodeMessage(m), MAX_REPLY, env) == Answered(Peer(q, true), Some(reply))
    requires Asked(mid, call, 0) && Finish(mid, call, 0, Some(reply)) == Returned(cl2, SUCCESS, v)
    ensures ClientInv(cl2)
    ensures EndToEnd.Step(Worlds(cl, [Peer(p, true)]), call, SEND_ROOM, MAX_REPLY, env) ==
            Stepped(Worlds(cl2, [Peer(q, true)]), SUCCESS, v)
  {
    hide EncodeMessage, Judge, ClientInv, Inv, Begin, Answer, Finish;
    C.BeginKeeps(cl, call);
    C.FinishKeeps(mid, call, 0, Some(reply));
    assert [Peer(p, true)][0 := Peer(q, true)] == [Peer(q, true)];
  }

  lemma FirstStep(cid: uint32, sm: uint32, gen: Gen, env: Env)
    returns (start: Worlds, sys: Worlds, sv: SoundServer, h: Handle)
    requires cid != 0
    ensures Start(start) && HasContext(sv, cid, sm, h) && StepFresh(start, sys)
    ensures EndToEnd.Step(start, OpenContextCall(cid, SUCCESS), SEND_ROOM, MAX_REPLY, env) == Stepped(sys, SUCCESS, 0)
    ensures sys.client == Opened1(cid, sm, h) && sys.peers == [Peer(sv, true)]
  {
    var m, reply;
    m, sv, h, reply := FirstAnswer(cid, sm, gen, env);
    FirstBegin(cid, sm);
    var p, q := Peer(Initial(cid, sm, 1, 1, gen), true), Peer(sv, true);
    start := Worlds(Fresh(sm, 1, 1, 1), [p]);
    FirstFinish(cid, sm, h, Some(reply));
    StartsFresh(start, cid, sm, gen);
    OneSlotIsFresh(p, q);
    hide EncodeMessage, Judge, ClientInv, Inv, Begin, Answer, OpenContextFinish,
      HandlesFresh, Fresh, Start, EndToEnd.Step;
    var mid := Begin(start.client, OpenContextCall(cid, SUCCESS)).client;
    CallStep(start.client, p.server, sv, OpenContextCall(cid, SUCCESS), m, mid, reply, Opened1(cid, sm, h), 0, env);
    sys := Worlds(Opened1(cid, sm, h), [q]);
  }

  lemma StartsFresh(start: Worlds, cid: uint32, sm: uint32, gen: Gen)
    requires start.client == Fresh(sm, 1, 1, 1) && |start.peers| == 1
    requires start.peers[0].server == Initial(cid, sm, 1, 1, gen)
    ensures Start(start)
  {
    assert FreshServer(start.peers[0].server);
  }

  lemma SessionRequestFits()
    ensures WireBytes(Form(OpenSession, true)) <= SEND_ROOM
  {
  }

  /** open_session at that server. */
  lemma SecondAnswer(sv: SoundServer, cid: uint32, sm: uint32, h: Handle, taid: Handle, env: Env)
    returns (m: Message, sv': SoundServer, hs: Handle, reply: seq<byte>)
    requires HasContext(sv, cid, sm, h) && env.loadErr == SUCCESS && env.initErr == SUCCESS
    ensures m == Wire.Message(Header(cid, sm, Command(OpenSession)), OpenSessionReq(h, taid))
    ensures Answer(Peer(sv, true), EncodeMessage(m), MAX_REPLY, env) == Answered(Peer(sv', true), Some(reply))
    ensures |sv'.table.cactive| == 1 && |sv'.table.sactive| == 1
    ensures Judge(OpenSession, Some(reply)) == Good(OpenSessionResp(hs, SUCCESS))
    ensures |EncodeMessage(m)| <= SEND_ROOM
  {
    assert Shape(sv.table);
    hide Serve, EncodeMessage, Judge, Answer, MoveOf, Apply, Inv, Legal, WireBytes;
    m := Wire.Message(Header(cid, sm, Command(OpenSession)), OpenSessionReq(h, taid));
    var second := OpensSession(sv, h, taid, env);
    ServeMoves(sv, m.body, env);
    MoveKeepsInv(sv.table, MoveOf(sv, m.body));
    SessionRequestFits();
    sv', hs := second.server, second.body.handle;
    reply := EncodeMessage(Wire.Message(m.hdr, second.body));
    AnsweredWhenServed(Peer(sv, true), OpenSession, m, MAX_REPLY, env);
    JudgeReply(OpenSession, m.hdr, second.body);
    UnpackPack(m, []);
  }

  lemma Shapes(sv: SoundServer)
    ensures Shape(sv.table)
  {
  }

  lemma SecondBegin(cid: uint32, sm: uint32, h: Handle, taid: Handle)
    ensures Begin(Opened1(cid, sm, h), OpenSessionCall(0, taid)) ==
            Ask(Opened1(cid, sm, h), 0, Wire.Message(Header(cid, sm, Command(OpenSession)), OpenSessionReq(h, taid)))
  {
  }

  lemma SecondStep(sys: Worlds, sv: SoundServer, cid: uint32, sm: uint32, h: Handle, taid: Handle, env: Env)
    returns (sys2: Worlds)
    requires HasContext(sv, cid, sm, h) && env.loadErr == SUCCESS && env.initErr == SUCCESS
    requires sys.client == Opened1(cid, sm, h) && sys.peers == [Peer(sv, true)]
    ensures Wired(sys) && StepFresh(sys, sys2) && IsOpenSession(sys2.client, 0, 0)
    ensures EndToEnd.Step(sys, OpenSessionCall(0, taid), SEND_ROOM, MAX_REPLY, env) == Stepped(sys2, SUCCESS, 0)
  {
    assert |sv.table.cactive| == |sv.table.sactive| == 1;
    hide EncodeMessage, Judge, ClientInv, Inv, Answer, OpenSessionFinish,
      HandlesFresh, Begin, HasContext, EndToEnd.Step;
    var m, sv', hs, reply := SecondAnswer(sv, cid, sm, h, taid, env);
    var q := Peer(sv', true);
    SecondFinish(cid, sm, h, hs, Some(reply));
    Shapes(sv);
    Shapes(sv');
    OneSlotIsFresh(sys.peers[0], q);
    var call := OpenSessionCall(0, taid);
    SecondBegin(cid, sm, h, taid);
    CallStep(sys.client, sv, sv', call, m, sys.client, reply, Opened2(cid, sm, h, hs), 0, env);
    sys2 := Worlds(Opened2(cid, sm, h, hs), [q]);
  }

  lemma TwoTurns(start: Worlds, one: Worlds, sys: Worlds, a: Turn, b: Turn)
    requires Wired(start) && Wired(one) && a.room >= MAX_REPLY && b.room >= MAX_REPLY
    requires EndToEnd.Step(start, a.call, a.sendRoom, a.room, a.env).Stepped?
    requires EndToEnd.Step(start, a.call, a.sendRoom, a.room, a.env).sys == one
    requires EndToEnd.Step(one, b.call, b.sendRoom, b.room, b.env).Stepped?
    requires EndToEnd.Step(one, b.call, b.sendRoom, b.room, b.env).sys == sys
    ensures EndToEnd.Run(start, [a, b]) == Some(sys)
    ensures FreshRun(start, [a, b]) <==> StepFresh(start, one) && StepFresh(one, sys)
  {
    hide EndToEnd.Step, StepFresh, ClientInv, Inv;
    EndToEnd.StepIsWired(one, b);
    assert [a, b][1..] == [b] && [b][1..] == [];
    assert EndToEnd.Run(one, [b]) == EndToEnd.Run(sys, []) == Some(sys);
    assert FreshRun(sys, []) && (FreshRun(one, [b]) <==> StepFresh(one, sys));
  }

  /** With one slot of each kind on either side, from any state of the generator and for any TApp that loads and
      starts: a run with fresh handles that ends with a session open. */
  lemma ASessionCanBeOpened(cid: uint32, sm: uint32, gen: Gen, taid: Handle, env: Env)
    returns (start: Worlds, turns: seq<Turn>, sys: Worlds)
    requires cid != 0 && env.loadErr == SUCCESS && env.initErr == SUCCESS
    ensures |turns| == 2 && Reached(start, turns, sys) && IsOpenSession(sys.client, 0, 0)
  {
    var one, sv, h;
    start, one, sv, h := FirstStep(cid, sm, gen, env);
    sys := SecondStep(one, sv, cid, sm, h, taid, env);
    hide EndToEnd.Step, Start, StepFresh, ClientInv, Inv, HasContext;
    var a := Turn(OpenContextCall(cid, SUCCESS), SEND_ROOM, MAX_REPLY, env);
    var b := Turn(OpenSessionCall(0, taid), SEND_ROOM, MAX_REPLY, env);
    turns := [a, b];
    TwoTurns(start, one, sys, a, b);
  }

  // ---------------------------------------------------------------- two contexts at one server

  /** open_context at a server with room, on its free slot `c`. */
  lemma OpenAnswer(sv: SoundServer, c: nat, env: Env) returns (q: SoundServer)
    requires FirstFree(sv.table.cactive) == Some(c) && Shape(sv.table) && sv.table.numContexts < |sv.table.cactive|
    ensures c < |sv.table.cactive| == |sv.table.chandles| && q == sv.(table := Activate(sv.table, c))
    ensures Answer(Peer(sv, true), EncodeMessage(OpenRequest(sv.contextId, sv.smId)), MAX_REPLY, env) ==
            Answered(Peer(q, true), Some(Agreed(sv.contextId, sv.smId, Draw(sv.table.gen, sv.table.chandles[c]))))
  {
    hide Serve, EncodeMessage, Answer, Draw;
    var o := OpensInSlot(sv, c, env);
    AnsweredWhenServed(Peer(sv, true), OpenContext, OpenRequest(sv.contextId, sv.smId), MAX_REPLY, env);
    q := o.server;
  }

  /** The first of two contexts is opened: its handle must differ from what the other slot holds. */
  lemma FreshFirst(before: Peer, after: Peer, a: Handle, b: Handle)
    requires Shape(before.server.table) && Shape(after.server.table)
    requires before.server.table.cactive == [false, false] && after.server.table.cactive == [true, false]
    requires before.server.table.sactive == after.server.table.sactive == [false]
    requires after.server.table.chandles == [a, b]
    ensures HandlesFresh(before, after) <==> a != b
  {
    assert OnlyAt([a, b], 0) <==> [a, b][1] != [a, b][0];
  }

  lemma FreshSecond(before: Peer, after: Peer, a: Handle, b: Handle)
    requires Shape(before.server.table) && Shape(after.server.table)
    requires before.server.table.cactive == [true, false] && after.server.table.cactive == [true, true]
    requires before.server.table.sactive == after.server.table.sactive == [false]
    requires after.server.table.chandles == [a, b]
    ensures HandlesFresh(before, after) <==> a != b
  {
    assert OnlyAt([a, b], 1) <==> [a, b][0] != [a, b][1];
  }

  /** The two openings at the server, and when the handles drawn are fresh. */
  lemma TwoAnswers(cid: uint32, sm: uint32, gen: Gen, env: Env) returns (p: SoundServer, q: SoundServer, r: SoundServer)
    ensures p == Initial(cid, sm, 2, 1, gen)
    ensures Answer(Peer(p, true), EncodeMessage(OpenRequest(cid, sm)), MAX_REPLY, env) ==
            Answered(Peer(q, true), Some(Agreed(cid, sm, Block(gen, 0))))
    ensures Answer(Peer(q, true), EncodeMessage(OpenRequest(cid, sm)), MAX_REPLY, env) ==
            Answered(Peer(r, true), Some(Agreed(cid, sm, Block(gen, 1))))
    ensures HandlesFresh(Peer(p, true), Peer(q, true)) <==> Block(gen, 0) != ZeroHandle()
    ensures HandlesFresh(Peer(q, true), Peer(r, true)) <==> Block(gen, 0) != Block(gen, 1)
  {
    hide Serve, EncodeMessage, Answer, Draw, Drawn, Block, Advance, Keystream, Agreed, HandlesFresh, Inv, OpenRequest;
    InitialInv(cid, sm, 2, 1, gen);
    p := Initial(cid, sm, 2, 1, gen);
    assert p.table.cactive == [false, false] && FirstFree([false, false]) == Some(0);
    ZeroTakesBlock(gen, 0);
    q := OpenAnswer(p, 0, env);
    assert q.table.cactive == [true, false] && FirstFree([true, false]) == Some(1);
    ZeroTakesBlock(gen, 1);
    FirstStates(gen);
    r := OpenAnswer(q, 1, env);
    FreshFirst(Peer(p, true), Peer(q, true), Block(gen, 0), ZeroHandle());
    FreshSecond(Peer(q, true), Peer(r, true), Block(gen, 0), Block(gen, 1));
  }

  lemma RequestFits(cid: uint32, sm: uint32)
    ensures |EncodeMessage(OpenRequest(cid, sm))| <= SEND_ROOM
  {
    RequestsFit();
    UnpackPack(OpenRequest(cid, sm), []);
  }

  lemma PairStarts(start: Worlds, cid: uint32, sm: uint32, gen: Gen)
    requires start.client == NoneOpen(sm) && |start.peers| == 1
    requires start.peers[0].server == Initial(cid, sm, 2, 1, gen)
    ensures Start(start)
  {
    assert FreshServer(start.peers[0].server);
  }

  /** Two openings of one context id, at a server with room for two contexts: the run has fresh handles exactly if the
      generator's first block is neither zero nor equal to its second. */
  lemma TwoContextsCanBeOpened(cid: uint32, sm: uint32, gen: Gen, env: Env)
    returns (start: Worlds, turns: seq<Turn>, sys: Worlds)
    requires cid != 0
    ensures |turns| == 2 && Start(start) && EndToEnd.Run(start, turns) == Some(sys)
    ensures FreshRun(start, turns) <==> Block(gen, 0) != ZeroHandle() && Block(gen, 0) != Block(gen, 1)
    ensures IsOpen(sys.client, 0) && IsOpen(sys.client, 1) && sys.client.conns[0].index == sys.client.conns[1].index
  {
    hide EndToEnd.Step, ClientInv, Inv, Answer, Begin, OpenContextFinish, Judge, Agreed, Block, HandlesFresh,
      EncodeMessage, OpenRequest, Initial, Start, Fresh, FreshRun, EndToEnd.Run;
    var h, k := Block(gen, 0), Block(gen, 1);
    var p, q, r := TwoAnswers(cid, sm, gen, env);
    NoneOpenIsFresh(sm);
    start := Worlds(NoneOpen(sm), [Peer(p, true)]);
    PairStarts(start, cid, sm, gen);
    var call, m := OpenContextCall(cid, SUCCESS), OpenRequest(cid, sm);
    RequestFits(cid, sm);
    OpensFirst(cid, sm, h);
    CallStep(NoneOpen(sm), p, q, call, m, OneAsked(cid, sm), Agreed(cid, sm, h), OneOpen(cid, sm, h), 0, env);
    OpensSecond(cid, sm, h, k);
    CallStep(OneOpen(cid, sm, h), q, r, call, m, TwoAsked(cid, sm, h), Agreed(cid, sm, k), TwoOpen(cid, sm, h, k), 1,
             env);
    var one := Worlds(OneOpen(cid, sm, h), [Peer(q, true)]);
    sys := Worlds(TwoOpen(cid, sm, h, k), [Peer(r, true)]);
    var a := Turn(OpenContextCall(cid, SUCCESS), SEND_ROOM, MAX_REPLY, env);
    turns := [a, a];
    TwoTurns(start, one, sys, a, a);
  }
}
