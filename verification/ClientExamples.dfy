/** The normal world's two failures, each at an input: a count that leaks, and a session without a table. */
module ClientExamples {
  import opened Bytes
  import opened Status
  import opened HandlePlugin
  import opened Counting
  import opened Wire
  import opened ClientModel
  import opened ClientRuns

  // ---------------------------------------------------------------- a refused open_context

  /** The first open_context of a fresh client, refused: its information slot stays in use with a count of one, and
      there is no connection. */
  lemma ARefusedOpenLeaks(smId: uint32, ids: nat, connections: nat, sessions: nat, cid: uint32, bufs: Buffers,
                          reply: Option<seq<byte>>)
    requires ids > 0 && connections > 0 && cid != 0 && !NoBuffer(bufs) && Judge(OpenContext, reply).Bad?
    ensures var init := Fresh(smId, ids, connections, sessions);
            && ClientInv(init)
            && var r := Perform(init, OpenContextCall(cid, SUCCESS), bufs, reply);
               && r.Returned? && r.err != SUCCESS && r.client.conns == init.conns && r.client.numConns == 0
               && r.client.infos == init.infos[0 := Info(cid, 1, true)] && r.client.leaks == init.leaks[0 := 1]
  {
    hide ClientInv, Judge, EncodeMessage, FindId, UsedConns, UsedSessions, Undisturbed, WireBytes;
    FreshInv(smId, ids, connections, sessions);
    var init := Fresh(smId, ids, connections, sessions);
    assert FindId(init.infos, cid) == None;
    assert Used(init.infos)[0] == false && FirstFree(Used(init.infos)) == Some(0);
    BeginKeeps(init, OpenContextCall(cid, SUCCESS));
  }

  // ---------------------------------------------------------------- two connections under one context id

  function FirstConn(): Conn { ZeroConn().(sessions := [ZeroSession()]) }

  /** A client with one information slot, two connections and one session, as init leaves it. */
  function NoneOpen(sm: uint32): Client { Client(sm, [Info(0, 0, false)], 0, [FirstConn(), ZeroConn()], 0, [0]) }

  function OneOpen(cid: uint32, sm: uint32, h: Handle): Client
  {
    Client(sm, [Info(cid, 1, true)], 1, [Conn(cid, 0, h, [ZeroSession()], 0, true), ZeroConn()], 1, [0])
  }

  function TwoOpen(cid: uint32, sm: uint32, h: Handle, k: Handle): Client
  {
    Client(sm, [Info(cid, 2, true)], 1,
           [Conn(cid, 0, h, [ZeroSession()], 0, true), Conn(cid, 0, k, [], 0, true)], 2, [0])
  }

  function OpenRequest(cid: uint32, sm: uint32): Message
  {
    Message(Header(cid, sm, Command(OpenContext)), OpenContextReq(cid))
  }

  /** The server's agreement to open_context. */
  function Agreed(cid: uint32, sm: uint32, h: Handle): seq<byte>
  {
    EncodeMessage(Message(Header(cid, sm, Command(OpenContext)), OpenContextResp(h, SUCCESS)))
  }

  lemma NoneOpenIsFresh(sm: uint32)
    ensures NoneOpen(sm) == Fresh(sm, 1, 2, 1) && ClientInv(NoneOpen(sm))
  {
    FreshInv(sm, 1, 2, 1);
    assert seq(1, _ => ZeroSession()) == [ZeroSession()];
    assert Fresh(sm, 1, 2, 1).conns == [FirstConn()] + [ZeroConn()];
  }

  /** Half-way through the first open_context, and half-way through the second. */
  function OneAsked(cid: uint32, sm: uint32): Client
  {
    Client(sm, [Info(cid, 1, true)], 1, [FirstConn(), ZeroConn()], 0, [1])
  }

  function TwoAsked(cid: uint32, sm: uint32, h: Handle): Client
  {
    Client(sm, [Info(cid, 2, true)], 1, [Conn(cid, 0, h, [ZeroSession()], 0, true), ZeroConn()], 1, [1])
  }

  lemma OpensFirst(cid: uint32, sm: uint32, h: Handle)
    requires cid != 0
    ensures Begin(NoneOpen(sm), OpenContextCall(cid, SUCCESS)) == Ask(OneAsked(cid, sm), 0, OpenRequest(cid, sm))
    ensures OpenContextFinish(OneAsked(cid, sm), 0, Some(Agreed(cid, sm, h))) ==
            Returned(OneOpen(cid, sm, h), SUCCESS, 0)
  {
    JudgeReply(OpenContext, Header(cid, sm, Command(OpenContext)), OpenContextResp(h, SUCCESS));
    assert FindId(NoneOpen(sm).infos, cid) == None && FirstFree(Used(NoneOpen(sm).infos)) == Some(0);
    assert FirstFree(UsedConns(OneAsked(cid, sm).conns)) == Some(0);
  }

  lemma OpensSecond(cid: uint32, sm: uint32, h: Handle, k: Handle)
    requires cid != 0
    ensures Begin(OneOpen(cid, sm, h), OpenContextCall(cid, SUCCESS)) ==
            Ask(TwoAsked(cid, sm, h), 0, OpenRequest(cid, sm))
    ensures OpenContextFinish(TwoAsked(cid, sm, h), 0, Some(Agreed(cid, sm, k))) ==
            Returned(TwoOpen(cid, sm, h, k), SUCCESS, 1)
  {
    JudgeReply(OpenContext, Header(cid, sm, Command(OpenContext)), OpenContextResp(k, SUCCESS));
    assert FindId(OneOpen(cid, sm, h).infos, cid) == Some(0);
    assert UsedConns(TwoAsked(cid, sm, h).conns) == [true, false] && FirstFree([true, false]) == Some(1);
  }

  const LARGE: Buffers := Buffers(64, 64)

  lemma RequestsFit()
    ensures WireBytes(Form(OpenContext, true)) <= 64 && WireBytes(Form(OpenSession, true)) <= 64
  {
  }

  lemma OpeningsPerformed(cid: uint32, sm: uint32, h: Handle, k: Handle)
    requires cid != 0
    ensures ClientInv(NoneOpen(sm)) && ClientInv(OneOpen(cid, sm, h))
    ensures var call := OpenContextCall(cid, SUCCESS);
            && Perform(NoneOpen(sm), call, LARGE, Some(Agreed(cid, sm, h))) == Returned(OneOpen(cid, sm, h), SUCCESS, 0)
            && Perform(OneOpen(cid, sm, h), call, LARGE, Some(Agreed(cid, sm, k))) ==
               Returned(TwoOpen(cid, sm, h, k), SUCCESS, 1)
  {
    hide ClientInv, Begin, OpenContextFinish, EncodeMessage, Agreed, WireBytes, Judge, Fresh;
    var call := OpenContextCall(cid, SUCCESS);
    NoneOpenIsFresh(sm);
    RequestsFit();
    UnpackPack(OpenRequest(cid, sm), []);
    OpensFirst(cid, sm, h);
    PerformKeeps(NoneOpen(sm), call, LARGE, Some(Agreed(cid, sm, h)));
    OpensSecond(cid, sm, h, k);
  }

  /** The server's agreement to open_session. */
  function SessionAgreed(cid: uint32, sm: uint32, hs: Handle): seq<byte>
  {
    EncodeMessage(Message(Header(cid, sm, Command(OpenSession)), OpenSessionResp(hs, SUCCESS)))
  }

  /** Two contexts opened under one id, then a session agreed on the second connection: the process ends, whatever
      handles the server gives out. */
  lemma ASecondConnectionAborts(cid: uint32, sm: uint32, h: Handle, k: Handle, hs: Handle, taid: Handle)
    requires cid != 0
    ensures ClientInv(Fresh(sm, 1, 2, 1))
    ensures var openings := [Event(OpenContextCall(cid, SUCCESS), LARGE, Some(Agreed(cid, sm, h))),
                             Event(OpenContextCall(cid, SUCCESS), LARGE, Some(Agreed(cid, sm, k)))];
            && Run(Fresh(sm, 1, 2, 1), openings) == Some(TwoOpen(cid, sm, h, k))
            && Run(Fresh(sm, 1, 2, 1),
                   openings + [Event(OpenSessionCall(1, taid), LARGE, Some(SessionAgreed(cid, sm, hs)))]) == None
  {
    hide ClientInv, Perform, EncodeMessage, Agreed, SessionAgreed, WireBytes, Judge, Fresh;
    NoneOpenIsFresh(sm);
    OpeningsPerformed(cid, sm, h, k);
    var a := Event(OpenContextCall(cid, SUCCESS), LARGE, Some(Agreed(cid, sm, h)));
    var b := Event(OpenContextCall(cid, SUCCESS), LARGE, Some(Agreed(cid, sm, k)));
    var c := Event(OpenSessionCall(1, taid), LARGE, Some(SessionAgreed(cid, sm, hs)));
    PerformKeeps(OneOpen(cid, sm, h), b.call, b.bufs, b.reply);
    TheSecondAborts(cid, sm, h, k, hs, taid);
    assert [a, b][1..] == [b] && [b][1..] == [];
    assert Run(OneOpen(cid, sm, h), [b]) == Run(TwoOpen(cid, sm, h, k), []);
    assert [a, b] + [c] == [a, b, c] && [a, b, c][1..] == [b, c] && [b, c][1..] == [c];
    assert Run(OneOpen(cid, sm, h), [b, c]) == Run(TwoOpen(cid, sm, h, k), [c]);
  }

  lemma TheSecondAborts(cid: uint32, sm: uint32, h: Handle, k: Handle, hs: Handle, taid: Handle)
    requires ClientInv(TwoOpen(cid, sm, h, k))
    ensures Perform(TwoOpen(cid, sm, h, k), OpenSessionCall(1, taid), LARGE, Some(SessionAgreed(cid, sm, hs))).Aborted?
  {
    hide ClientInv, Perform, EncodeMessage, Judge, WireBytes;
    JudgeReply(OpenSession, Header(cid, sm, Command(OpenSession)), OpenSessionResp(hs, SUCCESS));
    RequestsFit();
    PerformKeeps(TwoOpen(cid, sm, h, k), OpenSessionCall(1, taid), LARGE, Some(SessionAgreed(cid, sm, hs)));
  }
}
