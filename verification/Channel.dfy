/** One request over a reliable channel: the bytes the client packs go through the server's process and come back. */
module Channel {
  import opened Bytes
  import opened Status
  import opened Rc4
  import opened HandlePlugin
  import opened Counting
  import opened Wire
  import opened ServerModel
  import opened ServerRequests
  import opened ServerRuns
  import opened ClientModel
  import opened HandleLinks

  type SoundServer = sv: Server | Inv(sv.table)
    ghost witness (EmptyInv(0, 0, Gen(0, 0, seq(256, _ => 0))); Initial(0, 0, 0, 0, Gen(0, 0, seq(256, _ => 0))))

  /** A server process. It stops for good when its dispatch loop meets an error or an assertion fires. */
  datatype Peer = Peer(server: SoundServer, up: bool)

  datatype Answered = Answered(peer: Peer, reply: Option<seq<byte>>)

  /** What a request does to the server behind the channel, and what comes back. */
  function Answer(p: Peer, request: seq<byte>, room: nat, env: Env): Answered
  {
    if !p.up then Answered(p, None)
    else
      ProcessKeeps(p.server, request, room, env);
      match Process(p.server, request, room, env)
      case Sent(after, bytes) => Answered(Peer(after, true), Some(bytes))
      case Refused(after, _) => Answered(Peer(after, false), None)
      case Stopped(_) => Answered(p.(up := false), None)
  }

  /** A server answers and goes on, or it is down for good. */
  lemma AnswersOrIsDown(p: Peer, request: seq<byte>, room: nat, env: Env)
    ensures var a := Answer(p, request, room, env);
            && (a.reply.Some? <==> p.up && Process(p.server, request, room, env).Sent?)
            && (a.peer.up <==> a.reply.Some?)
            && (!p.up ==> a.peer == p)
  {
  }

  /** The longest reply, to register_memory. */
  const MAX_REPLY: nat := 36

  lemma ReplyFits(m: Message)
    requires !FormOf(m.body).request
    ensures |EncodeMessage(m)| <= MAX_REPLY
  {
    UnpackPack(m, []);
  }

  ghost predicate IsRequest(k: Kind, m: Message)
  {
    k != System && FormOf(m.body) == Form(k, true) && m.hdr.cmd == Command(k)
  }

  /** A request meant for another service changes nothing. */
  lemma WrongAddress(sv: SoundServer, k: Kind, m: Message)
    requires IsRequest(k, m) && (m.hdr.contextId != sv.contextId || m.hdr.smId != sv.smId)
    ensures Accept(sv, EncodeMessage(m)).Rejected?
  {
    assert EncodeMessage(m) + [] == EncodeMessage(m);
    HeaderOfMessage(m, []);
  }

  lemma FailStays(sv: SoundServer, request: Body, env: Env)
    requires FormOf(request).request && Serve(sv, request, env).Fail?
    ensures MoveOf(sv, request) == Stay
  {
  }

  /** A request either does nothing and brings no reply, or amounts to exactly the move it asks for and brings the
      handler's answer. */
  lemma AnswerEffect(p: Peer, k: Kind, m: Message, room: nat, env: Env) returns (mv: Move)
    requires IsRequest(k, m) && room >= MAX_REPLY
    ensures var t, a := p.server.table, Answer(p, EncodeMessage(m), room, env);
            && Legal(t, mv) && a.peer.server.table == Apply(t, mv)
            && (a.reply.None? ==> mv == Stay)
            && (a.reply.Some? ==>
                  var o := Serve(p.server, m.body, env);
                  && mv == MoveOf(p.server, m.body) && o.Reply? && FormOf(o.body) == Form(k, false)
                  && Judge(k, a.reply) == if StatusOf(o.body) == SUCCESS then Good(o.body) else Bad(FAILED))
  {
    mv := Stay;
    var sv := p.server;
    if p.up {
      if m.hdr.contextId != sv.contextId || m.hdr.smId != sv.smId {
        WrongAddress(sv, k, m);
      } else {
        mv := ServedEffect(sv, k, m, room, env);
      }
    }
  }

  lemma ServedEffect(sv: SoundServer, k: Kind, m: Message, room: nat, env: Env) returns (mv: Move)
    requires IsRequest(k, m) && room >= MAX_REPLY && m.hdr == Header(sv.contextId, sv.smId, Command(k))
    ensures Legal(sv.table, mv)
    ensures match Process(sv, EncodeMessage(m), room, env)
            case Stopped(_) => mv == Stay
            case Refused(after, _) => mv == Stay && after.table == sv.table
            case Sent(after, bytes) =>
              var o := Serve(sv, m.body, env);
              && mv == MoveOf(sv, m.body) && after.table == Apply(sv.table, mv)
              && o.Reply? && FormOf(o.body) == Form(k, false)
              && Judge(k, Some(bytes)) == if StatusOf(o.body) == SUCCESS then Good(o.body) else Bad(FAILED)
  {
    AcceptsWellFormed(sv, m);
    ServeMoves(sv, m.body, env);
    hide Serve, Accept, EncodeMessage, MoveOf, Inv;
    var o := Serve(sv, m.body, env);
    mv := Stay;
    match o
    case Halt(_) =>
    case Fail(_, _) => FailStays(sv, m.body, env);
    case Reply(after, body) =>
      mv := MoveOf(sv, m.body);
      ReplyFits(Message(m.hdr, body));
      JudgeReply(k, m.hdr, body);
  }

  // ---------------------------------------------------------------- call by call

  /** An agreed open_context has opened the context whose handle it returns. */
  lemma OpenContextEffect(sv: SoundServer, cid: uint32, env: Env)
    ensures var o, mv := Serve(sv, OpenContextReq(cid), env), MoveOf(sv, OpenContextReq(cid));
            && (o.Reply? && StatusOf(o.body) == SUCCESS ==>
                  mv.Opened? && Legal(sv.table, mv) && mv.c < |Apply(sv.table, mv).chandles|
                  && o.body == OpenContextResp(Apply(sv.table, mv).chandles[mv.c], SUCCESS))
            && (mv.Stay? || mv.Opened?)
  {
  }

  /** close_context on a handle that names a context: it is closed and the answer says so, or the process ends. */
  lemma CloseContextEffect(sv: SoundServer, h: Handle, c: nat, env: Env)
    requires Names(sv.table, h, c)
    ensures var o := Serve(sv, CloseContextReq(h), env);
            o.Reply? ==> o.body == CloseContextResp(SUCCESS) && MoveOf(sv, CloseContextReq(h)) == Closed(c)
  {
  }

  /** An agreed open_session has opened the session whose handle it returns, in the context that was named. */
  lemma OpenSessionEffect(sv: SoundServer, h: Handle, c: nat, taid: Handle, env: Env)
    requires Names(sv.table, h, c)
    ensures var o, mv := Serve(sv, OpenSessionReq(h, taid), env), MoveOf(sv, OpenSessionReq(h, taid));
            && (o.Reply? && StatusOf(o.body) == SUCCESS ==>
                  mv.Attached? && Legal(sv.table, mv) && mv.s < |Apply(sv.table, mv).shandles|
                  && o.body == OpenSessionResp(Apply(sv.table, mv).shandles[mv.s], SUCCESS))
            && (mv.Stay? || (mv.Attached? && mv.c == c && mv.taid == taid))
  {
  }

  /** close_session on handles that find a session: it is detached and the answer says so. */
  lemma CloseSessionEffect(sv: SoundServer, hc: Handle, hs: Handle, c: nat, s: nat, env: Env)
    requires Finds(sv.table, hc, hs, c, s)
    ensures var o := Serve(sv, CloseSessionReq(hc, hs), env);
            o.Reply? && o.body == CloseSessionResp(SUCCESS) && MoveOf(sv, CloseSessionReq(hc, hs)) == Detached(c, s)
  {
  }

  /** invoke_command on such handles reaches the TApp: no assertion fires, and the answer is the TApp's. */
  lemma InvokeEffect(sv: SoundServer, hc: Handle, hs: Handle, cmd: uint32, c: nat, s: nat, env: Env)
    requires Finds(sv.table, hc, hs, c, s)
    ensures var o := Serve(sv, InvokeReq(hc, hs, cmd), env);
            o.Reply? && o.server == sv && (StatusOf(o.body) == SUCCESS <==> env.pullErr == SUCCESS)
  {
  }
}
