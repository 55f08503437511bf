/** What a client's stored handles mean in the server's table, and which moves of the table keep that meaning. */
module HandleLinks {
  import opened Bytes
  import opened Status
  import opened Rc4
  import opened HandlePlugin
  import opened Counting
  import opened ServerModel
  import opened ServerRequests
  import opened ServerRuns
  import opened ClientModel

  /** `h` finds an active context. */
  ghost predicate Names(t: Table, h: Handle, c: nat)
  {
    Shape(t) && Find(t.chandles, h) == Some(c) && t.cactive[c]
  }

  /** Both handles find active slots, and the session hangs off the context. */
  ghost predicate Finds(t: Table, context: Handle, session: Handle, c: nat, s: nat)
  {
    Shape(t) && FindObjects(t, context, session) == Found(c, s)
  }

  /** A sound table whose active slots have handles of their own. */
  ghost predicate Exclusive(t: Table) { Inv(t) && UniqueHandles(t) }

  /** One move of the table that gives out only fresh handles. */
  ghost predicate FreshMove(t: Table, m: Move, u: Table)
  {
    && Exclusive(t) && Legal(t, m) && u == Apply(t, m)
    && Shape(u) && |u.cactive| == |t.cactive| && |u.sactive| == |t.sactive| && FreshHandles(t, u)
  }

  lemma FreshMoveIsExclusive(t: Table, m: Move, u: Table)
    requires FreshMove(t, m, u)
    ensures Exclusive(u)
    ensures OneDraw(t.chandles, u.chandles, t.cactive, u.cactive)
    ensures OneDraw(t.shandles, u.shandles, t.sactive, u.sactive)
  {
    MoveDrawsOnce(t, m);
    UniqueHandlesKept(t, m);
  }

  /** An active slot keeps its handle, and that handle finds it. */
  lemma ActiveHandleKept(t: Table, m: Move, u: Table, c: nat)
    requires FreshMove(t, m, u) && c < |t.cactive| && t.cactive[c] && u.cactive[c]
    ensures u.chandles[c] == t.chandles[c] && Find(u.chandles, t.chandles[c]) == Some(c)
  {
    FreshMoveIsExclusive(t, m, u);
    hide Inv, Apply, Legal, FreshHandles;
    FindUnique(u.chandles, c);
  }

  lemma ActiveSessionHandleKept(t: Table, m: Move, u: Table, s: nat)
    requires FreshMove(t, m, u) && s < |t.sactive| && t.sactive[s] && u.sactive[s]
    ensures u.shandles[s] == t.shandles[s] && Find(u.shandles, t.shandles[s]) == Some(s)
  {
    FreshMoveIsExclusive(t, m, u);
    hide Inv, Apply, Legal, FreshHandles;
    FindUnique(u.shandles, s);
  }

  lemma StaysActive(t: Table, m: Move, c: nat)
    requires Inv(t) && Legal(t, m) && c < |t.cactive| && t.cactive[c] && m != Closed(c)
    ensures c < |Apply(t, m).cactive| && Apply(t, m).cactive[c]
  {
  }

  /** A named context stays named by the same handle, unless it is the one that is closed. */
  lemma NameKept(t: Table, m: Move, u: Table, h: Handle, c: nat)
    requires FreshMove(t, m, u) && Names(t, h, c) && m != Closed(c)
    ensures Names(u, h, c)
  {
    StaysActive(t, m, c);
    ActiveHandleKept(t, m, u, c);
  }

  lemma StaysListed(t: Table, m: Move, c: nat, s: nat)
    requires Inv(t) && Legal(t, m) && c < |t.lists| && s in t.lists[c] && m != Detached(c, s)
    ensures var u := Apply(t, m); c < |u.lists| && s in u.lists[c]
  {
    match m
    case Attached(d, x, _) => InAppend(t.lists[c], x, s);
    case Detached(d, x) =>
      var k :| 0 <= k < |t.lists[d]| && t.lists[d][k] == x;
      ChainWithout(t.lists[d], k);
    case _ =>
  }

  /** A session that can be found stays found, unless it or its context is the one that goes. */
  lemma FindKept(t: Table, m: Move, u: Table, context: Handle, session: Handle, c: nat, s: nat)
    requires FreshMove(t, m, u) && Finds(t, context, session, c, s) && m != Closed(c) && m != Detached(c, s)
    ensures Finds(u, context, session, c, s)
  {
    NameKept(t, m, u, context, c);
    StaysListed(t, m, c, s);
    FreshMoveIsExclusive(t, m, u);
    assert s in u.lists[c];
    assert u.sactive[s];
    ActiveSessionHandleKept(t, m, u, s);
  }

  /** The handle given out by open_context finds the new context, and no named context has it. */
  lemma NewName(t: Table, m: Move, u: Table, c: nat)
    requires FreshMove(t, m, u) && m == Opened(c)
    ensures c < |u.chandles| && Names(u, u.chandles[c], c)
    ensures forall h, d :: Names(t, h, d) ==> h != u.chandles[c]
  {
    FreshMoveIsExclusive(t, m, u);
    FindUnique(u.chandles, c);
    forall h, d | Names(t, h, d) ensures h != u.chandles[c] {
      NameKept(t, m, u, h, d);
    }
  }

  /** The handle given out by open_session finds the new session, and no session found before has it. */
  lemma NewSession(t: Table, m: Move, u: Table, context: Handle, c: nat, s: nat, taid: Handle)
    requires FreshMove(t, m, u) && m == Attached(c, s, taid) && Names(t, context, c)
    ensures s < |u.shandles| && Finds(u, context, u.shandles[s], c, s)
    ensures forall hc, hs, d, x :: Finds(t, hc, hs, d, x) ==> hs != u.shandles[s]
  {
    NameKept(t, m, u, context, c);
    FreshMoveIsExclusive(t, m, u);
    FindUnique(u.shandles, s);
    InAppend(t.lists[c], s, s);
    forall hc, hs, d, x | Finds(t, hc, hs, d, x) ensures hs != u.shandles[s] {
      ActiveSessionHandleKept(t, m, u, x);
    }
  }
}
