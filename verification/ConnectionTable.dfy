/** The connection table in memory: contexts, sessions, the chains between them, and the two counters. */
module ConnectionTable {
  import opened Status
  import opened Rc4
  import opened HandlePlugin
  import opened Counting
  import opened ServerModel
  import opened SessionChains

  /** tApiConnectionTable without its handle bytes. `model` is the table it stands for. */
  class Connections {
    const ctable: ContextSlots
    const stable: SessionSlots
    var numContexts: int
    var numSessions: int
    ghost var model: SoundTable

    /** Every context heads its chain. */
    ghost predicate Links(lists: seq<seq<nat>>)
      reads ctable`start, stable`next, stable`prev
    {
      |lists| == |ctable| && forall c :: 0 <= c < |ctable| ==> Linked(stable, ctable[c], lists[c])
    }

    /** Flags and counters agree with `t`. */
    ghost predicate Flags(t: Table)
      reads this`numContexts, this`numSessions, ctable`active, ctable`connected, stable`active, stable`taid
    {
      && |ctable| == |t.cactive| == |t.connected| && |stable| == |t.sactive| == |t.taids|
      && numContexts == t.numContexts && numSessions == t.numSessions
      && (forall c :: 0 <= c < |ctable| ==> ctable[c].active == t.cactive[c] && ctable[c].connected == t.connected[c])
      && (forall s :: 0 <= s < |stable| ==> stable[s].active == t.sactive[s] && stable[s].taid == t.taids[s])
    }

    ghost function Start(c: nat): Session?
      reads ctable`start
    {
      if c < |ctable| then ctable[c].start else null
    }

    ghost function Slot(s: nat): Session? { if s < |stable| then stable[s] else null }

    // -------------------------------------------------------------- init

    /** The memset of init, and the index each session carries. */
    constructor (contexts: nat, sessions: nat, ghost gen: Gen)
      ensures Links(model.lists) && Flags(model) && model == EmptyTable(contexts, sessions, gen)
      ensures fresh(ctable) && fresh(stable)
    {
      var cs := NewContexts(contexts);
      var ss := NewSessions(sessions);
      EmptyInv(contexts, sessions, gen);
      ctable, stable := cs, ss;
      numContexts, numSessions := 0, 0;
      model := EmptyTable(contexts, sessions, gen);
    }

    // -------------------------------------------------------------- remove_session

    /** The surgery, seen from all the chains: only chain `c` changes. */
    method UnlinkAt(ghost lists: seq<seq<nat>>, c: nat, s: nat, ghost k: nat) returns (next: Session?)
      requires Links(lists) && c < |lists| && k < |lists[c]| && lists[c][k] == s && Distinct(lists[c])
      requires Apart(lists, c)
      modifies ctable`start, stable`next, stable`prev
      ensures Links(lists[c := lists[c][..k] + lists[c][k + 1..]])
      ensures old(Start(c)) == Slot(s) ==> next == Start(c)
    {
      ghost var l := lists[c];
      next := Unlink(stable, ctable[c], stable[s], l, k);
      AtWithout(stable, l, k, 0);
      forall d | 0 <= d < |ctable| && d != c ensures Linked(stable, ctable[d], lists[d]) {
        assert old(Linked(stable, ctable[d], lists[d]));
      }
    }

    method Unchain(c: nat, s: nat, ghost t: SoundTable) returns (next: Session?)
      requires Links(t.lists) && Legal(t, Detached(c, s))
      modifies ctable`start, stable`next, stable`prev
      ensures Links(After(t, Detached(c, s)).lists)
      ensures old(Start(c)) == Slot(s) ==> next == Start(c)
    {
      hide *;
      ghost var k := Removal(t, c, s);
      next := UnlinkAt(t.lists, c, s, k);
    }

    /** Flags, TApp id and counters. */
    method Release(c: nat, s: nat, ghost t: SoundTable)
      requires Flags(t) && Legal(t, Detached(c, s))
      modifies this`numSessions, ctable`connected, stable`active, stable`taid
      ensures Flags(After(t, Detached(c, s)))
    {
      ListedIsCounted(t, c, s);
      stable[s].active := false;
      stable[s].taid := ZeroHandle();
      assert ctable[c].connected > 0;
      ctable[c].connected := ctable[c].connected - 1;
      assert numSessions > 0;
      numSessions := numSessions - 1;
    }

    /** remove_session. */
    method RemoveSession(c: nat, s: nat) returns (next: Session?)
      requires Links(model.lists) && Flags(model) && Legal(model, Detached(c, s))
      modifies this`numSessions, this`model, ctable, stable
      ensures Links(model.lists) && Flags(model) && model == After(old(model), Detached(c, s))
      ensures old(Start(c)) == Slot(s) ==> next == Start(c)
    {
      hide *;
      ghost var t := model;
      next := Unchain(c, s, t);
      Release(c, s, t);
      model := After(t, Detached(c, s));
    }

    // -------------------------------------------------------------- remove_context

    lemma HeadIs(c: nat)
      requires Links(model.lists) && Flags(model) && Start(c) != null
      ensures c < |ctable| && ctable[c].start == Start(c) && Start(c) == Slot(Start(c).idx)
      ensures Legal(model, Detached(c, Start(c).idx))
      ensures var u := After(model, Detached(c, Start(c).idx));
              Drained(u, c) == Drained(model, c) && ChainLength(u, c) < ChainLength(model, c)
    {
      var s := model.lists[c][0];
      assert s in model.lists[c];
      DetachIsDefined(model, c, 0);
      DetachKeepsInv(model, c, 0);
    }

    lemma NoHead(c: nat)
      requires Links(model.lists) && Flags(model) && c < |ctable| && Start(c) == null
      ensures Drained(model, c) == model && ChainLength(model, c) == 0
    {
    }

    /** The forced part: head after head, until the chain is empty. */
    method RemoveSessions(c: nat)
      requires Links(model.lists) && Flags(model) && Start(c) != null
      modifies this`numSessions, this`model, ctable, stable
      ensures Links(model.lists) && Flags(model) && model == Drained(old(model), c) && Start(c) == null
    {
      hide *;
      ghost var t := model;
      HeadIs(c);
      var next := RemoveSession(c, ctable[c].start.idx);
      while next != null
        invariant Links(model.lists) && Flags(model) && c < |ctable|
        invariant Drained(model, c) == Drained(t, c) && next == Start(c)
        decreases ChainLength(model, c)
      {
        HeadIs(c);
        next := RemoveSession(c, ctable[c].start.idx);
      }
      NoHead(c);
    }

    lemma Counted(c: nat)
      requires Links(model.lists) && Flags(model) && c < |ctable|
      ensures ctable[c].connected == ChainLength(model, c) && (ctable[c].connected > 0 <==> Start(c) != null)
    {
    }

    /** What remove_context does to the context's own fields. */
    method ShutDown(c: nat, ghost t: SoundTable)
      requires Links(t.lists) && Flags(t) && c < |ctable| && Start(c) == null
      modifies ctable`active, ctable`start, ctable`connected
      ensures Links(t.lists) && Flags(DeactivatedAt(t, c))
    {
      ctable[c].active := false;
      ctable[c].start := null;
      ctable[c].connected := 0;
    }

    /** remove_context. Without force a context with open sessions is refused and nothing changes; otherwise its
        sessions go first. The counter of contexts is the caller's. */
    method RemoveContext(c: nat, force: bool) returns (err: int)
      requires Links(model.lists) && Flags(model) && c < |ctable|
      modifies this`numSessions, this`model, ctable, stable
      ensures err == if !force && old(ChainLength(model, c)) > 0 then FAILED else SUCCESS
      ensures err == SUCCESS ==> model == Drained(old(model), c) && Flags(DeactivatedAt(model, c))
      ensures err != SUCCESS ==> model == old(model) && Flags(model)
      ensures Links(model.lists)
    {
      assert FAILED != SUCCESS;
      hide *;
      Counted(c);
      if ctable[c].connected > 0 {
        if !force {
          return FAILED;
        }
        RemoveSessions(c);
      } else {
        NoHead(c);
      }
      ShutDown(c, model);
      return SUCCESS;
    }

    lemma ClosedTable(c: nat, err: int, t: SoundTable) returns (u: Table)
      requires c < |t.cactive| && t.cactive[c] && t.numContexts > 0
      requires err == if ChainLength(t, c) > 0 then FAILED else SUCCESS
      ensures err == SUCCESS ==> u == DeactivatedAt(Drained(t, c), c)
      ensures err != SUCCESS ==> u == t
      ensures err == SUCCESS ==> Drained(t, c) == t
      ensures Legal(t, Closed(c)) && After(t, Closed(c)).lists == t.lists
      ensures u.numContexts == t.numContexts
      ensures After(t, Closed(c)) == u.(numContexts := u.numContexts - 1, stale := After(t, Closed(c)).stale)
    {
      u := if err == SUCCESS then DeactivatedAt(t, c) else t;
    }

    lemma Sizes()
      requires Flags(model)
      ensures |model.lists| == |model.cactive| == |ctable| == |model.connected| == |model.chandles|
      ensures |model.sactive| == |stable| == |model.shandles|
      ensures numContexts == model.numContexts
    {
    }

    method CountOneLess(ghost u: Table, ghost v: Table)
      requires Flags(u) && u.numContexts > 0 && v == u.(numContexts := u.numContexts - 1, stale := v.stale)
      modifies this`numContexts
      ensures Flags(v)
    {
      numContexts := numContexts - 1;
    }

    /** The end of close_context: the verdict of remove_context is ignored; the count goes down in any case, and
        the result is false if it cannot. */
    method CloseContext(c: nat) returns (ok: bool)
      requires Links(model.lists) && Flags(model) && c < |model.cactive| && model.cactive[c]
      modifies this`numContexts, this`numSessions, this`model, ctable, stable
      ensures ok <==> old(model).numContexts > 0
      ensures ok ==> Links(model.lists) && Flags(model) && model == After(old(model), Closed(c))
    {
      hide *;
      ghost var t := model;
      Sizes();
      var err := RemoveContext(c, false);
      if numContexts == 0 {
        return false;
      }
      ghost var u := ClosedTable(c, err, t);
      CountOneLess(u, After(t, Closed(c)));
      model := After(t, Closed(c));
      return true;
    }

    // -------------------------------------------------------------- open_context and open_session

    /** The scan for a context that is not active; the table's size if there is none. */
    method FreeContext() returns (i: nat)
      requires Flags(model)
      ensures FirstFree(model.cactive) == if i == |ctable| then None else Some(i)
    {
      i := 0;
      while i < |ctable| && ctable[i].active
        invariant i <= |ctable| && FirstFree(model.cactive) == FirstFreeFrom(model.cactive, i)
      {
        i := i + 1;
      }
    }

    method FreeSession() returns (i: nat)
      requires Flags(model)
      ensures FirstFree(model.sactive) == if i == |stable| then None else Some(i)
    {
      i := 0;
      while i < |stable| && stable[i].active
        invariant i <= |stable| && FirstFree(model.sactive) == FirstFreeFrom(model.sactive, i)
      {
        i := i + 1;
      }
    }

    method Occupy(c: nat, ghost t: SoundTable)
      requires Flags(t) && Legal(t, Opened(c)) && numContexts < |ctable|
      modifies this`numContexts, ctable`active
      ensures Flags(After(t, Opened(c)))
    {
      ctable[c].active := true;
      assert numContexts < |ctable|;
      numContexts := numContexts + 1;
    }

    lemma OpenedLists(t: SoundTable, c: nat)
      ensures After(t, Opened(c)).lists == t.lists
    {
    }

    /** The part of open_context that sets the object; the caller has found room. */
    method OpenContext(c: nat)
      requires Links(model.lists) && Flags(model) && Legal(model, Opened(c)) && numContexts < |ctable|
      modifies this`numContexts, this`model, ctable
      ensures Links(model.lists) && Flags(model) && model == After(old(model), Opened(c))
    {
      hide *;
      ghost var t := model;
      OpenedLists(t, c);
      Occupy(c, t);
      model := After(t, Opened(c));
    }

    method Engage(c: nat, s: nat, taid: Handle, ghost t: SoundTable)
      requires Flags(t) && Legal(t, Attached(c, s, taid))
      modifies this`numSessions, ctable`connected, stable`active, stable`taid
      ensures Flags(After(t, Attached(c, s, taid)))
    {
      AttachKeepsInv(t, c, s, taid);
      stable[s].active := true;
      stable[s].taid := taid;
      assert ctable[c].connected < |stable|;
      ctable[c].connected := ctable[c].connected + 1;
      assert numSessions < |stable|;
      numSessions := numSessions + 1;
    }

    /** The new link, seen from all the chains: only chain `c` changes. */
    method LinkAt(ghost lists: seq<seq<nat>>, c: nat, s: nat)
      requires Links(lists) && c < |lists| && s < |stable| && Distinct(lists[c]) && Apart(lists, c)
      requires forall d :: 0 <= d < |lists| ==> s !in lists[d]
      modifies ctable`start, stable`next, stable`prev
      ensures Links(lists[c := lists[c] + [s]])
    {
      Link(stable, ctable[c], stable[s], lists[c]);
      forall d | 0 <= d < |ctable| && d != c ensures Linked(stable, ctable[d], lists[d]) {
        assert old(Linked(stable, ctable[d], lists[d]));
      }
    }

    lemma Addition(c: nat, s: nat, taid: Handle)
      requires Flags(model) && Legal(model, Attached(c, s, taid))
      ensures c < |model.lists| && s < |stable| && Distinct(model.lists[c]) && Apart(model.lists, c)
      ensures forall d :: 0 <= d < |model.lists| ==> s !in model.lists[d]
      ensures After(model, Attached(c, s, taid)).lists == model.lists[c := model.lists[c] + [s]]
    {
      ChainsApart(model.lists, model.sactive, c);
    }

    /** The part of open_session that configures the session and adds it to its context. */
    method OpenSession(c: nat, s: nat, taid: Handle)
      requires Links(model.lists) && Flags(model) && Legal(model, Attached(c, s, taid))
      modifies this`numSessions, this`model, ctable, stable
      ensures Links(model.lists) && Flags(model) && model == After(old(model), Attached(c, s, taid))
    {
      hide *;
      ghost var t, u := model, After(model, Attached(c, s, taid));
      Addition(c, s, taid);
      LinkAt(t.lists, c, s);
      Engage(c, s, taid, t);
      model := u;
    }

    // -------------------------------------------------------------- reading the table

    predicate IsActive(c: nat)
      requires Flags(model) && c < |ctable|
      reads this, ctable, stable
      ensures c < |model.cactive| && IsActive(c) == model.cactive[c]
    {
      ctable[c].active
    }

    predicate IsActiveSession(s: nat)
      requires Flags(model) && s < |stable|
      reads this, ctable, stable
      ensures s < |model.sactive| && IsActiveSession(s) == model.sactive[s]
    {
      stable[s].active
    }

    function Connected(c: nat): (n: nat)
      requires Flags(model) && c < |ctable|
      reads this, ctable, stable
      ensures c < |model.connected| && n == model.connected[c]
    {
      ctable[c].connected
    }

    /** Whether session `s` hangs off context `c`. */
    method IsAttached(c: nat, s: nat) returns (found: bool)
      requires Links(model.lists) && Flags(model) && c < |ctable| && s < |stable|
      ensures c < |model.lists| && (found <==> s in model.lists[c])
    {
      found := OnChain(stable, ctable[c], stable[s], model.lists[c]);
    }

    /** The walk of check_nw while nothing is old enough to expire: it looks at every session of every active
        context, and there must be a first one. */
    method EveryContextHasSession() returns (ok: bool)
      requires Links(model.lists) && Flags(model)
      ensures ok <==> forall c :: 0 <= c < |model.cactive| && model.cactive[c] ==> model.lists[c] != []
    {
      for i := 0 to |ctable|
        invariant forall c :: 0 <= c < i && model.cactive[c] ==> model.lists[c] != []
      {
        if ctable[i].active {
          if ctable[i].start == null {
            return false;
          }
          VisitSessions(i);
        }
      }
      return true;
    }

    method VisitSessions(c: nat)
      requires Links(model.lists) && c < |ctable| && ctable[c].start != null
    {
      var sess := ctable[c].start;
      ghost var k := 0;
      while sess != null
        invariant 0 <= k <= |model.lists[c]| && sess == At(stable, model.lists[c], k)
        decreases |model.lists[c]| - k
      {
        sess := sess.next;
        k := k + 1;
      }
    }
  }

  /** No session of chain `c` is on another chain. */
  ghost predicate Apart(lists: seq<seq<nat>>, c: nat)
  {
    c < |lists| && forall d, i :: 0 <= d < |lists| && d != c && 0 <= i < |lists[d]| ==> lists[d][i] !in lists[c]
  }

  lemma ChainsApart(lists: seq<seq<nat>>, active: seq<bool>, c: nat)
    requires Chains(lists, active) && c < |lists|
    ensures Apart(lists, c)
  {
    forall d, k | 0 <= d < |lists| && d != c && 0 <= k < |lists[d]| ensures lists[d][k] !in lists[c] {
      assert lists[d][k] in lists[d];
    }
  }

  /** Where the session stands, what remains of the chains, and that no other chain is concerned. */
  lemma Removal(t: SoundTable, c: nat, s: nat) returns (k: nat)
    requires Legal(t, Detached(c, s))
    ensures c < |t.lists| && k < |t.lists[c]| && t.lists[c][k] == s && Distinct(t.lists[c]) && Apart(t.lists, c)
    ensures After(t, Detached(c, s)).lists == t.lists[c := t.lists[c][..k] + t.lists[c][k + 1..]]
  {
    var l := t.lists[c];
    k :| 0 <= k < |l| && l[k] == s;
    ChainWithout(l, k);
    ChainsApart(t.lists, t.sactive, c);
  }

  function ChainLength(t: Table, c: nat): nat { if c < |t.lists| then |t.lists[c]| else 0 }

  /** The table once forced removal has emptied chain `c`. */
  ghost function Drained(t: SoundTable, c: nat): SoundTable
  {
    if c < |t.lists| then
      DetachAllEmpties(t, c);
      DetachAll(t, c)
    else t
  }

  ghost function DeactivatedAt(t: SoundTable, c: nat): Table
  {
    if c < |t.cactive| then Deactivate(t, c) else t
  }

  method NewContexts(n: nat) returns (cs: ContextSlots)
    ensures |cs| == n && forall c :: 0 <= c < n ==>
      fresh(cs[c]) && !cs[c].active && cs[c].start == null && cs[c].connected == 0
  {
    cs := [];
    for i := 0 to n
      invariant |cs| == i && forall c :: 0 <= c < i ==>
        fresh(cs[c]) && !cs[c].active && cs[c].start == null && cs[c].connected == 0
    {
      var c := new Context(i);
      cs := cs + [c];
    }
  }

  method NewSessions(n: nat) returns (ss: SessionSlots)
    ensures |ss| == n && forall s :: 0 <= s < n ==>
      fresh(ss[s]) && !ss[s].active && ss[s].taid == ZeroHandle() && ss[s].next == null && ss[s].prev == null
  {
    ss := [];
    for i := 0 to n
      invariant |ss| == i && forall s :: 0 <= s < i ==>
        fresh(ss[s]) && !ss[s].active && ss[s].taid == ZeroHandle() && ss[s].next == null && ss[s].prev == null
    {
      var s := new Session(i);
      ss := ss + [s];
    }
  }
}
