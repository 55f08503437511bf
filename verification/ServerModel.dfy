/** The secure world's connection table as a value, and what each request does to it. */
module ServerModel {
  import opened Bytes
  import opened Status
  import opened Rc4
  import opened HandlePlugin
  import opened Counting

  datatype SlotName = ContextSlot(i: nat) | SessionSlot(i: nat)

  /** The table of contexts and sessions. `lists[c]` is the chain of session slots that hangs off context `c`.
      `draws` and `stale` are history: the handles drawn so far, and the closes answered while the context
      still had sessions. */
  datatype Table = Table(
    cactive: seq<bool>, lists: seq<seq<nat>>, connected: seq<nat>, chandles: seq<Handle>, numContexts: nat,
    sactive: seq<bool>, taids: seq<Handle>, shandles: seq<Handle>, numSessions: nat,
    gen: Gen, draws: seq<SlotName>, stale: nat)

  ghost predicate Distinct(l: seq<nat>) { forall i, j :: 0 <= i < j < |l| ==> l[i] != l[j] }

  ghost predicate Listed(lists: seq<seq<nat>>, s: nat)
  {
    exists c :: 0 <= c < |lists| && s in lists[c]
  }

  /** No session slot is listed twice, in one context or in two, and the listed slots are the active ones. */
  ghost predicate Chains(lists: seq<seq<nat>>, active: seq<bool>)
  {
    && (forall c :: 0 <= c < |lists| ==> Distinct(lists[c]))
    && (forall c, s {:trigger s in lists[c]} :: 0 <= c < |lists| && s in lists[c] ==> s < |active| && active[s])
    && (forall c, d, s {:trigger s in lists[c], s in lists[d]} ::
          0 <= c < |lists| && 0 <= d < |lists| && s in lists[c] && s in lists[d] ==> c == d)
    && (forall s :: 0 <= s < |active| && active[s] ==> Listed(lists, s))
  }

  ghost predicate Shape(t: Table)
  {
    && |t.cactive| == |t.lists| == |t.connected| == |t.chandles|
    && |t.sactive| == |t.taids| == |t.shandles|
  }

  /** Each context's own count is the length of its chain, and closed contexts have none. */
  ghost predicate Lengths(t: Table)
    requires Shape(t)
  {
    && (forall c :: 0 <= c < |t.lists| ==> t.connected[c] == |t.lists[c]|)
    && (forall c :: 0 <= c < |t.lists| && !t.cactive[c] ==> t.lists[c] == [])
  }

  ghost predicate Counters(t: Table)
  {
    && t.numSessions == Count(t.sactive)
    && t.numSessions == Sum(t.connected)
    && t.numContexts + t.stale == Count(t.cactive)
  }

  /** The invariant of the table. */
  ghost predicate Inv(t: Table)
  {
    Shape(t) && Chains(t.lists, t.sactive) && Lengths(t) && Counters(t)
  }

  // ---------------------------------------------------------------- the moves

  /** open_context, on the free slot `c`. */
  function Activate(t: Table, c: nat): Table
    requires Shape(t) && c < |t.cactive|
  {
    t.(cactive := t.cactive[c := true], chandles := t.chandles[c := Draw(t.gen, t.chandles[c])],
       numContexts := t.numContexts + 1, gen := Drawn(t.gen), draws := t.draws + [ContextSlot(c)])
  }

  /** open_session: slot `s` goes to the end of context `c`'s chain. */
  function Attach(t: Table, c: nat, s: nat, taid: Handle): Table
    requires Shape(t) && c < |t.lists| && s < |t.sactive|
  {
    t.(sactive := t.sactive[s := true], taids := t.taids[s := taid],
       shandles := t.shandles[s := Draw(t.gen, t.shandles[s])],
       lists := t.lists[c := t.lists[c] + [s]], connected := t.connected[c := t.connected[c] + 1],
       numSessions := t.numSessions + 1, gen := Drawn(t.gen), draws := t.draws + [SessionSlot(s)])
  }

  /** remove_session: slot `s` leaves context `c`'s chain; its handle bytes stay. */
  function Detach(t: Table, c: nat, s: nat): Table
    requires Shape(t) && c < |t.lists| && s < |t.sactive| && t.connected[c] > 0 && t.numSessions > 0
  {
    t.(sactive := t.sactive[s := false], taids := t.taids[s := ZeroHandle()],
       lists := t.lists[c := Without(t.lists[c], s)], connected := t.connected[c := t.connected[c] - 1],
       numSessions := t.numSessions - 1)
  }

  /** The last part of remove_context: only the context's own fields. */
  function Deactivate(t: Table, c: nat): Table
    requires Shape(t) && c < |t.cactive|
  {
    t.(cactive := t.cactive[c := false], connected := t.connected[c := 0])
  }

  /** remove_context without force: refused while sessions are open. */
  function RemoveContext(t: Table, c: nat): Table
    requires Shape(t) && c < |t.cactive|
  {
    if t.connected[c] > 0 then t else Deactivate(t, c)
  }

  /** close_context: the removal's verdict is ignored and the count goes down all the same. */
  function CloseSlot(t: Table, c: nat): Table
    requires Shape(t) && c < |t.cactive| && t.numContexts > 0
  {
    RemoveContext(t, c).(numContexts := t.numContexts - 1,
                         stale := if t.connected[c] > 0 then t.stale + 1 else t.stale)
  }

  /** Detaching the head of the chain until none is left. */
  function DetachAll(t: Table, c: nat): Table
    requires Inv(t) && c < |t.lists|
    decreases |t.lists[c]|
  {
    if t.lists[c] == [] then t
    else
      DetachIsDefined(t, c, 0);
      DetachKeepsInv(t, c, 0);
      DetachAll(Detach(t, c, t.lists[c][0]), c)
  }

  // ---------------------------------------------------------------- every move keeps the invariant

  lemma ActivateKeepsInv(t: Table, c: nat)
    requires Inv(t) && c < |t.cactive| && !t.cactive[c]
    ensures Inv(Activate(t, c))
  {
    CountUpdate(t.cactive, c, true);
  }

  lemma InAppend(l: seq<nat>, s: nat, x: nat)
    ensures x in l + [s] <==> x in l || x == s
  {
    if x in l {
      var i :| 0 <= i < |l| && l[i] == x;
      assert (l + [s])[i] == x;
    }
    assert (l + [s])[|l|] == s;
  }

  lemma ChainsAppend(lists: seq<seq<nat>>, active: seq<bool>, c: nat, s: nat)
    requires Chains(lists, active) && c < |lists| && s < |active| && !active[s]
    ensures Chains(lists[c := lists[c] + [s]], active[s := true])
  {
    var after := lists[c := lists[c] + [s]];
    forall d, x: nat | 0 <= d < |lists|
      ensures x in after[d] <==> x in lists[d] || (d == c && x == s)
    {
      InAppend(lists[c], s, x);
    }
    forall i | 0 <= i < |lists[c]| ensures lists[c][i] != s {
      assert lists[c][i] in lists[c];
    }
    var flags := active[s := true];
    assert forall d :: 0 <= d < |after| ==> Distinct(after[d]);
    forall d, x | 0 <= d < |after| && x in after[d] ensures x < |flags| && flags[x] {
      InAppend(lists[c], s, x);
      if x != s { assert x in lists[d]; }
    }
    assert forall d, e, x {:trigger x in after[d], x in after[e]} ::
      0 <= d < |after| && 0 <= e < |after| && x in after[d] && x in after[e] ==> d == e;
    forall x | 0 <= x < |active| && active[s := true][x] ensures Listed(after, x) {
      if x == s {
        assert x in after[c];
      } else {
        assert active[x] && Listed(lists, x);
        var d :| 0 <= d < |lists| && x in lists[d];
        assert x in after[d];
      }
    }
  }

  /** The chain after removing position `k`, and what that does to membership. */
  lemma ChainWithout(l: seq<nat>, k: nat)
    requires Distinct(l) && k < |l|
    ensures Without(l, l[k]) == l[..k] + l[k + 1..]
    ensures Distinct(l[..k] + l[k + 1..])
    ensures forall x: nat :: x in l[..k] + l[k + 1..] <==> x in l && x != l[k]
  {
    WithoutAt(l, k);
    var w := l[..k] + l[k + 1..];
    forall i, j | 0 <= i < j < |w| ensures w[i] != w[j] {
      WithoutIndex(l, k, i);
      WithoutIndex(l, k, j);
    }
    forall x: nat ensures x in w <==> x in l && x != l[k] {
      InWithout(l, k, x);
    }
  }

  lemma WithoutIndex(l: seq<nat>, k: nat, i: nat)
    requires k < |l| && i < |l| - 1
    ensures (l[..k] + l[k + 1..])[i] == l[if i < k then i else i + 1]
  {
  }

  lemma InWithout(l: seq<nat>, k: nat, x: nat)
    requires Distinct(l) && k < |l|
    ensures x in l[..k] + l[k + 1..] <==> x in l && x != l[k]
  {
    var w := l[..k] + l[k + 1..];
    if x in w {
      var i :| 0 <= i < |w| && w[i] == x;
      var j := if i < k then i else i + 1;
      assert l[j] == x && j != k;
    }
    if x in l && x != l[k] {
      var i :| 0 <= i < |l| && l[i] == x;
      assert w[if i < k then i else i - 1] == x;
    }
  }

  lemma ChainsRemove(lists: seq<seq<nat>>, active: seq<bool>, c: nat, k: nat)
    requires Chains(lists, active) && c < |lists| && k < |lists[c]| && lists[c][k] < |active|
    ensures Chains(lists[c := Without(lists[c], lists[c][k])], active[lists[c][k] := false])
  {
    var s := lists[c][k];
    ChainWithout(lists[c], k);
    var after := lists[c := Without(lists[c], s)];
    assert s in lists[c];
    forall d, x: nat | 0 <= d < |lists|
      ensures x in after[d] <==> x in lists[d] && x != s
    {
    }
    var flags := active[s := false];
    assert forall d :: 0 <= d < |after| ==> Distinct(after[d]);
    forall d, x | 0 <= d < |after| && x in after[d] ensures x < |flags| && flags[x] {
      assert x in lists[d];
    }
    assert forall d, e, x {:trigger x in after[d], x in after[e]} ::
      0 <= d < |after| && 0 <= e < |after| && x in after[d] && x in after[e] ==> d == e;
    forall x | 0 <= x < |active| && active[s := false][x] ensures Listed(after, x) {
      assert active[x] && Listed(lists, x);
      var d :| 0 <= d < |lists| && x in lists[d];
      assert x in after[d];
    }
  }

  lemma AttachKeepsInv(t: Table, c: nat, s: nat, taid: Handle)
    requires Inv(t) && c < |t.lists| && t.cactive[c] && s < |t.sactive| && !t.sactive[s]
    ensures Inv(Attach(t, c, s, taid))
    ensures t.numSessions < |t.sactive| && t.connected[c] < |t.sactive|
  {
    SumAtLeast(t.connected, c);
    CountUpdate(t.sactive, s, true);
    CountBound(t.sactive);
    SumUpdate(t.connected, c, t.connected[c] + 1);
    ChainsAppend(t.lists, t.sactive, c, s);
  }

  lemma DetachIsDefined(t: Table, c: nat, k: nat)
    requires Inv(t) && c < |t.lists| && k < |t.lists[c]|
    ensures t.connected[c] > 0 && t.numSessions > 0 && t.lists[c][k] < |t.sactive| && t.sactive[t.lists[c][k]]
  {
    assert t.lists[c][k] in t.lists[c];
    SumAtLeast(t.connected, c);
  }

  lemma DetachKeepsInv(t: Table, c: nat, k: nat)
    requires Inv(t) && c < |t.lists| && k < |t.lists[c]| && t.lists[c][k] < |t.sactive|
    requires t.connected[c] > 0 && t.numSessions > 0
    ensures Inv(Detach(t, c, t.lists[c][k]))
    ensures |Detach(t, c, t.lists[c][k]).lists[c]| == |t.lists[c]| - 1
  {
    var s := t.lists[c][k];
    DetachIsDefined(t, c, k);
    CountUpdate(t.sactive, s, false);
    SumUpdate(t.connected, c, t.connected[c] - 1);
    ChainsRemove(t.lists, t.sactive, c, k);
    ChainWithout(t.lists[c], k);
  }

  lemma CloseSlotKeepsInv(t: Table, c: nat)
    requires Inv(t) && c < |t.cactive| && t.cactive[c] && t.numContexts > 0
    ensures Inv(CloseSlot(t, c))
  {
    if t.connected[c] == 0 {
      CountUpdate(t.cactive, c, false);
      assert t.connected[c := 0] == t.connected;
    }
  }

  /** What forced removal of a context's sessions does, all at once. */
  ghost predicate Emptied(t: Table, u: Table, c: nat)
    requires Shape(t) && c < |t.lists|
  {
    && |u.sactive| == |u.taids| == |t.sactive|
    && u == t.(lists := t.lists[c := []], connected := t.connected[c := 0], numSessions := u.numSessions,
               sactive := u.sactive, taids := u.taids)
    && u.numSessions == t.numSessions - |t.lists[c]|
    && (forall s :: 0 <= s < |t.sactive| ==> u.sactive[s] == (t.sactive[s] && s !in t.lists[c]))
    && (forall s :: 0 <= s < |t.sactive| ==> u.taids[s] == if s in t.lists[c] then ZeroHandle() else t.taids[s])
  }

  /** The chain empties, exactly its sessions become inactive, the global count drops by the old length, and no
      other context changes. */
  lemma {:induction false} DetachAllEmpties(t: Table, c: nat)
    requires Inv(t) && c < |t.lists|
    ensures Inv(DetachAll(t, c)) && Emptied(t, DetachAll(t, c), c)
    decreases |t.lists[c]|
  {
    var l := t.lists[c];
    if l == [] {
      assert t.lists[c := []] == t.lists && t.connected[c := 0] == t.connected;
    } else {
      DetachIsDefined(t, c, 0);
      DetachKeepsInv(t, c, 0);
      var t1 := Detach(t, c, l[0]);
      assert t1.lists[c] == l[1..];
      DetachAllEmpties(t1, c);
      assert forall x :: x in l <==> x == l[0] || x in l[1..];
    }
  }

  // ---------------------------------------------------------------- moves as values

  lemma ListedIsCounted(t: Table, c: nat, s: nat)
    requires Inv(t) && c < |t.lists| && s in t.lists[c]
    ensures s < |t.sactive| && t.connected[c] > 0 && t.numSessions > 0
  {
    var k :| 0 <= k < |t.lists[c]| && t.lists[c][k] == s;
    DetachIsDefined(t, c, k);
  }

  datatype Move =
    | Stay
    | Opened(c: nat)
    | Attached(c: nat, s: nat, taid: Handle)
    | Detached(c: nat, s: nat)
    | Closed(c: nat)

  ghost predicate Legal(t: Table, m: Move)
  {
    match m
    case Stay => true
    case Opened(c) => c < |t.cactive| && !t.cactive[c]
    case Attached(c, s, _) => c < |t.cactive| && t.cactive[c] && s < |t.sactive| && !t.sactive[s]
    case Detached(c, s) => c < |t.lists| && s in t.lists[c]
    case Closed(c) => c < |t.cactive| && t.cactive[c] && t.numContexts > 0
  }

  ghost function Apply(t: Table, m: Move): Table
    requires Inv(t) && Legal(t, m)
  {
    match m
    case Stay => t
    case Opened(c) => Activate(t, c)
    case Attached(c, s, taid) => Attach(t, c, s, taid)
    case Detached(c, s) => ListedIsCounted(t, c, s); Detach(t, c, s)
    case Closed(c) => CloseSlot(t, c)
  }

  lemma MoveKeepsInv(t: Table, m: Move)
    requires Inv(t) && Legal(t, m)
    ensures Inv(Apply(t, m))
    ensures |Apply(t, m).cactive| == |t.cactive| && |Apply(t, m).sactive| == |t.sactive|
  {
    match m
    case Stay =>
    case Opened(c) => ActivateKeepsInv(t, c);
    case Attached(c, s, taid) => AttachKeepsInv(t, c, s, taid);
    case Detached(c, s) =>
      var k :| 0 <= k < |t.lists[c]| && t.lists[c][k] == s;
      DetachIsDefined(t, c, k);
      DetachKeepsInv(t, c, k);
    case Closed(c) => CloseSlotKeepsInv(t, c);
  }

  /** The table as init leaves it. */
  function EmptyTable(contexts: nat, sessions: nat, gen: Gen): Table
  {
    Table(seq(contexts, _ => false), seq(contexts, _ => []), seq(contexts, _ => 0), seq(contexts, _ => ZeroHandle()), 0,
          seq(sessions, _ => false), seq(sessions, _ => ZeroHandle()), seq(sessions, _ => ZeroHandle()), 0,
          gen, [], 0)
  }

  lemma EmptyInv(contexts: nat, sessions: nat, gen: Gen)
    ensures Inv(EmptyTable(contexts, sessions, gen))
  {
    var t := EmptyTable(contexts, sessions, gen);
    CountBound(t.cactive);
    CountBound(t.sactive);
    SumOfZeros(t.connected);
  }

  type SoundTable = t: Table | Inv(t)
    ghost witness
      (EmptyInv(0, 0, Gen(0, 0, seq(256, _ => 0))); EmptyTable(0, 0, Gen(0, 0, seq(256, _ => 0))))

  ghost function After(t: SoundTable, m: Move): SoundTable
  {
    if Legal(t, m) then
      MoveKeepsInv(t, m);
      Apply(t, m)
    else t
  }
}
