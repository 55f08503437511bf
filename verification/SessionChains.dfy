/** The session slots and the doubly linked chains threaded through them. */
module SessionChains {
  import opened HandlePlugin
  import opened Counting
  import opened ServerModel

  /** tApiSessionTable. */
  class Session {
    const idx: nat
    var active: bool
    var taid: Handle
    var next: Session?
    var prev: Session?

    constructor (idx: nat)
      ensures this.idx == idx && !active && taid == ZeroHandle() && next == null && prev == null
    {
      this.idx, active, taid, next, prev := idx, false, ZeroHandle(), null, null;
    }
  }

  /** tApiContextTable. `slot` is its position in the table. */
  class Context {
    ghost const slot: nat
    var active: bool
    var start: Session?
    var connected: nat

    constructor (ghost slot: nat)
      ensures this.slot == slot && !active && start == null && connected == 0
    {
      this.slot, active, start, connected := slot, false, null, 0;
    }
  }

  ghost predicate Numbered(stable: seq<Session>) { forall s :: 0 <= s < |stable| ==> stable[s].idx == s }

  ghost predicate Placed(ctable: seq<Context>) { forall c :: 0 <= c < |ctable| ==> ctable[c].slot == c }

  type SessionSlots = ss: seq<Session> | Numbered(ss) witness []

  type ContextSlots = cs: seq<Context> | Placed(cs) witness []

  /** The session at position `k` of the chain `l`, null beyond its ends. */
  ghost function At(stable: SessionSlots, l: seq<nat>, k: int): Session?
  {
    if 0 <= k < |l| && l[k] < |stable| then stable[l[k]] else null
  }

  /** Context `c` heads exactly the chain `l`: start, next and prev all agree with it. */
  ghost predicate Linked(stable: SessionSlots, c: Context, l: seq<nat>)
    reads c`start, stable`next, stable`prev
  {
    && (forall k :: 0 <= k < |l| ==> l[k] < |stable|)
    && c.start == At(stable, l, 0)
    && (forall k :: 0 <= k < |l| ==>
          stable[l[k]].next == At(stable, l, k + 1) && stable[l[k]].prev == At(stable, l, k - 1))
  }

  /** The links of a chain with position `k` cut out and its neighbours joined. */
  ghost predicate CutAt(stable: SessionSlots, c: Context, l: seq<nat>, k: nat)
    requires k < |l| && forall i :: 0 <= i < |l| ==> l[i] < |stable|
    reads c`start, stable`next, stable`prev
  {
    && c.start == (if k == 0 then At(stable, l, 1) else At(stable, l, 0))
    && (forall j :: 0 <= j < |l| && j != k && j != k - 1 ==> stable[l[j]].next == At(stable, l, j + 1))
    && (forall j :: 0 <= j < |l| && j != k && j != k + 1 ==> stable[l[j]].prev == At(stable, l, j - 1))
    && (k > 0 ==> stable[l[k - 1]].next == At(stable, l, k + 1))
    && (k + 1 < |l| ==> stable[l[k + 1]].prev == At(stable, l, k - 1))
  }

  lemma AtWithout(stable: SessionSlots, l: seq<nat>, k: nat, i: int)
    requires k < |l|
    ensures At(stable, l[..k] + l[k + 1..], i) == At(stable, l, if i < k then i else i + 1)
  {
    if 0 <= i < |l| - 1 { WithoutIndex(l, k, i); }
  }

  lemma CutIsLinked(stable: SessionSlots, c: Context, l: seq<nat>, k: nat)
    requires k < |l| && forall i :: 0 <= i < |l| ==> l[i] < |stable|
    requires CutAt(stable, c, l, k)
    ensures Linked(stable, c, l[..k] + l[k + 1..])
  {
    var w := l[..k] + l[k + 1..];
    AtWithout(stable, l, k, 0);
    forall i | 0 <= i < |w|
      ensures w[i] < |stable|
      ensures stable[w[i]].next == At(stable, w, i + 1) && stable[w[i]].prev == At(stable, w, i - 1)
    {
      WithoutIndex(l, k, i);
      AtWithout(stable, l, k, i + 1);
      AtWithout(stable, l, k, i - 1);
    }
  }

  /** The pointer surgery of remove_session; returns the removed session's successor. */
  method Unlink(stable: SessionSlots, c: Context, s: Session, ghost l: seq<nat>, ghost k: nat) returns (next: Session?)
    requires Distinct(l) && Linked(stable, c, l)
    requires k < |l| && stable[l[k]] == s
    modifies c`start, stable`next, stable`prev
    ensures next == At(stable, l, k + 1)
    ensures Linked(stable, c, l[..k] + l[k + 1..]) && s.next == null && s.prev == null
    ensures forall x :: 0 <= x < |stable| && x !in l ==>
              stable[x].next == old(stable[x].next) && stable[x].prev == old(stable[x].prev)
  {
    next := s.next;
    assert k > 0 ==> l[0] != l[k];
    if c.start == s {
      if s.next != null {
        c.start := s.next;
        c.start.prev := null;
      } else {
        c.start := null;
      }
    } else {
      s.prev.next := s.next;
      if s.next != null {
        s.next.prev := s.prev;
      }
    }
    s.next := null;
    s.prev := null;
    CutIsLinked(stable, c, l, k);
  }

  lemma AtAppend(stable: SessionSlots, l: seq<nat>, s: nat, i: int)
    ensures At(stable, l + [s], i) == if i == |l| && s < |stable| then stable[s] else At(stable, l, i)
  {
  }

  lemma AppendIsLinked(stable: SessionSlots, c: Context, l: seq<nat>, s: nat)
    requires s < |stable| && forall i :: 0 <= i < |l| ==> l[i] < |stable|
    requires c.start == (if l == [] then stable[s] else At(stable, l, 0))
    requires forall j :: 0 <= j < |l| - 1 ==> stable[l[j]].next == At(stable, l, j + 1)
    requires forall j :: 0 <= j < |l| ==> stable[l[j]].prev == At(stable, l, j - 1)
    requires l != [] ==> stable[l[|l| - 1]].next == stable[s]
    requires stable[s].next == null && stable[s].prev == At(stable, l, |l| - 1)
    ensures Linked(stable, c, l + [s])
  {
    var w := l + [s];
    AtAppend(stable, l, s, 0);
    forall i | 0 <= i < |w|
      ensures w[i] < |stable|
      ensures stable[w[i]].next == At(stable, w, i + 1) && stable[w[i]].prev == At(stable, w, i - 1)
    {
      AtAppend(stable, l, s, i + 1);
      AtAppend(stable, l, s, i - 1);
    }
  }

  /** The end of open_session: walk to the last session and hang the new one behind it. */
  method Link(stable: SessionSlots, c: Context, s: Session, ghost l: seq<nat>)
    requires Distinct(l) && Linked(stable, c, l)
    requires s in stable && s.idx !in l
    modifies c`start, stable`next, stable`prev
    ensures Linked(stable, c, l + [s.idx])
    ensures forall x :: 0 <= x < |stable| && x !in l && x != s.idx ==>
              stable[x].next == old(stable[x].next) && stable[x].prev == old(stable[x].prev)
  {
    s.next := null;
    s.prev := null;
    forall i | 0 <= i < |l| ensures stable[l[i]] != s { assert l[i] in l; }
    assert Linked(stable, c, l);
    if c.start != null {
      var st := Last(stable, c, l);
      assert forall i :: 0 <= i < |l| - 1 ==> stable[l[i]] != st;
      st.next := s;
      s.prev := st;
    } else {
      c.start := s;
    }
    AppendIsLinked(stable, c, l, s.idx);
  }

  /** Follows next to the end of a chain that is not empty. */
  method Last(stable: SessionSlots, c: Context, ghost l: seq<nat>) returns (st: Session)
    requires Linked(stable, c, l) && c.start != null
    ensures l != [] && st == At(stable, l, |l| - 1)
  {
    st := c.start;
    ghost var i := 0;
    while st.next != null
      invariant 0 <= i < |l| && st == At(stable, l, i)
      decreases |l| - i
    {
      st := st.next;
      i := i + 1;
    }
  }

  /** The membership walk of find_objects. */
  method OnChain(stable: SessionSlots, c: Context, s: Session, ghost l: seq<nat>) returns (found: bool)
    requires Linked(stable, c, l) && s in stable
    ensures found <==> s.idx in l
  {
    var st := c.start;
    ghost var i := 0;
    while st != null
      invariant 0 <= i <= |l| && st == At(stable, l, i)
      invariant forall j :: 0 <= j < i ==> l[j] != s.idx
      decreases |l| - i
    {
      if st == s {
        assert l[i] in l;
        return true;
      }
      st := st.next;
      i := i + 1;
    }
    return false;
  }

  // ---------------------------------------------------------------- what being linked means

  /** next and prev undo each other all along a chain, and the chain has two ends. */
  lemma NextAndPrevAreInverse(stable: SessionSlots, c: Context, l: seq<nat>, k: nat)
    requires Linked(stable, c, l) && k < |l|
    ensures l[k] < |stable|
    ensures var s := stable[l[k]];
            && (s.next == null <==> k == |l| - 1) && (s.prev == null <==> k == 0)
            && (s.next != null ==> s.next.prev == s) && (s.prev != null ==> s.prev.next == s)
  {
    if k + 1 < |l| { assert stable[l[k + 1]].prev == At(stable, l, k); }
    if k > 0 { assert stable[l[k - 1]].next == At(stable, l, k); }
  }

  /** Following `n` next pointers. */
  ghost function Hops(stable: SessionSlots, s: Session?, n: nat): Session?
    reads stable`next
  {
    if n == 0 then s
    else
      var p := Hops(stable, s, n - 1);
      if p == null || p !in stable then p else p.next
  }

  /** The chain is not circular: the walk from its start visits the listed sessions in order and falls off the end
      after exactly as many steps as there are sessions. */
  lemma {:induction false} NoCycle(stable: SessionSlots, c: Context, l: seq<nat>, n: nat)
    requires Linked(stable, c, l)
    ensures Hops(stable, c.start, n) == At(stable, l, n)
    ensures Hops(stable, c.start, n) == null <==> n >= |l|
  {
    if n > 0 {
      NoCycle(stable, c, l, n - 1);
      if n <= |l| { assert At(stable, l, n - 1) == stable[l[n - 1]]; }
    }
  }
}
