/** The heap list of registered memory regions. */
module RegisteredMemory {
  import opened HandlePlugin
  import opened ServerRequests

  /** tApiRegMemory. */
  class Node {
    const data: Region
    var next: Node?
    var prev: Node?

    constructor (data: Region)
      ensures this.data == data && next == null && prev == null
    {
      this.data, next, prev := data, null, null;
    }
  }

  ghost function At(nodes: seq<Node>, k: int): Node? { if 0 <= k < |nodes| then nodes[k] else null }

  ghost predicate Linked(nodes: seq<Node>)
    reads set n | n in nodes
  {
    forall k :: 0 <= k < |nodes| ==> nodes[k].next == At(nodes, k + 1) && nodes[k].prev == At(nodes, k - 1)
  }

  ghost predicate Distinct(nodes: seq<Node>) { forall i, j :: 0 <= i < j < |nodes| ==> nodes[i] != nodes[j] }

  ghost function Data(nodes: seq<Node>): seq<Region> { seq(|nodes|, i requires 0 <= i < |nodes| => nodes[i].data) }

  /** tApiRegMemoryTable. */
  class RegionList {
    var m: Node?
    var count: int
    ghost var nodes: seq<Node>

    ghost predicate Valid()
      reads this, nodes
    {
      Distinct(nodes) && Linked(nodes) && m == At(nodes, 0) && count == |nodes|
    }

    ghost function Contents(): seq<Region> reads this { Data(nodes) }

    constructor ()
      ensures Valid() && Contents() == [] && nodes == []
    {
      m, count, nodes := null, 0, [];
    }

    method Last() returns (p: Node)
      requires Valid() && m != null
      ensures nodes != [] && p == nodes[|nodes| - 1]
    {
      p := m;
      ghost var i := 0;
      while p.next != null
        invariant 0 <= i < |nodes| && p == nodes[i]
        decreases |nodes| - i
      {
        p := p.next;
        i := i + 1;
      }
    }

    /** The append of register_memory. */
    method Register(data: Region)
      requires Valid()
      modifies this, nodes
      ensures Valid() && Contents() == old(Contents()) + [data]
      ensures forall n :: n in nodes ==> n in old(nodes) || fresh(n)
    {
      hide Data;
      var mem := new Node(data);
      if m != null {
        var p := Last();
        p.next := mem;
        mem.prev := p;
      } else {
        m := mem;
      }
      count := count + 1;
      AppendIsLinked(nodes, mem);
      nodes := nodes + [mem];
    }

    /** The search of unregister_memory. */
    method Search(id: Handle) returns (p: Node?, ghost k: nat)
      requires Valid()
      ensures p == At(nodes, k) && k <= |nodes|
      ensures forall j :: 0 <= j < k ==> nodes[j].data.id != id
      ensures p != null ==> p.data.id == id
    {
      p, k := m, 0;
      while p != null
        invariant 0 <= k <= |nodes| && p == At(nodes, k)
        invariant forall j :: 0 <= j < k ==> nodes[j].data.id != id
        decreases |nodes| - k
      {
        if p.data.id == id {
          return;
        }
        p := p.next;
        k := k + 1;
      }
    }

    /** The surgery of unregister_memory on a node of the list. */
    method Remove(p: Node, ghost k: nat)
      requires Valid() && k < |nodes| && nodes[k] == p
      modifies this, nodes
      ensures Valid() && nodes == old(nodes)[..k] + old(nodes)[k + 1..]
    {
      assert k > 0 ==> nodes[0] != nodes[k];
      if m == p {
        if p.next != null {
          m := p.next;
          m.prev := null;
        } else {
          m := null;
        }
      } else {
        p.prev.next := p.next;
        if p.next != null {
          p.next.prev := p.prev;
        }
      }
      assert count > 0;
      count := count - 1;
      ghost var before := nodes;
      nodes := nodes[..k] + nodes[k + 1..];
      CutIsLinked(before, k);
    }

    /** Both together: the first region of that id goes, or the list stays as it is. */
    method Unregister(id: Handle) returns (found: bool)
      requires Valid()
      modifies this, nodes
      ensures Valid() && found == HasRegion(old(Contents()), id)
      ensures Contents() == if found then WithoutRegion(old(Contents()), id) else old(Contents())
      ensures forall n :: n in nodes ==> n in old(nodes)
    {
      hide Valid, Linked, Distinct, Data, HasRegion, WithoutRegion;
      var p;
      ghost var k;
      p, k := Search(id);
      ghost var before := nodes;
      FoundAt(before, k, id);
      if p == null {
        return false;
      }
      Remove(p, k);
      return true;
    }
  }

  /** What a search that stopped at `k` says about the contents. */
  lemma FoundAt(nodes: seq<Node>, k: nat, id: Handle)
    requires k <= |nodes| && forall j :: 0 <= j < k ==> nodes[j].data.id != id
    requires k < |nodes| ==> nodes[k].data.id == id
    ensures HasRegion(Data(nodes), id) <==> k < |nodes|
    ensures k < |nodes| ==> WithoutRegion(Data(nodes), id) == Data(nodes[..k] + nodes[k + 1..])
  {
    var rs := Data(nodes);
    if k < |nodes| {
      assert rs[k] in rs;
      WithoutRegionAt(rs, k);
      assert Data(nodes[..k] + nodes[k + 1..]) == rs[..k] + rs[k + 1..];
    }
  }

  lemma AppendIsLinked(nodes: seq<Node>, mem: Node)
    requires Distinct(nodes) && mem !in nodes
    requires forall j :: 0 <= j < |nodes| - 1 ==> nodes[j].next == At(nodes, j + 1)
    requires forall j :: 0 <= j < |nodes| ==> nodes[j].prev == At(nodes, j - 1)
    requires nodes != [] ==> nodes[|nodes| - 1].next == mem
    requires mem.next == null && mem.prev == At(nodes, |nodes| - 1)
    ensures Linked(nodes + [mem]) && Distinct(nodes + [mem]) && Data(nodes + [mem]) == Data(nodes) + [mem.data]
  {
  }

  lemma CutIsLinked(nodes: seq<Node>, k: nat)
    requires k < |nodes| && Distinct(nodes)
    requires forall j :: 0 <= j < |nodes| && j != k && j != k - 1 ==> nodes[j].next == At(nodes, j + 1)
    requires forall j :: 0 <= j < |nodes| && j != k && j != k + 1 ==> nodes[j].prev == At(nodes, j - 1)
    requires k > 0 ==> nodes[k - 1].next == At(nodes, k + 1)
    requires k + 1 < |nodes| ==> nodes[k + 1].prev == At(nodes, k - 1)
    ensures Linked(nodes[..k] + nodes[k + 1..]) && Distinct(nodes[..k] + nodes[k + 1..])
  {
    var w := nodes[..k] + nodes[k + 1..];
    CutIsDistinct(nodes, k);
    hide Distinct;
    forall i | 0 <= i < |w|
      ensures w[i].next == At(w, i + 1) && w[i].prev == At(w, i - 1)
    {
      CutAt(nodes, k, i - 1);
      CutAt(nodes, k, i);
      CutAt(nodes, k, i + 1);
    }
  }

  lemma CutIsDistinct(nodes: seq<Node>, k: nat)
    requires k < |nodes| && Distinct(nodes)
    ensures Distinct(nodes[..k] + nodes[k + 1..])
  {
    var w := nodes[..k] + nodes[k + 1..];
    forall i, j | 0 <= i < j < |w| ensures w[i] != w[j] {
      assert w[i] == nodes[if i < k then i else i + 1] && w[j] == nodes[if j < k then j else j + 1];
    }
  }

  lemma CutAt(nodes: seq<Node>, k: nat, i: int)
    requires k < |nodes|
    ensures At(nodes[..k] + nodes[k + 1..], i) == At(nodes, if i < k then i else i + 1)
  {
  }

  lemma {:induction false} WithoutRegionAt(rs: seq<Region>, k: nat)
    requires k < |rs| && forall j :: 0 <= j < k ==> rs[j].id != rs[k].id
    ensures WithoutRegion(rs, rs[k].id) == rs[..k] + rs[k + 1..]
  {
    if k > 0 {
      var tail := rs[1..];
      WithoutRegionAt(tail, k - 1);
      assert [rs[0]] + (tail[..k - 1] + tail[k..]) == rs[..k] + rs[k + 1..];
    }
  }

  /** Registering a fresh id and unregistering it restores the list; so does any number of other registrations
      in between, up to the order they came in. */
  lemma RegisterThenUnregister(rs: seq<Region>, r: Region, later: seq<Region>)
    requires !HasRegion(rs, r.id)
    ensures HasRegion(rs + [r] + later, r.id)
    ensures WithoutRegion(rs + [r] + later, r.id) == rs + later
  {
    var all, k := rs + [r] + later, |rs|;
    assert all[k] == r && r in all;
    forall j | 0 <= j < k ensures all[j].id != r.id { assert rs[j] in rs; }
    WithoutRegionAt(all, k);
    assert all[..k] == rs && all[k + 1..] == later;
  }
}
