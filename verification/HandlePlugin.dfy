/** Handles: 16 bytes drawn from the generator into a slot, and looked up by linear search. */
module HandlePlugin {
  import opened Bytes
  import opened Rc4
  import opened Status

  const HANDLE_SIZE: nat := 16

  type Handle = h: seq<byte> | |h| == HANDLE_SIZE witness seq(HANDLE_SIZE, _ => 0)

  function ZeroHandle(): Handle { seq(HANDLE_SIZE, _ => 0) }

  /** The slots of a flat handle table. */
  function Slots(table: seq<byte>): seq<Handle>
  {
    seq(|table| / HANDLE_SIZE, i requires 0 <= i < |table| / HANDLE_SIZE =>
      table[HANDLE_SIZE * i..HANDLE_SIZE * i + HANDLE_SIZE])
  }

  /** The first slot, active or not, that holds `h`. */
  function Find(handles: seq<Handle>, h: Handle): (r: Option<nat>)
    ensures r.Some? ==> r.value < |handles| && handles[r.value] == h
                        && forall j :: 0 <= j < r.value ==> handles[j] != h
    ensures r.None? <==> h !in handles
  {
    FindFrom(handles, h, 0)
  }

  function FindFrom(handles: seq<Handle>, h: Handle, from: nat): (r: Option<nat>)
    requires from <= |handles|
    ensures r.Some? ==> from <= r.value < |handles| && handles[r.value] == h
                        && forall j :: from <= j < r.value ==> handles[j] != h
    ensures r.None? <==> h !in handles[from..]
    decreases |handles| - from
  {
    if from == |handles| then None
    else if handles[from] == h then Some(from)
    else FindFrom(handles, h, from + 1)
  }

  /** Slot `i` is the only one that holds its handle. */
  predicate OnlyAt(handles: seq<Handle>, i: nat)
    requires i < |handles|
  {
    forall j :: 0 <= j < |handles| && j != i ==> handles[j] != handles[i]
  }

  lemma FindUnique(handles: seq<Handle>, i: nat)
    requires i < |handles| && OnlyAt(handles, i)
    ensures Find(handles, handles[i]) == Some(i)
  {
    assert handles[i] in handles;
  }

  /** The handle a slot holds after a draw: the old bytes combined with the next 16 of the keystream. */
  function Draw(g: Gen, old_: Handle): Handle { XorSeq(old_, Keystream(g, HANDLE_SIZE)) }

  function Drawn(g: Gen): Gen { Advance(g, HANDLE_SIZE) }

  /** The buffer that key setup sees after seeding, when nothing but `entropy` matters. */
  function KeyBuffer(entropy: seq<byte>): Buffer256
  {
    var n := Min(|entropy|, 256);
    entropy[..n] + seq(256 - n, _ => 0)
  }

  /** The plugin's generator: init, seed, ready. An empty entropy string leaves the allocator's bytes as key. */
  method Initialize(entropy: seq<byte>) returns (prng: Prng)
    ensures prng.Running() && fresh(prng) && fresh(prng.buf)
    ensures entropy != [] ==> prng.View() == KeySetup(KeyBuffer(entropy), Min(|entropy|, 256))
  {
    prng := new Prng();
    prng.Init();
    prng.Seed(entropy);
    ghost var n, key := prng.x, prng.buf[..];
    prng.Ready();
    if n > 0 {
      ScheduleReadsOnlyTheKey(key, KeyBuffer(entropy), n, |key|);
    }
  }

  /** generate_context_handle and generate_session_handle: draw into slot `i` of the table. */
  method Generate(prng: Prng, table: array<byte>, i: nat) returns (count: nat)
    requires prng.Valid() && table != prng.buf && HANDLE_SIZE * i + HANDLE_SIZE <= table.Length
    modifies prng, prng.buf, table
    ensures prng.Running() && count == HANDLE_SIZE
    ensures prng.View() == Drawn(old(prng.View()))
    ensures Slots(table[..]) == Slots(old(table[..]))[i := Draw(old(prng.View()), Slots(old(table[..]))[i])]
  {
    ghost var g, before := prng.View(), table[..];
    count := prng.Read(table, HANDLE_SIZE * i, HANDLE_SIZE);
    MaskedIsXorStream(before, HANDLE_SIZE * i, g, HANDLE_SIZE);
    SlotWritten(before, table[..], i, Draw(g, Slots(before)[i]));
  }

  lemma SlotWritten(before: seq<byte>, after: seq<byte>, i: nat, h: Handle)
    requires HANDLE_SIZE * i + HANDLE_SIZE <= |before|
    requires after == before[..HANDLE_SIZE * i] + h + before[HANDLE_SIZE * i + HANDLE_SIZE..]
    ensures Slots(after) == Slots(before)[i := h]
  {
    forall j | 0 <= j < |before| / HANDLE_SIZE
      ensures Slots(after)[j] == Slots(before)[i := h][j]
    {
      if j != i {
        assert HANDLE_SIZE * j + HANDLE_SIZE <= HANDLE_SIZE * i || HANDLE_SIZE * i + HANDLE_SIZE <= HANDLE_SIZE * j;
      }
    }
  }

  lemma SlotAt(table: seq<byte>, i: nat)
    requires HANDLE_SIZE * i + HANDLE_SIZE <= |table|
    ensures i < |Slots(table)| && Slots(table)[i] == table[i * HANDLE_SIZE..i * HANDLE_SIZE + HANDLE_SIZE]
  {
  }

  /** find_context_handle and find_session_handle: on success the byte offset of the first matching slot. */
  method FindHandle(tableSize: nat, table: array<byte>, handle: Handle) returns (err: int, offset: nat)
    requires HANDLE_SIZE * tableSize == table.Length
    ensures tableSize == 0 ==> err == INVALID_PARAM
    ensures tableSize > 0 ==> err == if Find(Slots(table[..]), handle).Some? then SUCCESS else NOT_FOUND
    ensures err == SUCCESS ==> offset / HANDLE_SIZE == Find(Slots(table[..]), handle).value && offset % HANDLE_SIZE == 0
    ensures err == SUCCESS ==> offset < table.Length
  {
    offset := 0;
    if tableSize == 0 {
      return INVALID_PARAM, offset;
    }
    ghost var slots := Slots(table[..]);
    for i := 0 to tableSize
      invariant Find(slots, handle) == FindFrom(slots, handle, i)
    {
      SlotAt(table[..], i);
      if table[i * HANDLE_SIZE..i * HANDLE_SIZE + HANDLE_SIZE] == handle {
        return SUCCESS, i * HANDLE_SIZE;
      }
    }
    return NOT_FOUND, offset;
  }
}
