/** The RC4 generator behind the handle plugin: key setup, keystream, and what both guarantee. */
module Rc4 {
  import opened Bytes

  type Buffer256 = s: seq<byte> | |s| == 256 witness seq(256, _ => 0)

  /** A generator that has left key setup. */
  datatype Gen = Gen(x: byte, y: byte, s: Buffer256)

  function Add(a: byte, b: byte): byte { var sum: int := a + b; if sum < 256 then sum else sum - 256 }

  function Subtract(a: byte, b: byte): byte { var d: int := a - b; if d < 0 then d + 256 else d }

  function Swap(s: Buffer256, i: byte, j: byte): Buffer256 { s[i := s[j]][j := s[i]] }

  function Identity(): Buffer256 { seq(256, i requires 0 <= i < 256 => i) }

  // ---------------------------------------------------------------- key setup

  /** Which key byte round `i` uses. A key of recorded length 0 is never wrapped: the whole buffer serves. */
  function KeyIndex(i: nat, keyLength: nat): nat { if keyLength == 0 then i else i % keyLength }

  /** The table and the running index after `rounds` rounds of the RC4 key schedule. */
  function Schedule(key: Buffer256, keyLength: nat, rounds: nat): (Buffer256, byte)
    requires keyLength <= 256 && rounds <= 256
  {
    if rounds == 0 then (Identity(), 0)
    else
      var (s, y) := Schedule(key, keyLength, rounds - 1);
      var y' := Add(Add(y, s[rounds - 1]), key[KeyIndex(rounds - 1, keyLength)]);
      (Swap(s, rounds - 1, y'), y')
  }

  function KeySetup(key: Buffer256, keyLength: nat): Gen
    requires keyLength <= 256
  {
    Gen(0, 0, Schedule(key, keyLength, |key|).0)
  }

  /** Accepting seed bytes: at most 256 in all, the rest is dropped. */
  function Seeded(filled: nat, buf: Buffer256, input: seq<byte>): (nat, Buffer256)
    requires filled <= 256
  {
    var take := Min(|input|, 256 - filled);
    (filled + take, buf[..filled] + input[..take] + buf[filled + take..])
  }

  // ---------------------------------------------------------------- keystream

  function Step(g: Gen): Gen
  {
    var x := Add(g.x, 1);
    var y := Add(g.y, g.s[x]);
    Gen(x, y, Swap(g.s, x, y))
  }

  function StepBack(g: Gen): Gen
  {
    var s := Swap(g.s, g.x, g.y);
    Gen(Subtract(g.x, 1), Subtract(g.y, s[g.x]), s)
  }

  function Output(g: Gen): byte { g.s[Add(g.s[g.x], g.s[g.y])] }

  function Advance(g: Gen, n: nat): Gen { if n == 0 then g else Step(Advance(g, n - 1)) }

  function Keystream(g: Gen, n: nat): (ks: seq<byte>)
    ensures |ks| == n
  {
    if n == 0 then [] else Keystream(g, n - 1) + [Output(Advance(g, n))]
  }

  /** Reading into a buffer combines it with the keystream. */
  function XorStream(g: Gen, out: seq<byte>): (Gen, seq<byte>)
  {
    (Advance(g, |out|), XorSeq(out, Keystream(g, |out|)))
  }

  // ---------------------------------------------------------------- the table stays a permutation

  /** Every byte value occurs exactly once. */
  ghost predicate IsPermutation(s: Buffer256) { forall v: byte :: multiset(s)[v] == 1 }

  lemma SwapKeepsPermutation(s: Buffer256, i: byte, j: byte)
    requires IsPermutation(s)
    ensures IsPermutation(Swap(s, i, j))
  {
    assert multiset(Swap(s, i, j)) == multiset(s);
  }

  lemma {:induction false} CountIn(s: seq<byte>, v: byte)
    requires forall k :: 0 <= k < |s| ==> s[k] == k
    ensures multiset(s)[v] == if v < |s| then 1 else 0
  {
    if s != [] {
      var front := s[..|s| - 1];
      assert s == front + [s[|s| - 1]];
      CountIn(front, v);
    }
  }

  lemma IdentityIsPermutation()
    ensures IsPermutation(Identity())
  {
    forall v: byte ensures multiset(Identity())[v] == 1 { CountIn(Identity(), v); }
  }

  lemma {:induction false} ScheduleIsPermutation(key: Buffer256, keyLength: nat, rounds: nat)
    requires keyLength <= 256 && rounds <= 256
    ensures IsPermutation(Schedule(key, keyLength, rounds).0)
  {
    if rounds == 0 {
      IdentityIsPermutation();
    } else {
      ScheduleIsPermutation(key, keyLength, rounds - 1);
      var (s, y) := Schedule(key, keyLength, rounds - 1);
      var y' := Add(Add(y, s[rounds - 1]), key[KeyIndex(rounds - 1, keyLength)]);
      SwapKeepsPermutation(s, rounds - 1, y');
    }
  }

  /** In every state reachable from key setup the table is a permutation of 0..255. */
  lemma {:induction false} ReachableIsPermutation(key: Buffer256, keyLength: nat, n: nat)
    requires keyLength <= 256
    ensures IsPermutation(Advance(KeySetup(key, keyLength), n).s)
  {
    if n == 0 {
      ScheduleIsPermutation(key, keyLength, |key|);
    } else {
      ReachableIsPermutation(key, keyLength, n - 1);
      var g := Advance(KeySetup(key, keyLength), n - 1);
      var x := Add(g.x, 1);
      SwapKeepsPermutation(g.s, x, Add(g.y, g.s[x]));
    }
  }

  // ---------------------------------------------------------------- steps are reversible

  lemma StepIsBijective(g: Gen)
    ensures StepBack(Step(g)) == g && Step(StepBack(g)) == g
  {
    var x := Add(g.x, 1);
    SwapTwice(g.s, x, Add(g.y, g.s[x]));
    SwapTwice(g.s, g.x, g.y);
    AddUndone(g.x, 1);
    AddUndone(g.y, g.s[x]);
    AddUndone(g.y, Swap(g.s, g.x, g.y)[g.x]);
  }

  lemma AddUndone(a: byte, d: byte)
    ensures Subtract(Add(a, d), d) == a && Add(Subtract(a, d), d) == a
  {
  }

  lemma SwapTwice(s: Buffer256, i: byte, j: byte)
    ensures Swap(Swap(s, i, j), i, j) == s
  {
    var t := Swap(Swap(s, i, j), i, j);
    assert forall k :: 0 <= k < 256 ==> t[k] == s[k];
  }

  /** Two generators that differ never merge, however long they run. */
  lemma {:induction false} DistinctStatesNeverMerge(g: Gen, h: Gen, n: nat)
    ensures g == h <==> Advance(g, n) == Advance(h, n)
  {
    if n > 0 {
      DistinctStatesNeverMerge(g, h, n - 1);
      StepIsBijective(Advance(g, n - 1));
      StepIsBijective(Advance(h, n - 1));
    }
  }

  // ---------------------------------------------------------------- the short cycle

  /** The states of RC4's short cycle. */
  predicate InShortCycle(g: Gen) { g.y == Add(g.x, 1) && g.s[g.y] == 1 }

  lemma ShortCycleIsClosedBothWays(g: Gen)
    ensures InShortCycle(g) <==> InShortCycle(Step(g))
  {
    var x := Add(g.x, 1);
    var y := Add(g.y, g.s[x]);
    assert Step(g).s[y] == g.s[x];
  }

  /** Key setup starts outside the short cycle, so no key ever leads into it. */
  lemma {:induction false} NeverInShortCycle(key: Buffer256, keyLength: nat, n: nat)
    requires keyLength <= 256
    ensures !InShortCycle(Advance(KeySetup(key, keyLength), n))
  {
    if n > 0 {
      NeverInShortCycle(key, keyLength, n - 1);
      ShortCycleIsClosedBothWays(Advance(KeySetup(key, keyLength), n - 1));
    }
  }

  // ---------------------------------------------------------------- the first bytes

  /** The first byte out of key setup, in terms of the table before it. */
  lemma FirstByte(s: Buffer256)
    ensures Keystream(Gen(0, 0, s), 1) ==
            if s[1] == 1 then [s[2]] else var a, b := s[1], s[s[1]]; [s[1 := b][a := a][Add(a, b)]]
  {
    assert Advance(Gen(0, 0, s), 1) == Step(Gen(0, 0, s));
    assert Keystream(Gen(0, 0, s), 1) == [] + [Output(Step(Gen(0, 0, s)))];
  }

  /** RC4's best known bias: a table with 0 in place 2, and not 2 in place 1, makes the second byte 0. */
  lemma SecondByteIsZero(s: Buffer256)
    requires s[2] == 0 && s[1] != 2
    ensures Keystream(Gen(0, 0, s), 2)[1] == 0
  {
    var g, a := Gen(0, 0, s), s[1];
    var t := Swap(s, 1, a);
    TwoSteps(g);
    assert Step(g) == Gen(1, a, t) && t[2] == 0 && t[a] == a;
    assert Step(Gen(1, a, t)) == Gen(2, a, Swap(t, 2, a));
    assert Keystream(g, 2)[1] == Output(Gen(2, a, Swap(t, 2, a)));
  }

  lemma TwoSteps(g: Gen)
    ensures Advance(g, 1) == Step(g) && Advance(g, 2) == Step(Step(g))
    ensures |Keystream(g, 1)| == 1 && Keystream(g, 2) == Keystream(g, 1) + [Output(Step(Step(g)))]
  {
    hide Step, Output;
    assert Advance(g, 0) == g;
  }

  lemma FromIdentity()
    ensures Keystream(Gen(0, 0, Identity()), 3) == [2, 5, 7]
  {
    var g := Gen(0, 0, Identity());
    var s := Identity()[2 := 3][3 := 2];
    assert Step(g) == Gen(1, 1, Identity());
    assert Step(Step(g)) == Gen(2, 3, s);
    assert Step(Step(Step(g))) == Gen(3, 5, s[3 := 5][5 := 2]);
    assert Advance(g, 1) == Step(g) && Advance(g, 2) == Step(Step(g)) && Advance(g, 3) == Step(Step(Step(g)));
  }

  /** The key schedule's first two rounds, for every key. */
  lemma FirstRounds(key: Buffer256, keyLength: nat)
    requires keyLength <= 256
    ensures Schedule(key, keyLength, 1) == (Identity()[0 := key[0]][key[0] := 0], key[0])
    ensures Schedule(key, keyLength, 2).1 ==
            Add(Add(key[0], if key[0] == 1 then 0 else 1), key[if keyLength == 1 then 0 else 1])
  {
    FirstKeyIndices(keyLength);
    hide KeyIndex, Swap;
    assert Schedule(key, keyLength, 0) == (Identity(), 0);
    SwapOfIdentity(key[0]);
  }

  lemma FirstKeyIndices(keyLength: nat)
    ensures KeyIndex(0, keyLength) == 0 && KeyIndex(1, keyLength) == if keyLength == 1 then 0 else 1
  {
  }

  lemma SwapOfIdentity(k: byte)
    ensures Swap(Identity(), 0, k) == Identity()[0 := k][k := 0]
    ensures Swap(Identity(), 0, k)[1] == if k == 1 then 0 else 1
  {
  }

  /** The key 0, 0, 255, 254, .., 2. */
  function StillKey(): Buffer256 { seq(256, i requires 0 <= i < 256 => if i < 2 then 0 else 257 - i) }

  lemma {:induction false} StillSchedule(rounds: nat)
    requires rounds <= 256
    ensures Schedule(StillKey(), 256, rounds) == (Identity(), if rounds == 0 then 0 else rounds - 1)
  {
    hide KeyIndex, Add, Swap, StillKey;
    if rounds > 0 {
      StillSchedule(rounds - 1);
      StillRound(rounds - 1);
    }
  }

  lemma StillRound(i: nat)
    requires i < 256
    ensures KeyIndex(i, 256) == i && Add(Add(if i == 0 then 0 else i - 1, i), StillKey()[i]) == i
    ensures Swap(Identity(), i, i) == Identity() && Identity()[i] == i
  {
  }

  /** A known answer: this key leaves the table as it was, and its stream begins with 2, 5, 7. */
  lemma KnownAnswer(buf: Buffer256)
    ensures Seeded(0, buf, StillKey()) == (256, StillKey())
    ensures KeySetup(StillKey(), 256) == Gen(0, 0, Identity())
    ensures Keystream(KeySetup(StillKey(), 256), 3) == [2, 5, 7]
  {
    assert Seeded(0, buf, StillKey()).1 == StillKey();
    StillSchedule(256);
    FromIdentity();
  }

  // ---------------------------------------------------------------- stream laws

  lemma {:induction false} AdvanceAdds(g: Gen, n: nat, m: nat)
    ensures Advance(g, n + m) == Advance(Advance(g, n), m)
  {
    hide Step;
    if m > 0 { AdvanceAdds(g, n, m - 1); }
  }

  lemma {:induction false} KeystreamAdds(g: Gen, n: nat, m: nat)
    ensures Keystream(g, n + m) == Keystream(g, n) + Keystream(Advance(g, n), m)
  {
    hide Step, Output;
    if m == 0 {
      assert Keystream(g, n) + [] == Keystream(g, n);
    } else {
      KeystreamAdds(g, n, m - 1);
      AdvanceAdds(g, n, m);
      var head, tail := Keystream(g, n), Keystream(Advance(g, n), m - 1);
      var last := [Output(Advance(g, n + m))];
      assert (head + tail) + last == head + (tail + last);
    }
  }

  /** Two reads are one read of the joined buffers. */
  lemma ReadsCompose(g: Gen, a: seq<byte>, b: seq<byte>)
    ensures var (g1, a') := XorStream(g, a);
            var (g2, b') := XorStream(g1, b);
            XorStream(g, a + b) == (g2, a' + b')
  {
    hide Advance, Keystream;
    AdvanceAdds(g, |a|, |b|);
    KeystreamAdds(g, |a|, |b|);
    assert |a + b| == |a| + |b|;
    XorSeqConcat(a, b, Keystream(g, |a|), Keystream(Advance(g, |a|), |b|));
  }

  lemma XorSeqConcat(a: seq<byte>, b: seq<byte>, p: seq<byte>, q: seq<byte>)
    requires |a| == |p| && |b| == |q|
    ensures XorSeq(a + b, p + q) == XorSeq(a, p) + XorSeq(b, q)
  {
  }

  /** The same keystream applied twice restores the buffer. */
  lemma ReadRestores(g: Gen, out: seq<byte>)
    ensures XorStream(g, XorStream(g, out).1) == (XorStream(g, out).0, out)
  {
    XorSeqInvolutive(out, Keystream(g, |out|));
  }

  /** Seeding twice is seeding once with the concatenation; both cut at 256 bytes. */
  lemma SeedsCompose(filled: nat, buf: Buffer256, a: seq<byte>, b: seq<byte>)
    requires filled <= 256
    ensures var (f, t) := Seeded(filled, buf, a);
            Seeded(f, t, b) == Seeded(filled, buf, a + b)
  {
    var (f, t) := Seeded(filled, buf, a);
    assert Seeded(f, t, b).1 == Seeded(filled, buf, a + b).1;
  }

  /** Only the seeded prefix of the buffer matters to a key of non-zero length. */
  lemma {:induction false} ScheduleReadsOnlyTheKey(k1: Buffer256, k2: Buffer256, keyLength: nat, rounds: nat)
    requires 0 < keyLength <= 256 && rounds <= 256 && k1[..keyLength] == k2[..keyLength]
    ensures Schedule(k1, keyLength, rounds) == Schedule(k2, keyLength, rounds)
  {
    if rounds > 0 {
      ScheduleReadsOnlyTheKey(k1, k2, keyLength, rounds - 1);
      var j := KeyIndex(rounds - 1, keyLength);
      assert k1[j] == k1[..keyLength][j] == k2[..keyLength][j] == k2[j];
    }
  }

  // ---------------------------------------------------------------- the code

  /** rc4_prng_state: `x` counts seed bytes during setup and is an index afterwards. */
  class Prng {
    var x: nat
    var y: nat
    const buf: array<byte>

    ghost predicate Valid() reads this, buf { buf.Length == 256 && x <= 256 }

    /** The generator a read starts from: the indices are narrowed to bytes. */
    ghost function View(): Gen
      reads this, buf
      requires Valid()
    {
      Gen(x % 256, y % 256, buf[..])
    }

    /** Allocation (the contents are whatever the allocator left) followed by my_rc4_prng_init. */
    constructor ()
      ensures Valid() && x == 0 && fresh(buf)
    {
      x, y := 0, 0;
      buf := new byte[256];
    }

    method SwapAt(i: byte, j: byte)
      requires buf.Length == 256
      modifies buf
      ensures buf[..] == Swap(old(buf[..]), i, j)
    {
      var tmp := buf[i];
      buf[i] := buf[j];
      buf[j] := tmp;
    }

    method Init()
      requires Valid()
      modifies this
      ensures Valid() && x == 0 && y == old(y)
    {
      x := 0;
    }

    method Seed(input: seq<byte>)
      requires Valid()
      modifies this`x, buf
      ensures Valid()
      ensures (x, buf[..]) == Seeded(old(x), old(buf[..]), input)
    {
      var length := |input|;
      if x + length > 256 {
        if x == 256 {
          assert buf[..] == Seeded(x, buf[..], input).1;
          return;
        }
        length := 256 - x;
      }
      var i := 0;
      while i < length
        invariant 0 <= i <= length && x == old(x) + i
        invariant forall k :: 0 <= k < 256 ==>
          buf[k] == if old(x) <= k < old(x) + i then input[k - old(x)] else old(buf[k])
      {
        buf[x] := input[i];
        x := x + 1;
        i := i + 1;
      }
      assert buf[..] == Seeded(old(x), old(buf[..]), input).1;
    }

    method Ready()
      requires Valid()
      modifies this, buf
      ensures Valid()
      ensures View() == KeySetup(old(buf[..]), old(x)) && x == y == 0
    {
      var key: Buffer256 := buf[..];
      var keyLength := x;
      for i := 0 to 256
        invariant x == old(x)
        invariant forall k :: 0 <= k < i ==> buf[k] == k
      {
        buf[i] := i;
      }
      assert buf[..] == Identity();
      var j: nat, yy: byte := 0, 0;
      for i := 0 to |key|
        invariant x == old(x)
        invariant j == KeyIndex(i, keyLength)
        invariant (buf[..], yy) == Schedule(key, keyLength, i)
      {
        yy := Add(Add(yy, buf[i]), key[j]);
        j := j + 1;
        NextKeyIndex(i, keyLength);
        if j == keyLength {
          j := 0;
        }
        SwapAt(i, yy);
      }
      x, y := 0, 0;
    }

    ghost predicate Running() reads this, buf { Valid() && x < 256 && y < 256 }

    /** One round of the read loop, on the byte at `at`. */
    method XorNext(out: array<byte>, at: nat)
      requires Running() && at < out.Length && out != buf
      modifies this, buf, out
      ensures Running() && View() == Step(old(View()))
      ensures out[..] == old(out[..])[at := Xor(old(out[at]), Output(View()))]
    {
      x := Add(x, 1);
      y := Add(y, buf[x]);
      SwapAt(x, y);
      var k := buf[Add(buf[x], buf[y])];
      out[at] := Xor(out[at], k);
    }

    /** Exclusive-ors `n` keystream bytes into `out` from `offset` on. */
    method Read(out: array<byte>, offset: nat, n: nat) returns (count: nat)
      requires Valid() && offset + n <= out.Length && out != buf
      modifies this, buf, out
      ensures Running() && count == n
      ensures View() == Advance(old(View()), n)
      ensures out[..] == Masked(old(out[..]), offset, old(View()), n)
    {
      ghost var g, before := View(), out[..];
      x, y := x % 256, y % 256;
      for i := 0 to n
        invariant Running() && View() == Advance(g, i)
        invariant out[..] == Masked(before, offset, g, i)
      {
        XorNext(out, offset + i);
      }
      return n;
    }
  }

  /** `out` after `n` keystream bytes have been combined into it from `offset` on. */
  ghost function Masked(out: seq<byte>, offset: nat, g: Gen, n: nat): (r: seq<byte>)
    requires offset + n <= |out|
    ensures |r| == |out|
  {
    if n == 0 then out
    else
      var r := Masked(out, offset, g, n - 1);
      r[offset + n - 1 := Xor(r[offset + n - 1], Output(Advance(g, n)))]
  }

  lemma {:induction false} MaskedAt(out: seq<byte>, offset: nat, g: Gen, n: nat, k: nat)
    requires offset + n <= |out| && k < |out|
    ensures Masked(out, offset, g, n)[k] ==
            if offset <= k < offset + n then Xor(out[k], Keystream(g, n)[k - offset]) else out[k]
  {
    if n > 0 { MaskedAt(out, offset, g, n - 1, k); }
  }

  /** In one piece: the window holds the old bytes combined with the keystream, the rest is untouched. */
  lemma MaskedIsXorStream(out: seq<byte>, offset: nat, g: Gen, n: nat)
    requires offset + n <= |out|
    ensures Masked(out, offset, g, n) ==
            out[..offset] + XorSeq(out[offset..offset + n], Keystream(g, n)) + out[offset + n..]
  {
    var whole := out[..offset] + XorSeq(out[offset..offset + n], Keystream(g, n)) + out[offset + n..];
    forall k | 0 <= k < |out|
      ensures Masked(out, offset, g, n)[k] == whole[k]
    {
      MaskedAt(out, offset, g, n, k);
    }
  }

  lemma NextKeyIndex(i: nat, keyLength: nat)
    ensures KeyIndex(i + 1, keyLength) ==
            if KeyIndex(i, keyLength) + 1 == keyLength then 0 else KeyIndex(i, keyLength) + 1
  {
    if keyLength > 0 {
      var q, r := i / keyLength, i % keyLength;
      if r + 1 == keyLength {
        assert i + 1 == (q + 1) * keyLength;
        DivisionIsUnique(i + 1, keyLength, q + 1, 0);
      } else {
        DivisionIsUnique(i + 1, keyLength, q, r + 1);
      }
    }
  }
}
