/** Fixed-width fields, and the bounds-checked cursors that store and read them. */
module Fields {
  import opened Bytes
  import opened Status

  datatype FieldType = Word8 | Word32 | Signed32 | Buffer(n: nat)

  datatype Field = F8(b: byte) | F32(u: uint32) | FS32(s: int32) | FBuf(bytes: seq<byte>)

  function TypeOf(f: Field): FieldType
  {
    match f
    case F8(_) => Word8
    case F32(_) => Word32
    case FS32(_) => Signed32
    case FBuf(bytes) => Buffer(|bytes|)
  }

  function Size(t: FieldType): nat
  {
    match t
    case Word8 => 1
    case Word32 => 4
    case Signed32 => 4
    case Buffer(n) => n
  }

  function EncodeField(f: Field): (bs: seq<byte>)
    ensures |bs| == Size(TypeOf(f))
  {
    match f
    case F8(b) => BigEndian(b, 1)
    case F32(u) => BigEndian(u, 4)
    case FS32(s) => BigEndian(ToUint64(s), 4)
    case FBuf(bytes) => bytes
  }

  /** What reading a field of type `t` from its bytes yields; the integer reader works modulo 2^32. */
  function DecodeField(t: FieldType, bs: seq<byte>): Field
    requires |bs| == Size(t)
  {
    match t
    case Word8 => F8(Value(bs) % TWO_32 % 256)
    case Word32 => F32(Value(bs) % TWO_32)
    case Signed32 => FS32(ToInt32(Value(bs) % TWO_32))
    case Buffer(_) => FBuf(bs)
  }

  function WireSize(ts: seq<FieldType>): nat { SizeFirst(ts, |ts|) }

  function SizeFirst(ts: seq<FieldType>, n: nat): nat
    requires n <= |ts|
  {
    if n == 0 then 0 else SizeFirst(ts, n - 1) + Size(ts[n - 1])
  }

  function Types(fs: seq<Field>): (ts: seq<FieldType>)
    ensures |ts| == |fs|
  {
    seq(|fs|, i requires 0 <= i < |fs| => TypeOf(fs[i]))
  }

  ghost predicate Typed(fs: seq<Field>, ts: seq<FieldType>)
  {
    |fs| == |ts| && forall i :: 0 <= i < |fs| ==> TypeOf(fs[i]) == ts[i]
  }

  function Encode(fs: seq<Field>): seq<byte> { EncodeFirst(fs, |fs|) }

  function EncodeFirst(fs: seq<Field>, n: nat): seq<byte>
    requires n <= |fs|
  {
    if n == 0 then [] else EncodeFirst(fs, n - 1) + EncodeField(fs[n - 1])
  }

  function Decode(ts: seq<FieldType>, bs: seq<byte>): (fs: seq<Field>)
    requires WireSize(ts) <= |bs|
    ensures |fs| == |ts|
  {
    DecodeFirst(ts, |ts|, bs)
  }

  function DecodeFirst(ts: seq<FieldType>, n: nat, bs: seq<byte>): (fs: seq<Field>)
    requires n <= |ts| && SizeFirst(ts, n) <= |bs|
    ensures |fs| == n
  {
    if n == 0 then []
    else DecodeFirst(ts, n - 1, bs) + [DecodeField(ts[n - 1], bs[SizeFirst(ts, n - 1)..SizeFirst(ts, n)])]
  }

  // ---------------------------------------------------------------- both ways round

  lemma WordRoundTrip(u: uint32)
    ensures Value(BigEndian(u, 4)) == u
  {
    Pow256Values();
    ValueOfBigEndian(u, 4);
    assert u % Pow256(4) == u;
  }

  lemma ByteRoundTrip(b: byte)
    ensures Value(BigEndian(b, 1)) == b
  {
    Pow256Values();
    ValueOfBigEndian(b, 1);
  }

  lemma SignedWordRoundTrip(s: int32)
    ensures ToInt32(Value(BigEndian(ToUint64(s), 4)) % TWO_32) == s
  {
    SignedRoundTrip(s);
  }

  lemma FieldRoundTrip(f: Field)
    ensures DecodeField(TypeOf(f), EncodeField(f)) == f
  {
    match f
    case F8(b) => ByteRoundTrip(b);
    case F32(u) => WordRoundTrip(u);
    case FS32(s) => SignedWordRoundTrip(s);
    case FBuf(_) =>
  }

  lemma WordBytesRoundTrip(bs: seq<byte>)
    requires |bs| == 4
    ensures Value(bs) < TWO_32 && BigEndian(Value(bs), 4) == bs
  {
    Pow256Values();
    BigEndianOfValue(bs);
  }

  lemma ByteBytesRoundTrip(bs: seq<byte>)
    requires |bs| == 1
    ensures Value(bs) < 256 && BigEndian(Value(bs), 1) == bs
  {
    Pow256Values();
    BigEndianOfValue(bs);
  }

  lemma SignedBytesRoundTrip(bs: seq<byte>)
    requires |bs| == 4
    ensures BigEndian(ToUint64(ToInt32(Value(bs) % TWO_32)), 4) == bs
  {
    WordBytesRoundTrip(bs);
    var u: uint32 := Value(bs);
    var s := ToInt32(u);
    assert ToUint32(s) == u == u % TWO_32;
    SignedRoundTrip(s);
  }

  lemma BytesRoundTrip(t: FieldType, bs: seq<byte>)
    requires |bs| == Size(t)
    ensures TypeOf(DecodeField(t, bs)) == t && EncodeField(DecodeField(t, bs)) == bs
  {
    hide BigEndian, Value, ToUint64, ToInt32;
    match t
    case Word8 => ByteBytesRoundTrip(bs);
    case Word32 => WordBytesRoundTrip(bs);
    case Signed32 => SignedBytesRoundTrip(bs);
    case Buffer(_) =>
  }

  lemma {:induction false} EncodeFirstOfPrefix(fs: seq<Field>, f: Field, n: nat)
    requires n <= |fs|
    ensures EncodeFirst(fs + [f], n) == EncodeFirst(fs, n)
  {
    if n > 0 { EncodeFirstOfPrefix(fs, f, n - 1); }
  }

  lemma EncodeAppend(fs: seq<Field>, f: Field)
    ensures Encode(fs + [f]) == Encode(fs) + EncodeField(f)
    ensures Types(fs + [f]) == Types(fs) + [TypeOf(f)]
  {
    EncodeFirstOfPrefix(fs, f, |fs|);
  }

  lemma {:induction false} SizeFirstOfPrefix(ts: seq<FieldType>, t: FieldType, n: nat)
    requires n <= |ts|
    ensures SizeFirst(ts + [t], n) == SizeFirst(ts, n)
  {
    if n > 0 { SizeFirstOfPrefix(ts, t, n - 1); }
  }

  lemma WireSizeAppend(ts: seq<FieldType>, t: FieldType)
    ensures WireSize(ts + [t]) == WireSize(ts) + Size(t)
  {
    SizeFirstOfPrefix(ts, t, |ts|);
  }

  lemma {:induction false} DecodeFirstOfPrefix(ts: seq<FieldType>, t: FieldType, n: nat, bs: seq<byte>)
    requires n <= |ts| && SizeFirst(ts, n) <= |bs|
    ensures SizeFirst(ts + [t], n) == SizeFirst(ts, n)
    ensures DecodeFirst(ts + [t], n, bs) == DecodeFirst(ts, n, bs)
  {
    SizeFirstOfPrefix(ts, t, n);
    if n > 0 {
      SizeFirstOfPrefix(ts, t, n - 1);
      DecodeFirstOfPrefix(ts, t, n - 1, bs);
    }
  }

  lemma DecodeAppend(ts: seq<FieldType>, t: FieldType, bs: seq<byte>)
    requires WireSize(ts) + Size(t) <= |bs|
    ensures WireSize(ts + [t]) == WireSize(ts) + Size(t)
    ensures Decode(ts + [t], bs) == Decode(ts, bs) + [DecodeField(t, bs[WireSize(ts)..WireSize(ts) + Size(t)])]
  {
    WireSizeAppend(ts, t);
    DecodeFirstOfPrefix(ts, t, |ts|, bs);
  }

  lemma {:induction false} EncodeSize(fs: seq<Field>)
    ensures |Encode(fs)| == WireSize(Types(fs))
  {
    if fs != [] {
      var front, last := fs[..|fs| - 1], fs[|fs| - 1];
      assert fs == front + [last];
      EncodeSize(front);
      EncodeAppend(front, last);
      WireSizeAppend(Types(front), TypeOf(last));
    }
  }

  lemma Middle(a: seq<byte>, b: seq<byte>, c: seq<byte>)
    ensures (a + b) + c == a + (b + c)
    ensures ((a + b) + c)[|a|..|a| + |b|] == b
  {
  }

  /** Overwriting the bytes just after `done` extends it. */
  lemma Spliced(done: seq<byte>, piece: seq<byte>, before: seq<byte>)
    requires |done| + |piece| <= |before|
    ensures var image := done + before[|done|..];
            image[..|done|] + piece + image[|done| + |piece|..] == (done + piece) + before[|done + piece|..]
  {
  }

  lemma Split(bs: seq<byte>, i: nat, j: nat)
    requires i <= j <= |bs|
    ensures bs[..j] == bs[..i] + bs[i..j]
  {
  }

  lemma LastOf<T>(s: seq<T>) returns (front: seq<T>, last: T)
    requires s != []
    ensures s == front + [last] && |front| == |s| - 1
  {
    front, last := s[..|s| - 1], s[|s| - 1];
  }

  /** Decoding undoes encoding and ignores whatever follows. */
  lemma {:induction false} DecodeEncode(fs: seq<Field>, rest: seq<byte>)
    ensures WireSize(Types(fs)) == |Encode(fs)|
    ensures Decode(Types(fs), Encode(fs) + rest) == fs
    decreases |fs|
  {
    EncodeSize(fs);
    if fs != [] {
      var front, last := LastOf(fs);
      EncodeAppend(front, last);
      var piece := EncodeField(last);
      Middle(Encode(front), piece, rest);
      DecodeEncode(front, piece + rest);
      DecodeAppend(Types(front), TypeOf(last), Encode(fs) + rest);
      FieldRoundTrip(last);
    }
  }

  /** Encoding what was decoded reproduces exactly the bytes consumed. */
  lemma {:induction false} EncodeDecode(ts: seq<FieldType>, bs: seq<byte>)
    requires WireSize(ts) <= |bs|
    ensures Types(Decode(ts, bs)) == ts
    ensures Encode(Decode(ts, bs)) == bs[..WireSize(ts)]
    decreases |ts|
  {
    if ts != [] {
      var front, last := LastOf(ts);
      WireSizeAppend(front, last);
      DecodeAppend(front, last, bs);
      var piece := bs[WireSize(front)..WireSize(ts)];
      EncodeDecode(front, bs);
      BytesRoundTrip(last, piece);
      EncodeAppend(Decode(front, bs), DecodeField(last, piece));
      Split(bs, WireSize(front), WireSize(ts));
    }
  }

  lemma {:induction false} EncodeConcat(a: seq<Field>, b: seq<Field>)
    ensures Encode(a + b) == Encode(a) + Encode(b)
    decreases |b|
  {
    if b == [] {
      assert a + b == a;
    } else {
      var front, last := LastOf(b);
      assert a + b == (a + front) + [last];
      EncodeConcat(a, front);
      EncodeAppend(a + front, last);
      EncodeAppend(front, last);
      Middle(Encode(a), Encode(front), EncodeField(last));
    }
  }

  lemma EncodeOne(f: Field)
    ensures Encode([f]) == EncodeField(f)
  {
    assert [] + [f] == [f] && [] + EncodeField(f) == EncodeField(f);
    EncodeAppend([], f);
  }

  lemma EncodeTwo(f: Field, g: Field)
    ensures Encode([f, g]) == EncodeField(f) + EncodeField(g)
  {
    assert [f] + [g] == [f, g];
    EncodeOne(f);
    EncodeAppend([f], g);
  }

  lemma EncodeThree(f: Field, g: Field, h: Field)
    ensures Encode([f, g, h]) == EncodeField(f) + EncodeField(g) + EncodeField(h)
  {
    assert [f, g] + [h] == [f, g, h];
    EncodeTwo(f, g);
    EncodeAppend([f, g], h);
  }

  lemma EncodeFour(f: Field, g: Field, h: Field, i: Field)
    ensures Encode([f, g, h, i]) == EncodeField(f) + EncodeField(g) + EncodeField(h) + EncodeField(i)
  {
    assert [f, g, h] + [i] == [f, g, h, i];
    EncodeThree(f, g, h);
    EncodeAppend([f, g, h], i);
  }

  // ---------------------------------------------------------------- the cursors

  /** A failing store or read ends the routine that makes it. */
  datatype Outcome = Pass | Fail
  {
    predicate IsFailure() { Fail? }
    function PropagateFailure(): Outcome requires Fail? { Fail }
  }

  datatype Result<+T> = Failure | Success(value: T)
  {
    predicate IsFailure() { Failure? }
    function PropagateFailure<U>(): Result<U> requires Failure? { Failure }
    function Extract(): T requires Success? { value }
  }

  method CopyInto(buf: array<byte>, at: nat, bytes: seq<byte>)
    requires at + |bytes| <= buf.Length
    modifies buf
    ensures buf[..] == old(buf[..at]) + bytes + old(buf[at + |bytes|..])
  {
    forall i | 0 <= i < |bytes| {
      buf[at + i] := bytes[i];
    }
  }

  /** The STORE and STOREBUF macros over a buffer of `limit` usable bytes. */
  class Packer {
    const buf: array<byte>
    const limit: nat
    var count: nat
    ghost var written: seq<Field>
    ghost const before: seq<byte>

    ghost predicate Valid()
      reads this, buf
    {
      && count <= limit <= buf.Length && limit + 8 < TWO_32 && |before| == buf.Length
      && |Encode(written)| == count
      && buf[..] == Encode(written) + before[count..]
    }

    constructor (buf: array<byte>, limit: nat)
      requires limit <= buf.Length && limit + 8 < TWO_32
      ensures Valid() && this.buf == buf && this.limit == limit && count == 0 && written == []
      ensures before == buf[..]
    {
      this.buf, this.limit, this.count, this.written, this.before := buf, limit, 0, [], buf[..];
    }

    ghost predicate Stored(count0: nat, written0: seq<Field>, f: Field, o: Outcome)
      reads this, buf
    {
      && Valid()
      && (o.Pass? <==> count0 + Size(TypeOf(f)) <= limit)
      && (o.Pass? ==> count == count0 + Size(TypeOf(f)) && written == written0 + [f])
    }

    method StoreWord(width: nat, value: uint64, ghost f: Field) returns (o: Outcome)
      requires Valid() && 0 < width <= 8 && width == Size(TypeOf(f)) && EncodeField(f) == BigEndian(value, width)
      modifies this`count, this`written, buf
      ensures Stored(old(count), old(written), f, o)
    {
      var n := BytePut(buf, count, limit, width, value);
      if n == 0 {
        return Fail;
      }
      EncodeAppend(written, f);
      Spliced(Encode(written), EncodeField(f), before);
      count := count + n;
      written := written + [f];
      return Pass;
    }

    method Store8(b: byte) returns (o: Outcome)
      requires Valid()
      modifies this`count, this`written, buf
      ensures Stored(old(count), old(written), F8(b), o)
    {
      o := StoreWord(1, b, F8(b));
    }

    method Store32(u: uint32) returns (o: Outcome)
      requires Valid()
      modifies this`count, this`written, buf
      ensures Stored(old(count), old(written), F32(u), o)
    {
      o := StoreWord(4, u, F32(u));
    }

    /** A status converts to the 64-bit parameter by sign extension. */
    method StoreSigned32(s: int32) returns (o: Outcome)
      requires Valid()
      modifies this`count, this`written, buf
      ensures Stored(old(count), old(written), FS32(s), o)
    {
      o := StoreWord(4, ToUint64(s), FS32(s));
    }

    method StoreBuffer(bytes: seq<byte>) returns (o: Outcome)
      requires Valid()
      modifies this`count, this`written, buf
      ensures Stored(old(count), old(written), FBuf(bytes), o)
    {
      if count + |bytes| > limit {
        return Fail;
      }
      CopyInto(buf, count, bytes);
      EncodeAppend(written, FBuf(bytes));
      Spliced(Encode(written), bytes, before);
      count := count + |bytes|;
      written := written + [FBuf(bytes)];
      return Pass;
    }
  }

  /** The READ and READBUF macros. */
  class Unpacker {
    const data: seq<byte>
    var count: nat
    ghost var fields: seq<Field>

    ghost predicate Valid()
      reads this
    {
      count <= |data| && Encode(fields) == data[..count]
    }

    constructor (data: seq<byte>)
      ensures Valid() && this.data == data && count == 0 && fields == []
    {
      this.data, this.count, this.fields := data, 0, [];
    }

    ghost predicate Got(count0: nat, fields0: seq<Field>, t: FieldType, ok: bool, f: Field)
      reads this
    {
      && Valid()
      && (ok <==> count0 + Size(t) <= |data|)
      && (ok ==> count == count0 + Size(t) && fields == fields0 + [f] && TypeOf(f) == t)
    }

    method ReadWord(width: nat, ghost t: FieldType) returns (r: Result<uint64>)
      requires Valid() && width == Size(t) && !t.Buffer?
      modifies this`count, this`fields
      ensures r.Success? <==> old(count) + width <= |data|
      ensures r.Success? ==> r.value == Value(data[old(count)..old(count) + width]) % TWO_32
      ensures Got(old(count), old(fields), t, r.Success?,
                  if r.Success? then DecodeField(t, data[old(count)..old(count) + width]) else F8(0))
    {
      if count + width > |data| {
        return Failure;
      }
      ghost var piece := data[count..count + width];
      var v := ByteGet(data[count..], width);
      assert data[count..][..width] == piece;
      BytesRoundTrip(t, piece);
      Split(data, count, count + width);
      EncodeAppend(fields, DecodeField(t, piece));
      count := count + width;
      fields := fields + [DecodeField(t, piece)];
      return Success(v);
    }

    method Read8() returns (r: Result<byte>)
      requires Valid()
      modifies this`count, this`fields
      ensures Got(old(count), old(fields), Word8, r.Success?, if r.Success? then F8(r.value) else F8(0))
    {
      var v :- ReadWord(1, Word8);
      return Success(v % 256);
    }

    method Read32() returns (r: Result<uint32>)
      requires Valid()
      modifies this`count, this`fields
      ensures Got(old(count), old(fields), Word32, r.Success?, if r.Success? then F32(r.value) else F8(0))
    {
      var v :- ReadWord(4, Word32);
      return Success(v);
    }

    method ReadSigned32() returns (r: Result<int32>)
      requires Valid()
      modifies this`count, this`fields
      ensures Got(old(count), old(fields), Signed32, r.Success?, if r.Success? then FS32(r.value) else F8(0))
    {
      var v :- ReadWord(4, Signed32);
      return Success(ToInt32(v));
    }

    method ReadBuffer(n: nat) returns (r: Result<seq<byte>>)
      requires Valid()
      modifies this`count, this`fields
      ensures Got(old(count), old(fields), Buffer(n), r.Success?, if r.Success? then FBuf(r.value) else F8(0))
    {
      if count + n > |data| {
        return Failure;
      }
      var piece := data[count..count + n];
      Split(data, count, count + n);
      EncodeAppend(fields, FBuf(piece));
      count := count + n;
      fields := fields + [FBuf(piece)];
      return Success(piece);
    }
  }
}
