/** The manifest tool's hexadecimal printer and parser. */
module HexTools {
  import opened Bytes

  // ---------------------------------------------------------------- digits

  predicate IsHexDigit(c: char) { '0' <= c <= '9' || 'A' <= c <= 'F' || 'a' <= c <= 'f' }

  /** convertchar2hex: everything unknown counts as 9. */
  function Convert(c: char): (v: byte)
    ensures v < 16
  {
    match c
    case 'A' => 10 case 'a' => 10
    case 'B' => 11 case 'b' => 11
    case 'C' => 12 case 'c' => 12
    case 'D' => 13 case 'd' => 13
    case 'E' => 14 case 'e' => 14
    case 'F' => 15 case 'f' => 15
    case '0' => 0 case '1' => 1 case '2' => 2 case '3' => 3 case '4' => 4
    case '5' => 5 case '6' => 6 case '7' => 7 case '8' => 8
    case _ => 9
  }

  function DigitOf(n: nat): (c: char)
    requires n < 16
    ensures IsHexDigit(c)
  {
    "0123456789ABCDEF"[n]
  }

  lemma ConvertDigit(n: nat)
    requires n < 16
    ensures Convert(DigitOf(n)) == n
  {
  }

  /** The digits, in either case, and their values. */
  lemma ConvertByCode(c: char)
    ensures '0' <= c <= '9' ==> Convert(c) == c as int - '0' as int
    ensures 'A' <= c <= 'F' ==> Convert(c) == c as int - 'A' as int + 10
    ensures 'a' <= c <= 'f' ==> Convert(c) == c as int - 'a' as int + 10
    ensures !IsHexDigit(c) ==> Convert(c) == 9
  {
  }

  lemma HexDigits(c: char)
    ensures IsHexDigit(c) <==> c in "0123456789ABCDEFabcdef"
  {
    var digits := "0123456789ABCDEFabcdef";
    if IsHexDigit(c) {
      var at: int := if c <= '9' then c as int - '0' as int
                     else if c <= 'F' then c as int - 'A' as int + 10 else c as int - 'a' as int + 16;
      assert digits[at] == c;
    }
  }

  /** The two digits of a byte. */
  function Printed(b: byte): string { [DigitOf(b / 16), DigitOf(b % 16)] }

  /** convert_hex2ascii. */
  method ConvertHexToAscii(b: byte, str: array<char>)
    requires str.Length >= 2
    modifies str
    ensures str[..2] == Printed(b) && str[2..] == old(str[2..])
  {
    for k := 0 to 2
      invariant forall j :: 0 <= j < k ==> str[j] == Printed(b)[j]
      invariant str[2..] == old(str[2..])
    {
      var nibble := if k == 0 then b / 16 else b % 16;
      str[k] := DigitOf(nibble);
    }
  }

  // ---------------------------------------------------------------- the parser's meaning

  predicate Stops(c: char) { c == '/' || c == '[' }

  predicate Separates(c: char) { !IsHexDigit(c) && !Stops(c) }

  /** What the parser holds: the bytes so far, and possibly one digit. */
  datatype State = State(value: byte, half: bool, out: seq<byte>)

  function Consume(st: State, c: char): State
  {
    if IsHexDigit(c) then
      var v := st.value % 16 * 16 + Convert(c);
      if st.half then State(0, false, st.out + [v]) else State(v, true, st.out)
    else if st.half then State(0, false, st.out + [st.value])
    else st
  }

  /** Return code, bytes stored, and where the file stands. */
  datatype Reading = Reading(code: int, out: seq<byte>, pos: nat)

  function Stopped(st: State, pos: nat): Reading
  {
    Reading(-2, if st.half then st.out + [st.value] else st.out, pos)
  }

  /** read_bytes from position `pos`, with `last` in the character variable. At the end of the file the scan leaves
      that variable as it was, and the loop body runs once more on it. */
  function Read(text: string, pos: nat, last: char, st: State, limit: nat): Reading
    requires pos <= |text|
    decreases |text| - pos
  {
    if |st.out| >= limit then Reading(0, st.out, pos)
    else if pos == |text| then
      if Stops(last) then Stopped(st, if pos > 0 then pos - 1 else 0)
      else Reading(0, Consume(st, last).out, pos)
    else if Stops(text[pos]) then Stopped(st, pos)
    else Read(text, pos + 1, text[pos], Consume(st, text[pos]), limit)
  }

  const START: State := State(0, false, [])

  // ---------------------------------------------------------------- the parser

  /** An open file. */
  class File {
    const text: string
    var pos: nat
    var eof: bool

    constructor (text: string)
      ensures this.text == text && pos == 0 && !eof
    {
      this.text, pos, eof := text, 0, false;
    }

    /** fscanf("%c"): at the end the variable keeps its value and the end is noticed. */
    method Scan(a: char) returns (c: char)
      requires pos <= |text|
      modifies this
      ensures pos <= |text|
      ensures old(pos) < |text| ==> c == text[old(pos)] && pos == old(pos) + 1 && eof == old(eof)
      ensures old(pos) == |text| ==> c == a && pos == old(pos) && eof
    {
      c := a;
      if pos < |text| {
        c, pos := text[pos], pos + 1;
      } else {
        eof := true;
      }
    }

    /** fseek(-1, SEEK_CUR). */
    method StepBack()
      modifies this
      ensures pos == (if old(pos) > 0 then old(pos) - 1 else 0) && !eof
    {
      if pos > 0 {
        pos := pos - 1;
      }
      eof := false;
    }
  }

  lemma ReadOn(text: string, pos: nat, last: char, st: State, limit: nat)
    requires pos < |text| && |st.out| < limit
    ensures Read(text, pos, last, st, limit) ==
            if Stops(text[pos]) then Stopped(st, pos) else Read(text, pos + 1, text[pos], Consume(st, text[pos]), limit)
  {
  }

  lemma ReadAtEnd(text: string, last: char, st: State, limit: nat)
    ensures Read(text, |text|, last, st, limit) ==
            if |st.out| >= limit then Reading(0, st.out, |text|)
            else if Stops(last) then Stopped(st, if |text| > 0 then |text| - 1 else 0)
            else Reading(0, Consume(st, last).out, |text|)
  {
  }

  lemma ReadFull(text: string, pos: nat, last: char, st: State, limit: nat)
    requires pos <= |text| && |st.out| >= limit
    ensures Read(text, pos, last, st, limit) == Reading(0, st.out, pos)
  {
  }

  /** The loop body of read_bytes on the character `a`. */
  method Absorb(a: char, value: byte, half: bool, op: array<byte>, count: nat)
    returns (stop: bool, value': byte, half': bool, count': nat)
    requires count < op.Length && (!half ==> value == 0)
    modifies op
    ensures stop == Stops(a) && count <= count' <= count + 1 && (!half' ==> value' == 0)
    ensures stop ==> op[..count'] == if half then old(op[..count]) + [value] else old(op[..count])
    ensures !stop ==> Consume(State(value, half, old(op[..count])), a) == State(value', half', op[..count'])
    ensures op[count'..] == old(op[..])[count'..]
  {
    stop, value', half', count' := false, value, half, count;
    if IsHexDigit(a) {
      value' := value % 16 * 16 + Convert(a);
      if !half {
        half' := true;
        return;
      }
    } else if a == '/' || a == '[' {
      stop := true;
      if !half {
        return;
      }
    } else if !half {
      return;
    }
    op[count] := value';
    count', half' := count + 1, false;
    assert op[..count'] == old(op[..count]) + [value'];
    value' := 0;
  }

  /** read_bytes. `junk` is what the character variable holds before the first scan. */
  method ReadBytes(file: File, limit: nat, op: array<byte>, junk: char) returns (code: int, count: nat)
    requires file.pos <= |file.text| && !file.eof && limit <= op.Length
    modifies file, op
    ensures count <= limit && Reading(code, op[..count], file.pos) == Read(file.text, old(file.pos), junk, START, limit)
    ensures op[count..] == old(op[..])[count..]
  {
    hide Read, Consume, Stops;
    count := 0;
    var a, value, half := junk, 0, false;
    ghost var goal, rest := Read(file.text, file.pos, junk, START, limit), op[..];
    while !file.eof && count < limit
      invariant file.pos <= |file.text| && count <= limit && (!half ==> value == 0)
      invariant op[count..] == rest[count..]
      invariant !file.eof ==> goal == Read(file.text, file.pos, a, State(value, half, op[..count]), limit)
      invariant file.eof ==> goal == Reading(0, op[..count], file.pos)
      decreases |file.text| - file.pos, !file.eof
    {
      ghost var st := State(value, half, op[..count]);
      if file.pos < |file.text| {
        ReadOn(file.text, file.pos, a, st, limit);
      } else {
        ReadAtEnd(file.text, a, st, limit);
      }
      a := file.Scan(a);
      ghost var done := op[..];
      var stop;
      stop, value, half, count := Absorb(a, value, half, op, count);
      assert op[count..] == done[count..] == rest[count..];
      if stop {
        file.StepBack();
        return -2, count;
      }
    }
    if !file.eof {
      ReadFull(file.text, file.pos, a, State(value, half, op[..count]), limit);
    }
    return 0, count;
  }

  // ---------------------------------------------------------------- what it reads

  /** Pieces of a text: separators, bytes of two digits, and single digits with the separator that ends them. */
  datatype Token = Gap(c: char) | Pair(hi: char, lo: char) | Lone(d: char, end: char)

  ghost predicate WellFormed(t: Token)
  {
    match t
    case Gap(c) => Separates(c)
    case Pair(hi, lo) => IsHexDigit(hi) && IsHexDigit(lo)
    case Lone(d, end) => IsHexDigit(d) && Separates(end)
  }

  function Spelled(t: Token): string
  {
    match t
    case Gap(c) => [c]
    case Pair(hi, lo) => [hi, lo]
    case Lone(d, end) => [d, end]
  }

  function ValueOf(t: Token): seq<byte>
  {
    match t
    case Gap(_) => []
    case Pair(hi, lo) => [16 * Convert(hi) + Convert(lo)]
    case Lone(d, _) => [Convert(d)]
  }

  function Text(ts: seq<Token>): string { if ts == [] then "" else Spelled(ts[0]) + Text(ts[1..]) }

  function Values(ts: seq<Token>): seq<byte> { if ts == [] then [] else ValueOf(ts[0]) + Values(ts[1..]) }

  ghost predicate AllWellFormed(ts: seq<Token>) { forall i :: 0 <= i < |ts| ==> WellFormed(ts[i]) }

  /** One token further: its value is stored, no digit is left over. */
  lemma ReadToken(text: string, pre: string, t: Token, post: string, last: char, out: seq<byte>, limit: nat)
    requires text == pre + Spelled(t) + post
    requires WellFormed(t) && |out| + |ValueOf(t)| <= limit && |out| < limit
    ensures |pre| + |Spelled(t)| <= |text|
    ensures Read(text, |pre|, last, State(0, false, out), limit) ==
            Read(text, |pre| + |Spelled(t)|, LastOf(t), State(0, false, out + ValueOf(t)), limit)
  {
    match t
    case Gap(c) =>
      assert text[|pre|] == c && out + [] == out;
    case Pair(hi, lo) =>
      assert text[|pre|] == hi && text[|pre| + 1] == lo;
    case Lone(d, end) =>
      assert text[|pre|] == d && text[|pre| + 1] == end;
  }

  function LastOf(t: Token): char { Spelled(t)[|Spelled(t)| - 1] }

  lemma FirstToken(pre: string, ts: seq<Token>, post: string)
    requires ts != []
    ensures pre + Text(ts) + post == pre + Spelled(ts[0]) + (Text(ts[1..]) + post)
    ensures pre + Text(ts) + post == pre + Spelled(ts[0]) + Text(ts[1..]) + post
    ensures |Text(ts)| == |Spelled(ts[0])| + |Text(ts[1..])|
  {
  }

  lemma NothingSpelled(out: seq<byte>)
    ensures Text([]) == "" && Values([]) == [] && out + Values([]) == out
  {
  }

  lemma FirstValue(out: seq<byte>, ts: seq<Token>)
    requires ts != []
    ensures out + Values(ts) == out + ValueOf(ts[0]) + Values(ts[1..])
    ensures |Values(ts)| == |ValueOf(ts[0])| + |Values(ts[1..])|
  {
  }

  /** Where no digit is pending, reading goes on over well-formed tokens until the limit is reached or they are used
      up; what follows them is not looked at. */
  lemma {:induction false} ReadTokens(text: string, pre: string, ts: seq<Token>, post: string, last: char,
                                      out: seq<byte>, limit: nat)
    requires text == pre + Text(ts) + post && AllWellFormed(ts) && |out| + |Values(ts)| <= limit
    ensures |pre| + |Text(ts)| <= |text|
    ensures var r := Read(text, |pre|, last, State(0, false, out), limit);
            if |out| + |Values(ts)| == limit then r.code == 0 && r.out == out + Values(ts)
            else r == Read(text, |pre| + |Text(ts)|, if ts == [] then last else LastOf(ts[|ts| - 1]),
                           State(0, false, out + Values(ts)), limit)
    decreases |ts|
  {
    hide Read, Text, Values, ValueOf, Spelled, LastOf, WellFormed;
    if ts == [] {
      NothingSpelled(out);
      if |out| == limit { ReadFull(text, |pre|, last, State(0, false, out), limit); }
    } else {
      FirstValue(out, ts);
      FirstToken(pre, ts, post);
      var t, rest := ts[0], ts[1..];
      if |out| == limit {
        assert out + Values(ts) == out;
        ReadFull(text, |pre|, last, State(0, false, out), limit);
      } else {
        ReadToken(text, pre, t, Text(rest) + post, last, out, limit);
        ReadTokens(text, pre + Spelled(t), rest, post, LastOf(t), out + ValueOf(t), limit);
        assert rest != [] ==> rest[|rest| - 1] == ts[|ts| - 1];
      }
    }
  }

  /** A text of well-formed tokens, up to the end of the file: exactly their values are read, and the repeated last
      character does no harm, for any limit that leaves room for them. */
  lemma ReadsWhatIsSpelled(ts: seq<Token>, junk: char, limit: nat)
    requires AllWellFormed(ts) && |Values(ts)| <= limit && (ts == [] ==> !Stops(junk))
    ensures var r := Read(Text(ts), 0, junk, START, limit); r.code == 0 && r.out == Values(ts)
  {
    ReadTokens(Text(ts), [], ts, [], junk, [], limit);
    ReadAtEnd(Text(ts), if ts == [] then junk else LastOf(ts[|ts| - 1]), State(0, false, Values(ts)), limit);
    if ts != [] { assert WellFormed(ts[|ts| - 1]); }
  }

  /** A digit alone at the end of the file is read twice: what is stored is that digit in both halves. */
  lemma LoneDigitAtEndCountsTwice(ts: seq<Token>, d: char, junk: char, limit: nat)
    requires AllWellFormed(ts) && IsHexDigit(d) && |Values(ts)| < limit
    ensures var r := Read(Text(ts) + [d], 0, junk, START, limit);
            r.code == 0 && r.out == Values(ts) + [17 * Convert(d)]
  {
    hide Read, Text, Values, LastOf;
    assert [] + Text(ts) == Text(ts) && [] + Values(ts) == Values(ts);
    var text := Text(ts) + [d];
    ReadTokens(text, [], ts, [d], junk, [], limit);
    ReadOn(text, |Text(ts)|, if ts == [] then junk else LastOf(ts[|ts| - 1]), State(0, false, Values(ts)), limit);
    ReadAtEnd(text, d, State(Convert(d), true, Values(ts)), limit);
  }

  lemma TextFirst(t: Token, ts: seq<Token>)
    ensures Text([t] + ts) == Spelled(t) + Text(ts) && Values([t] + ts) == ValueOf(t) + Values(ts)
  {
    assert ([t] + ts)[1..] == ts;
  }

  lemma Regrouped<T>(x: seq<T>, y: seq<T>, z: seq<T>)
    ensures x + y + z == x + (y + z)
  {
  }

  ghost predicate NoneStops(text: string) { forall i :: 0 <= i < |text| ==> !Stops(text[i]) }

  /** The text cut into tokens from the left ... */
  function Tokens(text: string): seq<Token>
  {
    if text == "" then []
    else if !IsHexDigit(text[0]) then [Gap(text[0])] + Tokens(text[1..])
    else if |text| == 1 then []
    else [if IsHexDigit(text[1]) then Pair(text[0], text[1]) else Lone(text[0], text[1])] + Tokens(text[2..])
  }

  /** ... and what is left over: nothing, or one digit at the very end. */
  function Leftover(text: string): string
  {
    if text == "" then ""
    else if !IsHexDigit(text[0]) then Leftover(text[1..])
    else if |text| == 1 then text
    else Leftover(text[2..])
  }

  lemma FirstPiece(text: string) returns (t: Token, n: nat)
    requires NoneStops(text) && text != "" && (|text| > 1 || !IsHexDigit(text[0]))
    ensures 0 < n <= |text| && WellFormed(t) && Spelled(t) == text[..n]
    ensures Tokens(text) == [t] + Tokens(text[n..]) && Leftover(text) == Leftover(text[n..])
  {
    t, n := Tokens(text)[0], if IsHexDigit(text[0]) then 2 else 1;
  }

  /** Every text without stop characters is a text of well-formed tokens, or one with a lone digit behind it. */
  lemma {:induction false} TokensCover(text: string)
    requires NoneStops(text)
    ensures AllWellFormed(Tokens(text)) && text == Text(Tokens(text)) + Leftover(text)
    ensures Leftover(text) != "" ==> |Leftover(text)| == 1 && IsHexDigit(Leftover(text)[0])
    decreases |text|
  {
    if text != "" && (|text| > 1 || !IsHexDigit(text[0])) {
      var t, n := FirstPiece(text);
      hide Tokens, Leftover, WellFormed, Spelled, Text;
      var rest := text[n..];
      TokensCover(rest);
      TextFirst(t, Tokens(rest));
      assert text == text[..n] + rest;
      Regrouped(Spelled(t), Text(Tokens(rest)), Leftover(rest));
    }
  }

  /** The bytes a text spells, a digit left over at its end standing for itself like any other lone digit. */
  function Meant(text: string): seq<byte>
  {
    Values(Tokens(text)) + if Leftover(text) == "" then [] else [Convert(Leftover(text)[0])]
  }

  /** When a file without stop characters, read with room enough, comes out as what it spells: exactly if no digit is
      left over at its very end, or only the digit 0. */
  lemma ReadsItRightWhen(text: string, junk: char, limit: nat)
    requires NoneStops(text) && |Meant(text)| <= limit && (text == "" ==> !Stops(junk))
    ensures var r := Read(text, 0, junk, START, limit);
            r.code == 0 && (r.out == Meant(text) <==> Leftover(text) == "" || Leftover(text) == "0")
  {
    TokensCover(text);
    var ts, tail := Tokens(text), Leftover(text);
    hide Read, Text, Values, Tokens, Leftover;
    if tail == "" {
      assert Text(ts) + tail == Text(ts);
      if ts == [] { NothingSpelled([]); }
      ReadsWhatIsSpelled(ts, junk, limit);
    } else {
      var v, n := Convert(tail[0]), |Values(ts)|;
      assert tail == [tail[0]];
      LoneDigitAtEndCountsTwice(ts, tail[0], junk, limit);
      assert (Values(ts) + [17 * v])[n] == 17 * v && (Values(ts) + [v])[n] == v;
    }
  }

  /** A slash or an opening bracket ends the reading where it stands, with code -2; a digit before it counts alone. */
  lemma StopsAtSlashOrBracket(ts: seq<Token>, lone: string, c: char, post: string, junk: char, limit: nat)
    requires AllWellFormed(ts) && |Values(ts)| < limit && (c == '/' || c == '[')
    requires |lone| <= 1 && forall i :: 0 <= i < |lone| ==> IsHexDigit(lone[i])
    ensures Read(Text(ts) + lone + [c] + post, 0, junk, START, limit) ==
            Reading(-2, Values(ts) + if lone == "" then [] else [Convert(lone[0])], |Text(ts)| + |lone|)
  {
    hide Text, Values, LastOf, WellFormed;
    var text, at := Text(ts) + lone + [c] + post, |Text(ts)|;
    assert text == [] + Text(ts) + (lone + [c] + post) && [] + Values(ts) == Values(ts);
    ReadTokens(text, [], ts, lone + [c] + post, junk, [], limit);
    assert text[at + |lone|] == c && Values(ts) + [] == Values(ts);
    if lone != "" { assert text[at] == lone[0]; }
  }

  // ---------------------------------------------------------------- printing and reading back

  function Gaps(cs: string): seq<Token> { seq(|cs|, i requires 0 <= i < |cs| => Gap(cs[i])) }

  ghost predicate AllSeparate(cs: string) { forall i :: 0 <= i < |cs| ==> Separates(cs[i]) }

  /** The bytes printed two digits each, every one behind its own separators, with more separators at the end. */
  function PrintedAll(bs: seq<byte>, seps: seq<string>, end: string): string
    requires |seps| == |bs|
  {
    if bs == [] then end else seps[0] + Printed(bs[0]) + PrintedAll(bs[1..], seps[1..], end)
  }

  function TokensOf(bs: seq<byte>, seps: seq<string>, end: string): seq<Token>
    requires |seps| == |bs|
  {
    if bs == [] then Gaps(end)
    else Gaps(seps[0]) + PairOf(bs[0]) + TokensOf(bs[1..], seps[1..], end)
  }

  lemma {:induction false} Concatenated(a: seq<Token>, b: seq<Token>)
    ensures Text(a + b) == Text(a) + Text(b) && Values(a + b) == Values(a) + Values(b)
    ensures AllWellFormed(a) && AllWellFormed(b) ==> AllWellFormed(a + b)
  {
    if a == [] {
      assert a + b == b;
    } else {
      var t, rest := a[0], a[1..];
      assert a == [t] + rest && a + b == [t] + (rest + b);
      hide Text, Values, Spelled, ValueOf;
      Concatenated(rest, b);
      TextFirst(t, rest);
      TextFirst(t, rest + b);
      Regrouped(Spelled(t), Text(rest), Text(b));
      Regrouped(ValueOf(t), Values(rest), Values(b));
    }
  }

  lemma {:induction false} GapsSpell(cs: string)
    ensures Text(Gaps(cs)) == cs && Values(Gaps(cs)) == []
    ensures AllSeparate(cs) ==> AllWellFormed(Gaps(cs))
  {
    if cs != [] {
      GapsSpell(cs[1..]);
      assert Gaps(cs)[1..] == Gaps(cs[1..]);
    }
  }

  function PairOf(b: byte): seq<Token> { [Pair(DigitOf(b / 16), DigitOf(b % 16))] }

  lemma PairSpells(b: byte)
    ensures Text(PairOf(b)) == Printed(b) && Values(PairOf(b)) == [b] && AllWellFormed(PairOf(b))
  {
    ConvertDigit(b / 16);
    ConvertDigit(b % 16);
  }

  lemma {:induction false} TokensSpell(bs: seq<byte>, seps: seq<string>, end: string)
    requires |seps| == |bs| && AllSeparate(end) && forall i :: 0 <= i < |seps| ==> AllSeparate(seps[i])
    ensures var ts := TokensOf(bs, seps, end);
            AllWellFormed(ts) && Text(ts) == PrintedAll(bs, seps, end) && Values(ts) == bs
  {
    if bs == [] {
      GapsSpell(end);
    } else {
      hide Text, Values, AllWellFormed, AllSeparate, Gaps, PairOf, Printed;
      var gaps, pair, rest := Gaps(seps[0]), PairOf(bs[0]), TokensOf(bs[1..], seps[1..], end);
      GapsSpell(seps[0]);
      PairSpells(bs[0]);
      TokensSpell(bs[1..], seps[1..], end);
      Concatenated(gaps + pair, rest);
      Concatenated(gaps, pair);
      assert [] + [bs[0]] + bs[1..] == bs;
    }
  }

  /** The parser undoes the printer: any bytes, printed two digits each with any separators between them, are read
      back exactly, whether the limit is their number or more. */
  lemma ReadsBackWhatWasPrinted(bs: seq<byte>, seps: seq<string>, end: string, junk: char, limit: nat)
    requires |seps| == |bs| <= limit && AllSeparate(end) && forall i :: 0 <= i < |seps| ==> AllSeparate(seps[i])
    requires PrintedAll(bs, seps, end) == "" ==> !Stops(junk)
    ensures var r := Read(PrintedAll(bs, seps, end), 0, junk, START, limit); r.code == 0 && r.out == bs
  {
    TokensSpell(bs, seps, end);
    ReadsWhatIsSpelled(TokensOf(bs, seps, end), junk, limit);
  }
}
