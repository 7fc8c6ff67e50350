/**
 The opaque pagination cursors: URL-safe base64 (section 5 of RFC 4648) of a row's sort
 position. Text is handled as its UTF-8 bytes, in which `|` is always the one byte 0x7C.
 */
module Cursors {
  import opened Wrappers

  type Byte = b: int | 0 <= b < 256

  // ---------------------------------------------------------------- base64

  /** The URL-safe alphabet. */
  function Digit(v: nat): (c: char)
    requires v < 64
    ensures c < 128 as char
  {
    if v < 26 then 'A' + v as char
    else if v < 52 then 'a' + (v - 26) as char
    else if v < 62 then '0' + (v - 52) as char
    else if v == 62 then '-' else '_'
  }

  /** The value of an alphabet character; the decoder also takes the standard `+` and `/`. */
  function Value(c: char): (v: Option<nat>)
    ensures v.Some? ==> v.value < 64
  {
    if 'A' <= c <= 'Z' then Some(c as int - 'A' as int)
    else if 'a' <= c <= 'z' then Some(c as int - 'a' as int + 26)
    else if '0' <= c <= '9' then Some(c as int - '0' as int + 52)
    else if c == '-' || c == '+' then Some(62)
    else if c == '_' || c == '/' then Some(63)
    else None
  }

  lemma DigitValue(v: nat)
    requires v < 64
    ensures Value(Digit(v)) == Some(v) && Digit(v) != '=' && Digit(v) < 128 as char
  {
  }

  /** Three bytes to four digits; a last group of one or two bytes is padded with `=`. */
  function Encode(b: seq<Byte>): string {
    if b == [] then ""
    else
      var d0, r0 := Digit(b[0] / 4), b[0] % 4 * 16;
      if |b| == 1 then [d0, Digit(r0), '=', '=']
      else
        var d1, r1 := Digit(r0 + b[1] / 16), b[1] % 16 * 4;
        if |b| == 2 then [d0, d1, Digit(r1), '=']
        else [d0, d1, Digit(r1 + b[2] / 64), Digit(b[2] % 64)] + Encode(b[3..])
  }

  /** What the bits left over from the last digit may be, at each place in a group of four. */
  predicate LeftOver(quad: nat, left: nat) {
    (quad == 0 && left == 0) || (quad == 1 && left < 64) || (quad == 2 && left < 16) || (quad == 3 && left < 4)
  }

  /**
   The lenient decoder the routes call. It skips characters outside the alphabet, stops at
   the padding that completes a group, and fails on an incomplete last group.
   */
  function Scan(s: string, quad: nat, left: nat, pads: nat, out: seq<Byte>): Option<seq<Byte>>
    requires LeftOver(quad, left)
  {
    if s == "" then
      if quad == 0 then Some(out) else None
    else if s[0] == '=' then
      if quad < 2 then Scan(s[1..], quad, left, pads, out)
      else if quad + pads + 1 >= 4 then Some(out)
      else Scan(s[1..], quad, left, pads + 1, out)
    else match Value(s[0])
      case None => Scan(s[1..], quad, left, pads, out)
      case Some(v) =>
        match quad
        case 0 => Scan(s[1..], 1, v, 0, out)
        case 1 => Scan(s[1..], 2, v % 16, 0, out + [left * 4 + v / 16])
        case 2 => Scan(s[1..], 3, v % 4, 0, out + [left * 16 + v / 4])
        case 3 => Scan(s[1..], 0, 0, 0, out + [left * 64 + v])
  }

  predicate IsAscii(s: string) {
    forall i :: 0 <= i < |s| ==> s[i] < 128 as char
  }

  /** `urlsafe_b64decode(s.encode("ascii"))`; None is the exception it raises. */
  function Decode(s: string): Option<seq<Byte>> {
    if IsAscii(s) then Scan(s, 0, 0, 0, []) else None
  }

  /** Decoding one digit at the head of the input. */
  lemma ScanDigit(v: nat, s: string, quad: nat, left: nat, pads: nat, out: seq<Byte>)
    requires v < 64 && LeftOver(quad, left)
    ensures Scan([Digit(v)] + s, quad, left, pads, out) ==
      match quad
      case 0 => Scan(s, 1, v, 0, out)
      case 1 => Scan(s, 2, v % 16, 0, out + [left * 4 + v / 16])
      case 2 => Scan(s, 3, v % 4, 0, out + [left * 16 + v / 4])
      case 3 => Scan(s, 0, 0, 0, out + [left * 64 + v])
  {
    DigitValue(v);
    assert ([Digit(v)] + s)[1..] == s;
  }

  /** Cutting three bytes into four digits loses nothing. */
  lemma DigitsJoin(b0: Byte, b1: Byte, b2: Byte)
    ensures var d0, d1, d2, d3 := b0 / 4, b0 % 4 * 16 + b1 / 16, b1 % 16 * 4 + b2 / 64, b2 % 64;
            && d0 < 64 && d1 < 64 && d2 < 64 && d3 < 64
            && d0 * 4 + d1 / 16 == b0
            && d1 % 16 * 16 + d2 / 4 == b1
            && d2 % 4 * 64 + d3 == b2
  {
    assert b0 / 4 * 4 + b0 % 4 == b0;
    assert b1 / 16 * 16 + b1 % 16 == b1;
    assert b2 / 64 * 64 + b2 % 64 == b2;
  }

  /** Two digits give the first byte of a group. */
  lemma ScanFirst(d0: nat, d1: nat, b0: Byte, s: string, out: seq<Byte>)
    requires d0 < 64 && d1 < 64 && d0 * 4 + d1 / 16 == b0
    ensures Scan([Digit(d0), Digit(d1)] + s, 0, 0, 0, out) == Scan(s, 2, d1 % 16, 0, out + [b0])
  {
    assert [Digit(d0), Digit(d1)] + s == [Digit(d0)] + ([Digit(d1)] + s);
    ScanDigit(d0, [Digit(d1)] + s, 0, 0, 0, out);
    ScanDigit(d1, s, 1, d0, 0, out);
  }

  lemma ScanSecond(left: nat, d2: nat, b1: Byte, s: string, out: seq<Byte>)
    requires left < 16 && d2 < 64 && left * 16 + d2 / 4 == b1
    ensures Scan([Digit(d2)] + s, 2, left, 0, out) == Scan(s, 3, d2 % 4, 0, out + [b1])
  {
    ScanDigit(d2, s, 2, left, 0, out);
  }

  lemma ScanThird(left: nat, d3: nat, b2: Byte, s: string, out: seq<Byte>)
    requires left < 4 && d3 < 64 && left * 64 + d3 == b2
    ensures Scan([Digit(d3)] + s, 3, left, 0, out) == Scan(s, 0, 0, 0, out + [b2])
  {
    ScanDigit(d3, s, 3, left, 0, out);
  }

  lemma ScanOne(b0: Byte, out: seq<Byte>)
    ensures Scan(Encode([b0]), 0, 0, 0, out) == Some(out + [b0])
  {
    DigitsJoin(b0, 0, 0);
    var pad := "==";
    assert Encode([b0]) == [Digit(b0 / 4), Digit(b0 % 4 * 16)] + pad;
    ScanFirst(b0 / 4, b0 % 4 * 16, b0, pad, out);
    assert pad[1..] == "=";
  }

  lemma ScanTwo(b0: Byte, b1: Byte, out: seq<Byte>)
    ensures Scan(Encode([b0, b1]), 0, 0, 0, out) == Some(out + [b0] + [b1])
  {
    DigitsJoin(b0, b1, 0);
    var d1, d2 := b0 % 4 * 16 + b1 / 16, b1 % 16 * 4;
    assert Encode([b0, b1]) == [Digit(b0 / 4), Digit(d1)] + ([Digit(d2)] + "=");
    ScanFirst(b0 / 4, d1, b0, [Digit(d2)] + "=", out);
    ScanSecond(d1 % 16, d2, b1, "=", out + [b0]);
  }

  lemma ScanThree(b0: Byte, b1: Byte, b2: Byte, s: string, out: seq<Byte>)
    ensures var d1, d2 := b0 % 4 * 16 + b1 / 16, b1 % 16 * 4 + b2 / 64;
            Scan([Digit(b0 / 4), Digit(d1), Digit(d2), Digit(b2 % 64)] + s, 0, 0, 0, out)
              == Scan(s, 0, 0, 0, out + [b0] + [b1] + [b2])
  {
    DigitsJoin(b0, b1, b2);
    var d0, d1, d2, d3 := b0 / 4, b0 % 4 * 16 + b1 / 16, b1 % 16 * 4 + b2 / 64, b2 % 64;
    assert [Digit(d0), Digit(d1), Digit(d2), Digit(d3)] + s
        == [Digit(d0), Digit(d1)] + ([Digit(d2)] + ([Digit(d3)] + s));
    ScanFirst(d0, d1, b0, [Digit(d2)] + ([Digit(d3)] + s), out);
    ScanSecond(d1 % 16, d2, b1, [Digit(d3)] + s, out + [b0]);
    ScanThird(d2 % 4, d3, b2, s, out + [b0] + [b1]);
  }

  lemma {:induction false} ScanEncode(b: seq<Byte>, out: seq<Byte>)
    ensures Scan(Encode(b), 0, 0, 0, out) == Some(out + b)
  {
    if |b| == 0 {
      assert out + b == out;
    } else if |b| == 1 {
      assert b == [b[0]];
      ScanOne(b[0], out);
    } else if |b| == 2 {
      assert b == [b[0], b[1]];
      ScanTwo(b[0], b[1], out);
      assert out + [b[0]] + [b[1]] == out + b;
    } else {
      ScanThree(b[0], b[1], b[2], Encode(b[3..]), out);
      ScanEncode(b[3..], out + [b[0]] + [b[1]] + [b[2]]);
      assert out + [b[0]] + [b[1]] + [b[2]] + b[3..] == out + b;
    }
  }

  lemma {:induction false} EncodeIsAscii(b: seq<Byte>)
    ensures IsAscii(Encode(b)) && |Encode(b)| % 4 == 0
  {
    if |b| > 2 {
      EncodeIsAscii(b[3..]);
    }
  }

  /** The decoder undoes the encoder, on every byte string. */
  lemma Base64RoundTrip(b: seq<Byte>)
    ensures Decode(Encode(b)) == Some(b)
  {
    EncodeIsAscii(b);
    ScanEncode(b, []);
    assert [] + b == b;
  }

  /** The digits are those of table 2 of RFC 4648, most significant first: the leading six bits of a byte. */
  lemma UrlSafeAlphabet(v: nat)
    requires v < 64
    ensures var c := Encode([4 * v])[0] as int;
            c == if v < 26 then 'A' as int + v
                 else if v < 52 then 'a' as int + (v - 26)
                 else if v < 62 then '0' as int + (v - 52)
                 else if v == 62 then '-' as int else '_' as int
  {
  }

  /** Test vectors of section 10 of RFC 4648, and one with both characters of the URL-safe alphabet. */
  lemma TestVectors()
    ensures Encode([102]) == "Zg==" && Encode([102, 111]) == "Zm8=" && Encode([102, 111, 111]) == "Zm9v"
    ensures Encode([251, 255, 254]) == "-__-"
  {
    assert [102, 111, 111][3..] == [] && [251, 255, 254][3..] == [];
  }

  /** The same text in the standard alphabet. */
  function Standard(s: string): string {
    seq(|s|, i requires 0 <= i < |s| => if s[i] == '-' then '+' else if s[i] == '_' then '/' else s[i])
  }

  lemma {:induction false} ScanStandard(s: string, quad: nat, left: nat, pads: nat, out: seq<Byte>)
    requires LeftOver(quad, left)
    ensures Scan(Standard(s), quad, left, pads, out) == Scan(s, quad, left, pads, out)
    decreases |s|
  {
    if s != "" {
      var t, rest := Standard(s), s[1..];
      assert t[1..] == Standard(rest);
      if s[0] == '=' {
        if quad < 2 {
          ScanStandard(rest, quad, left, pads, out);
        } else {
          ScanStandard(rest, quad, left, pads + 1, out);
        }
      } else {
        assert Value(t[0]) == Value(s[0]);
        match Value(s[0])
        case None => ScanStandard(rest, quad, left, pads, out);
        case Some(v) =>
          match quad
          case 0 => ScanStandard(rest, 1, v, 0, out);
          case 1 => ScanStandard(rest, 2, v % 16, 0, out + [left * 4 + v / 16]);
          case 2 => ScanStandard(rest, 3, v % 4, 0, out + [left * 16 + v / 4]);
          case 3 => ScanStandard(rest, 0, 0, 0, out + [left * 64 + v]);
      }
    }
  }

  /** The decoder takes either alphabet. */
  lemma EitherAlphabet(s: string)
    ensures Decode(Standard(s)) == Decode(s)
  {
    ScanStandard(s, 0, 0, 0, []);
    assert IsAscii(s) ==> IsAscii(Standard(s));
    if IsAscii(Standard(s)) {
      assert forall i :: 0 <= i < |s| ==> Standard(s)[i] < 128 as char ==> s[i] < 128 as char;
    }
  }

  lemma GroupsWrap(quad: nat, n: nat)
    requires quad < 4
    ensures (quad + 1 + n) % 4 == ((if quad == 3 then 0 else quad + 1) + n) % 4
  {
  }

  lemma {:induction false} ScanDigits(s: string, quad: nat, left: nat, pads: nat, out: seq<Byte>)
    requires LeftOver(quad, left) && forall i :: 0 <= i < |s| ==> s[i] != '=' && Value(s[i]).Some?
    ensures Scan(s, quad, left, pads, out).Some? <==> (quad + |s|) % 4 == 0
    decreases |s|
  {
    if s != "" {
      var v := Value(s[0]).value;
      GroupsWrap(quad, |s| - 1);
      match quad
      case 0 => ScanDigits(s[1..], 1, v, 0, out);
      case 1 => ScanDigits(s[1..], 2, v % 16, 0, out + [left * 4 + v / 16]);
      case 2 => ScanDigits(s[1..], 3, v % 4, 0, out + [left * 16 + v / 4]);
      case 3 => ScanDigits(s[1..], 0, 0, 0, out + [left * 64 + v]);
    }
  }

  /** A text of letters and digits alone decodes exactly if its groups of four are complete. */
  lemma CompleteGroups(s: string)
    requires forall i :: 0 <= i < |s| ==> 'A' <= s[i] <= 'Z' || 'a' <= s[i] <= 'z' || '0' <= s[i] <= '9'
    ensures Decode(s).Some? <==> |s| % 4 == 0
  {
    ScanDigits(s, 0, 0, 0, []);
  }

  lemma {:induction false} ScanSkips(a: string, b: string, c: char, quad: nat, left: nat, pads: nat, out: seq<Byte>)
    requires LeftOver(quad, left) && c != '=' && Value(c).None?
    ensures Scan(a + [c] + b, quad, left, pads, out) == Scan(a + b, quad, left, pads, out)
    decreases |a|
  {
    if a == "" {
      assert (a + [c] + b)[1..] == b && a + b == b;
    } else {
      var rest := a[1..];
      assert (a + [c] + b)[1..] == rest + [c] + b && (a + b)[1..] == rest + b;
      if a[0] == '=' {
        if quad < 2 {
          ScanSkips(rest, b, c, quad, left, pads, out);
        } else {
          ScanSkips(rest, b, c, quad, left, pads + 1, out);
        }
      } else {
        match Value(a[0])
        case None => ScanSkips(rest, b, c, quad, left, pads, out);
        case Some(v) =>
          match quad
          case 0 => ScanSkips(rest, b, c, 1, v, 0, out);
          case 1 => ScanSkips(rest, b, c, 2, v % 16, 0, out + [left * 4 + v / 16]);
          case 2 => ScanSkips(rest, b, c, 3, v % 4, 0, out + [left * 16 + v / 4]);
          case 3 => ScanSkips(rest, b, c, 0, 0, 0, out + [left * 64 + v]);
      }
    }
  }

  /** A character of neither alphabet makes no difference, wherever it stands. */
  lemma OthersAreSkipped(a: string, b: string, c: char)
    requires c in " .|~" && IsAscii(a + b)
    ensures Decode(a + [c] + b) == Decode(a + b)
  {
    ScanSkips(a, b, c, 0, 0, 0, []);
    forall i | 0 <= i < |a + [c] + b| ensures (a + [c] + b)[i] < 128 as char {
      assert i < |a| ==> (a + b)[i] == a[i];
      assert i > |a| ==> (a + [c] + b)[i] == (a + b)[i - 1];
    }
  }

  lemma OnePadRefused(b0: Byte)
    ensures Decode(Encode([b0])[..3]) == None
  {
    DigitsJoin(b0, 0, 0);
    assert Encode([b0])[..3] == [Digit(b0 / 4), Digit(b0 % 4 * 16)] + "=";
    ScanFirst(b0 / 4, b0 % 4 * 16, b0, "=", []);
    assert "="[1..] == "" && Scan("=", 2, b0 % 4 * 16 % 16, 0, [b0]) == None;
  }

  lemma NoPadRefused(b0: Byte, b1: Byte)
    ensures Decode(Encode([b0, b1])[..3]) == None
  {
    DigitsJoin(b0, b1, 0);
    var d1, d2 := b0 % 4 * 16 + b1 / 16, b1 % 16 * 4;
    assert Encode([b0, b1])[..3] == [Digit(b0 / 4), Digit(d1)] + [Digit(d2)];
    ScanFirst(b0 / 4, d1, b0, [Digit(d2)], []);
    assert [Digit(d2)] + "" == [Digit(d2)];
    ScanSecond(d1 % 16, d2, b1, "", [b0]);
  }

  /** Padding cut short is refused, and so is any character beyond ASCII. */
  lemma PaddingIsNeeded(b0: Byte, b1: Byte)
    ensures Decode(Encode([b0])[..3]) == None && Decode(Encode([b0, b1])[..3]) == None
  {
    OnePadRefused(b0);
    NoPadRefused(b0, b1);
  }

  lemma BeyondAscii(s: string, i: nat)
    requires i < |s| && s[i] as int >= 128
    ensures Decode(s) == None
  {
  }

  // ---------------------------------------------------------------- the two cursors

  const SEPARATOR: Byte := 0x7C

  /** The position of the last separator, as `rsplit("|", 1)` looks for it. */
  function LastSeparator(raw: seq<Byte>): (at: Option<nat>)
    ensures at.None? ==> SEPARATOR !in raw
    ensures at.Some? ==> at.value < |raw| && raw[at.value] == SEPARATOR && SEPARATOR !in raw[at.value + 1..]
  {
    if raw == [] then None
    else if raw[|raw| - 1] == SEPARATOR then Some(|raw| - 1)
    else
      var at := LastSeparator(raw[..|raw| - 1]);
      assert at.Some? ==> raw[at.value + 1..] == raw[..|raw| - 1][at.value + 1..] + [raw[|raw| - 1]];
      assert raw == raw[..|raw| - 1] + [raw[|raw| - 1]];
      at
  }

  lemma {:induction false} LastSeparatorAt(before: seq<Byte>, after: seq<Byte>)
    requires SEPARATOR !in after
    ensures LastSeparator(before + [SEPARATOR] + after) == Some(|before|)
  {
    var raw := before + [SEPARATOR] + after;
    if after != [] {
      LastSeparatorAt(before, after[..|after| - 1]);
      assert raw[..|raw| - 1] == before + [SEPARATOR] + after[..|after| - 1];
      assert raw[|raw| - 1] == after[|after| - 1];
    }
  }

  /** Which texts `datetime.fromisoformat` and `uuid.UUID` accept. */
  datatype Parsers = Parsers(time: seq<Byte> -> bool, id: seq<Byte> -> bool)

  function EncodeCursor(createdAt: seq<Byte>, id: seq<Byte>): string {
    Encode(createdAt + [SEPARATOR] + id)
  }

  /** None is `InvalidCursorError`: bad base64, no separator, or an unparsable half. */
  function DecodeCursor(cursor: string, parsers: Parsers): Option<(seq<Byte>, seq<Byte>)> {
    match Decode(cursor)
    case None => None
    case Some(raw) =>
      match LastSeparator(raw)
      case None => None
      case Some(at) =>
        var createdAt, id := raw[..at], raw[at + 1..];
        if parsers.time(createdAt) && parsers.id(id) then Some((createdAt, id)) else None
  }

  function EncodeIdCursor(id: seq<Byte>): string {
    Encode(id)
  }

  function DecodeIdCursor(cursor: string, parsers: Parsers): Option<seq<Byte>> {
    match Decode(cursor)
    case None => None
    case Some(id) => if parsers.id(id) then Some(id) else None
  }

  /**
   The composite cursor comes back as it went in, for every timestamp text, exactly when the
   id has no separator in it. (No UUID has one.)
   */
  lemma CursorRoundTrip(createdAt: seq<Byte>, id: seq<Byte>, parsers: Parsers)
    requires parsers.time(createdAt) && parsers.id(id)
    ensures DecodeCursor(EncodeCursor(createdAt, id), parsers) == Some((createdAt, id)) <==> SEPARATOR !in id
    ensures Decode(EncodeCursor(createdAt, id)) == Some(createdAt + ['|' as int] + id)
  {
    var raw := createdAt + [SEPARATOR] + id;
    Base64RoundTrip(raw);
    if SEPARATOR !in id {
      LastSeparatorAt(createdAt, id);
      assert raw[..|createdAt|] == createdAt && raw[|createdAt| + 1..] == id;
    } else {
      assert SEPARATOR in raw;
    }
  }

  /** What is accepted: the texts that decode to a time and an id that parse, split at the last separator. */
  lemma AcceptedIff(cursor: string, createdAt: seq<Byte>, id: seq<Byte>, parsers: Parsers)
    ensures DecodeCursor(cursor, parsers) == Some((createdAt, id)) <==>
              && Decode(cursor) == Some(createdAt + ['|' as int] + id)
              && '|' as int !in id && parsers.time(createdAt) && parsers.id(id)
    ensures DecodeIdCursor(cursor, parsers) == Some(id) <==> Decode(cursor) == Some(id) && parsers.id(id)
  {
    if Decode(cursor) == Some(createdAt + ['|' as int] + id) && '|' as int !in id {
      var raw := createdAt + ['|' as int] + id;
      LastSeparatorAt(createdAt, id);
      assert raw[..|createdAt|] == createdAt && raw[|createdAt| + 1..] == id;
    }
    if DecodeCursor(cursor, parsers) == Some((createdAt, id)) {
      var raw := Decode(cursor).value;
      var at := LastSeparator(raw).value;
      assert raw == raw[..at] + [raw[at]] + raw[at + 1..];
    }
  }

  lemma IdCursorRoundTrip(id: seq<Byte>, parsers: Parsers)
    requires parsers.id(id)
    ensures DecodeIdCursor(EncodeIdCursor(id), parsers) == Some(id)
  {
    Base64RoundTrip(id);
  }

  /** Two rows never share a cursor. */
  lemma CursorsDiffer(t1: seq<Byte>, id1: seq<Byte>, t2: seq<Byte>, id2: seq<Byte>)
    requires SEPARATOR !in id1 && SEPARATOR !in id2 && EncodeCursor(t1, id1) == EncodeCursor(t2, id2)
    ensures t1 == t2 && id1 == id2
  {
    var any := Parsers(_ => true, _ => true);
    CursorRoundTrip(t1, id1, any);
    CursorRoundTrip(t2, id2, any);
  }

  /** As `uuid.UUID`: nothing with a separator in it is an id. */
  ghost predicate NoIdHasSeparator(parsers: Parsers) {
    forall text: seq<Byte> :: SEPARATOR in text ==> !parsers.id(text)
  }

  /** No text at all is a cursor of both kinds; so each kind's cursors are refused by the routes of the other. */
  lemma KindsNotConfused(cursor: string, createdAt: seq<Byte>, id: seq<Byte>, parsers: Parsers)
    requires NoIdHasSeparator(parsers)
    ensures DecodeCursor(cursor, parsers).None? || DecodeIdCursor(cursor, parsers).None?
    ensures parsers.id(id) ==> DecodeCursor(EncodeIdCursor(id), parsers) == None
    ensures DecodeIdCursor(EncodeCursor(createdAt, id), parsers) == None
  {
    Base64RoundTrip(id);
    Base64RoundTrip(createdAt + [SEPARATOR] + id);
  }
}
