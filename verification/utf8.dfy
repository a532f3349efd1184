/** Strict UTF-8, as `str.encode("utf-8")` and `bytes.decode("utf-8", errors="strict")`. */
module Utf8 {
  import opened Wrappers

  type Byte = n: int | 0 <= n < 256

  function EncodeChar(c: char): (b: seq<Byte>)
    ensures 1 <= |b| <= 4
  {
    var n := c as int;
    if n < 0x80 then [n]
    else if n < 0x800 then [0xC0 + n / 0x40, 0x80 + n % 0x40]
    else if n < 0x10000 then [0xE0 + n / 0x1000, 0x80 + n / 0x40 % 0x40, 0x80 + n % 0x40]
    else [0xF0 + n / 0x40000, 0x80 + n / 0x1000 % 0x40, 0x80 + n / 0x40 % 0x40, 0x80 + n % 0x40]
  }

  function Encode(s: string): seq<Byte> {
    if s == [] then [] else EncodeChar(s[0]) + Encode(s[1..])
  }

  predicate Continues(b: Byte) { 0x80 <= b < 0xC0 }

  /** The six payload bits of a continuation byte. */
  function Payload(b: Byte): int { b - 0x80 }

  /** The scalar value at the front, if the shortest form of one stands there. */
  function DecodeChar(b: seq<Byte>): (r: Option<char>)
    requires b != []
  {
    var lead: int := b[0];
    if lead < 0x80 then Some(lead as char)
    else if 0xC2 <= lead < 0xE0 && |b| >= 2 && Continues(b[1]) then
      Some(((lead - 0xC0) * 0x40 + Payload(b[1])) as char)
    else if 0xE0 <= lead < 0xF0 && |b| >= 3 && Continues(b[1]) && Continues(b[2]) then
      var n := (lead - 0xE0) * 0x1000 + Payload(b[1]) * 0x40 + Payload(b[2]);
      if n < 0x800 || 0xD800 <= n < 0xE000 then None else Some(n as char)
    else if 0xF0 <= lead < 0xF5 && |b| >= 4 && Continues(b[1]) && Continues(b[2]) && Continues(b[3]) then
      var n := (lead - 0xF0) * 0x40000 + Payload(b[1]) * 0x1000 + Payload(b[2]) * 0x40 + Payload(b[3]);
      if n < 0x10000 || n >= 0x110000 then None else Some(n as char)
    else None
  }

  /** Only the bytes the encoder writes are accepted. */
  lemma DecodeCharExact(b: seq<Byte>)
    requires b != [] && DecodeChar(b).Some?
    ensures |EncodeChar(DecodeChar(b).value)| <= |b|
    ensures EncodeChar(DecodeChar(b).value) == b[..|EncodeChar(DecodeChar(b).value)|]
  {
    var n := DecodeChar(b).value as int;
    if b[0] < 0x80 {
    } else if b[0] < 0xE0 {
      SixBits(b[0] - 0xC0, Payload(b[1]));
    } else if b[0] < 0xF0 {
      var high := (b[0] - 0xE0) * 0x40 + Payload(b[1]);
      SixBits(b[0] - 0xE0, Payload(b[1]));
      SixBits(high, Payload(b[2]));
      assert n == high * 0x40 + Payload(b[2]) && n / 0x1000 == high / 0x40;
    } else {
      FourBytes(b[0] - 0xF0, Payload(b[1]), Payload(b[2]), Payload(b[3]));
    }
  }

  lemma FourBytes(lead: nat, first: int, second: int, third: int)
    requires 0 <= first < 0x40 && 0 <= second < 0x40 && 0 <= third < 0x40
    ensures var n := lead * 0x40000 + first * 0x1000 + second * 0x40 + third;
            && n / 0x40000 == lead && n / 0x1000 % 0x40 == first && n / 0x40 % 0x40 == second && n % 0x40 == third
  {
    var high := lead * 0x40 + first;
    var middle := high * 0x40 + second;
    SixBits(lead, first);
    SixBits(high, second);
    SixBits(middle, third);
    var n := middle * 0x40 + third;
    assert n / 0x1000 == middle / 0x40 && n / 0x40000 == high / 0x40;
  }

  lemma SixBits(high: int, low: int)
    requires 0 <= low < 0x40
    ensures (high * 0x40 + low) / 0x40 == high && (high * 0x40 + low) % 0x40 == low
  {
  }

  function Decode(b: seq<Byte>): Option<string> {
    if b == [] then Some([])
    else match DecodeChar(b)
      case None => None
      case Some(c) =>
        DecodeCharExact(b);
        match Decode(b[|EncodeChar(c)|..])
        case None => None
        case Some(rest) => Some([c] + rest)
  }

  lemma ThreeDigits(n: nat)
    ensures n == n / 0x1000 * 0x1000 + n / 0x40 % 0x40 * 0x40 + n % 0x40
  {
  }

  lemma LastDigit(n: nat)
    ensures n == n / 0x40 * 0x40 + n % 0x40
  {
  }

  lemma ShiftedDigits(n: nat)
    ensures n / 0x40 / 0x1000 == n / 0x40000 && n / 0x40 / 0x40 == n / 0x1000
  {
  }

  lemma FourDigits(n: nat)
    ensures n == n / 0x40000 * 0x40000 + n / 0x1000 % 0x40 * 0x1000 + n / 0x40 % 0x40 * 0x40 + n % 0x40
  {
    var high := n / 0x40;
    assert high == n / 0x40000 * 0x1000 + n / 0x1000 % 0x40 * 0x40 + high % 0x40 by {
      ThreeDigits(high);
      ShiftedDigits(n);
    }
    LastDigit(n);
  }

  lemma DecodeEncodedChar(c: char, rest: seq<Byte>)
    ensures DecodeChar(EncodeChar(c) + rest) == Some(c)
  {
    var e := EncodeChar(c);
    var n := c as int;
    var b := e + rest;
    assert b[0] == e[0];
    if n < 0x80 {
    } else if n < 0x800 {
      assert b[1] == e[1];
    } else if n < 0x10000 {
      assert b[1] == e[1] && b[2] == e[2];
      ThreeDigits(n);
    } else {
      assert b[1] == e[1] && b[2] == e[2] && b[3] == e[3];
      FourDigits(n);
    }
  }

  lemma {:induction false} DecodeEncode(s: string)
    ensures Decode(Encode(s)) == Some(s)
  {
    if s != [] {
      var e, rest := EncodeChar(s[0]), Encode(s[1..]);
      DecodeEncodedChar(s[0], rest);
      DecodeEncode(s[1..]);
      assert (e + rest)[|e|..] == rest;
      assert [s[0]] + s[1..] == s;
    }
  }

  lemma {:induction false} EncodeDecode(b: seq<Byte>)
    ensures Decode(b).Some? ==> Encode(Decode(b).value) == b
  {
    if b != [] && Decode(b).Some? {
      DecodeOne(b);
      var c, n := DecodeChar(b).value, |EncodeChar(DecodeChar(b).value)|;
      EncodeDecode(b[n..]);
      EncodeOne(c, Decode(b[n..]).value);
    }
  }

  /** The first scalar value and the rest. */
  lemma DecodeOne(b: seq<Byte>)
    requires b != [] && Decode(b).Some?
    ensures DecodeChar(b).Some?
    ensures var c := DecodeChar(b).value;
            var n := |EncodeChar(c)|;
            && n <= |b| && b == EncodeChar(c) + b[n..]
            && Decode(b[n..]).Some? && Decode(b).value == [c] + Decode(b[n..]).value
  {
    DecodeCharExact(b);
    Rejoined(EncodeChar(DecodeChar(b).value), b);
  }

  lemma Rejoined(front: seq<Byte>, b: seq<Byte>)
    requires |front| <= |b| && front == b[..|front|]
    ensures b == front + b[|front|..]
  {
  }

  lemma {:induction false} EncodeLength(s: string)
    ensures |s| <= |Encode(s)| <= 4 * |s|
  {
    if s != [] {
      EncodeLength(s[1..]);
    }
  }

  lemma EncodeOne(c: char, s: string)
    ensures Encode([c] + s) == EncodeChar(c) + Encode(s)
  {
    assert ([c] + s)[1..] == s;
  }

  /** Different texts have different encodings. */
  lemma EncodeInjective(s: string, t: string)
    requires Encode(s) == Encode(t)
    ensures s == t
  {
    DecodeEncode(s);
    DecodeEncode(t);
  }
}
