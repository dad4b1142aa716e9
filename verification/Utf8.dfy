/**
 UTF-8 as section 4 of RFC 3629 defines it: the byte sequences that `std::str::from_utf8`
 accepts, and the text they stand for.
 */
module Utf8 {
  import opened Prelude

  function EncodeChar(c: char): (r: seq<byte>)
    ensures 1 <= |r| <= 4
  {
    var n := c as int;
    if n < 0x80 then [n]
    else if n < 0x800 then [0xC0 + n / 0x40, 0x80 + n % 0x40]
    else if n < 0x1_0000 then [0xE0 + n / 0x1000, 0x80 + n / 0x40 % 0x40, 0x80 + n % 0x40]
    else [0xF0 + n / 0x4_0000, 0x80 + n / 0x1000 % 0x40, 0x80 + n / 0x40 % 0x40, 0x80 + n % 0x40]
  }

  function Encode(s: string): seq<byte> {
    if s == [] then [] else EncodeChar(s[0]) + Encode(s[1..])
  }

  predicate IsTail(b: byte) {
    0x80 <= b <= 0xBF
  }

  // ----- the grammar's four alternatives

  predicate StartsOne(b: seq<byte>) {
    |b| >= 1 && b[0] <= 0x7F
  }

  predicate StartsTwo(b: seq<byte>) {
    |b| >= 2 && 0xC2 <= b[0] <= 0xDF && IsTail(b[1])
  }

  predicate StartsThree(b: seq<byte>) {
    && |b| >= 3 && 0xE0 <= b[0] <= 0xEF && IsTail(b[1]) && IsTail(b[2])
    && (b[0] == 0xE0 ==> b[1] >= 0xA0)
    && (b[0] == 0xED ==> b[1] <= 0x9F)
  }

  predicate StartsFour(b: seq<byte>) {
    && |b| >= 4 && 0xF0 <= b[0] <= 0xF4 && IsTail(b[1]) && IsTail(b[2]) && IsTail(b[3])
    && (b[0] == 0xF0 ==> b[1] >= 0x90)
    && (b[0] == 0xF4 ==> b[1] <= 0x8F)
  }

  function Two(b: seq<byte>): int
    requires StartsTwo(b)
  {
    var b0: int, b1: int := b[0], b[1];
    (b0 - 0xC0) * 0x40 + (b1 - 0x80)
  }

  function Three(b: seq<byte>): int
    requires StartsThree(b)
  {
    var b0: int, b1: int, b2: int := b[0], b[1], b[2];
    (b0 - 0xE0) * 0x1000 + (b1 - 0x80) * 0x40 + (b2 - 0x80)
  }

  function Four(b: seq<byte>): int
    requires StartsFour(b)
  {
    var b0: int, b1: int, b2: int, b3: int := b[0], b[1], b[2], b[3];
    (b0 - 0xF0) * 0x4_0000 + (b1 - 0x80) * 0x1000 + (b2 - 0x80) * 0x40 + (b3 - 0x80)
  }

  /** The character at the start of `b`, and how many bytes it takes. */
  function First(b: seq<byte>): (r: Option<(char, nat)>)
    ensures r.Some? ==> 1 <= r.value.1 <= |b|
  {
    if StartsOne(b) then Some((b[0] as char, 1))
    else if StartsTwo(b) then Some((Two(b) as char, 2))
    else if StartsThree(b) then Some((Three(b) as char, 3))
    else if StartsFour(b) then Some((Four(b) as char, 4))
    else None
  }

  /** `std::str::from_utf8`. */
  function Decode(b: seq<byte>): Option<string> {
    if b == [] then Some([])
    else
      match First(b)
      case None => None
      case Some((c, n)) =>
        match Decode(b[n..])
        case None => None
        case Some(rest) => Some([c] + rest)
  }

  lemma EncodedThree(n: nat)
    requires 0x800 <= n < 0x1_0000 && !(0xD800 <= n < 0xE000)
    ensures var b := EncodeChar(n as char);
            StartsThree(b) && Three(b) == n
  {
    assert n == (n / 0x1000) * 0x1000 + (n / 0x40 % 0x40) * 0x40 + n % 0x40;
  }

  lemma EncodedFour(n: nat)
    requires 0x1_0000 <= n < 0x11_0000
    ensures var b := EncodeChar(n as char);
            StartsFour(b) && Four(b) == n
  {
    assert n == (n / 0x4_0000) * 0x4_0000 + (n / 0x1000 % 0x40) * 0x1000 + (n / 0x40 % 0x40) * 0x40 + n % 0x40;
  }

  lemma FirstOfEncoded(c: char, rest: seq<byte>)
    ensures First(EncodeChar(c) + rest) == Some((c, |EncodeChar(c)|))
  {
    var n := c as int;
    var e := EncodeChar(c);
    var b := e + rest;
    if n < 0x80 {
      assert StartsOne(b);
    } else if n < 0x800 {
      assert StartsTwo(e) && Two(e) == n;
      assert b[0] == e[0] && b[1] == e[1];
    } else if n < 0x1_0000 {
      EncodedThree(n);
      assert b[0] == e[0] && b[1] == e[1] && b[2] == e[2];
    } else {
      EncodedFour(n);
      assert b[0] == e[0] && b[1] == e[1] && b[2] == e[2] && b[3] == e[3];
    }
  }

  /** Appending one six-bit digit, and taking it off again. */
  lemma LastDigit(high: nat, low: nat)
    requires low < 0x40
    ensures (high * 0x40 + low) / 0x40 == high && (high * 0x40 + low) % 0x40 == low
  {
  }

  lemma ThreeDigits(x: nat, y: nat, z: nat)
    requires y < 0x40 && z < 0x40
    ensures var n := x * 0x1000 + y * 0x40 + z;
            n % 0x40 == z && n / 0x40 % 0x40 == y && n / 0x1000 == x
  {
    var n := x * 0x1000 + y * 0x40 + z;
    LastDigit(x * 0x40 + y, z);
    LastDigit(x, y);
    assert n / 0x40 == x * 0x40 + y;
    assert n / 0x1000 == x;
  }

  lemma FourDigits(w: nat, x: nat, y: nat, z: nat)
    requires x < 0x40 && y < 0x40 && z < 0x40
    ensures var n := w * 0x4_0000 + x * 0x1000 + y * 0x40 + z;
            n % 0x40 == z && n / 0x40 % 0x40 == y && n / 0x1000 % 0x40 == x && n / 0x4_0000 == w
  {
    ThreeDigits(w * 0x40 + x, y, z);
    LastDigit(w, x);
    var n := w * 0x4_0000 + x * 0x1000 + y * 0x40 + z;
    assert n / 0x4_0000 == w;
  }

  lemma EncodedFirst(b: seq<byte>)
    requires First(b).Some?
    ensures EncodeChar(First(b).value.0) == b[..First(b).value.1]
  {
    if StartsOne(b) {
    } else if StartsTwo(b) {
      LastDigit(b[0] as int - 0xC0, b[1] as int - 0x80);
    } else if StartsThree(b) {
      ThreeDigits(b[0] as int - 0xE0, b[1] as int - 0x80, b[2] as int - 0x80);
    } else {
      FourDigits(b[0] as int - 0xF0, b[1] as int - 0x80, b[2] as int - 0x80, b[3] as int - 0x80);
    }
  }

  /** Text survives encoding and decoding. */
  lemma {:induction false} DecodeEncode(s: string)
    ensures Decode(Encode(s)) == Some(s)
  {
    if s != [] {
      FirstOfEncoded(s[0], Encode(s[1..]));
      DecodeEncode(s[1..]);
      assert Encode(s)[|EncodeChar(s[0])|..] == Encode(s[1..]);
      assert [s[0]] + s[1..] == s;
    }
  }

  lemma EncodeCons(c: char, rest: string)
    ensures Encode([c] + rest) == EncodeChar(c) + Encode(rest)
  {
    assert ([c] + rest)[1..] == rest;
  }

  lemma EncodeFirst(b: seq<byte>, rest: string)
    requires First(b).Some?
    ensures Encode([First(b).value.0] + rest) == b[..First(b).value.1] + Encode(rest)
  {
    EncodedFirst(b);
    EncodeCons(First(b).value.0, rest);
  }

  /** Bytes that decode are the one encoding of their text. */
  lemma {:induction false} EncodeDecode(b: seq<byte>)
    requires Decode(b).Some?
    ensures Encode(Decode(b).value) == b
  {
    if b != [] {
      var n := First(b).value.1;
      EncodeFirst(b, Decode(b[n..]).value);
      EncodeDecode(b[n..]);
      assert b[..n] + b[n..] == b;
    }
  }

  /** Exactly the encodings of texts are accepted. */
  lemma DecodesExactly(b: seq<byte>, s: string)
    ensures Decode(b) == Some(s) <==> b == Encode(s)
  {
    DecodeEncode(s);
    if Decode(b) == Some(s) {
      EncodeDecode(b);
    }
  }
}
