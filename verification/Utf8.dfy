/** UTF-8 (section 3 of RFC 3629) for strings of Unicode scalar values. */
module Utf8 {
  import opened Wrappers

  type byte = x: int | 0 <= x < 256

  function EncodeChar(c: char): (bs: seq<byte>)
    ensures 1 <= |bs| <= 4
    ensures forall i :: 1 <= i < |bs| ==> 0x80 <= bs[i] < 0xC0
    ensures (c as int) < 0x80 ==> bs == [c as int]
    ensures (c as int) >= 0x80 ==> bs[0] >= 0xC0
  {
    var n := c as int;
    if n < 0x80 then [n]
    else if n < 0x800 then [0xC0 + n / 64, 0x80 + n % 64]
    else if n < 0x1_0000 then [0xE0 + n / 4096, 0x80 + n / 64 % 64, 0x80 + n % 64]
    else [0xF0 + n / 262144, 0x80 + n / 4096 % 64, 0x80 + n / 64 % 64, 0x80 + n % 64]
  }

  function Encode(s: string): seq<byte> {
    if s == [] then [] else EncodeChar(s[0]) + Encode(s[1..])
  }

  predicate Continuation(b: byte) {
    0x80 <= b < 0xC0
  }

  predicate Scalar(n: int) {
    0 <= n < 0xD800 || 0xE000 <= n < 0x11_0000
  }

  /** The first character of a byte string and the number of bytes it takes; None when the
      bytes do not start with a well-formed character. */
  function DecodeFirst(bs: seq<byte>): (r: Option<(char, nat)>)
    ensures r.Some? ==> 1 <= r.value.1 <= |bs|
  {
    if bs == [] then None
    else if bs[0] < 0x80 then Some((bs[0] as char, 1))
    else if 0xC0 <= bs[0] < 0xE0 then
      if |bs| < 2 || !Continuation(bs[1]) then None
      else Accept(High(bs[0], 0xC0) * 64 + Low(bs[1]), 0x80, 2)
    else if 0xE0 <= bs[0] < 0xF0 then
      if |bs| < 3 || !Continuation(bs[1]) || !Continuation(bs[2]) then None
      else Accept(High(bs[0], 0xE0) * 4096 + Low(bs[1]) * 64 + Low(bs[2]), 0x800, 3)
    else if 0xF0 <= bs[0] < 0xF8 then
      if |bs| < 4 || !Continuation(bs[1]) || !Continuation(bs[2]) || !Continuation(bs[3]) then None
      else Accept(High(bs[0], 0xF0) * 262144 + Low(bs[1]) * 4096 + Low(bs[2]) * 64 + Low(bs[3]), 0x1_0000, 4)
    else None
  }

  function High(b: byte, mark: int): int {
    b as int - mark
  }

  function Low(b: byte): int {
    b as int - 0x80
  }

  /** Overlong forms, surrogates and numbers beyond the last code point are refused. */
  function Accept(n: int, least: int, length: nat): Option<(char, nat)> {
    if n < least || !Scalar(n) then None else Some((n as char, length))
  }

  function Decode(bs: seq<byte>): Option<string> {
    if bs == [] then Some([])
    else match DecodeFirst(bs)
      case None => None
      case Some((c, n)) =>
        match Decode(bs[n..])
        case None => None
        case Some(s) => Some([c] + s)
  }

  lemma DecodeFirstOfEncoded(c: char, rest: seq<byte>)
    ensures DecodeFirst(EncodeChar(c) + rest) == Some((c, |EncodeChar(c)|))
  {
    var n := c as int;
    if n < 0x80 {
    } else if n < 0x800 {
      TwoBytes(c, rest);
    } else if n < 0x1_0000 {
      ThreeBytes(c, rest);
    } else {
      FourBytes(c, rest);
    }
  }

  lemma TwoBytes(c: char, rest: seq<byte>)
    requires 0x80 <= c as int < 0x800
    ensures DecodeFirst(EncodeChar(c) + rest) == Some((c, |EncodeChar(c)|))
  {
    var n := c as int;
    var bs := EncodeChar(c) + rest;
    assert bs[0] == 0xC0 + n / 64 && bs[1] == 0x80 + n % 64;
  }

  lemma ThreeBytes(c: char, rest: seq<byte>)
    requires 0x800 <= c as int < 0x1_0000
    ensures DecodeFirst(EncodeChar(c) + rest) == Some((c, |EncodeChar(c)|))
  {
    var n := c as int;
    var bs := EncodeChar(c) + rest;
    assert bs[0] == 0xE0 + n / 4096 && bs[1] == 0x80 + n / 64 % 64 && bs[2] == 0x80 + n % 64;
    assert n / 64 / 64 == n / 4096;
  }

  lemma FourBytes(c: char, rest: seq<byte>)
    requires 0x1_0000 <= c as int
    ensures DecodeFirst(EncodeChar(c) + rest) == Some((c, |EncodeChar(c)|))
  {
    var n := c as int;
    var bs := EncodeChar(c) + rest;
    assert bs[0] == 0xF0 + n / 262144 && bs[1] == 0x80 + n / 4096 % 64;
    assert bs[2] == 0x80 + n / 64 % 64 && bs[3] == 0x80 + n % 64;
    assert n / 64 / 64 == n / 4096 && n / 4096 / 64 == n / 262144;
  }

  lemma {:induction false} DecodeEncode(s: string)
    ensures Decode(Encode(s)) == Some(s)
  {
    if s != [] {
      var bs := EncodeChar(s[0]) + Encode(s[1..]);
      DecodeFirstOfEncoded(s[0], Encode(s[1..]));
      assert bs[|EncodeChar(s[0])|..] == Encode(s[1..]);
      DecodeEncode(s[1..]);
      assert [s[0]] + s[1..] == s;
    }
  }

  // ---------------------------------------------------------------- nothing else is text

  lemma Digits64(h: int, l: int)
    requires 0 <= l < 64
    ensures (h * 64 + l) / 64 == h && (h * 64 + l) % 64 == l
  {
  }

  lemma FromTwo(bs: seq<byte>)
    requires |bs| >= 2 && 0xC0 <= bs[0] < 0xE0 && DecodeFirst(bs).Some?
    ensures var (c, n) := DecodeFirst(bs).value; EncodeChar(c) == bs[..n]
  {
    Digits64(High(bs[0], 0xC0), Low(bs[1]));
  }

  lemma FromThree(bs: seq<byte>)
    requires |bs| >= 3 && 0xE0 <= bs[0] < 0xF0 && DecodeFirst(bs).Some?
    ensures var (c, n) := DecodeFirst(bs).value; EncodeChar(c) == bs[..n]
  {
    var h, m, l := High(bs[0], 0xE0), Low(bs[1]), Low(bs[2]);
    var n := h * 4096 + m * 64 + l;
    assert n == (h * 64 + m) * 64 + l;
    Digits64(h * 64 + m, l);
    Digits64(h, m);
    assert n / 4096 == n / 64 / 64;
  }

  lemma FromFour(bs: seq<byte>)
    requires |bs| >= 4 && 0xF0 <= bs[0] && DecodeFirst(bs).Some?
    ensures var (c, n) := DecodeFirst(bs).value; EncodeChar(c) == bs[..n]
  {
    var h, k, m, l := High(bs[0], 0xF0), Low(bs[1]), Low(bs[2]), Low(bs[3]);
    var n := h * 262144 + k * 4096 + m * 64 + l;
    assert n == ((h * 64 + k) * 64 + m) * 64 + l;
    Digits64((h * 64 + k) * 64 + m, l);
    Digits64(h * 64 + k, m);
    Digits64(h, k);
    assert n / 4096 == n / 64 / 64 && n / 262144 == n / 64 / 64 / 64;
  }

  lemma EncodeDecodedFirst(bs: seq<byte>)
    requires DecodeFirst(bs).Some?
    ensures var (c, n) := DecodeFirst(bs).value; EncodeChar(c) == bs[..n]
  {
    if 0xC0 <= bs[0] < 0xE0 {
      FromTwo(bs);
    } else if 0xE0 <= bs[0] < 0xF0 {
      FromThree(bs);
    } else if 0xF0 <= bs[0] {
      FromFour(bs);
    }
  }

  lemma {:induction false} EncodeDecode(bs: seq<byte>)
    requires Decode(bs).Some?
    ensures Encode(Decode(bs).value) == bs
    decreases |bs|
  {
    if bs != [] {
      var (c, n) := DecodeFirst(bs).value;
      EncodeDecodedFirst(bs);
      EncodeDecode(bs[n..]);
      PutBack(c, Decode(bs[n..]).value, bs, n);
    }
  }

  lemma PutBack(c: char, rest: string, bs: seq<byte>, n: nat)
    requires n <= |bs| && EncodeChar(c) == bs[..n] && Encode(rest) == bs[n..]
    ensures Encode([c] + rest) == bs
  {
    assert ([c] + rest)[1..] == rest;
    assert bs == bs[..n] + bs[n..];
  }

  /** Bytes decode to a text if and only if they are its encoding: overlong forms, surrogates and
      numbers out of range do not. */
  lemma {:induction false} DecodeIff(bs: seq<byte>, s: string)
    ensures Decode(bs) == Some(s) <==> bs == Encode(s)
  {
    DecodeEncode(s);
    if Decode(bs).Some? { EncodeDecode(bs); }
  }

  lemma {:induction false} EncodeConcat(s: string, t: string)
    ensures Encode(s + t) == Encode(s) + Encode(t)
  {
    if s == [] {
      assert s + t == t;
    } else {
      EncodeConcat(s[1..], t);
      assert (s + t)[1..] == s[1..] + t;
    }
  }

  /** An ASCII byte at the front of encoded text is an ASCII character at the front of the text. */
  lemma AsciiFront(s: string, rest: seq<byte>)
    requires s != [] && (Encode(s) + rest)[0] < 0x80
    ensures s[0] as int == (Encode(s) + rest)[0]
    ensures (Encode(s) + rest)[1..] == Encode(s[1..]) + rest
  {
    var e, tail := EncodeChar(s[0]), Encode(s[1..]);
    assert Encode(s) + rest == e + (tail + rest);
    assert (e + (tail + rest))[0] == e[0];
    assert (s[0] as int) < 0x80;
    assert (e + (tail + rest))[1..] == tail + rest;
  }
}
