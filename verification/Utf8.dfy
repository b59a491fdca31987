/** The bytes behind Rust strings. */
module Utf8 {
  newtype byte = x: int | 0 <= x < 256

  function EncodeChar(c: char): (bytes: seq<byte>)
    ensures 1 <= |bytes| <= 4
  {
    var n := c as int;
    if n < 0x80 then [n as byte]
    else if n < 0x800 then [(0xC0 + n / 0x40) as byte, (0x80 + n % 0x40) as byte]
    else if n < 0x1_0000 then
      [(0xE0 + n / 0x1000) as byte, (0x80 + n / 0x40 % 0x40) as byte, (0x80 + n % 0x40) as byte]
    else
      [(0xF0 + n / 0x4_0000) as byte, (0x80 + n / 0x1000 % 0x40) as byte,
       (0x80 + n / 0x40 % 0x40) as byte, (0x80 + n % 0x40) as byte]
  }

  /** `as_bytes`. */
  function Encode(s: string): seq<byte> {
    if s == [] then [] else EncodeChar(s[0]) + Encode(s[1..])
  }

  lemma {:induction false} EncodeConcat(a: string, b: string)
    ensures Encode(a + b) == Encode(a) + Encode(b)
  {
    if a == [] {
      assert a + b == b;
    } else {
      EncodeConcat(a[1..], b);
      assert (a + b)[0] == a[0] && (a + b)[1..] == a[1..] + b;
    }
  }

  lemma {:induction false} Digits(n: nat)
    ensures n == n / 0x40 * 0x40 + n % 0x40
    ensures n / 0x40 == n / 0x1000 * 0x40 + n / 0x40 % 0x40
    ensures n / 0x1000 == n / 0x4_0000 * 0x40 + n / 0x1000 % 0x40
  {
    assert n / 0x40 / 0x40 == n / 0x1000;
    assert n / 0x1000 / 0x40 == n / 0x4_0000;
  }

  /** The first byte tells how many follow, and no other character starts the same way. */
  lemma {:induction false} CharDetermined(c: char, d: char, more: seq<byte>, rest: seq<byte>)
    requires EncodeChar(c) + more == EncodeChar(d) + rest
    ensures c == d
  {
    var bytes := EncodeChar(c) + more;
    assert bytes[0] == EncodeChar(c)[0] == EncodeChar(d)[0];
    assert forall i :: 0 <= i < |EncodeChar(c)| ==> bytes[i] == EncodeChar(c)[i];
    assert forall i :: 0 <= i < |EncodeChar(d)| ==> bytes[i] == EncodeChar(d)[i];
    assert |EncodeChar(c)| == |EncodeChar(d)|;
    Digits(c as int);
    Digits(d as int);
    if |EncodeChar(c)| > 1 {
      assert EncodeChar(c)[1] == EncodeChar(d)[1];
      assert |EncodeChar(c)| > 2 ==> EncodeChar(c)[2] == EncodeChar(d)[2];
      assert |EncodeChar(c)| > 3 ==> EncodeChar(c)[3] == EncodeChar(d)[3];
    }
    assert c as int == d as int;
  }

  lemma {:induction false} EncodeInjective(a: string, b: string)
    requires Encode(a) == Encode(b)
    ensures a == b
  {
    if a != [] && b != [] {
      CharDetermined(a[0], b[0], Encode(a[1..]), Encode(b[1..]));
      assert Encode(a[1..]) == Encode(a)[|EncodeChar(a[0])|..];
      assert Encode(b[1..]) == Encode(b)[|EncodeChar(b[0])|..];
      EncodeInjective(a[1..], b[1..]);
      assert a == [a[0]] + a[1..] && b == [b[0]] + b[1..];
    }
  }

  predicate IsTail(b: byte) {
    0x80 <= b < 0xC0
  }

  /** The one to four bytes of a code point: a lead byte by length, then six bits a byte (section 3 of RFC 3629). */
  predicate IsUtf8(bytes: seq<byte>, n: int) {
    && 1 <= |bytes| <= 4 && (forall i :: 0 < i < |bytes| ==> IsTail(bytes[i]))
    && var lead := bytes[0] as int;
       if |bytes| == 1 then n < 0x80 && lead == n
       else if |bytes| == 2 then 0x80 <= n < 0x800 && n == (lead - 0xC0) * 0x40 + (bytes[1] as int - 0x80)
       else if |bytes| == 3 then
         && 0x800 <= n < 0x1_0000
         && n == (lead - 0xE0) * 0x1000 + (bytes[1] as int - 0x80) * 0x40 + (bytes[2] as int - 0x80)
       else
         && 0x1_0000 <= n
         && n == (lead - 0xF0) * 0x4_0000 + (bytes[1] as int - 0x80) * 0x1000
                 + (bytes[2] as int - 0x80) * 0x40 + (bytes[3] as int - 0x80)
  }

  /** The bytes are the characters in order, each in its own bytes. */
  ghost predicate AreUtf8(bytes: seq<byte>, s: string) {
    if s == [] then bytes == []
    else exists k :: 0 < k <= |bytes| && IsUtf8(bytes[..k], s[0] as int) && AreUtf8(bytes[k..], s[1..])
  }

  lemma {:induction false} CharIsUtf8(c: char)
    ensures IsUtf8(EncodeChar(c), c as int)
  {
    Digits(c as int);
  }

  lemma {:induction false} EncodedIsUtf8(s: string)
    ensures AreUtf8(Encode(s), s)
  {
    if s != [] {
      var first, rest := EncodeChar(s[0]), Encode(s[1..]);
      CharIsUtf8(s[0]);
      EncodedIsUtf8(s[1..]);
      assert Encode(s)[..|first|] == first && Encode(s)[|first|..] == rest;
    }
  }
}
