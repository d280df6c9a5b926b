/** Which text the codec lets through (`String::from_utf8` in src/mqtt/codec.rs): exactly the byte
    sequences that encode Unicode scalar values (section 3 of RFC 3629). */
module Utf8 {
  import opened MqttSyntax

  /** A code point that is not a surrogate. */
  predicate IsScalar(c: nat) { c < 0xD800 || 0xE000 <= c < 0x110000 }

  function Encode(c: nat): Bytes
    requires IsScalar(c)
  {
    if c < 0x80 then [c]
    else if c < 0x800 then [0xC0 + c / 64, 0x80 + c % 64]
    else if c < 0x10000 then [0xE0 + c / 4096, 0x80 + c / 64 % 64, 0x80 + c % 64]
    else [0xF0 + c / 262144, 0x80 + c / 4096 % 64, 0x80 + c / 64 % 64, 0x80 + c % 64]
  }

  function EncodeAll(cs: seq<nat>): Bytes
    requires forall i :: 0 <= i < |cs| ==> IsScalar(cs[i])
  {
    if cs == [] then [] else Encode(cs[0]) + EncodeAll(cs[1..])
  }

  lemma EncodedIsRead(c: nat, rest: Bytes)
    requires IsScalar(c)
    ensures CharLength(Encode(c) + rest) == |Encode(c)|
  {
    var s := Encode(c) + rest;
    if c < 0x80 {
    } else if c < 0x800 {
      assert Continues(s[1]);
    } else if c < 0x10000 {
      assert c / 64 / 64 == c / 4096;
      assert Continues(s[1]) && Continues(s[2]);
    } else {
      assert c / 4096 / 64 == c / 262144;
      assert Continues(s[1]) && Continues(s[2]) && Continues(s[3]);
    }
  }

  function Above(b: byte, base: int): int { b - base }

  /** The code point of the character at the front. */
  function Decode(s: Bytes): int
    requires s != [] && CharLength(s) > 0
  {
    match CharLength(s)
    case 1 => s[0]
    case 2 => 64 * Above(s[0], 0xC0) + Above(s[1], 0x80)
    case 3 => 4096 * Above(s[0], 0xE0) + 64 * Above(s[1], 0x80) + Above(s[2], 0x80)
    case _ =>
      262144 * Above(s[0], 0xF0) + 4096 * Above(s[1], 0x80) + 64 * Above(s[2], 0x80) + Above(s[3], 0x80)
  }

  lemma ReadIsEncoded(s: Bytes)
    requires s != [] && CharLength(s) > 0
    ensures Decode(s) >= 0 && IsScalar(Decode(s)) && Encode(Decode(s)) == s[..CharLength(s)]
  {
    match CharLength(s)
    case 1 =>
    case 2 =>
    case 3 => ThreeRead(s);
    case _ => FourRead(s);
  }

  lemma ThreeRead(s: Bytes)
    requires s != [] && CharLength(s) == 3
    ensures Decode(s) >= 0 && IsScalar(Decode(s)) && Encode(Decode(s)) == s[..3]
  {
    ThreeDigits(Above(s[0], 0xE0), Above(s[1], 0x80), Above(s[2], 0x80));
  }

  lemma FourRead(s: Bytes)
    requires s != [] && CharLength(s) == 4
    ensures Decode(s) >= 0 && IsScalar(Decode(s)) && Encode(Decode(s)) == s[..4]
  {
    FourDigits(Above(s[0], 0xF0), Above(s[1], 0x80), Above(s[2], 0x80), Above(s[3], 0x80));
  }

  lemma By64(q: nat, r: nat)
    requires r < 64
    ensures (64 * q + r) / 64 == q && (64 * q + r) % 64 == r
  {
  }

  lemma By4096(q: nat, r: nat)
    requires r < 4096
    ensures (4096 * q + r) / 4096 == q
  {
  }

  lemma By262144(q: nat, r: nat)
    requires r < 262144
    ensures (262144 * q + r) / 262144 == q
  {
  }

  lemma ThreeDigits(a: nat, b: nat, d: nat)
    requires b < 64 && d < 64
    ensures var c := 4096 * a + 64 * b + d; c / 4096 == a && c / 64 % 64 == b && c % 64 == d
  {
    By64(64 * a + b, d);
    By64(a, b);
    By4096(a, 64 * b + d);
    assert 64 * (64 * a + b) + d == 4096 * a + 64 * b + d == 4096 * a + (64 * b + d);
  }

  lemma FourDigits(a: nat, b: nat, d: nat, e: nat)
    requires b < 64 && d < 64 && e < 64
    ensures var c := 262144 * a + 4096 * b + 64 * d + e;
      c / 262144 == a && c / 4096 % 64 == b && c / 64 % 64 == d && c % 64 == e
  {
    By64(4096 * a + 64 * b + d, e);
    By64(64 * a + b, d);
    By64(a, b);
    By4096(64 * a + b, 64 * d + e);
    By262144(a, 4096 * b + 64 * d + e);
    var c := 262144 * a + 4096 * b + 64 * d + e;
    assert c == 64 * (4096 * a + 64 * b + d) + e && c == 4096 * (64 * a + b) + (64 * d + e);
    assert 4096 * a + 64 * b + d == 64 * (64 * a + b) + d && c == 262144 * a + (4096 * b + 64 * d + e);
  }

  lemma {:induction false} EncodedIsValid(cs: seq<nat>)
    requires forall i :: 0 <= i < |cs| ==> IsScalar(cs[i])
    ensures ValidUtf8(EncodeAll(cs))
  {
    if cs != [] {
      EncodedIsValid(cs[1..]);
      EncodedIsRead(cs[0], EncodeAll(cs[1..]));
      hide CharLength, Encode;
      var n := |Encode(cs[0])|;
      assert n > 0 by { NotEmpty(cs[0]); }
      assert EncodeAll(cs)[n..] == EncodeAll(cs[1..]);
    }
  }

  lemma NotEmpty(c: nat)
    requires IsScalar(c)
    ensures Encode(c) != []
  {
  }

  lemma {:induction false} ValidIsEncoded(s: Bytes) returns (cs: seq<nat>)
    requires ValidUtf8(s)
    ensures (forall i :: 0 <= i < |cs| ==> IsScalar(cs[i])) && s == EncodeAll(cs)
    decreases |s|
  {
    hide CharLength, Encode, Decode, IsScalar;
    if s == [] {
      cs := [];
    } else {
      var n := CharLength(s);
      ReadIsEncoded(s);
      var tail := ValidIsEncoded(s[n..]);
      cs := [Decode(s)] + tail;
      assert cs[1..] == tail && s == s[..n] + s[n..];
    }
  }

  /** Text is let through if and only if it encodes some scalar values one after the other. */
  lemma ValidExactly(s: Bytes)
    ensures ValidUtf8(s) <==> exists cs: seq<nat> :: (forall i :: 0 <= i < |cs| ==> IsScalar(cs[i])) && s == EncodeAll(cs)
  {
    hide ValidUtf8, EncodeAll;
    if ValidUtf8(s) {
      var cs := ValidIsEncoded(s);
    }
    if cs: seq<nat> :| (forall i :: 0 <= i < |cs| ==> IsScalar(cs[i])) && s == EncodeAll(cs) {
      EncodedIsValid(cs);
    }
  }
}
