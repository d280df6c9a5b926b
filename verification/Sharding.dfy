/** Routing of topics and message ids to the sixteen shards (src/db.rs). Text is modelled as its
    UTF-8 bytes, one character per byte. */
module Sharding {
  import opened Wrappers

  const SHARDS: nat := 16
  const WORD: nat := 0x1_0000_0000_0000_0000

  /** Exclusive or of the low `bits` bits. */
  function Xor(a: nat, b: nat, bits: nat): nat {
    if bits == 0 then 0 else (a % 2 + b % 2) % 2 + 2 * Xor(a / 2, b / 2, bits - 1)
  }

  /** One byte mixed into the hash, and the multiplication that follows. */
  function Mix(hash: nat, byte: nat): nat {
    (hash / 256 * 256 + Xor(hash % 256, byte % 256, 8)) * 0x100_0000_01b3 % WORD
  }

  /** 64-bit FNV-1a over the bytes of the name. */
  function Hash(topic: string, seed: nat): nat {
    if topic == "" then seed else Hash(topic[1..], Mix(seed, topic[0] as nat))
  }

  function TopicShard(topic: string): (shard: nat)
    ensures shard < SHARDS
  {
    Hash(topic, 0xcbf2_9ce4_8422_2325) % SHARDS
  }

  lemma XorOfA()
    ensures Xor(0x25, 0x61, 8) == 0x44
  {
    assert Xor(0, 0, 1) == 0;
    assert Xor(0, 1, 2) == 1;
    assert Xor(1, 3, 3) == 2;
    assert Xor(2, 6, 4) == 4;
    assert Xor(4, 12, 5) == 8;
    assert Xor(9, 24, 6) == 17;
  }

  /** The hash of the one-letter name `a` is the published FNV-1a value. */
  lemma HashOfA()
    ensures Hash("a", 0xcbf2_9ce4_8422_2325) == 0xaf63_dc4c_8601_ec8c
  {
    hide Xor;
    XorOfA();
    var mixed := 0xcbf2_9ce4_8422_2344;
    assert mixed * 0x100_0000_01b3 == 0xcb_f29c_e5de * WORD + 0xaf63_dc4c_8601_ec8c;
    assert Hash("", 0xaf63_dc4c_8601_ec8c) == 0xaf63_dc4c_8601_ec8c;
    assert "a"[1..] == "";
  }

  /** The shard told from the low four bits of every byte, which alone decide it. */
  function LowBits(topic: string, h: nat): nat {
    if topic == "" then h else LowBits(topic[1..], Xor(h, topic[0] as nat % 16, 4) * 3 % 16)
  }

  lemma XorHalf(a: nat, b: nat, bits: nat)
    requires bits > 0
    ensures Xor(a, b, bits) == (a % 2 + b % 2) % 2 + 2 * Xor(a / 2, b / 2, bits - 1)
  {
  }

  lemma XorLow1(a: nat, b: nat, bits: nat)
    requires bits >= 1
    ensures Xor(a, b, bits) % 2 == Xor(a % 2, b % 2, 1)
  {
    hide Xor;
    XorHalf(a, b, bits);
    XorOne(a % 2, b % 2);
    Doubled2((a % 2 + b % 2) % 2, Xor(a / 2, b / 2, bits - 1));
  }

  lemma XorOne(p: nat, q: nat)
    requires p < 2 && q < 2
    ensures Xor(p, q, 1) == (p + q) % 2
  {
    XorHalf(p, q, 1);
    XorNone(p / 2, q / 2);
  }

  lemma Doubled2(p: nat, y: nat)
    requires p < 2
    ensures (p + 2 * y) % 2 == p
  {
  }

  lemma XorNone(a: nat, b: nat)
    ensures Xor(a, b, 0) == 0
  {
  }

  lemma Halves4(a: nat)
    ensures a % 4 / 2 == a / 2 % 2 && a % 4 % 2 == a % 2
  {
  }

  lemma Doubled4(p: nat, y: nat)
    requires p < 2
    ensures (p + 2 * y) % 4 == p + 2 * (y % 2)
  {
  }

  lemma Halves8(a: nat)
    ensures a % 8 / 2 == a / 2 % 4 && a % 8 % 2 == a % 2
  {
  }

  lemma Doubled8(p: nat, y: nat)
    requires p < 2
    ensures (p + 2 * y) % 8 == p + 2 * (y % 4)
  {
  }

  lemma Halves16(a: nat)
    ensures a % 16 / 2 == a / 2 % 8 && a % 16 % 2 == a % 2
  {
  }

  lemma Doubled16(p: nat, y: nat)
    requires p < 2
    ensures (p + 2 * y) % 16 == p + 2 * (y % 8)
  {
  }

  lemma XorLow2(a: nat, b: nat, bits: nat)
    requires bits >= 2
    ensures Xor(a, b, bits) % 4 == Xor(a % 4, b % 4, 2)
  {
    hide Xor;
    XorHalf(a, b, bits);
    XorHalf(a % 4, b % 4, 2);
    XorLow1(a / 2, b / 2, bits - 1);
    Halves4(a);
    Halves4(b);
    Doubled4((a % 2 + b % 2) % 2, Xor(a / 2, b / 2, bits - 1));
  }

  lemma XorLow3(a: nat, b: nat, bits: nat)
    requires bits >= 3
    ensures Xor(a, b, bits) % 8 == Xor(a % 8, b % 8, 3)
  {
    hide Xor;
    XorHalf(a, b, bits);
    XorHalf(a % 8, b % 8, 3);
    XorLow2(a / 2, b / 2, bits - 1);
    Halves8(a);
    Halves8(b);
    Doubled8((a % 2 + b % 2) % 2, Xor(a / 2, b / 2, bits - 1));
  }

  lemma XorLow(a: nat, b: nat, bits: nat)
    requires bits >= 4
    ensures Xor(a, b, bits) % 16 == Xor(a % 16, b % 16, 4)
  {
    hide Xor;
    XorHalf(a, b, bits);
    XorHalf(a % 16, b % 16, 4);
    XorLow3(a / 2, b / 2, bits - 1);
    Halves16(a);
    Halves16(b);
    Doubled16((a % 2 + b % 2) % 2, Xor(a / 2, b / 2, bits - 1));
  }

  lemma SameLow(x: int, y: int, d: int)
    requires x == y + 16 * d
    ensures x % 16 == y % 16
  {
  }

  lemma LowProduct(mixed: nat)
    ensures mixed * 0x100_0000_01b3 % WORD % 16 == mixed % 16 * 3 % 16
  {
    var product, a, b := mixed * 0x100_0000_01b3, mixed / 16, mixed % 16;
    var q, r := product / WORD, product % WORD;
    SameLow(r, b * 3, mixed * 0x10_0000_001b + 3 * a - 0x1000_0000_0000_0000 * q);
  }

  lemma LowOfLow(x: nat)
    ensures x % 256 % 16 == x % 16
  {
    SameLow(x, x % 256, x / 256 * 16);
  }

  /** One byte of the hash, on the low four bits. */
  lemma MixLow(seed: nat, c: nat)
    ensures Mix(seed, c) % 16 == Xor(seed % 16, c % 16, 4) * 3 % 16
  {
    hide Xor;
    var x := Xor(seed % 256, c % 256, 8);
    var mixed := seed / 256 * 256 + x;
    XorLow(seed % 256, c % 256, 8);
    LowOfLow(seed);
    LowOfLow(c);
    SameLow(mixed, x, seed / 256 * 16);
    LowProduct(mixed);
  }

  lemma {:induction false} HashLow(topic: string, seed: nat)
    ensures Hash(topic, seed) % 16 == LowBits(topic, seed % 16)
  {
    hide Xor, Mix;
    if topic != "" {
      MixLow(seed, topic[0] as nat);
      HashLow(topic[1..], Mix(seed, topic[0] as nat));
    }
  }

  /** Only the low four bits of each byte of a name decide its shard. */
  lemma ShardByLowBits(topic: string)
    ensures TopicShard(topic) == LowBits(topic, 5)
  {
    hide Hash, LowBits, Xor, Mix;
    HashLow(topic, 0xcbf2_9ce4_8422_2325);
  }

  /** Exclusive or of four bits. */
  lemma XorFour(a: nat, b: nat)
    ensures Xor(a, b, 4) == (a % 2 + b % 2) % 2 + 2 * ((a / 2 % 2 + b / 2 % 2) % 2
                            + 2 * ((a / 4 % 2 + b / 4 % 2) % 2 + 2 * ((a / 8 % 2 + b / 8 % 2) % 2)))
  {
    hide Xor;
    XorHalf(a, b, 4);
    XorHalf(a / 2, b / 2, 3);
    XorHalf(a / 4, b / 4, 2);
    XorHalf(a / 8, b / 8, 1);
    XorNone(a / 16, b / 16);
    assert a / 2 / 2 == a / 4 && a / 4 / 2 == a / 8 && a / 8 / 2 == a / 16;
    assert b / 2 / 2 == b / 4 && b / 4 / 2 == b / 8 && b / 8 / 2 == b / 16;
  }

  lemma LowNone(h: nat)
    ensures LowBits("", h) == h
  {
  }

  lemma LowStep(topic: string, h: nat, next: nat)
    requires topic != "" && Xor(h, topic[0] as nat % 16, 4) * 3 % 16 == next
    ensures LowBits(topic, h) == LowBits(topic[1..], next)
  {
  }

  /** The hash loop of `topic_shard`. */
  method HashToShard(topic: string) returns (shard: nat)
    ensures shard == TopicShard(topic)
  {
    hide Xor;
    var hash: nat := 0xcbf2_9ce4_8422_2325;
    assert topic[0..] == topic;
    for i := 0 to |topic|
      invariant Hash(topic[i..], hash) == Hash(topic, 0xcbf2_9ce4_8422_2325)
    {
      assert topic[i..][1..] == topic[i + 1..];
      hash := hash / 256 * 256 + Xor(hash % 256, topic[i] as nat % 256, 8);
      hash := hash * 0x100_0000_01b3 % WORD;
    }
    shard := hash % SHARDS;
  }

  /** The shard a round over all of them comes to after `offset` others. */
  function ShardAt(start: nat, offset: nat): nat { (start + offset) % SHARDS }

  predicate IsDigit(c: char) { '0' <= c <= '9' }

  function DigitValue(c: char): nat
    requires IsDigit(c)
  {
    c as nat - '0' as nat
  }

  function Digit(n: nat): (c: char)
    requires n < 10
    ensures IsDigit(c) && DigitValue(c) == n
  {
    ('0' as nat + n) as char
  }

  /** `s{shard:02}-{uuid}`. */
  function PrefixedId(shard: nat, uuid: string): string
    requires shard < 100
  {
    ['s', Digit(shard / 10), Digit(shard % 10), '-'] + uuid
  }

  function NewMessageId(topic: string, uuid: string): string {
    PrefixedId(TopicShard(topic), uuid)
  }

  /** `"dd".parse::<usize>()`, which also takes a leading plus sign. */
  function ParseTwo(a: char, b: char): Option<nat> {
    if IsDigit(a) && IsDigit(b) then Some(10 * DigitValue(a) + DigitValue(b))
    else if a == '+' && IsDigit(b) then Some(DigitValue(b))
    else None
  }

  function MessageIdShard(id: string): (shard: Option<nat>)
    ensures shard.Some? ==> shard.value < SHARDS
  {
    if |id| < 4 || id[0] != 's' || id[3] != '-' then None
    else
      var shard := ParseTwo(id[1], id[2]);
      if shard.Some? && shard.value < SHARDS then shard else None
  }

  /** The id of a message leads back to the shard its topic hashes to. */
  lemma IdRoutesToTopicShard(topic: string, uuid: string)
    ensures MessageIdShard(NewMessageId(topic, uuid)) == Some(TopicShard(topic))
  {
    var shard := TopicShard(topic);
    var id := PrefixedId(shard, uuid);
    assert id[0] == 's' && id[1] == Digit(shard / 10) && id[2] == Digit(shard % 10) && id[3] == '-';
  }
}
