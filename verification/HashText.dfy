/** From the hexadecimal digest to the number a key is routed by (`get_hash_uint` in utils/utils.h). */
module HashText {
  import opened Common
  import opened Md5
  import opened Shards

  function HexValue(c: char): Option<nat> {
    if '0' <= c <= '9' then Some((c - '0') as int)
    else if 'a' <= c <= 'f' then Some((c - 'a') as int + 10)
    else if 'A' <= c <= 'F' then Some((c - 'A') as int + 10)
    else None
  }

  /** The value of the longest prefix of hexadecimal digits, and its length. */
  function ParsePrefix(t: string): (r: (nat, nat))
    ensures r.1 <= |t|
  {
    if t == "" then (0, 0)
    else
      var (v, n) := ParsePrefix(t[..|t| - 1]);
      var d := HexValue(t[|t| - 1]);
      if n < |t| - 1 || d.None? then (v, n) else (16 * v + d.value, n + 1)
  }

  /** `std::stoul(t, nullptr, 16)` narrowed to 32 bits; None when it throws because there is no digit. */
  function StoulHex(t: string): Option<uint32> {
    var (v, n) := ParsePrefix(t);
    if n == 0 then None else Some(v % TWO32)
  }

  /** `hash.substr(from, 8)`; None when it throws because the string is too short. */
  function Substr8(t: string, from: nat): Option<string> {
    if |t| < from then None
    else if |t| < from + 8 then Some(t[from..])
    else Some(t[from..from + 8])
  }

  function Segment(t: string, from: nat): Option<uint32> {
    var sub := Substr8(t, from);
    if sub.None? then None else StoulHex(sub.value)
  }

  /** Exclusive or, from the lowest bit up. */
  function Xor(a: nat, b: nat): nat {
    if a == 0 && b == 0 then 0 else (a + b) % 2 + 2 * Xor(a / 2, b / 2)
  }

  function Pow2(n: nat): nat {
    if n == 0 then 1 else 2 * Pow2(n - 1)
  }

  lemma {:induction false} XorBelow(a: nat, b: nat, n: nat)
    requires a < Pow2(n) && b < Pow2(n)
    ensures Xor(a, b) < Pow2(n)
  {
    if n > 0 && (a > 0 || b > 0) {
      XorBelow(a / 2, b / 2, n - 1);
    }
  }

  lemma WordsBelow()
    ensures Pow2(32) == TWO32
  {
    assert Pow2(8) == 0x100;
    assert Pow2(16) == 0x100 * Pow2(8);
    assert Pow2(24) == 0x100 * Pow2(16);
    assert Pow2(32) == 0x100 * Pow2(24);
  }

  function Xor4(a: uint32, b: uint32, c: uint32, d: uint32): uint32 {
    WordsBelow();
    XorBelow(a, b, 32);
    XorBelow(Xor(a, b), c, 32);
    XorBelow(Xor(Xor(a, b), c), d, 32);
    Xor(Xor(Xor(a, b), c), d)
  }

  /** The bit of x at position i. */
  function Bit(x: nat, i: nat): (b: nat)
    ensures b < 2
  {
    if i == 0 then x % 2 else Bit(x / 2, i - 1)
  }

  lemma {:induction false} ZeroBit(i: nat)
    ensures Bit(0, i) == 0
  {
    if i > 0 {
      ZeroBit(i - 1);
    }
  }

  lemma {:induction false} XorHalf(a: nat, b: nat)
    ensures Xor(a, b) % 2 == (a % 2 + b % 2) % 2 && Xor(a, b) / 2 == Xor(a / 2, b / 2)
  {
    if a != 0 || b != 0 {
      Halves((a + b) % 2, Xor(a / 2, b / 2));
      assert Xor(a, b) == (a + b) % 2 + 2 * Xor(a / 2, b / 2);
      hide Xor;
    }
  }

  lemma Halves(r: nat, x: nat)
    requires r < 2
    ensures (r + 2 * x) % 2 == r && (r + 2 * x) / 2 == x
  {
  }

  /** Exclusive or is addition without carry. */
  lemma {:induction false} XorBit(a: nat, b: nat, i: nat)
    ensures Bit(Xor(a, b), i) == (Bit(a, i) + Bit(b, i)) % 2
  {
    XorHalf(a, b);
    hide Xor;
    if i > 0 {
      XorBit(a / 2, b / 2, i - 1);
    }
  }

  lemma Parity4(p: nat, q: nat, r: nat, t: nat)
    requires p < 2 && q < 2 && r < 2 && t < 2
    ensures (((p + q) % 2 + r) % 2 + t) % 2 == (p + q + r + t) % 2
  {
  }

  lemma {:induction false} Xor4Bit(a: uint32, b: uint32, c: uint32, d: uint32, i: nat)
    ensures Bit(Xor4(a, b, c, d), i) == (Bit(a, i) + Bit(b, i) + Bit(c, i) + Bit(d, i)) % 2
  {
    hide Xor, Bit;
    XorBit(a, b, i);
    XorBit(Xor(a, b), c, i);
    XorBit(Xor(Xor(a, b), c), d, i);
    Parity4(Bit(a, i), Bit(b, i), Bit(c, i), Bit(d, i));
  }

  /** The bits below position n determine a number below 2^n. */
  lemma {:induction false} BitsDetermine(x: nat, y: nat, n: nat)
    requires x < Pow2(n) && y < Pow2(n) && forall i: nat :: i < n ==> Bit(x, i) == Bit(y, i)
    ensures x == y
  {
    if n > 0 {
      assert Bit(x, 0) == Bit(y, 0);
      forall i: nat | i < n - 1 ensures Bit(x / 2, i) == Bit(y / 2, i) {
        assert Bit(x, i + 1) == Bit(y, i + 1);
      }
      BitsDetermine(x / 2, y / 2, n - 1);
    }
  }

  /** `get_hash_uint`; None when a segment cannot be parsed. */
  function HashUint(t: string): Option<uint32> {
    var s1, s2, s3, s4 := Segment(t, 0), Segment(t, 8), Segment(t, 16), Segment(t, 24);
    if s1.None? || s2.None? || s3.None? || s4.None? then None
    else Some(Xor4(s1.value, s2.value, s3.value, s4.value))
  }

  /** Four bytes read high-order byte first. */
  function BigEndian(b: seq<byte>): (w: uint32)
    requires |b| == 4
  {
    0x100_0000 * (b[0] as int) + 0x1_0000 * (b[1] as int) + 256 * (b[2] as int) + b[3] as int
  }

  lemma HexDigitValue(d: nat)
    requires d < 16
    ensures HexValue(DIGITS[d]) == Some(d)
  {
  }

  /** The digits of either case and no other character. */
  lemma HexValueMeans(c: char, d: nat)
    requires d < 16
    ensures HexValue(c) == Some(d) <==> c == "0123456789abcdef"[d] || c == "0123456789ABCDEF"[d]
    ensures HexValue(c).Some? ==> HexValue(c).value < 16
  {
  }

  /** The prefix parsed is the longest one of digits. */
  lemma {:induction false} ParsePrefixLongest(t: string)
    ensures var n := ParsePrefix(t).1;
            && (forall i :: 0 <= i < n ==> HexValue(t[i]).Some?)
            && (n < |t| ==> HexValue(t[n]).None?)
            && ParsePrefix(t[..n]) == ParsePrefix(t)
  {
    hide HexValue;
    if t != "" {
      var init := t[..|t| - 1];
      ParsePrefixLongest(init);
      var n := ParsePrefix(t).1;
      if n < |t| {
        assert t[..n] == init[..n];
      } else {
        assert t[..n] == t;
      }
    }
  }

  lemma {:induction false} ParseStep(t: string, c: char)
    requires ParsePrefix(t).1 == |t| && HexValue(c).Some?
    ensures ParsePrefix(t + [c]) == (16 * ParsePrefix(t).0 + HexValue(c).value, |t| + 1)
  {
    hide HexValue;
    var u := t + [c];
    assert u[..|u| - 1] == t && u[|u| - 1] == c;
  }

  /** The number a byte string denotes in base 256. */
  function Base256(b: seq<byte>): nat {
    if b == [] then 0 else 256 * Base256(b[..|b| - 1]) + b[|b| - 1]
  }

  /** One more byte printed is two more digits parsed. */
  lemma {:induction false} ParseByte(t: string, b: byte)
    requires ParsePrefix(t).1 == |t|
    ensures ParsePrefix(t + HexByte(b)) == (256 * ParsePrefix(t).0 + b, |t| + 2)
  {
    hide HexValue, ParsePrefix;
    var high, low := DIGITS[b / 16], DIGITS[b % 16];
    HexDigitValue(b / 16);
    HexDigitValue(b % 16);
    ParseStep(t, high);
    ParseStep(t + [high], low);
    assert t + HexByte(b) == t + [high] + [low];
  }

  /** Printing bytes in hexadecimal and parsing the text gives back the number. */
  lemma {:induction false} ParseHexText(b: seq<byte>)
    ensures ParsePrefix(HexText(b)) == (Base256(b), 2 * |b|)
  {
    hide HexByte, HexValue;
    if b != [] {
      ParseHexText(b[..|b| - 1]);
      ParseByte(HexText(b[..|b| - 1]), b[|b| - 1]);
    }
  }

  lemma {:induction false} HexTextConcat(a: seq<byte>, b: seq<byte>)
    ensures HexText(a + b) == HexText(a) + HexText(b)
  {
    if b == [] {
      assert a + b == a;
    } else {
      assert (a + b)[..|a + b| - 1] == a + b[..|b| - 1];
      HexTextConcat(a, b[..|b| - 1]);
    }
  }

  lemma Base256OfFour(b: seq<byte>)
    requires |b| == 4
    ensures Base256(b) == BigEndian(b)
  {
    assert b[..3][..2] == b[..2] && b[..2][..1] == b[..1] && b[..1][..0] == [];
    assert Base256(b[..1]) == b[0];
    assert Base256(b[..2]) == 256 * Base256(b[..1]) + b[1];
    assert Base256(b[..3]) == 256 * Base256(b[..2]) + b[2];
  }

  /** The text of a word in the middle of a message is the middle of the text. */
  lemma HexTextSlice(before: seq<byte>, word: seq<byte>, after: seq<byte>)
    ensures HexText(before + word + after)[2 * |before|..2 * |before| + 2 * |word|] == HexText(word)
  {
    HexTextConcat(before + word, after);
    HexTextConcat(before, word);
    hide HexText;
  }

  lemma {:induction false} StoulOfWord(word: seq<byte>)
    requires |word| == 4
    ensures StoulHex(HexText(word)) == Some(BigEndian(word))
  {
    ParseHexText(word);
    Base256OfFour(word);
    hide HexText, ParsePrefix, BigEndian, Base256;
  }

  lemma SegmentOfDigest(digest: seq<byte>, k: nat)
    requires |digest| == 16 && k < 4
    ensures Segment(HexText(digest), 8 * k) == Some(BigEndian(digest[4 * k..4 * k + 4]))
  {
    hide HexText, StoulHex, BigEndian;
    var before, word, after := digest[..4 * k], digest[4 * k..4 * k + 4], digest[4 * k + 4..];
    assert digest == before + word + after;
    HexTextSlice(before, word, after);
    StoulOfWord(word);
  }

  /** The number that `get_hash_uint` makes of a digest. */
  function WordsXor(d: seq<byte>): uint32
    requires |d| == 16
  {
    Xor4(BigEndian(d[0..4]), BigEndian(d[4..8]), BigEndian(d[8..12]), BigEndian(d[12..16]))
  }

  /** Hash text round trip: for every 16-byte digest the text parses, and its number is the exclusive or of the
      digest's four words read high-order byte first. */
  lemma HashOfDigest(digest: seq<byte>)
    requires |digest| == 16
    ensures HashUint(HexText(digest)) == Some(WordsXor(digest))
  {
    hide HexText, Segment, BigEndian, Xor4;
    SegmentOfDigest(digest, 0);
    SegmentOfDigest(digest, 1);
    SegmentOfDigest(digest, 2);
    SegmentOfDigest(digest, 3);
  }

  /** Bit by bit: the hash of a digest's text has, at every position, the parity of the bits of the digest's four words
      read high-order byte first. With `BitsDetermine` this fixes the number. */
  lemma {:induction false} HashBits(digest: seq<byte>, i: nat)
    requires |digest| == 16
    ensures HashUint(HexText(digest)).Some?
    ensures Bit(HashUint(HexText(digest)).value, i)
         == (Bit(BigEndian(digest[0..4]), i) + Bit(BigEndian(digest[4..8]), i)
             + Bit(BigEndian(digest[8..12]), i) + Bit(BigEndian(digest[12..16]), i)) % 2
  {
    HashOfDigest(digest);
    Xor4Bit(BigEndian(digest[0..4]), BigEndian(digest[4..8]), BigEndian(digest[8..12]), BigEndian(digest[12..16]), i);
    hide HashUint, HexText, BigEndian, Xor4, Bit;
  }

  /** The chunk of a key, as clients and servers both compute it: no parse fails for any key, and the chunk is
      the exclusive or of the four words of its RFC 1321 digest, reduced modulo the number of chunks. */
  method KeyChunk(f: BlockFn, key: seq<byte>) returns (chunk: nat)
    requires Fits(0, |key| % TWO32)
    ensures var d := Digest(f, key[..|key| % TWO32]);
            |d| == 16 && chunk == WordsXor(d) % NUM_CHUNKS
  {
    ghost var d := Digest(f, key[..|key| % TWO32]);
    assert |d| == 16;
    hide Digest, HexText, WordsXor, HashUint;
    HashOfDigest(d);
    var hash := HexMd5(f, key);
    var hashInt := HashUint(hash);
    chunk := hashInt.value % NUM_CHUNKS;
  }
}
