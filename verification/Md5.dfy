/** Streaming MD5 (utils/md5.cc) over an arbitrary 64-byte block function, against the one-shot definition in
    sections 3.1 to 3.5 of RFC 1321. */
module Md5 {
  import opened Common

  const BLOCK: nat := 64

  datatype Words = Words(a: uint32, b: uint32, c: uint32, d: uint32)

  /** `transform`: the four words after one block. */
  type BlockFn = (Words, seq<byte>) -> Words

  const IV := Words(0x67452301, 0xefcdab89, 0x98badcfe, 0x10325476)

  // The one-shot definition

  /** The block function folded over the whole blocks of m, in order. */
  function Fold(f: BlockFn, w: Words, m: seq<byte>): Words
    decreases |m|
  {
    if |m| < BLOCK then w else Fold(f, f(w, m[..BLOCK]), m[BLOCK..])
  }

  /** A bit count as kept in 64 bits. */
  function Wrap(n: nat): (r: nat)
    ensures r < TWO64
  {
    n % TWO64
  }

  /** The bytes after the last whole block. */
  function Rest(m: seq<byte>): (r: seq<byte>)
    ensures |r| == |m| % BLOCK
  {
    m[|m| - |m| % BLOCK..]
  }

  /** A word as four bytes, low-order byte first. */
  function WordBytes(w: uint32): (r: seq<byte>)
    ensures |r| == 4
  {
    [w % 256, w / 256 % 256, w / 0x1_0000 % 256, w / 0x100_0000 % 256]
  }

  function BytesWord(b: seq<byte>): uint32
    requires |b| == 4
  {
    b[0] as int + 256 * (b[1] as int) + 0x1_0000 * (b[2] as int) + 0x100_0000 * (b[3] as int)
  }

  function Encoded(ws: seq<uint32>): (r: seq<byte>)
    ensures |r| == 4 * |ws|
  {
    if ws == [] then [] else Encoded(ws[..|ws| - 1]) + WordBytes(ws[|ws| - 1])
  }

  function Decoded(b: seq<byte>): (r: seq<uint32>)
    requires |b| % 4 == 0
    ensures |r| == |b| / 4
  {
    if b == [] then [] else Decoded(b[..|b| - 4]) + [BytesWord(b[|b| - 4..])]
  }

  function Zeros(n: nat): (r: seq<byte>)
    ensures |r| == n
  {
    seq(n, _ => 0)
  }

  /** Bytes of padding for a message of n bytes: at least one, and as few as bring the length to 56 modulo 64. */
  function PadLength(n: nat): (k: nat)
    ensures 1 <= k <= BLOCK && (n + k) % BLOCK == 56
  {
    1 + (55 - n) % BLOCK
  }

  lemma PadLengthIsLeast(n: nat, k: nat)
    requires 1 <= k && (n + k) % BLOCK == 56
    ensures PadLength(n) <= k
  {
  }

  function Padding(k: nat): seq<byte>
    requires 1 <= k
  {
    [0x80] + Zeros(k - 1)
  }

  /** The message with padding and its 64-bit length in bits, low-order word first. */
  function Padded(m: seq<byte>): seq<byte> {
    m + Padding(PadLength(|m|)) + Encoded(CountWords(Wrap(8 * |m|)))
  }

  function CountWords(n: nat): (ws: seq<uint32>)
    requires n < TWO64
    ensures |ws| == 2
  {
    [n % TWO32, n / TWO32]
  }

  function WordList(w: Words): seq<uint32> {
    [w.a, w.b, w.c, w.d]
  }

  /** The digest as RFC 1321 defines it. */
  function Digest(f: BlockFn, m: seq<byte>): seq<byte> {
    Encoded(WordList(Fold(f, IV, Padded(m))))
  }

  // The streaming context

  /** State words, bit count modulo 2^64, and the bytes waiting in the buffer. */
  datatype Context = Context(words: Words, count: nat, tail: seq<byte>)

  const EMPTY := Context(IV, 0, [])

  predicate Consistent(c: Context) {
    c.count < TWO64 && c.count % 8 == 0 && |c.tail| == c.count / 8 % BLOCK
  }

  /** One call of `update`. */
  function Updated(f: BlockFn, c: Context, input: seq<byte>): Context {
    Context(Fold(f, c.words, c.tail + input), Wrap(c.count + 8 * |input|), Rest(c.tail + input))
  }

  /** The position in the buffer can always be read off the bit count, as `update` and `finalize` do. */
  lemma UpdateKeepsConsistent(f: BlockFn, c: Context, input: seq<byte>)
    requires Consistent(c)
    ensures Consistent(Updated(f, c, input))
  {
    CountStep(c.count, |c.tail|, |input|);
    hide Fold, Wrap;
  }

  lemma CountStep(count: nat, tail: nat, n: nat)
    requires count < TWO64 && count % 8 == 0 && tail == count / 8 % BLOCK
    ensures var c := Wrap(count + 8 * n); c % 8 == 0 && c / 8 % BLOCK == (tail + n) % BLOCK
  {
    var q := (count + 8 * n) / TWO64;
    var c := (count + 8 * n) % TWO64;
    assert c == 8 * (count / 8 + n - 0x2000_0000_0000_0000 * q);
    assert c / 8 == count / 8 + n - 0x2000_0000_0000_0000 * q;
    assert count / 8 == BLOCK * (count / 8 / BLOCK) + tail;
    assert c / 8 == BLOCK * (count / 8 / BLOCK - 0x80_0000_0000_0000 * q) + (tail + n);
    SameRemainder(tail + n, count / 8 / BLOCK - 0x80_0000_0000_0000 * q);
  }

  lemma SameRemainder(a: int, k: int)
    ensures (BLOCK * k + a) % BLOCK == a % BLOCK
  {
  }

  /** Dropping whole blocks does not change the rest. */
  lemma RestDrop(m: seq<byte>, n: nat)
    requires n <= |m| && n % BLOCK == 0
    ensures Rest(m[n..]) == Rest(m)
  {
    assert |m[n..]| % BLOCK == |m| % BLOCK;
  }

  lemma RestConcat(a: seq<byte>, b: seq<byte>)
    ensures Rest(a + b) == Rest(Rest(a) + b)
  {
    var n := |a| - |a| % BLOCK;
    assert (a + b)[n..] == Rest(a) + b;
    RestDrop(a + b, n);
  }

  lemma {:induction false} FoldConcat(f: BlockFn, w: Words, a: seq<byte>, b: seq<byte>)
    ensures Fold(f, w, a + b) == Fold(f, Fold(f, w, a), Rest(a) + b)
    decreases |a|
  {
    if |a| < BLOCK {
      assert Rest(a) == a;
    } else {
      assert (a + b)[..BLOCK] == a[..BLOCK];
      assert (a + b)[BLOCK..] == a[BLOCK..] + b;
      hide Rest;
      RestDrop(a, BLOCK);
      FoldConcat(f, f(w, a[..BLOCK]), a[BLOCK..], b);
    }
  }

  /** Two updates are one update with the concatenation. */
  lemma {:induction false} UpdateTwice(f: BlockFn, c: Context, a: seq<byte>, b: seq<byte>)
    ensures Updated(f, Updated(f, c, a), b) == Updated(f, c, a + b)
  {
    hide Fold, Rest, Wrap;
    assert c.tail + (a + b) == c.tail + a + b;
    FoldConcat(f, c.words, c.tail + a, b);
    RestConcat(c.tail + a, b);
    CountTwice(c.count + 8 * |a|, 8 * |b|);
  }

  lemma CountTwice(x: nat, y: nat)
    ensures Wrap(Wrap(x) + y) == Wrap(x + y)
  {
    assert x % TWO64 + y == x + y - TWO64 * (x / TWO64);
  }

  function Flatten(chunks: seq<seq<byte>>): seq<byte> {
    if chunks == [] then [] else Flatten(chunks[..|chunks| - 1]) + chunks[|chunks| - 1]
  }

  function UpdatedAll(f: BlockFn, c: Context, chunks: seq<seq<byte>>): Context {
    if chunks == [] then c else Updated(f, UpdatedAll(f, c, chunks[..|chunks| - 1]), chunks[|chunks| - 1])
  }

  lemma UpdateNothing(f: BlockFn, c: Context)
    requires Consistent(c)
    ensures Updated(f, c, []) == c
  {
    assert c.tail + [] == c.tail;
  }

  lemma {:induction false} UpdateFirst(f: BlockFn, m: seq<byte>)
    ensures Updated(f, EMPTY, m) == Context(Fold(f, IV, m), Wrap(8 * |m|), Rest(m))
  {
    hide Fold, Rest, Wrap;
    assert EMPTY.tail + m == m;
  }

  /** Streaming is one-shot: feeding any list of chunks leaves the words, the bit count and the buffered tail of
      feeding their concatenation at once, which are those of the whole message. */
  lemma {:induction false} StreamingIsOneShot(f: BlockFn, chunks: seq<seq<byte>>)
    ensures UpdatedAll(f, EMPTY, chunks) == Updated(f, EMPTY, Flatten(chunks))
    ensures var m := Flatten(chunks);
            UpdatedAll(f, EMPTY, chunks) == Context(Fold(f, IV, m), Wrap(8 * |m|), Rest(m))
  {
    hide Updated, Fold, Rest, Wrap;
    UpdateFirst(f, Flatten(chunks));
    if chunks == [] {
      UpdateNothing(f, EMPTY);
    } else {
      StreamingIsOneShot(f, chunks[..|chunks| - 1]);
      UpdateTwice(f, EMPTY, Flatten(chunks[..|chunks| - 1]), chunks[|chunks| - 1]);
    }
  }

  /** After any list of chunks the buffer position can be read off the bit count. */
  lemma {:induction false} StreamingConsistent(f: BlockFn, chunks: seq<seq<byte>>)
    ensures Consistent(UpdatedAll(f, EMPTY, chunks))
  {
    hide Updated;
    if chunks != [] {
      StreamingConsistent(f, chunks[..|chunks| - 1]);
      UpdateKeepsConsistent(f, UpdatedAll(f, EMPTY, chunks[..|chunks| - 1]), chunks[|chunks| - 1]);
    }
  }

  /** The padding length that `finalize` computes from the byte position in the buffer. */
  function PadFor(index: nat): nat
    requires index < BLOCK
  {
    if index < 56 then 56 - index else 120 - index
  }

  /** The context after the two updates of `finalize`. */
  function Closed(f: BlockFn, c: Context): Context
    requires c.count < TWO64
  {
    Updated(f, Updated(f, c, Padding(PadFor(c.count / 8 % BLOCK))), Encoded(CountWords(c.count)))
  }

  /** Finalizing after any list of chunks yields the RFC 1321 digest of their concatenation. */
  lemma FinalizeIsDigest(f: BlockFn, chunks: seq<seq<byte>>)
    ensures Encoded(WordList(Closed(f, UpdatedAll(f, EMPTY, chunks)).words)) == Digest(f, Flatten(chunks))
  {
    hide Fold, Rest, Wrap, Encoded, Padding, Updated, Flatten, UpdatedAll;
    var m := Flatten(chunks);
    var c := UpdatedAll(f, EMPTY, chunks);
    StreamingIsOneShot(f, chunks);
    StreamingConsistent(f, chunks);
    PadForIsPadLength(|m|);
    var pad, bits := Padding(PadLength(|m|)), Encoded(CountWords(c.count));
    UpdateTwice(f, c, pad, bits);
    UpdateTwice(f, EMPTY, m, pad + bits);
    UpdateFirst(f, m + (pad + bits));
    assert m + (pad + bits) == Padded(m);
  }

  lemma PadForIsPadLength(n: nat)
    ensures PadFor(n % BLOCK) == PadLength(n)
  {
  }

  // The definition, independently

  /** The number that bytes denote, low-order byte first. */
  function LittleEndian(b: seq<byte>): nat {
    if b == [] then 0 else b[0] + 256 * LittleEndian(b[1..])
  }

  lemma FourBytes(b: seq<byte>)
    requires |b| == 4
    ensures LittleEndian(b) == BytesWord(b)
  {
    assert b[1..][1..] == b[2..] && b[2..][1..] == b[3..] && b[3..][1..] == [];
    var b1: int, b2: int, b3: int := b[1], b[2], b[3];
    assert LittleEndian(b[3..]) == b3;
    assert LittleEndian(b[2..]) == b2 + 256 * b3;
    assert LittleEndian(b[1..]) == b1 + 256 * (b2 + 256 * b3);
  }

  lemma WordValue(w: uint32)
    ensures LittleEndian(WordBytes(w)) == w
  {
    FourBytes(WordBytes(w));
    WordRoundTrip(w);
    hide LittleEndian, WordBytes, BytesWord;
  }

  lemma {:induction false} LittleEndianConcat(a: seq<byte>, b: seq<byte>)
    requires |a| == 4
    ensures LittleEndian(a + b) == LittleEndian(a) + TWO32 * LittleEndian(b)
  {
    var ab := a + b;
    assert ab[1..][1..] == ab[2..] && ab[2..][1..] == ab[3..] && ab[3..][1..] == b;
    assert a[1..][1..] == a[2..] && a[2..][1..] == a[3..] && a[3..][1..] == [];
    var v := LittleEndian(b);
    assert LittleEndian(ab[3..]) == a[3] + 256 * v && LittleEndian(a[3..]) == a[3];
    assert LittleEndian(ab[2..]) == a[2] + 256 * LittleEndian(ab[3..]);
    assert LittleEndian(a[2..]) == a[2] + 256 * LittleEndian(a[3..]);
    assert LittleEndian(ab[1..]) == a[1] + 256 * LittleEndian(ab[2..]);
    assert LittleEndian(a[1..]) == a[1] + 256 * LittleEndian(a[2..]);
  }

  /** Every word of an encoded array is its four bytes, low-order byte first. */
  lemma {:induction false} EncodedWords(ws: seq<uint32>, i: nat)
    requires i < |ws|
    ensures LittleEndian(Encoded(ws)[4 * i..4 * i + 4]) == ws[i]
  {
    var init, last := ws[..|ws| - 1], ws[|ws| - 1];
    hide LittleEndian, WordBytes;
    if i == |ws| - 1 {
      WordValue(last);
      assert Encoded(ws)[4 * i..4 * i + 4] == WordBytes(last);
    } else {
      EncodedWords(init, i);
      assert Encoded(ws)[4 * i..4 * i + 4] == Encoded(init)[4 * i..4 * i + 4];
    }
  }

  lemma CountBytes(n: nat)
    requires n < TWO64
    ensures LittleEndian(Encoded(CountWords(n))) == n
  {
    var ws := CountWords(n);
    assert ws == [] + [ws[0]] + [ws[1]];
    EncodedAt([], ws[0]);
    EncodedAt([ws[0]], ws[1]);
    assert Encoded(ws) == WordBytes(ws[0]) + WordBytes(ws[1]);
    LittleEndianConcat(WordBytes(ws[0]), WordBytes(ws[1]));
    WordValue(ws[0]);
    WordValue(ws[1]);
    hide LittleEndian, WordBytes, Encoded;
  }

  /** The padded message of sections 3.1 and 3.2: whole blocks that begin with the message, then the byte 0x80, then
      as few zero bytes as will do, then the length in bits as eight bytes, low-order byte first. */
  lemma PaddedForm(m: seq<byte>)
    ensures var p := Padded(m);
            && |p| % BLOCK == 0 && |m| + 9 <= |p| < |m| + 9 + BLOCK
            && p[..|m|] == m && p[|m|] == 0x80
            && (forall i :: |m| < i < |p| - 8 ==> p[i] == 0)
            && LittleEndian(p[|p| - 8..]) == (8 * |m|) % TWO64
  {
    var n := (8 * |m|) % TWO64;
    CountBytes(n);
    assert n == Wrap(8 * |m|);
    hide LittleEndian, Encoded, CountWords, Wrap;
    var p, k, bits := Padded(m), PadLength(|m|), Encoded(CountWords(n));
    assert p == m + Padding(k) + bits;
    assert p[|p| - 8..] == bits && p[..|m|] == m;
    PaddingForm(m, k, bits);
  }

  lemma PaddingForm(m: seq<byte>, k: nat, bits: seq<byte>)
    requires 1 <= k <= BLOCK && (|m| + k) % BLOCK == 56 && |bits| == 8
    ensures var p := m + Padding(k) + bits;
            && |p| % BLOCK == 0 && p[|m|] == 0x80 && forall i :: |m| < i < |p| - 8 ==> p[i] == 0
  {
  }

  /** The initial words are the bytes 01 23 45 67 89 ab cd ef fe dc ba 98 76 54 32 10 of section 3.3. */
  lemma InitialBytes()
    ensures Encoded(WordList(IV))
         == [0x01, 0x23, 0x45, 0x67, 0x89, 0xab, 0xcd, 0xef, 0xfe, 0xdc, 0xba, 0x98, 0x76, 0x54, 0x32, 0x10]
  {
    assert WordBytes(IV.a) == [0x01, 0x23, 0x45, 0x67] && WordBytes(IV.b) == [0x89, 0xab, 0xcd, 0xef];
    assert WordBytes(IV.c) == [0xfe, 0xdc, 0xba, 0x98] && WordBytes(IV.d) == [0x76, 0x54, 0x32, 0x10];
    EncodedFour(IV.a, IV.b, IV.c, IV.d);
    hide Encoded, WordBytes;
  }

  lemma EncodedFour(a: uint32, b: uint32, c: uint32, d: uint32)
    ensures Encoded([a, b, c, d]) == WordBytes(a) + WordBytes(b) + WordBytes(c) + WordBytes(d)
  {
    EncodedAt([], a);
    EncodedAt([a], b);
    EncodedAt([a, b], c);
    EncodedAt([a, b, c], d);
    assert Encoded([]) == [];
    hide Encoded, WordBytes;
    assert [] + [a] == [a] && [a] + [b] == [a, b] && [a, b] + [c] == [a, b, c] && [a, b, c] + [d] == [a, b, c, d];
  }

  /** The digest is the four words after the last block, each low-order byte first, as in section 3.5. */
  lemma DigestWords(f: BlockFn, m: seq<byte>)
    ensures var (d, w) := (Digest(f, m), Fold(f, IV, Padded(m)));
            && |d| == 16 && LittleEndian(d[0..4]) == w.a && LittleEndian(d[4..8]) == w.b
            && LittleEndian(d[8..12]) == w.c && LittleEndian(d[12..16]) == w.d
  {
    hide Fold, Padded, Encoded, LittleEndian;
    var ws := WordList(Fold(f, IV, Padded(m)));
    EncodedWords(ws, 0);
    EncodedWords(ws, 1);
    EncodedWords(ws, 2);
    EncodedWords(ws, 3);
  }

  /** The fold applies the block function to each whole block in turn: nothing for less than a block, and one
      application after the rest for one block more. */
  lemma FoldLastBlock(f: BlockFn, w: Words, m: seq<byte>, block: seq<byte>)
    requires |m| % BLOCK == 0 && |block| == BLOCK
    ensures Fold(f, w, []) == w && Fold(f, w, m + block) == f(Fold(f, w, m), block)
  {
    FoldConcat(f, w, m, block);
    assert Rest(m) == [] && [] + block == block;
    assert block[..BLOCK] == block && block[BLOCK..] == [];
  }

  // Words and bytes

  lemma WordRoundTrip(w: uint32)
    ensures BytesWord(WordBytes(w)) == w
  {
    var q := w / 256;
    var r := q / 256;
    assert w / 0x1_0000 == r && w / 0x100_0000 == r / 256;
    assert w == 256 * q + w % 256 && q == 256 * r + q % 256 && r == 256 * (r / 256) + r % 256;
    assert r / 256 < 256;
  }

  /** `decode` undoes `encode` on every word array. */
  lemma {:induction false} DecodeUndoesEncode(ws: seq<uint32>)
    ensures Decoded(Encoded(ws)) == ws
  {
    if ws == [] {
      return;
    }
    var init, last := ws[..|ws| - 1], ws[|ws| - 1];
    assert Encoded(ws) == Encoded(init) + WordBytes(last);
    hide Encoded, Decoded, WordBytes, BytesWord;
    DecodeUndoesEncode(init);
    WordRoundTrip(last);
    DecodedPush(Encoded(init), WordBytes(last));
  }

  lemma DecodedPush(b: seq<byte>, word: seq<byte>)
    requires |b| % 4 == 0 && |word| == 4
    ensures Decoded(b + word) == Decoded(b) + [BytesWord(word)]
  {
    hide BytesWord;
    var all := b + word;
    assert all[..|all| - 4] == b && all[|all| - 4..] == word;
  }

  lemma EncodedAt(ws: seq<uint32>, w: uint32)
    ensures Encoded(ws + [w]) == Encoded(ws) + WordBytes(w)
  {
    assert (ws + [w])[..|ws|] == ws;
  }

  /** The four stores of one iteration of `encode`. */
  method EncodeWord(output: array<byte>, j: nat, w: uint32)
    requires j + 4 <= output.Length
    modifies output
    ensures output[..j] == old(output[..j]) && output[j..j + 4] == WordBytes(w)
    ensures output[j + 4..] == old(output[j + 4..])
  {
    output[j] := w % 256;
    output[j + 1] := w / 256 % 256;
    output[j + 2] := w / 0x1_0000 % 256;
    output[j + 3] := w / 0x100_0000 % 256;
  }

  method Encode(output: array<byte>, input: seq<uint32>, len: nat)
    requires len == 4 * |input| <= output.Length
    modifies output
    ensures output[..len] == Encoded(input)
    ensures output[len..] == old(output[len..])
  {
    assert output[..0] == Encoded(input[..0]);
    hide WordBytes, Encoded;
    var i, j := 0, 0;
    while j < len
      invariant 0 <= i <= |input| && j == 4 * i
      invariant output[..j] == Encoded(input[..i]) && output[len..] == old(output[len..])
    {
      assert input[..i + 1] == input[..i] + [input[i]];
      EncodedAt(input[..i], input[i]);
      EncodeWord(output, j, input[i]);
      assert output[..j + 4] == output[..j] + output[j..j + 4];
      assert output[len..] == output[j + 4..][len - (j + 4)..];
      i, j := i + 1, j + 4;
    }
    assert input[..i] == input;
  }

  lemma DecodedAt(b: seq<byte>, j: nat)
    requires j + 4 <= |b| && j % 4 == 0
    ensures Decoded(b[..j + 4]) == Decoded(b[..j]) + [BytesWord(b[j..j + 4])]
  {
    assert b[..j + 4][..j] == b[..j];
    assert b[..j + 4][j..] == b[j..j + 4];
  }

  method Decode(output: array<uint32>, input: seq<byte>, len: nat)
    requires len == |input| && len % 4 == 0 && len / 4 <= output.Length
    modifies output
    ensures output[..len / 4] == Decoded(input)
  {
    ghost var n := len / 4;
    assert len == 4 * n && output[..0] == Decoded(input[..0]);
    hide BytesWord, Decoded;
    var i, j := 0, 0;
    while j < len
      invariant 0 <= i <= n && j == 4 * i
      invariant output[..i] == Decoded(input[..j])
    {
      DecodedAt(input, j);
      output[i] := BytesWord(input[j..j + 4]);
      assert output[..i + 1] == output[..i] + [output[i]];
      i, j := i + 1, j + 4;
    }
    assert i == n && input[..j] == input;
  }

  // Lengths

  /** Position i of the input is a block boundary when the buffer held index bytes. */
  predicate Boundary(index: nat, i: nat) {
    0 < i && (index + i) % BLOCK == 0
  }

  /** The loop of `update` adds 64 to a 32-bit position before it compares; this is what keeps the sum in range. */
  predicate Fits(index: nat, n: nat) {
    n < TWO32 - if index == 0 then BLOCK else index
  }

  lemma NoWrap(index: nat, i: nat, n: nat)
    requires index < BLOCK && Boundary(index, i) && i <= n && Fits(index, n)
    ensures i + BLOCK < TWO32
  {
  }

  /** For a 32-bit length the loop test is right at every block boundary if and only if the length fits. */
  lemma LoopTestIff(index: nat, n: nat)
    requires index < BLOCK && n < TWO32
    ensures (forall i: nat :: Boundary(index, i) && i <= n ==> ((i + BLOCK) % TWO32 <= n <==> i + BLOCK <= n))
       <==> Fits(index, n)
  {
    if Fits(index, n) {
      forall i: nat | Boundary(index, i) && i <= n ensures (i + BLOCK) % TWO32 <= n <==> i + BLOCK <= n {
        NoWrap(index, i, n);
      }
    } else {
      var last := TWO32 - if index == 0 then BLOCK else index;
      assert Boundary(index, last) && last <= n;
      assert (last + BLOCK) % TWO32 == last + BLOCK - TWO32;
    }
  }

  /** The MD5 object. */
  class MD5 {
    const f: BlockFn
    var finalized: bool
    var buffer: array<byte>
    var countLo: uint32
    var countHi: uint32
    var words: Words
    var digest: seq<byte>

    ghost predicate Valid()
      reads this
    {
      buffer.Length == BLOCK && countLo % 8 == 0
    }

    ghost function Count(): nat
      reads this
    {
      countLo + TWO32 * countHi
    }

    ghost function View(): (c: Context)
      requires Valid()
      reads this, buffer
    {
      Context(words, Count(), buffer[..countLo / 8 % BLOCK])
    }

    constructor (f: BlockFn)
      ensures this.f == f && Valid() && fresh(buffer) && !finalized && View() == EMPTY
    {
      this.f := f;
      finalized := false;
      countLo, countHi := 0, 0;
      words := IV;
      digest := [];
      buffer := new byte[BLOCK](_ => 0);
    }

    lemma ViewConsistent()
      requires Valid()
      ensures Consistent(View())
    {
      LowWord(countLo, countHi);
    }

    /** The two 32-bit counters add up as one 64-bit counter. */
    static lemma LowWord(lo: uint32, hi: uint32)
      requires lo % 8 == 0
      ensures (lo + TWO32 * hi) % 8 == 0 && (lo + TWO32 * hi) / 8 % BLOCK == lo / 8 % BLOCK
      ensures lo + TWO32 * hi < TWO64
    {
      assert (lo + TWO32 * hi) / 8 == lo / 8 + BLOCK * (0x80_0000 * hi);
      SameRemainder(lo / 8, 0x80_0000 * hi);
    }

    static lemma CarryCorrect(lo: uint32, hi: uint32, length: uint32)
      requires lo % 8 == 0
      ensures var shifted := (length * 8) % TWO32;
              var lo' := (lo + shifted) % TWO32;
              var hi' := ((if lo' < shifted then (hi + 1) % TWO32 else hi) + length / 0x2000_0000) % TWO32;
              lo' + TWO32 * hi' == (lo + TWO32 * hi + 8 * length) % TWO64 && lo' % 8 == 0
    {
      var carry := LowCarry(lo, length);
      HighCarry(hi, carry, length / 0x2000_0000);
      TwoWords((lo + (length * 8) % TWO32) % TWO32, hi + carry + length / 0x2000_0000);
    }

    /** The low word of the sum, and whether it carried: it did exactly when it came out below the addend. */
    static lemma LowCarry(lo: uint32, length: uint32) returns (carry: nat)
      requires lo % 8 == 0
      ensures var shifted := (length * 8) % TWO32;
              var lo' := (lo + shifted) % TWO32;
              && carry == (if lo' < shifted then 1 else 0)
              && lo + 8 * length == lo' + TWO32 * (carry + length / 0x2000_0000) && lo' % 8 == 0
    {
      var shifted := (length * 8) % TWO32;
      carry := if (lo + shifted) % TWO32 < shifted then 1 else 0;
      assert 8 * length == shifted + TWO32 * (length / 0x2000_0000);
    }

    static lemma HighCarry(hi: uint32, carry: nat, x: nat)
      requires carry <= 1
      ensures ((if carry == 1 then (hi + 1) % TWO32 else hi) + x) % TWO32 == (hi + carry + x) % TWO32
    {
    }

    static lemma TwoWords(lo: uint32, h: nat)
      ensures (lo + TWO32 * h) % TWO64 == lo + TWO32 * (h % TWO32)
    {
      assert lo + TWO32 * h == TWO64 * (h / TWO32) + (lo + TWO32 * (h % TWO32));
    }

    /** `update`, for every length that `LoopTestIff` finds the source's loop correct on. */
    method Update(input: seq<byte>)
      requires Valid() && Fits(countLo / 8 % BLOCK, |input|)
      modifies this`countLo, this`countHi, this`words, buffer
      ensures Valid() && View() == Updated(f, old(View()), input)
    {
      hide Fold, Rest;
      ViewConsistent();
      ghost var c := View();
      var index := countLo / 8 % BLOCK;
      AddBits(|input|);
      CountStep(c.count, |c.tail|, |input|);
      LowWord(countLo, countHi);
      Absorb(index, input);
    }

    method AddBits(length: uint32)
      requires Valid()
      modifies this`countLo, this`countHi
      ensures Valid() && Count() == Wrap(old(Count()) + 8 * length)
    {
      CarryCorrect(countLo, countHi, length);
      var shifted := (length * 8) % TWO32;
      countLo := (countLo + shifted) % TWO32;
      if countLo < shifted {
        countHi := (countHi + 1) % TWO32;
      }
      countHi := (countHi + length / 0x2000_0000) % TWO32;
    }

    /** The part of `update` that moves bytes: fill the buffer, transform whole blocks, keep the rest. */
    method Absorb(index: nat, input: seq<byte>)
      requires buffer.Length == BLOCK && index < BLOCK && Fits(index, |input|)
      modifies this`words, buffer
      ensures words == Fold(f, old(words), old(buffer[..index]) + input)
      ensures buffer[..(index + |input|) % BLOCK] == Rest(old(buffer[..index]) + input)
    {
      hide Rest;
      ghost var tail := buffer[..index];
      var firstpart := BLOCK - index;
      if |input| >= firstpart {
        CopyIn(index, input[..firstpart]);
        FillFirst(f, words, tail, input);
        assert buffer[..] == tail + input[..firstpart];
        words := f(words, buffer[..]);
        var i := TransformBlocks(input, firstpart);
        RestLong(tail, input, i);
        CopyIn(0, input[i..]);
      } else {
        CopyIn(index, input);
        RestShort(tail, input);
        assert buffer[..index + |input|] == tail + input;
      }
    }

    /** Transforms whole blocks of the input from position start, and returns where they end. */
    method TransformBlocks(input: seq<byte>, start: nat) returns (i: nat)
      requires 1 <= start <= BLOCK && start <= |input| && Fits(BLOCK - start, |input|)
      modifies this`words
      ensures start <= i <= |input| < i + BLOCK && (i - start) % BLOCK == 0
      ensures words == Fold(f, old(words), input[start..])
    {
      i := start;
      NoWrap(BLOCK - start, i, |input|);
      while (i + BLOCK) % TWO32 <= |input|
        invariant start <= i <= |input| && i + BLOCK < TWO32 && (i - start) % BLOCK == 0
        invariant Fold(f, old(words), input[start..]) == Fold(f, words, input[i..])
        decreases |input| - i
      {
        assert input[i..][..BLOCK] == input[i..i + BLOCK] && input[i..][BLOCK..] == input[i + BLOCK..];
        words := f(words, input[i..i + BLOCK]);
        i := i + BLOCK;
        NoWrap(BLOCK - start, i, |input|);
      }
    }

    static lemma FillFirst(f: BlockFn, w: Words, tail: seq<byte>, input: seq<byte>)
      requires |tail| < BLOCK && BLOCK - |tail| <= |input|
      ensures var n := BLOCK - |tail|;
              Fold(f, w, tail + input) == Fold(f, f(w, tail + input[..n]), input[n..])
    {
      var n := BLOCK - |tail|;
      assert (tail + input)[..BLOCK] == tail + input[..n];
      assert (tail + input)[BLOCK..] == input[n..];
    }

    /** Bytes from the last block boundary on are the rest. */
    static lemma RestLong(tail: seq<byte>, input: seq<byte>, i: nat)
      requires BLOCK <= |tail| + i && i <= |input| < i + BLOCK && (|tail| + i) % BLOCK == 0
      ensures Rest(tail + input) == input[i..] && (|tail| + |input|) % BLOCK == |input| - i
    {
    }

    static lemma RestShort(tail: seq<byte>, input: seq<byte>)
      requires |tail| + |input| < BLOCK
      ensures Rest(tail + input) == tail + input
    {
    }

    /** memcpy into the buffer. */
    method CopyIn(at: nat, bytes: seq<byte>)
      requires buffer.Length == BLOCK && at + |bytes| <= BLOCK
      modifies buffer
      ensures buffer[..at] == old(buffer[..at]) && buffer[at..at + |bytes|] == bytes
    {
      for k := 0 to |bytes|
        invariant buffer[..at] == old(buffer[..at]) && buffer[at..at + k] == bytes[..k]
      {
        buffer[at + k] := bytes[k];
      }
    }

    /** The two closing updates of `finalize`: padding, then the bit count from before the padding. */
    method Close()
      requires Valid()
      modifies this`countLo, this`countHi, this`words, buffer
      ensures Valid() && View() == Closed(f, old(View()))
    {
      hide Fold, Rest, Encoded, Updated;
      ViewConsistent();
      LowWord(countLo, countHi);
      var bits := new byte[8];
      Encode(bits, [countLo, countHi], 8);
      assert [countLo, countHi] == CountWords(Count());
      var count := bits[..];
      assert bits[..8] == count;
      var padLen := PadFor(countLo / 8 % BLOCK);
      Update(Padding(padLen));
      Update(count);
    }

    /** `finalize`: the digest of everything absorbed; a second call changes nothing. */
    method Finalize()
      requires Valid()
      modifies this, buffer
      ensures Valid() && finalized && buffer == old(buffer)
      ensures old(finalized) ==> digest == old(digest) && View() == old(View())
      ensures !old(finalized) ==> countLo == countHi == 0 && forall i :: 0 <= i < BLOCK ==> buffer[i] == 0
      ensures !old(finalized) ==> digest == Encoded(WordList(Closed(f, old(View())).words))
    {
      hide Closed, Encoded, Consistent;
      if !finalized {
        Close();
        var out := new byte[16];
        Encode(out, WordList(words), 16);
        digest := out[..];
        assert out[..16] == out[..];
        CopyIn(0, Zeros(BLOCK));
        assert buffer[..] == buffer[0..BLOCK] == Zeros(BLOCK);
        countLo, countHi := 0, 0;
        finalized := true;
      }
    }

    method HexDigest() returns (text: string)
      ensures text == if finalized then HexText(digest) else ""
    {
      if !finalized {
        return "";
      }
      text := "";
      for i := 0 to |digest|
        invariant text == HexText(digest[..i])
      {
        assert digest[..i + 1][..i] == digest[..i];
        text := text + HexByte(digest[i]);
      }
      assert digest[..|digest|] == digest;
    }
  }

  /** The free function `md5`: the hexadecimal RFC 1321 digest of a text. The length is narrowed to 32 bits on the
      way, so of a longer text only the first (length modulo 2^32) bytes are digested. */
  method HexMd5(f: BlockFn, text: seq<byte>) returns (hex: string)
    requires Fits(0, |text| % TWO32)
    ensures hex == HexText(Digest(f, text[..|text| % TWO32]))
  {
    hide Fold, Rest, Digest, Closed, Updated;
    var m := new MD5(f);
    var input := text[..|text| % TWO32];
    m.Update(input);
    m.Finalize();
    FinalizeIsDigest(f, [input]);
    assert Flatten([input]) == input;
    assert UpdatedAll(f, EMPTY, [input]) == Updated(f, EMPTY, input);
    hex := m.HexDigest();
  }

  // Hexadecimal text

  const DIGITS := "0123456789abcdef"

  function HexByte(b: byte): (t: string)
    ensures |t| == 2
  {
    [DIGITS[b / 16], DIGITS[b % 16]]
  }

  function HexText(bytes: seq<byte>): (t: string)
    ensures |t| == 2 * |bytes|
  {
    if bytes == [] then "" else HexText(bytes[..|bytes| - 1]) + HexByte(bytes[|bytes| - 1])
  }

  predicate LowerHex(c: char) {
    '0' <= c <= '9' || 'a' <= c <= 'f'
  }

  lemma {:induction false} HexTextLower(bytes: seq<byte>)
    ensures forall i :: 0 <= i < |HexText(bytes)| ==> LowerHex(HexText(bytes)[i])
  {
    if bytes != [] {
      HexTextLower(bytes[..|bytes| - 1]);
      DigitLower(bytes[|bytes| - 1] / 16);
      DigitLower(bytes[|bytes| - 1] % 16);
    }
  }

  lemma DigitLower(d: nat)
    requires d < 16
    ensures LowerHex(DIGITS[d])
  {
  }
}
