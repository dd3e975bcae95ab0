/** The message digest of sections 3.1 to 3.4 of RFC 1321, on a whole message. */
module Md5Spec {

  import opened Bytes

  /** The four chained words. */
  datatype State = State(a: Word, b: Word, c: Word, d: Word)

  const INIT := State(0x67452301, 0xEFCDAB89, 0x98BADCFE, 0x10325476)

  // ---------- section 3.4: the 64 steps, table driven ----------

  function Shl(x: Word, s: bv6): Word
    requires s < 32
  {
    (x << s) | (x >> (32 - s))
  }

  /** A circular shift: in a double-width word, what leaves at the top comes back at the bottom. */
  lemma ShlIsCircular(x: Word, s: bv6)
    requires s < 32
    ensures var wide := (x as bv64) << s; Shl(x, s) == (wide & 0xFFFF_FFFF) as bv32 | (wide >> 32) as bv32
  {
  }

  /** Addition of words, modulo 2^32. */
  function Add(x: Word, y: Word): Word {
    x + y
  }

  function Mix(round: nat, x: Word, y: Word, z: Word): Word {
    match round
    case 0 => (x & y) | (!x & z)
    case 1 => (x & z) | (y & !z)
    case 2 => x ^ y ^ z
    case _ => y ^ (x | !z)
  }

  /** Which word of the block step i takes. */
  function Index(i: nat): (k: nat)
    ensures k < 16
  {
    if i < 16 then i
    else if i < 32 then (5 * i + 1) % 16
    else if i < 48 then (3 * i + 5) % 16
    else 7 * i % 16
  }

  function Shift(i: nat): (s: bv6)
    ensures 0 < s < 32
  {
    if i < 16 then Of4(i, 7, 12, 17, 22)
    else if i < 32 then Of4(i, 5, 9, 14, 20)
    else if i < 48 then Of4(i, 4, 11, 16, 23)
    else Of4(i, 6, 10, 15, 21)
  }

  function Of4(i: nat, s0: bv6, s1: bv6, s2: bv6, s3: bv6): bv6 {
    match i % 4
    case 0 => s0
    case 1 => s1
    case 2 => s2
    case _ => s3
  }

  /** The whole part of 4294967296 times |sin(i + 1)|, i + 1 in radians. */
  function Sine(i: nat): Word {
    if i < 16 then Sines1(i) else if i < 32 then Sines2(i) else if i < 48 then Sines3(i) else Sines4(i)
  }

  function Sines1(i: nat): Word {
    match i
    case 0 => 0xd76aa478
    case 1 => 0xe8c7b756
    case 2 => 0x242070db
    case 3 => 0xc1bdceee
    case 4 => 0xf57c0faf
    case 5 => 0x4787c62a
    case 6 => 0xa8304613
    case 7 => 0xfd469501
    case 8 => 0x698098d8
    case 9 => 0x8b44f7af
    case 10 => 0xffff5bb1
    case 11 => 0x895cd7be
    case 12 => 0x6b901122
    case 13 => 0xfd987193
    case 14 => 0xa679438e
    case _ => 0x49b40821
  }

  function Sines2(i: nat): Word {
    match i
    case 16 => 0xf61e2562
    case 17 => 0xc040b340
    case 18 => 0x265e5a51
    case 19 => 0xe9b6c7aa
    case 20 => 0xd62f105d
    case 21 => 0x2441453
    case 22 => 0xd8a1e681
    case 23 => 0xe7d3fbc8
    case 24 => 0x21e1cde6
    case 25 => 0xc33707d6
    case 26 => 0xf4d50d87
    case 27 => 0x455a14ed
    case 28 => 0xa9e3e905
    case 29 => 0xfcefa3f8
    case 30 => 0x676f02d9
    case _ => 0x8d2a4c8a
  }

  function Sines3(i: nat): Word {
    match i
    case 32 => 0xfffa3942
    case 33 => 0x8771f681
    case 34 => 0x6d9d6122
    case 35 => 0xfde5380c
    case 36 => 0xa4beea44
    case 37 => 0x4bdecfa9
    case 38 => 0xf6bb4b60
    case 39 => 0xbebfbc70
    case 40 => 0x289b7ec6
    case 41 => 0xeaa127fa
    case 42 => 0xd4ef3085
    case 43 => 0x4881d05
    case 44 => 0xd9d4d039
    case 45 => 0xe6db99e5
    case 46 => 0x1fa27cf8
    case _ => 0xc4ac5665
  }

  function Sines4(i: nat): Word {
    match i
    case 48 => 0xf4292244
    case 49 => 0x432aff97
    case 50 => 0xab9423a7
    case 51 => 0xfc93a039
    case 52 => 0x655b59c3
    case 53 => 0x8f0ccc92
    case 54 => 0xffeff47d
    case 55 => 0x85845dd1
    case 56 => 0x6fa87e4f
    case 57 => 0xfe2ce6e0
    case 58 => 0xa3014314
    case 59 => 0x4e0811a1
    case 60 => 0xf7537e82
    case 61 => 0xbd3af235
    case 62 => 0x2ad7d2bb
    case _ => 0xeb86d391
  }

  /** Step i; the words then move on by one place. */
  function Step(st: State, x: seq<Word>, i: nat): State
    requires |x| == 16 && i < 64
  {
    State(st.d, Add(Shl(Add(st.a, Add(Add(Mix(i / 16, st.b, st.c, st.d), x[Index(i)]), Sine(i))), Shift(i)), st.b), st.b, st.c)
  }

  /** The steps from i up to n. */
  function Steps(st: State, x: seq<Word>, i: nat, n: nat): State
    requires |x| == 16 && i <= n <= 64
    decreases n
  {
    if i == n then st else Step(Steps(st, x, i, n - 1), x, n - 1)
  }

  function Words(block: seq<Byte>): (x: seq<Word>)
    requires |block| == 64
    ensures |x| == 16
  {
    seq(16, i requires 0 <= i < 16 => Word4(block[4 * i], block[4 * i + 1], block[4 * i + 2], block[4 * i + 3]))
  }

  function Plus(s: State, t: State): State {
    State(Add(s.a, t.a), Add(s.b, t.b), Add(s.c, t.c), Add(s.d, t.d))
  }

  function Compress(st: State, block: seq<Byte>): State
    requires |block| == 64
  {
    Plus(st, Steps(st, Words(block), 0, 64))
  }

  /** All whole blocks of m, in order. */
  function Fold(st: State, m: seq<Byte>): State
    decreases |m|
  {
    if |m| < 64 then st else Fold(Compress(st, m[..64]), m[64..])
  }

  // ---------- sections 3.1, 3.2 and 3.5: padding, length and output ----------

  const TWO32: nat := 0x1_0000_0000

  /** Byte k of a 32-bit number. */
  function NumberByte(n: nat, k: nat): Byte
    requires k < 4
  {
    (match k case 0 => n % 256 case 1 => n / 256 % 256 case 2 => n / 65536 % 256 case _ => n / 16777216 % 256) as bv8
  }

  function NumberBytes(n: nat): (s: seq<Byte>)
    ensures |s| == 4
  {
    [NumberByte(n, 0), NumberByte(n, 1), NumberByte(n, 2), NumberByte(n, 3)]
  }

  /** The number of bits, modulo 2^64, low word first. */
  function LengthBytes(len: nat): (s: seq<Byte>)
    ensures |s| == 8
  {
    var bits := 8 * len % (TWO32 * TWO32);
    NumberBytes(bits % TWO32) + NumberBytes(bits / TWO32)
  }

  /** How many bytes bring len to 56 modulo 64; at least one. */
  function PadLength(len: nat): (p: nat)
    ensures 1 <= p <= 64 && (len + p) % 64 == 56
  {
    if len % 64 < 56 then 56 - len % 64 else 120 - len % 64
  }

  lemma PadCompletes(len: nat, p: nat)
    requires (len + p) % 64 == 56
    ensures (len + p + 8) % 64 == 0
  {
  }

  function Padded(m: seq<Byte>): (p: seq<Byte>)
    ensures |p| == |m| + PadLength(|m|) + 8 && |p| % 64 == 0
  {
    PadCompletes(|m|, PadLength(|m|));
    m + [0x80] + Zeros(PadLength(|m|) - 1) + LengthBytes(|m|)
  }

  function Output(st: State): (s: seq<Byte>)
    ensures |s| == 16
  {
    WordBytes(st.a) + WordBytes(st.b) + WordBytes(st.c) + WordBytes(st.d)
  }

  function Digest(m: seq<Byte>): (digest: seq<Byte>)
    ensures |digest| == 16
  {
    Output(Fold(INIT, Padded(m)))
  }
}
