/** Words of 32 bits as four bytes, low byte first; messages in chunks. */
module Bytes {

  type Byte = bv8
  type Word = bv32

  function Word4(b0: Byte, b1: Byte, b2: Byte, b3: Byte): Word {
    (b0 as bv32) | (b1 as bv32 << 8) | (b2 as bv32 << 16) | (b3 as bv32 << 24)
  }

  function WordBytes(w: Word): (s: seq<Byte>)
    ensures |s| == 4
    ensures Word4(s[0], s[1], s[2], s[3]) == w
  {
    [(w & 0xFF) as bv8, ((w >> 8) & 0xFF) as bv8, ((w >> 16) & 0xFF) as bv8, ((w >> 24) & 0xFF) as bv8]
  }

  lemma BytesOfWord(b0: Byte, b1: Byte, b2: Byte, b3: Byte)
    ensures WordBytes(Word4(b0, b1, b2, b3)) == [b0, b1, b2, b3]
  {
  }

  function Zeros(n: nat): (s: seq<Byte>)
    ensures |s| == n
  {
    seq(n, _ => 0)
  }

  function Joined(chunks: seq<seq<Byte>>): seq<Byte> {
    if chunks == [] then [] else Joined(chunks[..|chunks| - 1]) + chunks[|chunks| - 1]
  }
}
