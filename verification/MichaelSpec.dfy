/** The Michael message integrity code of section 8.3.2.3 of IEEE 802.11i-2004, on a whole message. */
module MichaelSpec {

  import opened Bytes

  datatype Pair = Pair(l: Word, r: Word)

  // ---------- a pair of words as bytes ----------

  function PairBytes(p: Pair): (s: seq<Byte>)
    ensures |s| == 8
  {
    WordBytes(p.l) + WordBytes(p.r)
  }

  function PairOf(s: seq<Byte>): Pair
    requires |s| == 8
  {
    Pair(Word4(s[0], s[1], s[2], s[3]), Word4(s[4], s[5], s[6], s[7]))
  }

  /** Eight bytes and two words are the same thing. */
  lemma PairsAreBytes(p: Pair, s: seq<Byte>)
    requires |s| == 8
    ensures PairOf(PairBytes(p)) == p && PairBytes(PairOf(s)) == s
  {
    hide Word4, WordBytes;
    assert PairBytes(p)[0..4] == WordBytes(p.l) && PairBytes(p)[4..8] == WordBytes(p.r);
    BytesOfWord(s[0], s[1], s[2], s[3]);
    BytesOfWord(s[4], s[5], s[6], s[7]);
  }

  // ---------- the block function ----------

  function Rotate17(x: Word): Word { (x << 17) | (x >> 15) }
  function Rotate3(x: Word): Word { (x << 3) | (x >> 29) }
  function RotateBack2(x: Word): Word { (x >> 2) | (x << 30) }
  function SwapBytes(x: Word): Word { ((x & 0xFF00_FF00) >> 8) | ((x & 0x00FF_00FF) << 8) }

  /** Addition, subtraction and exclusive or of words. */
  function Add(x: Word, y: Word): Word { x + y }
  function Sub(x: Word, y: Word): Word { x - y }
  function Xor(x: Word, y: Word): Word { x ^ y }

  /** A quarter of the block function: r takes v in, then l takes r in. */
  function Quarter(p: Pair, v: Word): Pair {
    var r := Xor(p.r, v);
    Pair(Add(p.l, r), r)
  }

  function Block(p0: Pair): Pair {
    var p1 := Quarter(p0, Rotate17(p0.l));
    var p2 := Quarter(p1, SwapBytes(p1.l));
    var p3 := Quarter(p2, Rotate3(p2.l));
    Quarter(p3, RotateBack2(p3.l))
  }

  function Unquarter(p: Pair, v: Word): Pair {
    Pair(Sub(p.l, p.r), Xor(p.r, v))
  }

  function Unblock(p4: Pair): Pair {
    var p3 := Unquarter(p4, RotateBack2(Sub(p4.l, p4.r)));
    var p2 := Unquarter(p3, Rotate3(Sub(p3.l, p3.r)));
    var p1 := Unquarter(p2, SwapBytes(Sub(p2.l, p2.r)));
    Unquarter(p1, Rotate17(Sub(p1.l, p1.r)))
  }

  lemma SubOfSum(x: Word, y: Word)
    ensures Sub(x + y, y) == x
  {
  }

  lemma SumOfSub(x: Word, y: Word)
    ensures Add(x - y, y) == x
  {
  }

  lemma XorTwice(x: Word, y: Word)
    ensures Xor(Xor(x, y), y) == x
  {
  }

  lemma SubUndoesAdd(x: Word, y: Word)
    ensures Sub(Add(x, y), y) == x
  {
    hide Sub;
    SubOfSum(x, y);
  }

  lemma AddUndoesSub(x: Word, y: Word)
    ensures Add(Sub(x, y), y) == x
  {
    hide Add;
    SumOfSub(x, y);
  }

  lemma QuarterUndone(p: Pair, v: Word)
    ensures var q := Quarter(p, v); Sub(q.l, q.r) == p.l && Unquarter(q, v) == p
    ensures var q := Unquarter(p, v); q.l == Sub(p.l, p.r) && Quarter(q, v) == p
  {
    hide Add, Sub, Xor;
    SubUndoesAdd(p.l, Xor(p.r, v));
    AddUndoesSub(p.l, p.r);
    XorTwice(p.r, v);
  }

  /** The block function is a bijection on pairs of words. */
  lemma BlockUndone(p: Pair)
    ensures Unblock(Block(p)) == p && Block(Unblock(p)) == p
  {
    hide Quarter, Unquarter, Rotate17, Rotate3, RotateBack2, SwapBytes, Sub;
    var p1 := Quarter(p, Rotate17(p.l));
    var p2 := Quarter(p1, SwapBytes(p1.l));
    var p3 := Quarter(p2, Rotate3(p2.l));
    QuarterUndone(p, Rotate17(p.l));
    QuarterUndone(p1, SwapBytes(p1.l));
    QuarterUndone(p2, Rotate3(p2.l));
    QuarterUndone(p3, RotateBack2(p3.l));
    var q3 := Unquarter(p, RotateBack2(Sub(p.l, p.r)));
    var q2 := Unquarter(q3, Rotate3(Sub(q3.l, q3.r)));
    var q1 := Unquarter(q2, SwapBytes(Sub(q2.l, q2.r)));
    QuarterUndone(p, RotateBack2(Sub(p.l, p.r)));
    QuarterUndone(q3, Rotate3(Sub(q3.l, q3.r)));
    QuarterUndone(q2, SwapBytes(Sub(q2.l, q2.r)));
    QuarterUndone(q1, Rotate17(Sub(q1.l, q1.r)));
  }

  // ---------- messages ----------

  function Absorb(p: Pair, w: Word): Pair {
    Block(Pair(Xor(p.l, w), p.r))
  }

  /** The words of m that are whole, in order. */
  function Run(p: Pair, m: seq<Byte>): Pair
    decreases |m|
  {
    if |m| < 4 then p else Absorb(Run(p, m[..Whole(|m|) - 4]), WordAt(m, Whole(|m|) - 4))
  }

  function Whole(n: nat): (w: nat)
    ensures w <= n < w + 4 && w % 4 == 0
  {
    n - n % 4
  }

  function WordAt(m: seq<Byte>, i: nat): Word
    requires i + 4 <= |m|
  {
    Word4(m[i], m[i + 1], m[i + 2], m[i + 3])
  }

  /** The byte 0x5a, then between four and seven zeros up to a multiple of four. */
  function Padded(m: seq<Byte>): (p: seq<Byte>)
    ensures |p| % 4 == 0
  {
    m + [0x5a] + Zeros(7 - |m| % 4)
  }

  function Mic(key: seq<Byte>, m: seq<Byte>): (mic: seq<Byte>)
    requires |key| == 8
    ensures |mic| == 8
  {
    PairBytes(Run(PairOf(key), Padded(m)))
  }

  // ---------- the code as a function of the key ----------

  function Unrun(p: Pair, m: seq<Byte>): Pair
    decreases |m|
  {
    if |m| < 4 then p
    else
      var q := Unblock(p);
      Unrun(Pair(Xor(q.l, WordAt(m, Whole(|m|) - 4)), q.r), m[..Whole(|m|) - 4])
  }

  lemma AbsorbUndone(p: Pair, w: Word)
    ensures var q := Unblock(Absorb(p, w)); Pair(Xor(q.l, w), q.r) == p
    ensures var q := Unblock(p); Absorb(Pair(Xor(q.l, w), q.r), w) == p
  {
    hide Block, Unblock, Xor;
    BlockUndone(Pair(Xor(p.l, w), p.r));
    BlockUndone(p);
    XorTwice(p.l, w);
    XorTwice(Unblock(p).l, w);
  }

  lemma {:induction false} RunUndone(p: Pair, m: seq<Byte>)
    ensures Unrun(Run(p, m), m) == p && Run(Unrun(p, m), m) == p
    decreases |m|
  {
    hide Absorb, Unblock, Xor;
    if |m| >= 4 {
      var w := WordAt(m, Whole(|m|) - 4);
      var rest := m[..Whole(|m|) - 4];
      AbsorbUndone(Run(p, rest), w);
      RunUndone(p, rest);
      AbsorbUndone(p, w);
      var q := Unblock(p);
      RunUndone(Pair(Xor(q.l, w), q.r), rest);
    }
  }

  /** The one key under which m has the code mic. */
  function KeyFor(mic: seq<Byte>, m: seq<Byte>): (key: seq<Byte>)
    requires |mic| == 8
    ensures |key| == 8
  {
    PairBytes(Unrun(PairOf(mic), Padded(m)))
  }

  /** For a fixed message, keys and codes correspond one to one. */
  lemma MicIsBijectiveInKey(key: seq<Byte>, mic: seq<Byte>, m: seq<Byte>)
    requires |key| == 8 && |mic| == 8
    ensures Mic(key, m) == mic <==> key == KeyFor(mic, m)
  {
    hide Run, Unrun, PairOf, PairBytes;
    var p := Padded(m);
    PairsAreBytes(PairOf(key), key);
    PairsAreBytes(PairOf(mic), mic);
    PairsAreBytes(Run(PairOf(key), p), mic);
    PairsAreBytes(Unrun(PairOf(mic), p), key);
    RunUndone(PairOf(key), p);
    RunUndone(PairOf(mic), p);
  }
}
