/** The mixing function as coded, on 32-bit words that phase 2 leaves unreduced. */
module TkipMix {
  import opened TkipMixSpec
  import opened TkipTables

  type Word = bv32

  /** The low 16 bits. */
  function Low(x: Word): Half {
    (x & 0xFFFF) as bv16
  }

  // ---------- the word expressions of the code ----------

  function Sum(x: Word, y: Word): Word { x + y }
  function Xor(x: Word, y: Word): Word { x ^ y }
  function Mod(x: Word): Word { x % 65536 }

  function Key(hi: Byte, lo: Byte): Word {
    256 * (hi as bv32) + lo as bv32
  }

  /** tkip_sbox. */
  function Sbox(index: Word): Word {
    var low := (index % 256) as bv8;
    var high := ((index >> 8) % 256) as bv8;
    var left := Lower(low) as bv32 + Upper(low) as bv32 * 256;
    var right := Upper(high) as bv32 + Lower(high) as bv32 * 256;
    left ^ right
  }

  /** rotr1. */
  function Rotr1(a: Word): Word {
    var b := if a & 1 == 1 then (a >> 1) | 0x8000 else (a >> 1) & 0x7FFF;
    b % 65536
  }

  /** A step of phase 1, reduced. */
  function StirReduced(w: Word, u: Word, k: Word): Word {
    Mod(Sum(w, Sbox(Mod(Xor(u, k)))))
  }

  /** A substitution step of phase 2, not reduced. */
  function StirLoose(w: Word, u: Word, k: Word): Word {
    Sum(w, Sbox(Mod(Xor(u, k))))
  }

  // ---------- what the low halves do ----------

  lemma LowIs(x: Word)
    ensures Low(x) == (x & 0xFFFF) as bv16
  {
  }

  lemma SumLow(x: Word, y: Word)
    ensures Low(x + y) == Plus((x & 0xFFFF) as bv16, (y & 0xFFFF) as bv16)
  {
  }

  /** Reducing a sum late or early is the same. */
  lemma LowAdd(x: Word, y: Word)
    ensures Low(Sum(x, y)) == Plus(Low(x), Low(y))
  {
    hide Low, Plus;
    SumLow(x, y);
    LowIs(x);
    LowIs(y);
  }

  lemma LowXor(x: Word, y: Word)
    ensures Low(Xor(x, y)) == Differ(Low(x), Low(y))
  {
  }

  lemma LowMod(x: Word)
    ensures Low(Mod(x)) == Low(x) && Mod(x) <= 0xFFFF
  {
  }

  lemma LowKey(hi: Byte, lo: Byte)
    ensures Low(Key(hi, lo)) == Mk16(hi, lo)
  {
  }

  lemma SboxLow(x: Word)
    ensures Low(Sbox(x % 65536)) == S(Low(x))
  {
    hide Lower, Upper;
  }

  lemma LowSbox(x: Word)
    ensures Low(Sbox(Mod(x))) == S(Low(x))
  {
    hide Low, Sbox, S;
    SboxLow(x);
  }

  lemma OddRotr(a: Word)
    requires a & 1 == 1
    ensures Low(((a >> 1) | 0x8000) % 65536) == RotR1((a & 0xFFFF) as bv16)
  {
  }

  lemma EvenRotr(a: Word)
    requires a & 1 != 1
    ensures Low(((a >> 1) & 0x7FFF) % 65536) == RotR1((a & 0xFFFF) as bv16)
  {
  }

  /** The rotation looks at the low half of an unreduced word only. */
  lemma LowRotr(a: Word)
    ensures Low(Rotr1(a)) == RotR1(Low(a))
  {
    hide Low, RotR1;
    LowIs(a);
    if a & 1 == 1 { OddRotr(a); } else { EvenRotr(a); }
  }

  lemma LowStir(w: Word, u: Word, k: Word)
    ensures Low(StirLoose(w, u, k)) == Stir(Low(w), Low(u), Low(k))
    ensures Low(StirReduced(w, u, k)) == Stir(Low(w), Low(u), Low(k))
    ensures StirReduced(w, u, k) <= 0xFFFF
  {
    hide Low, S, Sbox, Plus, Sum, Xor, Mod, Differ;
    LowXor(u, k);
    LowSbox(Xor(u, k));
    LowAdd(w, Sbox(Mod(Xor(u, k))));
    LowMod(StirLoose(w, u, k));
  }

  /** A rotation step of phase 2. */
  function Spin(w: Word, x: Word): Word {
    Sum(w, Rotr1(x))
  }

  lemma LowSpin(w: Word, x: Word)
    ensures Low(Spin(w, x)) == Plus(Low(w), RotR1(Low(x)))
  {
    hide Low, Rotr1, RotR1, Plus, Sum;
    LowAdd(w, Rotr1(x));
    LowRotr(x);
  }

  function SumReduced(x: Word, y: Word): Word {
    Mod(Sum(x, y))
  }

  lemma LowSum(x: Word, y: Word)
    ensures Low(SumReduced(x, y)) == Plus(Low(x), Low(y))
    ensures SumReduced(x, y) <= 0xFFFF
  {
    hide Low, Plus, Sum, Mod;
    LowAdd(x, y);
    LowMod(Sum(x, y));
  }

  function Counter(i: nat): Word {
    match i
    case 0 => 0
    case 1 => 1
    case 2 => 2
    case 3 => 3
    case 4 => 4
    case 5 => 5
    case 6 => 6
    case _ => 7
  }

  lemma LowCounter(i: nat)
    ensures Low(Counter(i)) == Number(i)
  {
  }

  // ---------- phase 1 ----------

  ghost predicate Holds(p1k: array<Word>, t: Ttak)
    requires p1k.Length == 5
    reads p1k
  {
    && Low(p1k[0]) == t.w0 && Low(p1k[1]) == t.w1 && Low(p1k[2]) == t.w2 && Low(p1k[3]) == t.w3 && Low(p1k[4]) == t.w4
    && forall i :: 0 <= i < 5 ==> p1k[i] <= 0xFFFF
  }

  /** One turn of the phase 1 loop. */
  method MixTurn(key: seq<Byte>, p1k: array<Word>, i: nat, ghost t: Ttak)
    requires |key| == 16 && p1k.Length == 5 && i < 8 && Holds(p1k, t)
    modifies p1k
    ensures Holds(p1k, Turn(t, key, i))
  {
    hide Low, StirReduced, Stir, Key, KeyWord, Counter, Number, Plus, SumReduced;
    var j := 2 * (i % 2);
    Put(p1k, 0, 4, key, j);
    Put(p1k, 1, 0, key, 4 + j);
    Put(p1k, 2, 1, key, 8 + j);
    Put(p1k, 3, 2, key, 12 + j);
    Put(p1k, 4, 3, key, j);
    LowSum(p1k[4], Counter(i));
    LowCounter(i);
    p1k[4] := SumReduced(p1k[4], Counter(i));
  }

  /** One assignment of the loop body: word n takes in word m and the key word at k. */
  method Put(p1k: array<Word>, n: nat, m: nat, key: seq<Byte>, k: nat)
    requires p1k.Length == 5 && n < 5 && m < 5 && k + 2 <= |key|
    modifies p1k
    ensures forall i :: 0 <= i < 5 && i != n ==> p1k[i] == old(p1k[i])
    ensures Low(p1k[n]) == Stir(Low(old(p1k[n])), Low(old(p1k[m])), KeyWord(key, k)) && p1k[n] <= 0xFFFF
  {
    hide Low, StirReduced, Stir, Key, Mk16;
    LowKey(key[k + 1], key[k]);
    LowStir(p1k[n], p1k[m], Key(key[k + 1], key[k]));
    p1k[n] := StirReduced(p1k[n], p1k[m], Key(key[k + 1], key[k]));
  }

  /** The start words of phase 1. */
  method MixStart(ta: seq<Byte>, pnh: Word, p1k: array<Word>)
    requires |ta| == 6 && p1k.Length == 5
    modifies p1k
    ensures Holds(p1k, Ttak(Low(pnh), High(pnh), Mk16(ta[1], ta[0]), Mk16(ta[3], ta[2]), Mk16(ta[5], ta[4])))
  {
    hide Low, Mk16, Key, High, Mod;
    HighPart(pnh);
    LowMod(pnh);
    KeyIsSmall(ta[1], ta[0]);
    KeyIsSmall(ta[3], ta[2]);
    KeyIsSmall(ta[5], ta[4]);
    p1k[0] := Mod(pnh);
    p1k[1] := Mod(pnh >> 16);
    p1k[2] := Key(ta[1], ta[0]);
    p1k[3] := Key(ta[3], ta[2]);
    p1k[4] := Key(ta[5], ta[4]);
  }

  function High(x: Word): Half {
    (x >> 16) as bv16
  }

  lemma HighPart(x: Word)
    ensures Low(Mod(x >> 16)) == High(x) && Mod(x >> 16) <= 0xFFFF
  {
  }

  lemma KeyIsSmall(hi: Byte, lo: Byte)
    ensures Low(Key(hi, lo)) == Mk16(hi, lo) && Key(hi, lo) <= 0xFFFF
  {
  }

  // ---------- phase 2 ----------

  function KeyAt(key: seq<Byte>, i: nat): Word
    requires i + 2 <= |key|
  {
    Key(key[i + 1], key[i])
  }

  lemma LowKeyAt(key: seq<Byte>, i: nat)
    requires i + 2 <= |key|
    ensures Low(KeyAt(key, i)) == KeyWord(key, i)
  {
    hide Low, Key, Mk16;
    LowKey(key[i + 1], key[i]);
  }

  datatype Words = Words(w0: Word, w1: Word, w2: Word, w3: Word, w4: Word, w5: Word) {
    function Lows(): Ppk {
      Ppk(Low(w0), Low(w1), Low(w2), Low(w3), Low(w4), Low(w5))
    }
  }

  /** Phase 2, the substitution half of step 2. */
  method Substitute(key: seq<Byte>, p1k: array<Word>, tsc2: Word, ghost t: Ttak) returns (p: Words)
    requires |key| == 16 && p1k.Length == 5 && Holds(p1k, t)
    ensures p.Lows() == Substituted(t, key, Low(tsc2))
  {
    hide Low, StirLoose, Stir, KeyAt, KeyWord, Plus, SumReduced;
    var ppk0, ppk1, ppk2, ppk3, ppk4 := p1k[0], p1k[1], p1k[2], p1k[3], p1k[4];
    LowSum(p1k[4], tsc2);
    var ppk5 := SumReduced(p1k[4], tsc2);
    LowStirKey(ppk0, ppk5, key, 0);
    ppk0 := StirLoose(ppk0, ppk5, KeyAt(key, 0));
    LowStirKey(ppk1, ppk0, key, 2);
    ppk1 := StirLoose(ppk1, ppk0, KeyAt(key, 2));
    LowStirKey(ppk2, ppk1, key, 4);
    ppk2 := StirLoose(ppk2, ppk1, KeyAt(key, 4));
    LowStirKey(ppk3, ppk2, key, 6);
    ppk3 := StirLoose(ppk3, ppk2, KeyAt(key, 6));
    LowStirKey(ppk4, ppk3, key, 8);
    ppk4 := StirLoose(ppk4, ppk3, KeyAt(key, 8));
    LowStirKey(ppk5, ppk4, key, 10);
    ppk5 := StirLoose(ppk5, ppk4, KeyAt(key, 10));
    p := Words(ppk0, ppk1, ppk2, ppk3, ppk4, ppk5);
  }

  lemma LowStirKey(w: Word, u: Word, key: seq<Byte>, i: nat)
    requires i + 2 <= |key|
    ensures Low(StirLoose(w, u, KeyAt(key, i))) == Stir(Low(w), Low(u), KeyWord(key, i))
  {
    hide Low, StirLoose, Stir, KeyAt, KeyWord;
    LowStir(w, u, KeyAt(key, i));
    LowKeyAt(key, i);
  }

  /** Phase 2, the rotation half of step 2. */
  method Rotate(key: seq<Byte>, p0: Words) returns (p: Words)
    requires |key| == 16
    ensures p.Lows() == Rotated(p0.Lows(), key)
  {
    hide Low, Spin, RotR1, KeyAt, KeyWord, Plus, Xor, Differ;
    var ppk0, ppk1, ppk2, ppk3, ppk4, ppk5 := p0.w0, p0.w1, p0.w2, p0.w3, p0.w4, p0.w5;
    LowXorKey(ppk5, key, 12);
    LowSpin(ppk0, Xor(ppk5, KeyAt(key, 12)));
    ppk0 := Spin(ppk0, Xor(ppk5, KeyAt(key, 12)));
    LowXorKey(ppk0, key, 14);
    LowSpin(ppk1, Xor(ppk0, KeyAt(key, 14)));
    ppk1 := Spin(ppk1, Xor(ppk0, KeyAt(key, 14)));
    LowSpin(ppk2, ppk1);
    ppk2 := Spin(ppk2, ppk1);
    LowSpin(ppk3, ppk2);
    ppk3 := Spin(ppk3, ppk2);
    LowSpin(ppk4, ppk3);
    ppk4 := Spin(ppk4, ppk3);
    LowSpin(ppk5, ppk4);
    ppk5 := Spin(ppk5, ppk4);
    p := Words(ppk0, ppk1, ppk2, ppk3, ppk4, ppk5);
  }

  lemma LowXorKey(w: Word, key: seq<Byte>, i: nat)
    requires i + 2 <= |key|
    ensures Low(Xor(w, KeyAt(key, i))) == Differ(Low(w), KeyWord(key, i))
  {
    hide Low, Xor, KeyAt, KeyWord, Differ;
    LowXor(w, KeyAt(key, i));
    LowKeyAt(key, i);
  }

  // ---------- output ----------

  function ByteOf(x: Word): Byte {
    (x % 256) as bv8
  }

  lemma LowBytes(x: Word)
    ensures ByteOf(x) == Lo8(Low(x)) && ByteOf(x >> 8) == Hi8(Low(x))
  {
  }

  lemma ShiftedByte(x: Word)
    ensures ByteOf(x >> 1) == Mid8(Low(x))
  {
  }

  function SecondByte(x: Word): Byte {
    ((((x >> 8) % 256) | 0x20) & 0x7F) as bv8
  }

  lemma MaskedByte(x: Word)
    ensures SecondByte(x) == Unweak(Hi8(Low(x)))
  {
  }

  /** Phase 2, step 3. */
  method PutSeed(key: seq<Byte>, p: Words, tsc2: Word, rc4key: array<Byte>)
    requires |key| == 16 && rc4key.Length == 16
    modifies rc4key
    ensures rc4key[..] == Seed(p.Lows(), key, Low(tsc2))
  {
    hide Low, Hi8, Lo8, KeyWord, Differ, Mid8, Unweak, HalfBytes;
    PutHead(key, p.w5, tsc2, rc4key);
    PutWord(rc4key, 4, p.w0);
    PutWord(rc4key, 6, p.w1);
    PutWord(rc4key, 8, p.w2);
    PutWord(rc4key, 10, p.w3);
    PutWord(rc4key, 12, p.w4);
    PutWord(rc4key, 14, p.w5);
    assert rc4key[..16] == rc4key[..];
  }

  /** The first four bytes. */
  method PutHead(key: seq<Byte>, ppk5: Word, tsc2: Word, rc4key: array<Byte>)
    requires |key| == 16 && rc4key.Length == 16
    modifies rc4key
    ensures rc4key[..4] == [Hi8(Low(tsc2)), Unweak(Hi8(Low(tsc2))), Lo8(Low(tsc2)), Mid8(Differ(Low(ppk5), KeyWord(key, 0)))]
  {
    hide Low, ByteOf, Hi8, Lo8, KeyAt, KeyWord, Xor, Differ, Mid8, Unweak, SecondByte;
    LowBytes(tsc2);
    MaskedByte(tsc2);
    LowXorKey(ppk5, key, 0);
    ShiftedByte(Xor(ppk5, KeyAt(key, 0)));
    rc4key[0] := ByteOf(tsc2 >> 8);
    rc4key[1] := SecondByte(tsc2);
    rc4key[2] := ByteOf(tsc2);
    rc4key[3] := ByteOf(Xor(ppk5, KeyAt(key, 0)) >> 1);
    assert rc4key[..4] == [rc4key[0], rc4key[1], rc4key[2], rc4key[3]];
  }

  method PutWord(rc4key: array<Byte>, i: nat, ppk: Word)
    requires i + 2 <= rc4key.Length
    modifies rc4key
    ensures rc4key[..i + 2] == old(rc4key[..i]) + HalfBytes(Low(ppk))
  {
    hide Low, ByteOf, Hi8, Lo8;
    LowBytes(ppk);
    rc4key[i] := ByteOf(ppk);
    rc4key[i + 1] := ByteOf(ppk >> 8);
  }

  /** RTMPTkipMixKey. */
  method MixKey(key: seq<Byte>, ta: seq<Byte>, pnl: Word, pnh: Word, rc4key: array<Byte>, p1k: array<Word>)
    requires |key| == 16 && |ta| == 6 && rc4key.Length == 16 && p1k.Length == 5
    modifies rc4key, p1k
    ensures Holds(p1k, Phase1(key, ta, High(pnh), Low(pnh)))
    ensures rc4key[..] == WepSeed(key, ta, High(pnh), Low(pnh), Low(pnl))
  {
    hide Low, High, Turn, Substituted, Rotated, Seed, Holds, Mk16, Mod;
    ghost var t0 := Ttak(Low(pnh), High(pnh), Mk16(ta[1], ta[0]), Mk16(ta[3], ta[2]), Mk16(ta[5], ta[4]));
    MixStart(ta, pnh, p1k);
    for i := 0 to 8
      invariant Holds(p1k, Turns(t0, key, i))
    {
      MixTurn(key, p1k, i, Turns(t0, key, i));
    }
    var tsc2 := Mod(pnl);
    LowMod(pnl);
    ghost var t := Phase1(key, ta, High(pnh), Low(pnh));
    var p := Substitute(key, p1k, tsc2, t);
    p := Rotate(key, p);
    PutSeed(key, p, tsc2, rc4key);
  }
}
