/** The TKIP mixing function of section 8.3.2.5 of IEEE 802.11i-2004, on 16-bit words. */
module TkipMixSpec {

  import opened TkipTables

  type Half = bv16

  // ---------- the S-box ----------

  function Mk16(hi: Byte, lo: Byte): Half {
    (hi as bv16 << 8) | (lo as bv16)
  }

  function Hi8(x: Half): Byte {
    (x >> 8) as bv8
  }

  function Lo8(x: Half): Byte {
    (x & 0xFF) as bv8
  }

  /** The word for the low byte, and the word for the high byte with its bytes exchanged. */
  function S(x: Half): Half {
    Mk16(Upper(Lo8(x)), Lower(Lo8(x))) ^ Mk16(Lower(Hi8(x)), Upper(Hi8(x)))
  }

  function RotR1(x: Half): Half {
    (x >> 1) | (x << 15)
  }

  // ---------- phase 1 ----------

  datatype Ttak = Ttak(w0: Half, w1: Half, w2: Half, w3: Half, w4: Half)

  function KeyWord(key: seq<Byte>, i: nat): Half
    requires i + 2 <= |key|
  {
    Mk16(key[i + 1], key[i])
  }

  function Stir(w: Half, u: Half, k: Half): Half {
    Plus(w, S(Differ(u, k)))
  }

  /** Turn i of the phase 1 loop; j is 0 or 2. */
  function Turn(t: Ttak, key: seq<Byte>, i: nat): Ttak
    requires |key| == 16 && i < 8
  {
    var j := 2 * (i % 2);
    var w0 := Stir(t.w0, t.w4, KeyWord(key, j));
    var w1 := Stir(t.w1, w0, KeyWord(key, 4 + j));
    var w2 := Stir(t.w2, w1, KeyWord(key, 8 + j));
    var w3 := Stir(t.w3, w2, KeyWord(key, 12 + j));
    var w4 := Stir(t.w4, w3, KeyWord(key, j));
    Ttak(w0, w1, w2, w3, Plus(w4, Number(i)))
  }

  function Differ(x: Half, y: Half): Half {
    x ^ y
  }

  /** The loop counter as a word. */
  function Number(i: nat): Half {
    match i
    case 0 => 0
    case 1 => 1
    case 2 => 2
    case 3 => 3
    case 4 => 4
    case 5 => 5
    case 6 => 6
    case _ => 7
  }

  function Plus(x: Half, y: Half): Half {
    x + y
  }

  function Turns(t: Ttak, key: seq<Byte>, n: nat): Ttak
    requires |key| == 16 && n <= 8
  {
    if n == 0 then t else Turn(Turns(t, key, n - 1), key, n - 1)
  }

  /** The address and the upper part of the counter mixed with the key. */
  function Phase1(key: seq<Byte>, ta: seq<Byte>, iv32Hi: Half, iv32Lo: Half): Ttak
    requires |key| == 16 && |ta| == 6
  {
    Turns(Ttak(iv32Lo, iv32Hi, Mk16(ta[1], ta[0]), Mk16(ta[3], ta[2]), Mk16(ta[5], ta[4])), key, 8)
  }

  // ---------- phase 2 ----------

  datatype Ppk = Ppk(w0: Half, w1: Half, w2: Half, w3: Half, w4: Half, w5: Half)

  function Substituted(t: Ttak, key: seq<Byte>, iv16: Half): Ppk
    requires |key| == 16
  {
    var w5 := Plus(t.w4, iv16);
    var w0 := Stir(t.w0, w5, KeyWord(key, 0));
    var w1 := Stir(t.w1, w0, KeyWord(key, 2));
    var w2 := Stir(t.w2, w1, KeyWord(key, 4));
    var w3 := Stir(t.w3, w2, KeyWord(key, 6));
    var w4 := Stir(t.w4, w3, KeyWord(key, 8));
    Ppk(w0, w1, w2, w3, w4, Stir(w5, w4, KeyWord(key, 10)))
  }

  function Rotated(p: Ppk, key: seq<Byte>): Ppk
    requires |key| == 16
  {
    var w0 := Plus(p.w0, RotR1(Differ(p.w5, KeyWord(key, 12))));
    var w1 := Plus(p.w1, RotR1(Differ(w0, KeyWord(key, 14))));
    var w2 := Plus(p.w2, RotR1(w1));
    var w3 := Plus(p.w3, RotR1(w2));
    var w4 := Plus(p.w4, RotR1(w3));
    Ppk(w0, w1, w2, w3, w4, Plus(p.w5, RotR1(w4)))
  }

  function HalfBytes(x: Half): seq<Byte> {
    [Lo8(x), Hi8(x)]
  }

  /** The second byte avoids weak keys. */
  function Unweak(b: Byte): Byte {
    (b | 0x20) & 0x7F
  }

  function Mid8(x: Half): Byte {
    Lo8(x >> 1)
  }

  function Seed(p: Ppk, key: seq<Byte>, iv16: Half): (s: seq<Byte>)
    requires |key| == 16
    ensures |s| == 16
  {
    [Hi8(iv16), Unweak(Hi8(iv16)), Lo8(iv16), Mid8(Differ(p.w5, KeyWord(key, 0)))]
    + HalfBytes(p.w0) + HalfBytes(p.w1) + HalfBytes(p.w2) + HalfBytes(p.w3) + HalfBytes(p.w4) + HalfBytes(p.w5)
  }

  /** The 16 bytes of the per-packet key. */
  function WepSeed(key: seq<Byte>, ta: seq<Byte>, iv32Hi: Half, iv32Lo: Half, iv16: Half): (s: seq<Byte>)
    requires |key| == 16 && |ta| == 6
    ensures |s| == 16
  {
    var t := Phase1(key, ta, iv32Hi, iv32Lo);
    Seed(Rotated(Substituted(t, key, iv16), key), key, iv16)
  }
}
