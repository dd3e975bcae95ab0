/**
 * The substitution of TKIP is that of section 5.1.1 of FIPS 197: for every byte the two tables hold three times and
 * twice the affine image of its inverse in GF(2^8).
 */
module TkipSbox {

  import opened TkipTables

  /** Multiplication modulo x^8 + x^4 + x^3 + x + 1, one row for each bit of y. */
  function Times(x: Byte, y: Byte): Byte {
    var x1 := (x << 1) ^ (if x & 0x80 != 0 then 0x1B else 0);
    var x2 := (x1 << 1) ^ (if x1 & 0x80 != 0 then 0x1B else 0);
    var x3 := (x2 << 1) ^ (if x2 & 0x80 != 0 then 0x1B else 0);
    var x4 := (x3 << 1) ^ (if x3 & 0x80 != 0 then 0x1B else 0);
    var x5 := (x4 << 1) ^ (if x4 & 0x80 != 0 then 0x1B else 0);
    var x6 := (x5 << 1) ^ (if x5 & 0x80 != 0 then 0x1B else 0);
    var x7 := (x6 << 1) ^ (if x6 & 0x80 != 0 then 0x1B else 0);
    (if y & 0x01 != 0 then x else 0) ^ (if y & 0x02 != 0 then x1 else 0)
    ^ (if y & 0x04 != 0 then x2 else 0) ^ (if y & 0x08 != 0 then x3 else 0)
    ^ (if y & 0x10 != 0 then x4 else 0) ^ (if y & 0x20 != 0 then x5 else 0)
    ^ (if y & 0x40 != 0 then x6 else 0) ^ (if y & 0x80 != 0 then x7 else 0)
  }

  /** t is the inverse of x, or 0 for 0. */
  predicate Inverts(t: Byte, x: Byte) {
    if x == 0 then t == 0 else Times(t, x) == 1
  }

  function Affine(t: Byte): Byte {
    t ^ ((t << 1) | (t >> 7)) ^ ((t << 2) | (t >> 6)) ^ ((t << 3) | (t >> 5)) ^ ((t << 4) | (t >> 4)) ^ 0x63
  }

  function Unaffine(s: Byte): Byte {
    ((s << 1) | (s >> 7)) ^ ((s << 3) | (s >> 5)) ^ ((s << 6) | (s >> 2)) ^ 0x05
  }

  lemma AffineUndone(s: Byte)
    ensures Affine(Unaffine(s)) == s
  {
  }

  /** The two bytes for x are three times and twice one byte, the affine image of the inverse of x. */
  predicate Law(x: Byte, lower: Byte, upper: Byte) {
    upper == Times(upper ^ lower, 2) && lower == Times(upper ^ lower, 3) && Inverts(Unaffine(upper ^ lower), x)
  }

  // ---------- row by row ----------

  lemma Law0(i: Byte)
    requires Row(i) == 0
    ensures Law(i, Lower0(Column(i)), Upper0(Column(i)))
  {
  }

  lemma Law1(i: Byte)
    requires Row(i) == 1
    ensures Law(i, Lower1(Column(i)), Upper1(Column(i)))
  {
  }

  lemma Law2(i: Byte)
    requires Row(i) == 2
    ensures Law(i, Lower2(Column(i)), Upper2(Column(i)))
  {
  }

  lemma Law3(i: Byte)
    requires Row(i) == 3
    ensures Law(i, Lower3(Column(i)), Upper3(Column(i)))
  {
  }

  lemma Law4(i: Byte)
    requires Row(i) == 4
    ensures Law(i, Lower4(Column(i)), Upper4(Column(i)))
  {
  }

  lemma Law5(i: Byte)
    requires Row(i) == 5
    ensures Law(i, Lower5(Column(i)), Upper5(Column(i)))
  {
  }

  lemma Law6(i: Byte)
    requires Row(i) == 6
    ensures Law(i, Lower6(Column(i)), Upper6(Column(i)))
  {
  }

  lemma Law7(i: Byte)
    requires Row(i) == 7
    ensures Law(i, Lower7(Column(i)), Upper7(Column(i)))
  {
  }

  lemma Law8(i: Byte)
    requires Row(i) == 8
    ensures Law(i, Lower8(Column(i)), Upper8(Column(i)))
  {
  }

  lemma Law9(i: Byte)
    requires Row(i) == 9
    ensures Law(i, Lower9(Column(i)), Upper9(Column(i)))
  {
  }

  lemma Law10(i: Byte)
    requires Row(i) == 10
    ensures Law(i, Lower10(Column(i)), Upper10(Column(i)))
  {
  }

  lemma Law11(i: Byte)
    requires Row(i) == 11
    ensures Law(i, Lower11(Column(i)), Upper11(Column(i)))
  {
  }

  lemma Law12(i: Byte)
    requires Row(i) == 12
    ensures Law(i, Lower12(Column(i)), Upper12(Column(i)))
  {
  }

  lemma Law13(i: Byte)
    requires Row(i) == 13
    ensures Law(i, Lower13(Column(i)), Upper13(Column(i)))
  {
  }

  lemma Law14(i: Byte)
    requires Row(i) == 14
    ensures Law(i, Lower14(Column(i)), Upper14(Column(i)))
  {
  }

  lemma Law15(i: Byte)
    requires Row(i) == 15
    ensures Law(i, Lower15(Column(i)), Upper15(Column(i)))
  {
  }

  lemma LawHolds(i: Byte)
    ensures Law(i, Lower(i), Upper(i))
  {
    hide Law, Row, Column, Lower0, Lower1, Lower2, Lower3, Lower4, Lower5, Lower6, Lower7, Lower8, Lower9, Lower10, Lower11, Lower12, Lower13, Lower14, Lower15,
      Upper0, Upper1, Upper2, Upper3, Upper4, Upper5, Upper6, Upper7, Upper8, Upper9, Upper10, Upper11, Upper12, Upper13, Upper14, Upper15;
    match Row(i)
    case 0 => Law0(i);
    case 1 => Law1(i);
    case 2 => Law2(i);
    case 3 => Law3(i);
    case 4 => Law4(i);
    case 5 => Law5(i);
    case 6 => Law6(i);
    case 7 => Law7(i);
    case 8 => Law8(i);
    case 9 => Law9(i);
    case 10 => Law10(i);
    case 11 => Law11(i);
    case 12 => Law12(i);
    case 13 => Law13(i);
    case 14 => Law14(i);
    case 15 => Law15(i);
  }

  /** Every byte is substituted as FIPS 197 says. */
  lemma TablesAreTheSbox(i: Byte) returns (t: Byte)
    ensures Inverts(t, i)
    ensures Upper(i) == Times(Affine(t), 2) && Lower(i) == Times(Affine(t), 3)
  {
    hide Lower, Upper, Times, Affine, Unaffine;
    LawHolds(i);
    t := Unaffine(Upper(i) ^ Lower(i));
    AffineUndone(Upper(i) ^ Lower(i));
  }
}
