/**
 * The fifth test string of appendix A.5 of RFC 1321, letters and digits. It fills two blocks, no two words
 * of the first are equal, and its padding runs over into the second, so its digest fixes every constant,
 * rotation and word order the specification has.
 */
module Md5Samples {

  import opened Bytes
  import opened Md5Spec

  /** "A" to "Z", "a" to "z", "0" to "9". */
  function Character(i: nat): Byte
    requires i < 62
  {
    (if i < 26 then 65 + i else if i < 52 then 71 + i else i - 4) as bv8
  }

  function Message(): (m: seq<Byte>)
    ensures |m| == 62
  {
    seq(62, i requires 0 <= i < 62 => Character(i))
  }

  const FIRST := State(0x67452301, 0xEFCDAB89, 0x98BADCFE, 0x10325476)
  const SECOND := State(0x83FD320B, 0xDEFBE5CF, 0xA9B1642F, 0xFA6F932A)
  const LAST := State(0x98AB74D1, 0xF5D977D2, 0x2C1C61A5, 0x9F9D419F)

  /** Section 3.3 gives the four words in bytes, low byte first. */
  lemma StartsAsInBytes()
    ensures Output(INIT) == [0x01, 0x23, 0x45, 0x67, 0x89, 0xab, 0xcd, 0xef, 0xfe, 0xdc, 0xba, 0x98, 0x76, 0x54, 0x32, 0x10]
  {
  }

  lemma NumberByteIs(n: nat, k: nat, b: nat)
    requires k < 4 && b < 256
    requires b == (match k case 0 => n % 256 case 1 => n / 256 % 256 case 2 => n / 65536 % 256 case _ => n / 16777216 % 256)
    ensures NumberByte(n, k) == b as bv8
  {
  }

  lemma BytesOfNumber(n: nat, b0: nat, b1: nat, b2: nat, b3: nat)
    requires b0 < 256 && b1 < 256 && b2 < 256 && b3 < 256
    requires b0 == n % 256 && b1 == n / 256 % 256 && b2 == n / 65536 % 256 && b3 == n / 16777216 % 256
    ensures NumberBytes(n) == [b0 as bv8, b1 as bv8, b2 as bv8, b3 as bv8]
  {
    hide NumberByte;
    NumberByteIs(n, 0, b0);
    NumberByteIs(n, 1, b1);
    NumberByteIs(n, 2, b2);
    NumberByteIs(n, 3, b3);
  }

  /**
   * Section 3.2: the length is in bits, its low word first and each word's low byte first, and of a length
   * that does not fit only the low-order 64 bits are used.
   */
  lemma LengthIsLowByteFirst()
    ensures LengthBytes(0xA123_4567_89AB_CDEF) == [0x78, 0x6F, 0x5E, 0x4D, 0x3C, 0x2B, 0x1A, 0x09]
  {
    hide NumberBytes;
    BytesOfNumber(0x4D5E6F78, 0x78, 0x6F, 0x5E, 0x4D);
    BytesOfNumber(0x091A2B3C, 0x3C, 0x2B, 0x1A, 0x09);
    var bits := 8 * 0xA123_4567_89AB_CDEF % (TWO32 * TWO32);
    assert bits == 0x091A_2B3C_4D5E_6F78;
    assert bits % TWO32 == 0x4D5E6F78 && bits / TWO32 == 0x091A2B3C;
  }

  // ---------- the two blocks ----------

  predicate FirstBlock(x: seq<Word>) {
    && |x| == 16
    && x[0] == 0x44434241 && x[1] == 0x48474645 && x[2] == 0x4C4B4A49 && x[3] == 0x504F4E4D
    && x[4] == 0x54535251 && x[5] == 0x58575655 && x[6] == 0x62615A59 && x[7] == 0x66656463
    && x[8] == 0x6A696867 && x[9] == 0x6E6D6C6B && x[10] == 0x7271706F && x[11] == 0x76757473
    && x[12] == 0x7A797877 && x[13] == 0x33323130 && x[14] == 0x37363534 && x[15] == 0x00803938
  }

  predicate SecondBlock(x: seq<Word>) {
    && |x| == 16
    && x[0] == 0x00000000 && x[1] == 0x00000000 && x[2] == 0x00000000 && x[3] == 0x00000000
    && x[4] == 0x00000000 && x[5] == 0x00000000 && x[6] == 0x00000000 && x[7] == 0x00000000
    && x[8] == 0x00000000 && x[9] == 0x00000000 && x[10] == 0x00000000 && x[11] == 0x00000000
    && x[12] == 0x00000000 && x[13] == 0x00000000 && x[14] == 0x000001F0 && x[15] == 0x00000000
  }

  // ---------- the steps ----------

  /** A step by its intermediate words: function, sums, rotation. */
  lemma Turn(a: Word, b: Word, c: Word, d: Word, x: seq<Word>, i: nat, r: nat,
             f: Word, w: Word, k: Word, s: bv6, t1: Word, t2: Word, t3: Word, t4: Word, v: Word)
    requires |x| == 16 && i < 64 && i / 16 == r && x[Index(i)] == w && Sine(i) == k && Shift(i) == s && s < 32
    requires Mix(r, b, c, d) == f
    requires Add(f, w) == t1 && Add(t1, k) == t2 && Add(a, t2) == t3 && Shl(t3, s) == t4 && Add(t4, b) == v
    ensures Step(State(a, b, c, d), x, i) == State(d, v, b, c)
  {
    hide Mix, Add, Shl, Sine, Shift, Index;
  }

  lemma Eight(st: State, x: seq<Word>, i: nat)
    requires |x| == 16 && i + 8 <= 64
    ensures Steps(st, x, i, i + 8)
      == Step(Step(Step(Step(Step(Step(Step(Step(st, x, i), x, i + 1), x, i + 2), x, i + 3), x, i + 4), x, i + 5),
        x, i + 6), x, i + 7)
  {
    hide Step;
    assert Steps(st, x, i, i + 1) == Step(st, x, i);
    assert Steps(st, x, i, i + 2) == Step(Steps(st, x, i, i + 1), x, i + 1);
    assert Steps(st, x, i, i + 3) == Step(Steps(st, x, i, i + 2), x, i + 2);
    assert Steps(st, x, i, i + 4) == Step(Steps(st, x, i, i + 3), x, i + 3);
    assert Steps(st, x, i, i + 5) == Step(Steps(st, x, i, i + 4), x, i + 4);
    assert Steps(st, x, i, i + 6) == Step(Steps(st, x, i, i + 5), x, i + 5);
    assert Steps(st, x, i, i + 7) == Step(Steps(st, x, i, i + 6), x, i + 6);
  }

  lemma {:induction false} StepsJoin(st: State, x: seq<Word>, k: nat, n: nat)
    requires |x| == 16 && k <= n <= 64
    ensures Steps(st, x, 0, n) == Steps(Steps(st, x, 0, k), x, k, n)
    decreases n
  {
    if k < n {
      StepsJoin(st, x, k, n - 1);
    }
  }

  lemma Sines0()
    ensures Sine(0) == 0xD76AA478 && Sine(1) == 0xE8C7B756 && Sine(2) == 0x242070DB && Sine(3) == 0xC1BDCEEE
    ensures Sine(4) == 0xF57C0FAF && Sine(5) == 0x4787C62A && Sine(6) == 0xA8304613 && Sine(7) == 0xFD469501
  {
  }

  lemma Sines8()
    ensures Sine(8) == 0x698098D8 && Sine(9) == 0x8B44F7AF && Sine(10) == 0xFFFF5BB1 && Sine(11) == 0x895CD7BE
    ensures Sine(12) == 0x6B901122 && Sine(13) == 0xFD987193 && Sine(14) == 0xA679438E && Sine(15) == 0x49B40821
  {
  }

  lemma Sines16()
    ensures Sine(16) == 0xF61E2562 && Sine(17) == 0xC040B340 && Sine(18) == 0x265E5A51 && Sine(19) == 0xE9B6C7AA
    ensures Sine(20) == 0xD62F105D && Sine(21) == 0x02441453 && Sine(22) == 0xD8A1E681 && Sine(23) == 0xE7D3FBC8
  {
  }

  lemma Sines24()
    ensures Sine(24) == 0x21E1CDE6 && Sine(25) == 0xC33707D6 && Sine(26) == 0xF4D50D87 && Sine(27) == 0x455A14ED
    ensures Sine(28) == 0xA9E3E905 && Sine(29) == 0xFCEFA3F8 && Sine(30) == 0x676F02D9 && Sine(31) == 0x8D2A4C8A
  {
  }

  lemma Sines32()
    ensures Sine(32) == 0xFFFA3942 && Sine(33) == 0x8771F681 && Sine(34) == 0x6D9D6122 && Sine(35) == 0xFDE5380C
    ensures Sine(36) == 0xA4BEEA44 && Sine(37) == 0x4BDECFA9 && Sine(38) == 0xF6BB4B60 && Sine(39) == 0xBEBFBC70
  {
  }

  lemma Sines40()
    ensures Sine(40) == 0x289B7EC6 && Sine(41) == 0xEAA127FA && Sine(42) == 0xD4EF3085 && Sine(43) == 0x04881D05
    ensures Sine(44) == 0xD9D4D039 && Sine(45) == 0xE6DB99E5 && Sine(46) == 0x1FA27CF8 && Sine(47) == 0xC4AC5665
  {
  }

  lemma Sines48()
    ensures Sine(48) == 0xF4292244 && Sine(49) == 0x432AFF97 && Sine(50) == 0xAB9423A7 && Sine(51) == 0xFC93A039
    ensures Sine(52) == 0x655B59C3 && Sine(53) == 0x8F0CCC92 && Sine(54) == 0xFFEFF47D && Sine(55) == 0x85845DD1
  {
  }

  lemma Sines56()
    ensures Sine(56) == 0x6FA87E4F && Sine(57) == 0xFE2CE6E0 && Sine(58) == 0xA3014314 && Sine(59) == 0x4E0811A1
    ensures Sine(60) == 0xF7537E82 && Sine(61) == 0xBD3AF235 && Sine(62) == 0x2AD7D2BB && Sine(63) == 0xEB86D391
  {
  }

  lemma First8(x: seq<Word>)
    requires FirstBlock(x)
    ensures Steps(State(0x67452301, 0xEFCDAB89, 0x98BADCFE, 0x10325476), x, 0, 8)
      == State(0xF22E6C4E, 0xA4799506, 0xA95A2FC0, 0xB4AC9218)
  {
    hide Steps, Step, Sine;
    Sines0();
    Turn(0x67452301, 0xEFCDAB89, 0x98BADCFE, 0x10325476, x, 0, 0,
      0x98BADCFE, 0x44434241, 0xD76AA478, 7, 0xDCFE1F3F, 0xB468C3B7, 0x1BADE6B8, 0xD6F35C0D, 0xC6C10796);
    Turn(0x10325476, 0xC6C10796, 0xEFCDAB89, 0x98BADCFE, x, 1, 0,
      0xDEFBDBE8, 0x48474645, 0xE8C7B756, 12, 0x2743222D, 0x100AD983, 0x203D2DF9, 0xD2DF9203, 0x99A09999);
    Turn(0x98BADCFE, 0x99A09999, 0xC6C10796, 0xEFCDAB89, x, 2, 0,
      0xE6CD2390, 0x4C4B4A49, 0x242070DB, 17, 0x33186DD9, 0x5738DEB4, 0xEFF3BBB2, 0x7765DFE7, 0x11067980);
    Turn(0xEFCDAB89, 0x11067980, 0x99A09999, 0xC6C10796, x, 3, 0,
      0xD7C11F96, 0x504F4E4D, 0xC1BDCEEE, 22, 0x28106DE3, 0xE9CE3CD1, 0xD99BE85A, 0x16B666FA, 0x27BCE07A);
    Turn(0xC6C10796, 0x27BCE07A, 0x11067980, 0x99A09999, x, 4, 0,
      0x99047981, 0x54535251, 0xF57C0FAF, 7, 0xED57CBD2, 0xE2D3DB81, 0xA994E317, 0xCA718BD4, 0xF22E6C4E);
    Turn(0x99A09999, 0xF22E6C4E, 0x27BCE07A, 0x11067980, x, 5, 0,
      0x232C71CA, 0x58575655, 0x4787C62A, 12, 0x7B83C81F, 0xC30B8E49, 0x5CAC27E2, 0xC27E25CA, 0xB4AC9218);
    Turn(0x11067980, 0xB4AC9218, 0xF22E6C4E, 0x27BCE07A, x, 6, 0,
      0xB33C606A, 0x62615A59, 0xA8304613, 17, 0x159DBAC3, 0xBDCE00D6, 0xCED47A56, 0xF4AD9DA8, 0xA95A2FC0);
    Turn(0x27BCE07A, 0xA95A2FC0, 0xB4AC9218, 0xF22E6C4E, x, 7, 0,
      0xF22C420E, 0x66656463, 0xFD469501, 22, 0x5891A671, 0x55D83B72, 0x7D951BEC, 0xFB1F6546, 0xA4799506);
    Eight(State(0x67452301, 0xEFCDAB89, 0x98BADCFE, 0x10325476), x, 0);
  }

  lemma First16(x: seq<Word>)
    requires FirstBlock(x)
    ensures Steps(State(0xF22E6C4E, 0xA4799506, 0xA95A2FC0, 0xB4AC9218), x, 8, 16)
      == State(0x3CBDCD45, 0x5D38E690, 0xFA148C8A, 0xB8DEC763)
  {
    hide Steps, Step, Sine;
    Sines8();
    Turn(0xF22E6C4E, 0xA4799506, 0xA95A2FC0, 0xB4AC9218, x, 8, 0,
      0xB0DC0718, 0x6A696867, 0x698098D8, 7, 0x1B456F7F, 0x84C60857, 0x76F474A5, 0x7A3A52BB, 0x1EB3E7C1);
    Turn(0xB4AC9218, 0x1EB3E7C1, 0xA4799506, 0xA95A2FC0, x, 9, 0,
      0xA5798D00, 0x6E6D6C6B, 0x8B44F7AF, 12, 0x13E6F96B, 0x9F2BF11A, 0x53D88332, 0x8833253D, 0xA6E70CFE);
    Turn(0xA95A2FC0, 0xA6E70CFE, 0x1EB3E7C1, 0xA4799506, x, 10, 0,
      0x06BB95C0, 0x7271706F, 0xFFFF5BB1, 17, 0x792D062F, 0x792C61E0, 0x228691A0, 0x2340450D, 0xCA27520B);
    Turn(0xA4799506, 0xCA27520B, 0xA6E70CFE, 0x1EB3E7C1, x, 11, 0,
      0x96B7A5CA, 0x76757473, 0x895CD7BE, 22, 0x0D2D1A3D, 0x9689F1FB, 0x3B038701, 0xC04EC0E1, 0x8A7612EC);
    Turn(0x1EB3E7C1, 0x8A7612EC, 0xCA27520B, 0xA6E70CFE, x, 12, 0,
      0xAEA71E1A, 0x7A797877, 0x6B901122, 7, 0x29209691, 0x94B0A7B3, 0xB3648F74, 0xB247BA59, 0x3CBDCD45);
    Turn(0xA6E70CFE, 0x3CBDCD45, 0x8A7612EC, 0xCA27520B, x, 13, 0,
      0xCA36124E, 0x33323130, 0xFD987193, 12, 0xFD68437E, 0xFB00B511, 0xA1E7C20F, 0x7C20FA1E, 0xB8DEC763);
    Turn(0xCA27520B, 0xB8DEC763, 0x3CBDCD45, 0x8A7612EC, x, 14, 0,
      0x3ABCD5CD, 0x37363534, 0xA679438E, 17, 0x71F30B01, 0x186C4E8F, 0xE293A09A, 0x4135C527, 0xFA148C8A);
    Turn(0x8A7612EC, 0xFA148C8A, 0xB8DEC763, 0x3CBDCD45, x, 15, 0,
      0xBCBDC547, 0x00803938, 0x49B40821, 22, 0xBD3DFE7F, 0x06F206A0, 0x9168198C, 0x63245A06, 0x5D38E690);
    Eight(State(0xF22E6C4E, 0xA4799506, 0xA95A2FC0, 0xB4AC9218), x, 8);
  }

  lemma First24(x: seq<Word>)
    requires FirstBlock(x)
    ensures Steps(State(0x3CBDCD45, 0x5D38E690, 0xFA148C8A, 0xB8DEC763), x, 16, 24)
      == State(0x2D7D8A3F, 0x75292030, 0x4B534DC3, 0xD1210823)
  {
    hide Steps, Step, Sine;
    Sines16();
    Turn(0x3CBDCD45, 0x5D38E690, 0xFA148C8A, 0xB8DEC763, x, 16, 1,
      0x5A18CE88, 0x48474645, 0xF61E2562, 5, 0xA26014CD, 0x987E3A2F, 0xD53C0774, 0xA780EE9A, 0x04B9D52A);
    Turn(0xB8DEC763, 0x04B9D52A, 0x5D38E690, 0xFA148C8A, x, 17, 1,
      0x0538E61A, 0x62615A59, 0xC040B340, 9, 0x679A4073, 0x27DAF3B3, 0xE0B9BB16, 0x73762DC1, 0x783002EB);
    Turn(0xFA148C8A, 0x783002EB, 0x04B9D52A, 0x5D38E690, x, 18, 1,
      0x58B113AA, 0x76757473, 0x265E5A51, 14, 0xCF26881D, 0xF584E26E, 0xEF996EF8, 0x5BBE3BE6, 0xD3EE3ED1);
    Turn(0x5D38E690, 0xD3EE3ED1, 0x783002EB, 0x04B9D52A, x, 19, 1,
      0x78A816C1, 0x44434241, 0xE9B6C7AA, 20, 0xBCEB5902, 0xA6A220AC, 0x03DB073C, 0x73C03DB0, 0x47AE7C81);
    Turn(0x04B9D52A, 0x47AE7C81, 0xD3EE3ED1, 0x783002EB, x, 20, 1,
      0xC3EE3C91, 0x58575655, 0xD62F105D, 5, 0x1C4592E6, 0xF274A343, 0xF72E786D, 0xE5CF0DBE, 0x2D7D8A3F);
    Turn(0x783002EB, 0x2D7D8A3F, 0x47AE7C81, 0xD3EE3ED1, x, 21, 1,
      0x056C4A11, 0x7271706F, 0x02441453, 9, 0x77DDBA80, 0x7A21CED3, 0xF251D1BE, 0xA3A37DE4, 0xD1210823);
    Turn(0xD3EE3ED1, 0xD1210823, 0x2D7D8A3F, 0x47AE7C81, x, 22, 1,
      0x69718A3F, 0x00803938, 0xD8A1E681, 14, 0x69F1C377, 0x4293A9F8, 0x1681E8C9, 0x7A3245A0, 0x4B534DC3);
    Turn(0x47AE7C81, 0x4B534DC3, 0xD1210823, 0x2D7D8A3F, x, 23, 1,
      0xD9510803, 0x54535251, 0xE7D3FBC8, 20, 0x2DA45A54, 0x1578561C, 0x5D26D29D, 0x29D5D26D, 0x75292030);
    Eight(State(0x3CBDCD45, 0x5D38E690, 0xFA148C8A, 0xB8DEC763), x, 16);
  }

  lemma First32(x: seq<Word>)
    requires FirstBlock(x)
    ensures Steps(State(0x2D7D8A3F, 0x75292030, 0x4B534DC3, 0xD1210823), x, 24, 32)
      == State(0x9B085FA9, 0xDD789ECC, 0x5993248F, 0x4400A9BD)
  {
    hide Steps, Step, Sine;
    Sines24();
    Turn(0x2D7D8A3F, 0x75292030, 0x4B534DC3, 0xD1210823, x, 24, 1,
      0x5B7345E0, 0x6E6D6C6B, 0x21E1CDE6, 5, 0xC9E0B24B, 0xEBC28031, 0x19400A70, 0x28014E03, 0x9D2A6E33);
    Turn(0xD1210823, 0x9D2A6E33, 0x75292030, 0x4B534DC3, x, 25, 1,
      0x3D2A6C33, 0x37363534, 0xC33707D6, 9, 0x7460A167, 0x3797A93D, 0x08B8B160, 0x7162C011, 0x0E8D2E44);
    Turn(0x4B534DC3, 0x0E8D2E44, 0x9D2A6E33, 0x75292030, x, 26, 1,
      0x8C0B6E03, 0x504F4E4D, 0xF4D50D87, 14, 0xDC5ABC50, 0xD12FC9D7, 0x1C83179A, 0xC5E68720, 0xD473B564);
    Turn(0x75292030, 0xD473B564, 0x0E8D2E44, 0x9D2A6E33, x, 27, 1,
      0x96A72464, 0x6A696867, 0x455A14ED, 20, 0x01108CCB, 0x466AA1B8, 0xBB93C1E8, 0x1E8BB93C, 0xF2FF6EA0);
    Turn(0x9D2A6E33, 0xF2FF6EA0, 0xD473B564, 0x0E8D2E44, x, 28, 1,
      0xD2FFBF20, 0x33323130, 0xA9E3E905, 5, 0x0631F050, 0xB015D955, 0x4D404788, 0xA808F109, 0x9B085FA9);
    Turn(0x0E8D2E44, 0x9B085FA9, 0xF2FF6EA0, 0xD473B564, x, 29, 1,
      0xB28C5FA0, 0x4C4B4A49, 0xFCEFA3F8, 9, 0xFED7A9E9, 0xFBC74DE1, 0x0A547C25, 0xA8F84A14, 0x4400A9BD);
    Turn(0xD473B564, 0x4400A9BD, 0x9B085FA9, 0xF2FF6EA0, x, 30, 1,
      0x490039A9, 0x66656463, 0x676F02D9, 14, 0xAF659E0C, 0x16D4A0E5, 0xEB485649, 0x15927AD2, 0x5993248F);
    Turn(0xF2FF6EA0, 0x5993248F, 0x4400A9BD, 0x9B085FA9, x, 31, 1,
      0x5D00A49D, 0x7A797877, 0x8D2A4C8A, 20, 0xD77A1D14, 0x64A4699E, 0x57A3D83E, 0x83E57A3D, 0xDD789ECC);
    Eight(State(0x2D7D8A3F, 0x75292030, 0x4B534DC3, 0xD1210823), x, 24);
  }

  lemma First40(x: seq<Word>)
    requires FirstBlock(x)
    ensures Steps(State(0x9B085FA9, 0xDD789ECC, 0x5993248F, 0x4400A9BD), x, 32, 40)
      == State(0x436B7FE9, 0xCF0341ED, 0xF404C2F6, 0x075800C1)
  {
    hide Steps, Step, Sine;
    Sines32();
    Turn(0x9B085FA9, 0xDD789ECC, 0x5993248F, 0x4400A9BD, x, 32, 2,
      0xC0EB13FE, 0x58575655, 0xFFFA3942, 4, 0x19426A53, 0x193CA395, 0xB445033E, 0x445033EB, 0x21C8D2B7);
    Turn(0x4400A9BD, 0x21C8D2B7, 0xDD789ECC, 0x5993248F, x, 33, 2,
      0xA52368F4, 0x6A696867, 0x8771F681, 11, 0x0F8CD15B, 0x96FEC7DC, 0xDAFF7199, 0xFB8CCED7, 0x1D55A18E);
    Turn(0x5993248F, 0x1D55A18E, 0x21C8D2B7, 0xDD789ECC, x, 34, 2,
      0xE1E5EDF5, 0x76757473, 0x6D9D6122, 16, 0x585B6268, 0xC5F8C38A, 0x1F8BE819, 0xE8191F8B, 0x056EC119);
    Turn(0xDD789ECC, 0x056EC119, 0x1D55A18E, 0x21C8D2B7, x, 35, 2,
      0x39F3B220, 0x37363534, 0xFDE5380C, 23, 0x7129E754, 0x6F0F1F60, 0x4C87BE2C, 0x162643DF, 0x1B9504F8);
    Turn(0x21C8D2B7, 0x1B9504F8, 0x056EC119, 0x1D55A18E, x, 36, 2,
      0x03AE646F, 0x48474645, 0xA4BEEA44, 4, 0x4BF5AAB4, 0xF0B494F8, 0x127D67AF, 0x27D67AF1, 0x436B7FE9);
    Turn(0x1D55A18E, 0x436B7FE9, 0x1B9504F8, 0x056EC119, x, 37, 2,
      0x5D90BA08, 0x54535251, 0x4BDECFA9, 11, 0xB1E40C59, 0xFDC2DC02, 0x1B187D90, 0xC3EC80D8, 0x075800C1);
    Turn(0x056EC119, 0x075800C1, 0x436B7FE9, 0x1B9504F8, x, 38, 2,
      0x5FA67BD0, 0x66656463, 0xF6BB4B60, 16, 0xC60BE033, 0xBCC72B93, 0xC235ECAC, 0xECACC235, 0xF404C2F6);
    Turn(0x1B9504F8, 0xF404C2F6, 0x075800C1, 0x436B7FE9, x, 39, 2,
      0xB037BDDE, 0x7271706F, 0xBEBFBC70, 23, 0x22A92E4D, 0xE168EABD, 0xFCFDEFB5, 0xDAFE7EF7, 0xCF0341ED);
    Eight(State(0x9B085FA9, 0xDD789ECC, 0x5993248F, 0x4400A9BD), x, 32);
  }

  lemma First48(x: seq<Word>)
    requires FirstBlock(x)
    ensures Steps(State(0x436B7FE9, 0xCF0341ED, 0xF404C2F6, 0x075800C1), x, 40, 48)
      == State(0x2DBEE21D, 0xF166F514, 0xEE46E961, 0xE95C3A43)
  {
    hide Steps, Step, Sine;
    Sines40();
    Turn(0x436B7FE9, 0xCF0341ED, 0xF404C2F6, 0x075800C1, x, 40, 2,
      0x3C5F83DA, 0x33323130, 0x289B7EC6, 4, 0x6F91B50A, 0x982D33D0, 0xDB98B3B9, 0xB98B3B9D, 0x888E7D8A);
    Turn(0x075800C1, 0x888E7D8A, 0xCF0341ED, 0xF404C2F6, x, 41, 2,
      0xB389FE91, 0x44434241, 0xEAA127FA, 11, 0xF7CD40D2, 0xE26E68CC, 0xE9C6698D, 0x334C6F4E, 0xBBDAECD8);
    Turn(0xF404C2F6, 0xBBDAECD8, 0x888E7D8A, 0xCF0341ED, x, 42, 2,
      0xFC57D0BF, 0x504F4E4D, 0xD4EF3085, 16, 0x4CA71F0C, 0x21964F91, 0x159B1287, 0x1287159B, 0xCE620273);
    Turn(0xCF0341ED, 0xCE620273, 0xBBDAECD8, 0x888E7D8A, x, 43, 2,
      0xFD369321, 0x62615A59, 0x04881D05, 23, 0x5F97ED7A, 0x64200A7F, 0x33234C6C, 0x361991A6, 0x047B9419);
    Turn(0x888E7D8A, 0x047B9419, 0xCE620273, 0xBBDAECD8, x, 44, 2,
      0x71C37AB2, 0x6E6D6C6B, 0xD9D4D039, 4, 0xE030E71D, 0xBA05B756, 0x429434E0, 0x29434E04, 0x2DBEE21D);
    Turn(0xBBDAECD8, 0x2DBEE21D, 0x047B9419, 0xCE620273, x, 45, 2,
      0xE7A77477, 0x7A797877, 0xE6DB99E5, 11, 0x6220ECEE, 0x48FC86D3, 0x04D773AB, 0xBB9D5826, 0xE95C3A43);
    Turn(0xCE620273, 0xE95C3A43, 0x2DBEE21D, 0x047B9419, x, 46, 2,
      0xC0994C47, 0x00803938, 0x1FA27CF8, 16, 0xC119857F, 0xE0BC0277, 0xAF1E04EA, 0x04EAAF1E, 0xEE46E961);
    Turn(0x047B9419, 0xEE46E961, 0xE95C3A43, 0x2DBEE21D, x, 47, 2,
      0x2AA4313F, 0x4C4B4A49, 0xC4AC5665, 23, 0x76EF7B88, 0x3B9BD1ED, 0x40176606, 0x03200BB3, 0xF166F514);
    Eight(State(0x436B7FE9, 0xCF0341ED, 0xF404C2F6, 0x075800C1), x, 40);
  }

  lemma First56(x: seq<Word>)
    requires FirstBlock(x)
    ensures Steps(State(0x2DBEE21D, 0xF166F514, 0xEE46E961, 0xE95C3A43), x, 48, 56)
      == State(0xA691D430, 0xEFB0E72F, 0x3FC23DF6, 0x528452F2)
  {
    hide Steps, Step, Sine;
    Sines48();
    Turn(0x2DBEE21D, 0xF166F514, 0xEE46E961, 0xE95C3A43, x, 48, 3,
      0x19A11CDD, 0x44434241, 0xF4292244, 6, 0x5DE45F1E, 0x520D8162, 0x7FCC637F, 0xF318DFDF, 0xE47FD4F3);
    Turn(0xE95C3A43, 0xE47FD4F3, 0xF166F514, 0xEE46E961, x, 49, 3,
      0x049923EB, 0x66656463, 0x432AFF97, 10, 0x6AFE884E, 0xAE2987E5, 0x9785C228, 0x1708A25E, 0xFB887751);
    Turn(0xEE46E961, 0xFB887751, 0xE47FD4F3, 0xF166F514, x, 50, 3,
      0x1BE6AB08, 0x37363534, 0xAB9423A7, 15, 0x531CE03C, 0xFEB103E3, 0xECF7ED44, 0xF6A2767B, 0xF22AEDCC);
    Turn(0xF166F514, 0xF22AEDCC, 0xFB887751, 0xE47FD4F3, x, 51, 3,
      0x0022989D, 0x58575655, 0xFC93A039, 21, 0x5879EEF2, 0x550D8F2B, 0x4674843F, 0x87E8CE90, 0x7A13BC5C);
    Turn(0xE47FD4F3, 0x7A13BC5C, 0xF22AEDCC, 0xFB887751, x, 52, 3,
      0x8C5D5132, 0x7A797877, 0x655B59C3, 6, 0x06D6C9A9, 0x6C32236C, 0x50B1F85F, 0x2C7E17D4, 0xA691D430);
    Turn(0xFB887751, 0xA691D430, 0x7A13BC5C, 0xF22AEDCC, x, 53, 3,
      0xD5C66A6F, 0x504F4E4D, 0x8F0CCC92, 10, 0x2615B8BC, 0xB522854E, 0xB0AAFC9F, 0xABF27EC2, 0x528452F2);
    Turn(0xF22AEDCC, 0x528452F2, 0xA691D430, 0x7A13BC5C, x, 54, 3,
      0x717D87C3, 0x7271706F, 0xFFEFF47D, 15, 0xE3EEF832, 0xE3DEECAF, 0xD609DA7B, 0xED3DEB04, 0x3FC23DF6);
    Turn(0x7A13BC5C, 0x3FC23DF6, 0x528452F2, 0xA691D430, x, 55, 3,
      0x2D6A6D0D, 0x48474645, 0x85845DD1, 21, 0x75B1B352, 0xFB361123, 0x7549CD7F, 0xAFEEA939, 0xEFB0E72F);
    Eight(State(0x2DBEE21D, 0xF166F514, 0xEE46E961, 0xE95C3A43), x, 48);
  }

  lemma First64(x: seq<Word>)
    requires FirstBlock(x)
    ensures Steps(State(0xA691D430, 0xEFB0E72F, 0x3FC23DF6, 0x528452F2), x, 56, 64)
      == State(0x1CB80F0A, 0xEF2E3A46, 0x10F68731, 0xEA3D3EB4)
  {
    hide Steps, Step, Sine;
    Sines56();
    Turn(0xA691D430, 0xEFB0E72F, 0x3FC23DF6, 0x528452F2, x, 56, 3,
      0xD039D2D9, 0x6A696867, 0x6FA87E4F, 6, 0x3AA33B40, 0xAA4BB98F, 0x50DD8DBF, 0x37636FD4, 0x27145703);
    Turn(0x528452F2, 0x27145703, 0xEFB0E72F, 0x3FC23DF6, x, 57, 3,
      0x088D3024, 0x00803938, 0xFE2CE6E0, 10, 0x090D695C, 0x073A503C, 0x59BEA32E, 0xFA8CB966, 0x21A11069);
    Turn(0x3FC23DF6, 0x21A11069, 0x27145703, 0xEFB0E72F, x, 58, 3,
      0x16FB4FFA, 0x62615A59, 0xA3014314, 15, 0x795CAA53, 0x1C5DED67, 0x5C202B5D, 0x15AEAE10, 0x374FBE79);
    Turn(0xEFB0E72F, 0x374FBE79, 0x21A11069, 0x27145703, x, 59, 3,
      0xDE4EAE94, 0x33323130, 0x4E0811A1, 21, 0x1180DFC4, 0x5F88F165, 0x4F39D894, 0x1289E73B, 0x49D9A5B4);
    Turn(0x27145703, 0x49D9A5B4, 0x374FBE79, 0x21A11069, x, 60, 3,
      0xE89051CF, 0x54535251, 0xF7537E82, 6, 0x3CE3A420, 0x343722A2, 0x5B4B79A5, 0xD2DE6956, 0x1CB80F0A);
    Turn(0x21A11069, 0x1CB80F0A, 0x49D9A5B4, 0x374FBE79, x, 61, 3,
      0x9561EA3A, 0x76757473, 0xBD3AF235, 10, 0x0BD75EAD, 0xC91250E2, 0xEAB3614B, 0xCD852FAA, 0xEA3D3EB4);
    Turn(0x374FBE79, 0xEA3D3EB4, 0x1CB80F0A, 0x49D9A5B4, x, 62, 3,
      0xE28771F5, 0x4C4B4A49, 0x2AD7D2BB, 15, 0x2ED2BC3E, 0x59AA8EF9, 0x90FA4D72, 0x26B9487D, 0x10F68731);
    Turn(0x49D9A5B4, 0x10F68731, 0xEA3D3EB4, 0x1CB80F0A, x, 63, 3,
      0x19CAC941, 0x6E6D6C6B, 0xEB86D391, 21, 0x883835AC, 0x73BF093D, 0xBD98AEF1, 0xDE37B315, 0xEF2E3A46);
    Eight(State(0xA691D430, 0xEFB0E72F, 0x3FC23DF6, 0x528452F2), x, 56);
  }

  lemma FirstSteps(x: seq<Word>)
    requires FirstBlock(x)
    ensures Steps(FIRST, x, 0, 64) == State(0x1CB80F0A, 0xEF2E3A46, 0x10F68731, 0xEA3D3EB4)
  {
    hide Steps;
    First8(x);
    First16(x);
    First24(x);
    First32(x);
    First40(x);
    First48(x);
    First56(x);
    First64(x);
    StepsJoin(FIRST, x, 8, 16);
    StepsJoin(FIRST, x, 16, 24);
    StepsJoin(FIRST, x, 24, 32);
    StepsJoin(FIRST, x, 32, 40);
    StepsJoin(FIRST, x, 40, 48);
    StepsJoin(FIRST, x, 48, 56);
    StepsJoin(FIRST, x, 56, 64);
  }

  lemma Second8(x: seq<Word>)
    requires SecondBlock(x)
    ensures Steps(State(0x83FD320B, 0xDEFBE5CF, 0xA9B1642F, 0xFA6F932A), x, 0, 8)
      == State(0x75144433, 0x99B6B699, 0xC783CB60, 0xC8875807)
  {
    hide Steps, Step, Sine;
    Sines0();
    Turn(0x83FD320B, 0xDEFBE5CF, 0xA9B1642F, 0xFA6F932A, x, 0, 0,
      0xA8B5762F, 0x00000000, 0xD76AA478, 7, 0xA8B5762F, 0x80201AA7, 0x041D4CB2, 0x0EA65902, 0xEDA23ED1);
    Turn(0xFA6F932A, 0xEDA23ED1, 0xDEFBE5CF, 0xA9B1642F, x, 1, 0,
      0xCCB364EF, 0x00000000, 0xE8C7B756, 12, 0xCCB364EF, 0xB57B1C45, 0xAFEAAF6F, 0xAAF6FAFE, 0x989939CF);
    Turn(0xA9B1642F, 0x989939CF, 0xEDA23ED1, 0xDEFBE5CF, x, 2, 0,
      0xCEE2FCC1, 0x00000000, 0x242070DB, 17, 0xCEE2FCC1, 0xF3036D9C, 0x9CB4D1CB, 0xA3973969, 0x3C307338);
    Turn(0xDEFBE5CF, 0x3C307338, 0x989939CF, 0xEDA23ED1, x, 3, 0,
      0xD9923DC9, 0x00000000, 0xC1BDCEEE, 22, 0xD9923DC9, 0x9B500CB7, 0x7A4BF286, 0xA19E92FC, 0xDDCF0634);
    Turn(0xEDA23ED1, 0xDDCF0634, 0x3C307338, 0x989939CF, x, 4, 0,
      0x1C103BFB, 0x00000000, 0xF57C0FAF, 7, 0x1C103BFB, 0x118C4BAA, 0xFF2E8A7B, 0x97453DFF, 0x75144433);
    Turn(0x989939CF, 0x75144433, 0xDDCF0634, 0x3C307338, x, 5, 0,
      0x5D243738, 0x00000000, 0x4787C62A, 12, 0x5D243738, 0xA4ABFD62, 0x3D453731, 0x537313D4, 0xC8875807);
    Turn(0x3C307338, 0xC8875807, 0x75144433, 0xDDCF0634, x, 6, 0,
      0x554C4633, 0x00000000, 0xA8304613, 17, 0x554C4633, 0xFD7C8C46, 0x39ACFF7E, 0xFEFC7359, 0xC783CB60);
    Turn(0xDDCF0634, 0xC783CB60, 0xC8875807, 0x75144433, x, 7, 0,
      0xF0974C13, 0x00000000, 0xFD469501, 22, 0xF0974C13, 0xEDDDE114, 0xCBACE748, 0xD232EB39, 0x99B6B699);
    Eight(State(0x83FD320B, 0xDEFBE5CF, 0xA9B1642F, 0xFA6F932A), x, 0);
  }

  lemma Second16(x: seq<Word>)
    requires SecondBlock(x)
    ensures Steps(State(0x75144433, 0x99B6B699, 0xC783CB60, 0xC8875807), x, 8, 16)
      == State(0xA70737DA, 0xA36F556F, 0x96F6586E, 0x5473F8A7)
  {
    hide Steps, Step, Sine;
    Sines8();
    Turn(0x75144433, 0x99B6B699, 0xC783CB60, 0xC8875807, x, 8, 0,
      0xC183CA06, 0x00000000, 0x698098D8, 7, 0xC183CA06, 0x2B0462DE, 0xA018A711, 0x0C5388D0, 0xA60A3F69);
    Turn(0xC8875807, 0xA60A3F69, 0x99B6B699, 0xC783CB60, x, 9, 0,
      0xC183F609, 0x00000000, 0x8B44F7AF, 12, 0xC183F609, 0x4CC8EDB8, 0x155045BF, 0x045BF155, 0xAA6630BE);
    Turn(0xC783CB60, 0xAA6630BE, 0xA60A3F69, 0x99B6B699, x, 10, 0,
      0xB392B629, 0x00000000, 0xFFFF5BB1, 17, 0xB392B629, 0xB39211DA, 0x7B15DD3A, 0xBA74F62B, 0x64DB26E9);
    Turn(0x99B6B699, 0x64DB26E9, 0xAA6630BE, 0xA60A3F69, x, 11, 0,
      0xA24239A8, 0x00000000, 0x895CD7BE, 22, 0xA24239A8, 0x2B9F1166, 0xC555C7FF, 0xFFF15571, 0x64CC7C5A);
    Turn(0xA60A3F69, 0x64CC7C5A, 0x64DB26E9, 0xAA6630BE, x, 12, 0,
      0xEEEA24EC, 0x00000000, 0x6B901122, 7, 0xEEEA24EC, 0x5A7A360E, 0x00847577, 0x423ABB80, 0xA70737DA);
    Turn(0xAA6630BE, 0xA70737DA, 0x64CC7C5A, 0x64DB26E9, x, 13, 0,
      0x64DC347B, 0x00000000, 0xFD987193, 12, 0x64DC347B, 0x6274A60E, 0x0CDAD6CC, 0xAD6CC0CD, 0x5473F8A7);
    Turn(0x64DB26E9, 0x5473F8A7, 0xA70737DA, 0x64CC7C5A, x, 14, 0,
      0x248F34DA, 0x000001F0, 0xA679438E, 17, 0x248F36CA, 0xCB087A58, 0x2FE3A141, 0x42825FC7, 0x96F6586E);
    Turn(0x64CC7C5A, 0x96F6586E, 0x5473F8A7, 0xA70737DA, x, 15, 0,
      0x35737FB6, 0x00000000, 0x49B40821, 22, 0x35737FB6, 0x7F2787D7, 0xE3F40431, 0x0C78FD01, 0xA36F556F);
    Eight(State(0x75144433, 0x99B6B699, 0xC783CB60, 0xC8875807), x, 8);
  }

  lemma Second24(x: seq<Word>)
    requires SecondBlock(x)
    ensures Steps(State(0xA70737DA, 0xA36F556F, 0x96F6586E, 0x5473F8A7), x, 16, 24)
      == State(0xE04F070C, 0xDF35CB56, 0xC0D22B61, 0x2F3CD2A2)
  {
    hide Steps, Step, Sine;
    Sines16();
    Turn(0xA70737DA, 0xA36F556F, 0x96F6586E, 0x5473F8A7, x, 16, 1,
      0x82E7506F, 0x00000000, 0xF61E2562, 5, 0x82E7506F, 0x790575D1, 0x200CADAB, 0x0195B564, 0xA5050AD3);
    Turn(0x5473F8A7, 0xA5050AD3, 0xA36F556F, 0x96F6586E, x, 17, 1,
      0xA50D0D43, 0x00000000, 0xC040B340, 9, 0xA50D0D43, 0x654DC083, 0xB9C1B92A, 0x83725573, 0x28776046);
    Turn(0x96F6586E, 0x28776046, 0xA5050AD3, 0xA36F556F, x, 18, 1,
      0x24674AD6, 0x00000000, 0x265E5A51, 14, 0x24674AD6, 0x4AC5A527, 0xE1BBFD95, 0xFF65786E, 0x27DCD8B4);
    Turn(0xA36F556F, 0x27DCD8B4, 0x28776046, 0xA5050AD3, x, 19, 1,
      0x2D766894, 0x00000000, 0xE9B6C7AA, 20, 0x2D766894, 0x172D303E, 0xBA9C85AD, 0x5ADBA9C8, 0x82B8827C);
    Turn(0xA5050AD3, 0x82B8827C, 0x27DCD8B4, 0x28776046, x, 20, 1,
      0x07B898F4, 0x00000000, 0xD62F105D, 5, 0x07B898F4, 0xDDE7A951, 0x82ECB424, 0x5D968490, 0xE04F070C);
    Turn(0x28776046, 0xE04F070C, 0x82B8827C, 0x27DCD8B4, x, 21, 1,
      0xA06C024C, 0x00000000, 0x02441453, 9, 0xA06C024C, 0xA2B0169F, 0xCB2776E5, 0x4EEDCB96, 0x2F3CD2A2);
    Turn(0x27DCD8B4, 0x2F3CD2A2, 0xE04F070C, 0x82B8827C, x, 22, 1,
      0x627F8720, 0x00000000, 0xD8A1E681, 14, 0x627F8720, 0x3B216DA1, 0x62FE4655, 0x919558BF, 0xC0D22B61);
    Turn(0x82B8827C, 0xC0D22B61, 0x2F3CD2A2, 0xE04F070C, x, 23, 1,
      0xCF72D3A2, 0x00000000, 0xE7D3FBC8, 20, 0xCF72D3A2, 0xB746CF6A, 0x39FF51E6, 0x1E639FF5, 0xDF35CB56);
    Eight(State(0xA70737DA, 0xA36F556F, 0x96F6586E, 0x5473F8A7), x, 16);
  }

  lemma Second32(x: seq<Word>)
    requires SecondBlock(x)
    ensures Steps(State(0xE04F070C, 0xDF35CB56, 0xC0D22B61, 0x2F3CD2A2), x, 24, 32)
      == State(0x24EBA695, 0x9C03E2E8, 0x10C42A2F, 0x4BD0378B)
  {
    hide Steps, Step, Sine;
    Sines24();
    Turn(0xE04F070C, 0xDF35CB56, 0xC0D22B61, 0x2F3CD2A2, x, 24, 1,
      0xCFF6EB43, 0x00000000, 0x21E1CDE6, 5, 0xCFF6EB43, 0xF1D8B929, 0xD227C035, 0x44F806BA, 0x242DD210);
    Turn(0x2F3CD2A2, 0x242DD210, 0xDF35CB56, 0xC0D22B61, x, 25, 1,
      0x1F25C216, 0x000001F0, 0xC33707D6, 9, 0x1F25C406, 0xE25CCBDC, 0x11999E7E, 0x333CFC23, 0x576ACE33);
    Turn(0xC0D22B61, 0x576ACE33, 0x242DD210, 0xDF35CB56, x, 26, 1,
      0x7728DA12, 0x00000000, 0xF4D50D87, 14, 0x7728DA12, 0x6BFDE799, 0x2CD012FA, 0x04BE8B34, 0x5C295967);
    Turn(0xDF35CB56, 0x5C295967, 0x576ACE33, 0x242DD210, x, 27, 1,
      0x576B5C23, 0x00000000, 0x455A14ED, 20, 0x576B5C23, 0x9CC57110, 0x7BFB3C66, 0xC667BFB3, 0x2291191A);
    Turn(0x242DD210, 0x2291191A, 0x5C295967, 0x576ACE33, x, 28, 1,
      0x0A011956, 0x00000000, 0xA9E3E905, 5, 0x0A011956, 0xB3E5025B, 0xD812D46B, 0x025A8D7B, 0x24EBA695);
    Turn(0x576ACE33, 0x24EBA695, 0x2291191A, 0x5C295967, x, 29, 1,
      0x26B9001D, 0x00000000, 0xFCEFA3F8, 9, 0x26B9001D, 0x23A8A415, 0x7B137248, 0x26E490F6, 0x4BD0378B);
    Turn(0x5C295967, 0x4BD0378B, 0x24EBA695, 0x2291191A, x, 30, 1,
      0x06FAB78F, 0x00000000, 0x676F02D9, 14, 0x06FAB78F, 0x6E69BA68, 0xCA9313CF, 0xC4F3F2A4, 0x10C42A2F);
    Turn(0x2291191A, 0x10C42A2F, 0x4BD0378B, 0x24EBA695, x, 31, 1,
      0x4BD0330F, 0x00000000, 0x8D2A4C8A, 20, 0x4BD0330F, 0xD8FA7F99, 0xFB8B98B3, 0x8B3FB8B9, 0x9C03E2E8);
    Eight(State(0xE04F070C, 0xDF35CB56, 0xC0D22B61, 0x2F3CD2A2), x, 24);
  }

  lemma Second40(x: seq<Word>)
    requires SecondBlock(x)
    ensures Steps(State(0x24EBA695, 0x9C03E2E8, 0x10C42A2F, 0x4BD0378B), x, 32, 40)
      == State(0xE14E403D, 0xFE314121, 0x60CC183A, 0xE8CFD670)
  {
    hide Steps, Step, Sine;
    Sines32();
    Turn(0x24EBA695, 0x9C03E2E8, 0x10C42A2F, 0x4BD0378B, x, 32, 2,
      0xC717FF4C, 0x00000000, 0xFFFA3942, 4, 0xC717FF4C, 0xC712388E, 0xEBFDDF23, 0xBFDDF23E, 0x5BE1D526);
    Turn(0x4BD0378B, 0x5BE1D526, 0x9C03E2E8, 0x10C42A2F, x, 33, 2,
      0xD7261DE1, 0x00000000, 0x8771F681, 11, 0xD7261DE1, 0x5E981462, 0xAA684BED, 0x425F6D53, 0x9E414279);
    Turn(0x10C42A2F, 0x9E414279, 0x5BE1D526, 0x9C03E2E8, x, 34, 2,
      0x59A375B7, 0x00000000, 0x6D9D6122, 16, 0x59A375B7, 0xC740D6D9, 0xD8050108, 0x0108D805, 0x9F4A1A7E);
    Turn(0x9C03E2E8, 0x9F4A1A7E, 0x9E414279, 0x5BE1D526, x, 35, 2,
      0x5AEA8D21, 0x000001F0, 0xFDE5380C, 23, 0x5AEA8F11, 0x58CFC71D, 0xF4D3AA05, 0x02FA69D5, 0xA2448453);
    Turn(0x5BE1D526, 0xA2448453, 0x9F4A1A7E, 0x9E414279, x, 36, 2,
      0xA34FDC54, 0x00000000, 0xA4BEEA44, 4, 0xA34FDC54, 0x480EC698, 0xA3F09BBE, 0x3F09BBEA, 0xE14E403D);
    Turn(0x9E414279, 0xE14E403D, 0xA2448453, 0x9F4A1A7E, x, 37, 2,
      0xDC40DE10, 0x00000000, 0x4BDECFA9, 11, 0xDC40DE10, 0x281FADB9, 0xC660F032, 0x07819633, 0xE8CFD670);
    Turn(0x9F4A1A7E, 0xE8CFD670, 0xE14E403D, 0xA2448453, x, 38, 2,
      0xABC5121E, 0x00000000, 0xF6BB4B60, 16, 0xABC5121E, 0xA2805D7E, 0x41CA77FC, 0x77FC41CA, 0x60CC183A);
    Turn(0xA2448453, 0x60CC183A, 0xE8CFD670, 0xE14E403D, x, 39, 2,
      0x694D8E77, 0x00000000, 0xBEBFBC70, 23, 0x694D8E77, 0x280D4AE7, 0xCA51CF3A, 0x9D6528E7, 0xFE314121);
    Eight(State(0x24EBA695, 0x9C03E2E8, 0x10C42A2F, 0x4BD0378B), x, 32);
  }

  lemma Second48(x: seq<Word>)
    requires SecondBlock(x)
    ensures Steps(State(0xE14E403D, 0xFE314121, 0x60CC183A, 0xE8CFD670), x, 40, 48)
      == State(0x54C9EB3A, 0x79C0710A, 0x2EC86F72, 0xD4D9C6AC)
  {
    hide Steps, Step, Sine;
    Sines40();
    Turn(0xE14E403D, 0xFE314121, 0x60CC183A, 0xE8CFD670, x, 40, 2,
      0x76328F6B, 0x00000000, 0x289B7EC6, 4, 0x76328F6B, 0x9ECE0E31, 0x801C4E6E, 0x01C4E6E8, 0xFFF62809);
    Turn(0xE8CFD670, 0xFFF62809, 0xFE314121, 0x60CC183A, x, 41, 2,
      0x610B7112, 0x00000000, 0xEAA127FA, 11, 0x610B7112, 0x4BAC990C, 0x347C6F7C, 0xE37BE1A3, 0xE37209AC);
    Turn(0x60CC183A, 0xE37209AC, 0xFFF62809, 0xFE314121, x, 42, 2,
      0xE2B56084, 0x00000000, 0xD4EF3085, 16, 0xE2B56084, 0xB7A49109, 0x1870A943, 0xA9431870, 0x8CB5221C);
    Turn(0xFE314121, 0x8CB5221C, 0xE37209AC, 0xFFF62809, x, 43, 2,
      0x903103B9, 0x00000000, 0x04881D05, 23, 0x903103B9, 0x94B920BE, 0x92EA61DF, 0xEFC97530, 0x7C7E974C);
    Turn(0xFFF62809, 0x7C7E974C, 0x8CB5221C, 0xE37209AC, x, 44, 2,
      0x13B9BCFC, 0x00000000, 0xD9D4D039, 4, 0x13B9BCFC, 0xED8E8D35, 0xED84B53E, 0xD84B53EE, 0x54C9EB3A);
    Turn(0xE37209AC, 0x54C9EB3A, 0x7C7E974C, 0x8CB5221C, x, 45, 2,
      0xA4025E6A, 0x00000000, 0xE6DB99E5, 11, 0xA4025E6A, 0x8ADDF84F, 0x6E5001FB, 0x800FDB72, 0xD4D9C6AC);
    Turn(0x8CB5221C, 0xD4D9C6AC, 0x54C9EB3A, 0x7C7E974C, x, 46, 2,
      0xFC6EBADA, 0x00000000, 0x1FA27CF8, 16, 0xFC6EBADA, 0x1C1137D2, 0xA8C659EE, 0x59EEA8C6, 0x2EC86F72);
    Turn(0x7C7E974C, 0x2EC86F72, 0xD4D9C6AC, 0x54C9EB3A, x, 47, 2,
      0xAED842E4, 0x00000000, 0xC4AC5665, 23, 0xAED842E4, 0x73849949, 0xF0033095, 0x4AF80198, 0x79C0710A);
    Eight(State(0xE14E403D, 0xFE314121, 0x60CC183A, 0xE8CFD670), x, 40);
  }

  lemma Second56(x: seq<Word>)
    requires SecondBlock(x)
    ensures Steps(State(0x54C9EB3A, 0x79C0710A, 0x2EC86F72, 0xD4D9C6AC), x, 48, 56)
      == State(0xE126C1AA, 0xFB7BCEE0, 0x6F287FF5, 0x96B00FA7)
  {
    hide Steps, Step, Sine;
    Sines48();
    Turn(0x54C9EB3A, 0x79C0710A, 0x2EC86F72, 0xD4D9C6AC, x, 48, 3,
      0x552E1629, 0x00000000, 0xF4292244, 6, 0x552E1629, 0x4957386D, 0x9E2123A7, 0x8848E9E7, 0x02095AF1);
    Turn(0xD4D9C6AC, 0x02095AF1, 0x79C0710A, 0x2EC86F72, x, 49, 3,
      0xAAFFABF7, 0x00000000, 0x432AFF97, 10, 0xAAFFABF7, 0xEE2AAB8E, 0xC304723A, 0x11C8EB0C, 0x13D245FD);
    Turn(0x2EC86F72, 0x13D245FD, 0x02095AF1, 0x79C0710A, x, 50, 3,
      0x95F6950C, 0x000001F0, 0xAB9423A7, 15, 0x95F696FC, 0x418ABAA3, 0x70532A15, 0x950AB829, 0xA8DCFE26);
    Turn(0x79C0710A, 0xA8DCFE26, 0x13D245FD, 0x02095AF1, x, 51, 3,
      0xEE2CBAD3, 0x00000000, 0xFC93A039, 21, 0xEE2CBAD3, 0xEAC05B0C, 0x6480CC16, 0x82CC9019, 0x2BA98E3F);
    Turn(0x02095AF1, 0x2BA98E3F, 0xA8DCFE26, 0x13D245FD, x, 52, 3,
      0x47714019, 0x00000000, 0x655B59C3, 6, 0x47714019, 0xACCC99DC, 0xAED5F4CD, 0xB57D336B, 0xE126C1AA);
    Turn(0x13D245FD, 0xE126C1AA, 0x2BA98E3F, 0xA8DCFE26, x, 53, 3,
      0xDC8E4FC4, 0x00000000, 0x8F0CCC92, 10, 0xDC8E4FC4, 0x6B9B1C56, 0x7F6D6253, 0xB5894DFD, 0x96B00FA7);
    Turn(0xA8DCFE26, 0x96B00FA7, 0xE126C1AA, 0x2BA98E3F, x, 54, 3,
      0x37D0BE4D, 0x00000000, 0xFFEFF47D, 15, 0x37D0BE4D, 0x37C0B2CA, 0xE09DB0F0, 0xD878704E, 0x6F287FF5);
    Turn(0x2BA98E3F, 0x6F287FF5, 0x96B00FA7, 0xE126C1AA, x, 55, 3,
      0xE9497052, 0x00000000, 0x85845DD1, 21, 0xE9497052, 0x6ECDCE23, 0x9A775C62, 0x8C534EEB, 0xFB7BCEE0);
    Eight(State(0x54C9EB3A, 0x79C0710A, 0x2EC86F72, 0xD4D9C6AC), x, 48);
  }

  lemma Second64(x: seq<Word>)
    requires SecondBlock(x)
    ensures Steps(State(0xE126C1AA, 0xFB7BCEE0, 0x6F287FF5, 0x96B00FA7), x, 56, 64)
      == State(0x14AE42C6, 0x16DD9203, 0x826AFD76, 0xA52DAE75)
  {
    hide Steps, Step, Sine;
    Sines56();
    Turn(0xE126C1AA, 0xFB7BCEE0, 0x6F287FF5, 0x96B00FA7, x, 56, 3,
      0x9457810D, 0x00000000, 0x6FA87E4F, 6, 0x9457810D, 0x03FFFF5C, 0xE526C106, 0x49B041B9, 0x452C1099);
    Turn(0x96B00FA7, 0x452C1099, 0xFB7BCEE0, 0x6F287FF5, x, 57, 3,
      0x2E845E7B, 0x00000000, 0xFE2CE6E0, 10, 0x2E845E7B, 0x2CB1455B, 0xC3615502, 0x85540B0D, 0xCA801BA6);
    Turn(0x6F287FF5, 0xCA801BA6, 0x452C1099, 0xFB7BCEE0, x, 58, 3,
      0x8BA82B26, 0x00000000, 0xA3014314, 15, 0x8BA82B26, 0x2EA96E3A, 0x9DD1EE2F, 0xF717CEE8, 0xC197EA8E);
    Turn(0xFB7BCEE0, 0xC197EA8E, 0xCA801BA6, 0x452C1099, x, 59, 3,
      0x3157F448, 0x00000000, 0x4E0811A1, 21, 0x3157F448, 0x7F6005E9, 0x7ADBD4C9, 0x992F5B7A, 0x5AC74608);
    Turn(0x452C1099, 0x5AC74608, 0xC197EA8E, 0xCA801BA6, x, 60, 3,
      0xBE680CD7, 0x00000000, 0xF7537E82, 6, 0xBE680CD7, 0xB5BB8B59, 0xFAE79BF2, 0xB9E6FCBE, 0x14AE42C6);
    Turn(0xCA801BA6, 0x14AE42C6, 0x5AC74608, 0xC197EA8E, x, 61, 3,
      0x642911FF, 0x00000000, 0xBD3AF235, 10, 0x642911FF, 0x21640434, 0xEBE41FDA, 0x907F6BAF, 0xA52DAE75);
    Turn(0xC197EA8E, 0xA52DAE75, 0x14AE42C6, 0x5AC74608, x, 62, 3,
      0xB193FD31, 0x00000000, 0x2AD7D2BB, 15, 0xB193FD31, 0xDC6BCFEC, 0x9E03BA7A, 0xDD3D4F01, 0x826AFD76);
    Turn(0x5AC74608, 0x826AFD76, 0xA52DAE75, 0x14AE42C6, x, 63, 3,
      0x4E56530A, 0x00000000, 0xEB86D391, 21, 0x4E56530A, 0x39DD269B, 0x94A46CA3, 0x9472948D, 0x16DD9203);
    Eight(State(0xE126C1AA, 0xFB7BCEE0, 0x6F287FF5, 0x96B00FA7), x, 56);
  }

  lemma SecondSteps(x: seq<Word>)
    requires SecondBlock(x)
    ensures Steps(SECOND, x, 0, 64) == State(0x14AE42C6, 0x16DD9203, 0x826AFD76, 0xA52DAE75)
  {
    hide Steps;
    Second8(x);
    Second16(x);
    Second24(x);
    Second32(x);
    Second40(x);
    Second48(x);
    Second56(x);
    Second64(x);
    StepsJoin(SECOND, x, 8, 16);
    StepsJoin(SECOND, x, 16, 24);
    StepsJoin(SECOND, x, 24, 32);
    StepsJoin(SECOND, x, 32, 40);
    StepsJoin(SECOND, x, 40, 48);
    StepsJoin(SECOND, x, 48, 56);
    StepsJoin(SECOND, x, 56, 64);
  }

  // ---------- the padded message ----------

  function Head(): (b: seq<Byte>)
    ensures |b| == 64
  {
    Message() + [0x80, 0]
  }

  function Tail(): (b: seq<Byte>)
    ensures |b| == 64
  {
    Zeros(56) + LengthBytes(62)
  }

  lemma PaddedIsTwoBlocks()
    ensures Padded(Message()) == Head() + Tail()
  {
    hide LengthBytes;
    assert PadLength(62) == 58;
  }

  lemma HeadWord(k: nat)
    requires k < 15
    ensures Words(Head())[k] == Word4(Character(4 * k), Character(4 * k + 1), Character(4 * k + 2), Character(4 * k + 3))
  {
    hide Word4, Character;
  }

  /** Four characters as a word. */
  lemma HeadWordIs(k: nat, b0: Byte, b1: Byte, b2: Byte, b3: Byte, w: Word)
    requires k < 15 && Character(4 * k) == b0 && Character(4 * k + 1) == b1
    requires Character(4 * k + 2) == b2 && Character(4 * k + 3) == b3 && Word4(b0, b1, b2, b3) == w
    ensures Words(Head())[k] == w
  {
    hide Word4, Character, Words, Head;
    HeadWord(k);
  }

  lemma Head0()
    ensures Words(Head())[0] == 0x44434241 && Words(Head())[1] == 0x48474645 && Words(Head())[2] == 0x4C4B4A49 && Words(Head())[3] == 0x504F4E4D
  {
    hide Words, Head;
    HeadWordIs(0, 0x41, 0x42, 0x43, 0x44, 0x44434241);
    HeadWordIs(1, 0x45, 0x46, 0x47, 0x48, 0x48474645);
    HeadWordIs(2, 0x49, 0x4A, 0x4B, 0x4C, 0x4C4B4A49);
    HeadWordIs(3, 0x4D, 0x4E, 0x4F, 0x50, 0x504F4E4D);
  }

  lemma Head4()
    ensures Words(Head())[4] == 0x54535251 && Words(Head())[5] == 0x58575655 && Words(Head())[6] == 0x62615A59 && Words(Head())[7] == 0x66656463
  {
    hide Words, Head;
    HeadWordIs(4, 0x51, 0x52, 0x53, 0x54, 0x54535251);
    HeadWordIs(5, 0x55, 0x56, 0x57, 0x58, 0x58575655);
    HeadWordIs(6, 0x59, 0x5A, 0x61, 0x62, 0x62615A59);
    HeadWordIs(7, 0x63, 0x64, 0x65, 0x66, 0x66656463);
  }

  lemma Head8()
    ensures Words(Head())[8] == 0x6A696867 && Words(Head())[9] == 0x6E6D6C6B && Words(Head())[10] == 0x7271706F && Words(Head())[11] == 0x76757473
  {
    hide Words, Head;
    HeadWordIs(8, 0x67, 0x68, 0x69, 0x6A, 0x6A696867);
    HeadWordIs(9, 0x6B, 0x6C, 0x6D, 0x6E, 0x6E6D6C6B);
    HeadWordIs(10, 0x6F, 0x70, 0x71, 0x72, 0x7271706F);
    HeadWordIs(11, 0x73, 0x74, 0x75, 0x76, 0x76757473);
  }

  lemma Head12()
    ensures Words(Head())[12] == 0x7A797877 && Words(Head())[13] == 0x33323130 && Words(Head())[14] == 0x37363534
  {
    hide Words, Head;
    HeadWordIs(12, 0x77, 0x78, 0x79, 0x7A, 0x7A797877);
    HeadWordIs(13, 0x30, 0x31, 0x32, 0x33, 0x33323130);
    HeadWordIs(14, 0x34, 0x35, 0x36, 0x37, 0x37363534);
  }

  lemma HeadEnds()
    ensures Words(Head())[15] == Word4(Character(60), Character(61), 0x80, 0)
  {
    hide Word4, Character;
  }

  lemma LastHeadWord()
    ensures Words(Head())[15] == 0x00803938
  {
    hide Words, Head;
    HeadEnds();
    assert Character(60) == 0x38 && Character(61) == 0x39;
    assert Word4(0x38, 0x39, 0x80, 0) == 0x00803938;
  }

  lemma HeadIsFirst()
    ensures FirstBlock(Words(Head()))
  {
    hide Words, Head;
    Head0();
    Head4();
    Head8();
    Head12();
    LastHeadWord();
  }

  lemma TailWord(k: nat)
    requires k < 16
    ensures k < 14 ==> Words(Tail())[k] == Word4(0, 0, 0, 0)
    ensures var n := LengthBytes(62); k == 14 ==> Words(Tail())[k] == Word4(n[0], n[1], n[2], n[3])
    ensures var n := LengthBytes(62); k == 15 ==> Words(Tail())[k] == Word4(n[4], n[5], n[6], n[7])
  {
    hide Word4, LengthBytes;
  }

  lemma LengthIs496()
    ensures LengthBytes(62) == [0xF0, 1, 0, 0, 0, 0, 0, 0]
  {
    hide NumberBytes;
    assert 8 * 62 % (TWO32 * TWO32) == 496;
    BytesOfNumber(496, 0xF0, 1, 0, 0);
    BytesOfNumber(0, 0, 0, 0, 0);
  }

  lemma TailIsSecond()
    ensures SecondBlock(Words(Tail()))
  {
    hide Words, Tail, LengthBytes;
    LengthIs496();
    forall k | 0 <= k < 16
      ensures Words(Tail())[k] == if k == 14 then 496 else 0
    {
      TailWord(k);
      assert Word4(0, 0, 0, 0) == 0 && Word4(0xF0, 1, 0, 0) == 496;
    }
  }

  lemma FirstCompresses()
    ensures Compress(INIT, Head()) == SECOND
  {
    hide Steps, Words;
    HeadIsFirst();
    FirstSteps(Words(Head()));
  }

  lemma SecondCompresses()
    ensures Compress(SECOND, Tail()) == LAST
  {
    hide Steps, Words;
    TailIsSecond();
    SecondSteps(Words(Tail()));
  }

  lemma OutputOfLast()
    ensures Output(LAST) == [0xd1, 0x74, 0xab, 0x98, 0xd2, 0x77, 0xd9, 0xf5, 0xa5, 0x61, 0x1c, 0x2c, 0x9f, 0x41, 0x9d, 0x9f]
  {
  }

  /** The digest that appendix A.5 gives for this string. */
  lemma DigestOfLettersAndDigits()
    ensures Digest(Message()) == [0xd1, 0x74, 0xab, 0x98, 0xd2, 0x77, 0xd9, 0xf5, 0xa5, 0x61, 0x1c, 0x2c, 0x9f, 0x41, 0x9d, 0x9f]
  {
    hide Compress, Padded, Head, Tail, Output;
    PaddedIsTwoBlocks();
    var p := Head() + Tail();
    assert p[..64] == Head() && p[64..] == Tail() && Tail()[64..] == [] && Tail()[..64] == Tail();
    FirstCompresses();
    SecondCompresses();
    OutputOfLast();
  }
}
