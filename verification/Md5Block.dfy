/** The unrolled block transformation, and its agreement with the table. */
module Md5Block {
  import opened Bytes
  import opened Md5Spec

  // ---------- the round macros ----------

  function F(x: Word, y: Word, z: Word): Word { (x & y) | (!x & z) }
  function G(x: Word, y: Word, z: Word): Word { (x & z) | (y & !z) }
  function H(x: Word, y: Word, z: Word): Word { x ^ y ^ z }
  function I(x: Word, y: Word, z: Word): Word { y ^ (x | !z) }

  function RotateLeft(x: Word, n: bv6): (r: Word)
    requires n < 32
    ensures r == Shl(x, n)
  {
    (x << n) | (x >> (32 - n))
  }

  function FF(a0: Word, b: Word, c: Word, d: Word, x: Word, s: bv6, ac: Word): Word
    requires s < 32
  {
    var a := Add(a0, Add(Add(F(b, c, d), x), ac));
    var a := RotateLeft(a, s);
    Add(a, b)
  }

  function GG(a0: Word, b: Word, c: Word, d: Word, x: Word, s: bv6, ac: Word): Word
    requires s < 32
  {
    var a := Add(a0, Add(Add(G(b, c, d), x), ac));
    var a := RotateLeft(a, s);
    Add(a, b)
  }

  function HH(a0: Word, b: Word, c: Word, d: Word, x: Word, s: bv6, ac: Word): Word
    requires s < 32
  {
    var a := Add(a0, Add(Add(H(b, c, d), x), ac));
    var a := RotateLeft(a, s);
    Add(a, b)
  }

  function II(a0: Word, b: Word, c: Word, d: Word, x: Word, s: bv6, ac: Word): Word
    requires s < 32
  {
    var a := Add(a0, Add(Add(I(b, c, d), x), ac));
    var a := RotateLeft(a, s);
    Add(a, b)
  }

  // ---------- each macro call is a step of the table ----------

  lemma FIsMix(x: Word, y: Word, z: Word)
    ensures F(x, y, z) == Mix(0, x, y, z)
  {
  }

  lemma FFIs(a: Word, b: Word, c: Word, d: Word, x: Word, s: bv6, ac: Word)
    requires s < 32
    ensures FF(a, b, c, d, x, s, ac) == Add(Shl(Add(a, Add(Add(Mix(0, b, c, d), x), ac)), s), b)
  {
    hide Add, Shl, RotateLeft, Mix, F;
    assert F(b, c, d) == Mix(0, b, c, d) by { FIsMix(b, c, d); }
  }

  lemma FFIsStep(st: State, x: seq<Word>, from: nat, i: nat, k: nat, n: bv6, ac: Word)
    requires |x| == 16 && from <= i && 0 <= i < 16
    requires k == Index(i) && n == Shift(i) && ac == Sine(i)
    ensures var s := Steps(st, x, from, i);
      Steps(st, x, from, i + 1) == State(s.d, FF(s.a, s.b, s.c, s.d, x[k], n, ac), s.b, s.c)
  {
    hide Add, Shl, Mix, FF, Index, Shift, Sine;
    var s := Steps(st, x, from, i);
    FFIs(s.a, s.b, s.c, s.d, x[k], n, ac);
  }

  lemma GIsMix(x: Word, y: Word, z: Word)
    ensures G(x, y, z) == Mix(1, x, y, z)
  {
  }

  lemma GGIs(a: Word, b: Word, c: Word, d: Word, x: Word, s: bv6, ac: Word)
    requires s < 32
    ensures GG(a, b, c, d, x, s, ac) == Add(Shl(Add(a, Add(Add(Mix(1, b, c, d), x), ac)), s), b)
  {
    hide Add, Shl, RotateLeft, Mix, G;
    assert G(b, c, d) == Mix(1, b, c, d) by { GIsMix(b, c, d); }
  }

  lemma GGIsStep(st: State, x: seq<Word>, from: nat, i: nat, k: nat, n: bv6, ac: Word)
    requires |x| == 16 && from <= i && 16 <= i < 32
    requires k == Index(i) && n == Shift(i) && ac == Sine(i)
    ensures var s := Steps(st, x, from, i);
      Steps(st, x, from, i + 1) == State(s.d, GG(s.a, s.b, s.c, s.d, x[k], n, ac), s.b, s.c)
  {
    hide Add, Shl, Mix, GG, Index, Shift, Sine;
    var s := Steps(st, x, from, i);
    GGIs(s.a, s.b, s.c, s.d, x[k], n, ac);
  }

  lemma HIsMix(x: Word, y: Word, z: Word)
    ensures H(x, y, z) == Mix(2, x, y, z)
  {
  }

  lemma HHIs(a: Word, b: Word, c: Word, d: Word, x: Word, s: bv6, ac: Word)
    requires s < 32
    ensures HH(a, b, c, d, x, s, ac) == Add(Shl(Add(a, Add(Add(Mix(2, b, c, d), x), ac)), s), b)
  {
    hide Add, Shl, RotateLeft, Mix, H;
    assert H(b, c, d) == Mix(2, b, c, d) by { HIsMix(b, c, d); }
  }

  lemma HHIsStep(st: State, x: seq<Word>, from: nat, i: nat, k: nat, n: bv6, ac: Word)
    requires |x| == 16 && from <= i && 32 <= i < 48
    requires k == Index(i) && n == Shift(i) && ac == Sine(i)
    ensures var s := Steps(st, x, from, i);
      Steps(st, x, from, i + 1) == State(s.d, HH(s.a, s.b, s.c, s.d, x[k], n, ac), s.b, s.c)
  {
    hide Add, Shl, Mix, HH, Index, Shift, Sine;
    var s := Steps(st, x, from, i);
    HHIs(s.a, s.b, s.c, s.d, x[k], n, ac);
  }

  lemma IIsMix(x: Word, y: Word, z: Word)
    ensures I(x, y, z) == Mix(3, x, y, z)
  {
  }

  lemma IIIs(a: Word, b: Word, c: Word, d: Word, x: Word, s: bv6, ac: Word)
    requires s < 32
    ensures II(a, b, c, d, x, s, ac) == Add(Shl(Add(a, Add(Add(Mix(3, b, c, d), x), ac)), s), b)
  {
    hide Add, Shl, RotateLeft, Mix, I;
    assert I(b, c, d) == Mix(3, b, c, d) by { IIsMix(b, c, d); }
  }

  lemma IIIsStep(st: State, x: seq<Word>, from: nat, i: nat, k: nat, n: bv6, ac: Word)
    requires |x| == 16 && from <= i && 48 <= i < 64
    requires k == Index(i) && n == Shift(i) && ac == Sine(i)
    ensures var s := Steps(st, x, from, i);
      Steps(st, x, from, i + 1) == State(s.d, II(s.a, s.b, s.c, s.d, x[k], n, ac), s.b, s.c)
  {
    hide Add, Shl, Mix, II, Index, Shift, Sine;
    var s := Steps(st, x, from, i);
    IIIs(s.a, s.b, s.c, s.d, x[k], n, ac);
  }

  // ---------- the rounds ----------

  lemma Indices1()
    ensures Index(0) == 0 && Index(1) == 1 && Index(2) == 2 && Index(3) == 3
    ensures Index(4) == 4 && Index(5) == 5 && Index(6) == 6 && Index(7) == 7
    ensures Index(8) == 8 && Index(9) == 9 && Index(10) == 10 && Index(11) == 11
    ensures Index(12) == 12 && Index(13) == 13 && Index(14) == 14 && Index(15) == 15
  {
  }

  lemma Shifts1()
    ensures Shift(0) == 7 && Shift(1) == 12 && Shift(2) == 17 && Shift(3) == 22
    ensures Shift(4) == 7 && Shift(5) == 12 && Shift(6) == 17 && Shift(7) == 22
    ensures Shift(8) == 7 && Shift(9) == 12 && Shift(10) == 17 && Shift(11) == 22
    ensures Shift(12) == 7 && Shift(13) == 12 && Shift(14) == 17 && Shift(15) == 22
  {
  }

  lemma SinesOf1()
    ensures Sine(0) == 0xd76aa478 && Sine(1) == 0xe8c7b756 && Sine(2) == 0x242070db && Sine(3) == 0xc1bdceee
    ensures Sine(4) == 0xf57c0faf && Sine(5) == 0x4787c62a && Sine(6) == 0xa8304613 && Sine(7) == 0xfd469501
    ensures Sine(8) == 0x698098d8 && Sine(9) == 0x8b44f7af && Sine(10) == 0xffff5bb1 && Sine(11) == 0x895cd7be
    ensures Sine(12) == 0x6b901122 && Sine(13) == 0xfd987193 && Sine(14) == 0xa679438e && Sine(15) == 0x49b40821
  {
  }

  lemma Indices2()
    ensures Index(16) == 1 && Index(17) == 6 && Index(18) == 11 && Index(19) == 0
    ensures Index(20) == 5 && Index(21) == 10 && Index(22) == 15 && Index(23) == 4
    ensures Index(24) == 9 && Index(25) == 14 && Index(26) == 3 && Index(27) == 8
    ensures Index(28) == 13 && Index(29) == 2 && Index(30) == 7 && Index(31) == 12
  {
  }

  lemma Shifts2()
    ensures Shift(16) == 5 && Shift(17) == 9 && Shift(18) == 14 && Shift(19) == 20
    ensures Shift(20) == 5 && Shift(21) == 9 && Shift(22) == 14 && Shift(23) == 20
    ensures Shift(24) == 5 && Shift(25) == 9 && Shift(26) == 14 && Shift(27) == 20
    ensures Shift(28) == 5 && Shift(29) == 9 && Shift(30) == 14 && Shift(31) == 20
  {
  }

  lemma SinesOf2()
    ensures Sine(16) == 0xf61e2562 && Sine(17) == 0xc040b340 && Sine(18) == 0x265e5a51 && Sine(19) == 0xe9b6c7aa
    ensures Sine(20) == 0xd62f105d && Sine(21) == 0x2441453 && Sine(22) == 0xd8a1e681 && Sine(23) == 0xe7d3fbc8
    ensures Sine(24) == 0x21e1cde6 && Sine(25) == 0xc33707d6 && Sine(26) == 0xf4d50d87 && Sine(27) == 0x455a14ed
    ensures Sine(28) == 0xa9e3e905 && Sine(29) == 0xfcefa3f8 && Sine(30) == 0x676f02d9 && Sine(31) == 0x8d2a4c8a
  {
  }

  lemma Indices3()
    ensures Index(32) == 5 && Index(33) == 8 && Index(34) == 11 && Index(35) == 14
    ensures Index(36) == 1 && Index(37) == 4 && Index(38) == 7 && Index(39) == 10
    ensures Index(40) == 13 && Index(41) == 0 && Index(42) == 3 && Index(43) == 6
    ensures Index(44) == 9 && Index(45) == 12 && Index(46) == 15 && Index(47) == 2
  {
  }

  lemma Shifts3()
    ensures Shift(32) == 4 && Shift(33) == 11 && Shift(34) == 16 && Shift(35) == 23
    ensures Shift(36) == 4 && Shift(37) == 11 && Shift(38) == 16 && Shift(39) == 23
    ensures Shift(40) == 4 && Shift(41) == 11 && Shift(42) == 16 && Shift(43) == 23
    ensures Shift(44) == 4 && Shift(45) == 11 && Shift(46) == 16 && Shift(47) == 23
  {
  }

  lemma SinesOf3()
    ensures Sine(32) == 0xfffa3942 && Sine(33) == 0x8771f681 && Sine(34) == 0x6d9d6122 && Sine(35) == 0xfde5380c
    ensures Sine(36) == 0xa4beea44 && Sine(37) == 0x4bdecfa9 && Sine(38) == 0xf6bb4b60 && Sine(39) == 0xbebfbc70
    ensures Sine(40) == 0x289b7ec6 && Sine(41) == 0xeaa127fa && Sine(42) == 0xd4ef3085 && Sine(43) == 0x4881d05
    ensures Sine(44) == 0xd9d4d039 && Sine(45) == 0xe6db99e5 && Sine(46) == 0x1fa27cf8 && Sine(47) == 0xc4ac5665
  {
  }

  lemma Indices4()
    ensures Index(48) == 0 && Index(49) == 7 && Index(50) == 14 && Index(51) == 5
    ensures Index(52) == 12 && Index(53) == 3 && Index(54) == 10 && Index(55) == 1
    ensures Index(56) == 8 && Index(57) == 15 && Index(58) == 6 && Index(59) == 13
    ensures Index(60) == 4 && Index(61) == 11 && Index(62) == 2 && Index(63) == 9
  {
  }

  lemma Shifts4()
    ensures Shift(48) == 6 && Shift(49) == 10 && Shift(50) == 15 && Shift(51) == 21
    ensures Shift(52) == 6 && Shift(53) == 10 && Shift(54) == 15 && Shift(55) == 21
    ensures Shift(56) == 6 && Shift(57) == 10 && Shift(58) == 15 && Shift(59) == 21
    ensures Shift(60) == 6 && Shift(61) == 10 && Shift(62) == 15 && Shift(63) == 21
  {
  }

  lemma SinesOf4()
    ensures Sine(48) == 0xf4292244 && Sine(49) == 0x432aff97 && Sine(50) == 0xab9423a7 && Sine(51) == 0xfc93a039
    ensures Sine(52) == 0x655b59c3 && Sine(53) == 0x8f0ccc92 && Sine(54) == 0xffeff47d && Sine(55) == 0x85845dd1
    ensures Sine(56) == 0x6fa87e4f && Sine(57) == 0xfe2ce6e0 && Sine(58) == 0xa3014314 && Sine(59) == 0x4e0811a1
    ensures Sine(60) == 0xf7537e82 && Sine(61) == 0xbd3af235 && Sine(62) == 0x2ad7d2bb && Sine(63) == 0xeb86d391
  {
  }

  method Round1(st: State, x: seq<Word>) returns (r: State)
    requires |x| == 16
    ensures r == Steps(st, x, 0, 16)
  {
    hide Steps, Step, FF, GG, HH, II, Index, Shift, Sine;
    Indices1();
    Shifts1();
    SinesOf1();
    StepsNone(st, x, 0);
    var a, b, c, d := st.a, st.b, st.c, st.d;
    FFIsStep(st, x, 0, 0, 0, 7, 0xd76aa478);
    a := FF(a, b, c, d, x[0], 7, 0xd76aa478);
    FFIsStep(st, x, 0, 1, 1, 12, 0xe8c7b756);
    d := FF(d, a, b, c, x[1], 12, 0xe8c7b756);
    FFIsStep(st, x, 0, 2, 2, 17, 0x242070db);
    c := FF(c, d, a, b, x[2], 17, 0x242070db);
    FFIsStep(st, x, 0, 3, 3, 22, 0xc1bdceee);
    b := FF(b, c, d, a, x[3], 22, 0xc1bdceee);
    FFIsStep(st, x, 0, 4, 4, 7, 0xf57c0faf);
    a := FF(a, b, c, d, x[4], 7, 0xf57c0faf);
    FFIsStep(st, x, 0, 5, 5, 12, 0x4787c62a);
    d := FF(d, a, b, c, x[5], 12, 0x4787c62a);
    FFIsStep(st, x, 0, 6, 6, 17, 0xa8304613);
    c := FF(c, d, a, b, x[6], 17, 0xa8304613);
    FFIsStep(st, x, 0, 7, 7, 22, 0xfd469501);
    b := FF(b, c, d, a, x[7], 22, 0xfd469501);
    FFIsStep(st, x, 0, 8, 8, 7, 0x698098d8);
    a := FF(a, b, c, d, x[8], 7, 0x698098d8);
    FFIsStep(st, x, 0, 9, 9, 12, 0x8b44f7af);
    d := FF(d, a, b, c, x[9], 12, 0x8b44f7af);
    FFIsStep(st, x, 0, 10, 10, 17, 0xffff5bb1);
    c := FF(c, d, a, b, x[10], 17, 0xffff5bb1);
    FFIsStep(st, x, 0, 11, 11, 22, 0x895cd7be);
    b := FF(b, c, d, a, x[11], 22, 0x895cd7be);
    FFIsStep(st, x, 0, 12, 12, 7, 0x6b901122);
    a := FF(a, b, c, d, x[12], 7, 0x6b901122);
    FFIsStep(st, x, 0, 13, 13, 12, 0xfd987193);
    d := FF(d, a, b, c, x[13], 12, 0xfd987193);
    FFIsStep(st, x, 0, 14, 14, 17, 0xa679438e);
    c := FF(c, d, a, b, x[14], 17, 0xa679438e);
    FFIsStep(st, x, 0, 15, 15, 22, 0x49b40821);
    b := FF(b, c, d, a, x[15], 22, 0x49b40821);
    r := State(a, b, c, d);
  }

  method Round2(st: State, x: seq<Word>) returns (r: State)
    requires |x| == 16
    ensures r == Steps(st, x, 16, 32)
  {
    hide Steps, Step, FF, GG, HH, II, Index, Shift, Sine;
    Indices2();
    Shifts2();
    SinesOf2();
    StepsNone(st, x, 16);
    var a, b, c, d := st.a, st.b, st.c, st.d;
    GGIsStep(st, x, 16, 16, 1, 5, 0xf61e2562);
    a := GG(a, b, c, d, x[1], 5, 0xf61e2562);
    GGIsStep(st, x, 16, 17, 6, 9, 0xc040b340);
    d := GG(d, a, b, c, x[6], 9, 0xc040b340);
    GGIsStep(st, x, 16, 18, 11, 14, 0x265e5a51);
    c := GG(c, d, a, b, x[11], 14, 0x265e5a51);
    GGIsStep(st, x, 16, 19, 0, 20, 0xe9b6c7aa);
    b := GG(b, c, d, a, x[0], 20, 0xe9b6c7aa);
    GGIsStep(st, x, 16, 20, 5, 5, 0xd62f105d);
    a := GG(a, b, c, d, x[5], 5, 0xd62f105d);
    GGIsStep(st, x, 16, 21, 10, 9, 0x2441453);
    d := GG(d, a, b, c, x[10], 9, 0x2441453);
    GGIsStep(st, x, 16, 22, 15, 14, 0xd8a1e681);
    c := GG(c, d, a, b, x[15], 14, 0xd8a1e681);
    GGIsStep(st, x, 16, 23, 4, 20, 0xe7d3fbc8);
    b := GG(b, c, d, a, x[4], 20, 0xe7d3fbc8);
    GGIsStep(st, x, 16, 24, 9, 5, 0x21e1cde6);
    a := GG(a, b, c, d, x[9], 5, 0x21e1cde6);
    GGIsStep(st, x, 16, 25, 14, 9, 0xc33707d6);
    d := GG(d, a, b, c, x[14], 9, 0xc33707d6);
    GGIsStep(st, x, 16, 26, 3, 14, 0xf4d50d87);
    c := GG(c, d, a, b, x[3], 14, 0xf4d50d87);
    GGIsStep(st, x, 16, 27, 8, 20, 0x455a14ed);
    b := GG(b, c, d, a, x[8], 20, 0x455a14ed);
    GGIsStep(st, x, 16, 28, 13, 5, 0xa9e3e905);
    a := GG(a, b, c, d, x[13], 5, 0xa9e3e905);
    GGIsStep(st, x, 16, 29, 2, 9, 0xfcefa3f8);
    d := GG(d, a, b, c, x[2], 9, 0xfcefa3f8);
    GGIsStep(st, x, 16, 30, 7, 14, 0x676f02d9);
    c := GG(c, d, a, b, x[7], 14, 0x676f02d9);
    GGIsStep(st, x, 16, 31, 12, 20, 0x8d2a4c8a);
    b := GG(b, c, d, a, x[12], 20, 0x8d2a4c8a);
    r := State(a, b, c, d);
  }

  method Round3(st: State, x: seq<Word>) returns (r: State)
    requires |x| == 16
    ensures r == Steps(st, x, 32, 48)
  {
    hide Steps, Step, FF, GG, HH, II, Index, Shift, Sine;
    Indices3();
    Shifts3();
    SinesOf3();
    StepsNone(st, x, 32);
    var a, b, c, d := st.a, st.b, st.c, st.d;
    HHIsStep(st, x, 32, 32, 5, 4, 0xfffa3942);
    a := HH(a, b, c, d, x[5], 4, 0xfffa3942);
    HHIsStep(st, x, 32, 33, 8, 11, 0x8771f681);
    d := HH(d, a, b, c, x[8], 11, 0x8771f681);
    HHIsStep(st, x, 32, 34, 11, 16, 0x6d9d6122);
    c := HH(c, d, a, b, x[11], 16, 0x6d9d6122);
    HHIsStep(st, x, 32, 35, 14, 23, 0xfde5380c);
    b := HH(b, c, d, a, x[14], 23, 0xfde5380c);
    HHIsStep(st, x, 32, 36, 1, 4, 0xa4beea44);
    a := HH(a, b, c, d, x[1], 4, 0xa4beea44);
    HHIsStep(st, x, 32, 37, 4, 11, 0x4bdecfa9);
    d := HH(d, a, b, c, x[4], 11, 0x4bdecfa9);
    HHIsStep(st, x, 32, 38, 7, 16, 0xf6bb4b60);
    c := HH(c, d, a, b, x[7], 16, 0xf6bb4b60);
    HHIsStep(st, x, 32, 39, 10, 23, 0xbebfbc70);
    b := HH(b, c, d, a, x[10], 23, 0xbebfbc70);
    HHIsStep(st, x, 32, 40, 13, 4, 0x289b7ec6);
    a := HH(a, b, c, d, x[13], 4, 0x289b7ec6);
    HHIsStep(st, x, 32, 41, 0, 11, 0xeaa127fa);
    d := HH(d, a, b, c, x[0], 11, 0xeaa127fa);
    HHIsStep(st, x, 32, 42, 3, 16, 0xd4ef3085);
    c := HH(c, d, a, b, x[3], 16, 0xd4ef3085);
    HHIsStep(st, x, 32, 43, 6, 23, 0x4881d05);
    b := HH(b, c, d, a, x[6], 23, 0x4881d05);
    HHIsStep(st, x, 32, 44, 9, 4, 0xd9d4d039);
    a := HH(a, b, c, d, x[9], 4, 0xd9d4d039);
    HHIsStep(st, x, 32, 45, 12, 11, 0xe6db99e5);
    d := HH(d, a, b, c, x[12], 11, 0xe6db99e5);
    HHIsStep(st, x, 32, 46, 15, 16, 0x1fa27cf8);
    c := HH(c, d, a, b, x[15], 16, 0x1fa27cf8);
    HHIsStep(st, x, 32, 47, 2, 23, 0xc4ac5665);
    b := HH(b, c, d, a, x[2], 23, 0xc4ac5665);
    r := State(a, b, c, d);
  }

  method Round4(st: State, x: seq<Word>) returns (r: State)
    requires |x| == 16
    ensures r == Steps(st, x, 48, 64)
  {
    hide Steps, Step, FF, GG, HH, II, Index, Shift, Sine;
    Indices4();
    Shifts4();
    SinesOf4();
    StepsNone(st, x, 48);
    var a, b, c, d := st.a, st.b, st.c, st.d;
    IIIsStep(st, x, 48, 48, 0, 6, 0xf4292244);
    a := II(a, b, c, d, x[0], 6, 0xf4292244);
    IIIsStep(st, x, 48, 49, 7, 10, 0x432aff97);
    d := II(d, a, b, c, x[7], 10, 0x432aff97);
    IIIsStep(st, x, 48, 50, 14, 15, 0xab9423a7);
    c := II(c, d, a, b, x[14], 15, 0xab9423a7);
    IIIsStep(st, x, 48, 51, 5, 21, 0xfc93a039);
    b := II(b, c, d, a, x[5], 21, 0xfc93a039);
    IIIsStep(st, x, 48, 52, 12, 6, 0x655b59c3);
    a := II(a, b, c, d, x[12], 6, 0x655b59c3);
    IIIsStep(st, x, 48, 53, 3, 10, 0x8f0ccc92);
    d := II(d, a, b, c, x[3], 10, 0x8f0ccc92);
    IIIsStep(st, x, 48, 54, 10, 15, 0xffeff47d);
    c := II(c, d, a, b, x[10], 15, 0xffeff47d);
    IIIsStep(st, x, 48, 55, 1, 21, 0x85845dd1);
    b := II(b, c, d, a, x[1], 21, 0x85845dd1);
    IIIsStep(st, x, 48, 56, 8, 6, 0x6fa87e4f);
    a := II(a, b, c, d, x[8], 6, 0x6fa87e4f);
    IIIsStep(st, x, 48, 57, 15, 10, 0xfe2ce6e0);
    d := II(d, a, b, c, x[15], 10, 0xfe2ce6e0);
    IIIsStep(st, x, 48, 58, 6, 15, 0xa3014314);
    c := II(c, d, a, b, x[6], 15, 0xa3014314);
    IIIsStep(st, x, 48, 59, 13, 21, 0x4e0811a1);
    b := II(b, c, d, a, x[13], 21, 0x4e0811a1);
    IIIsStep(st, x, 48, 60, 4, 6, 0xf7537e82);
    a := II(a, b, c, d, x[4], 6, 0xf7537e82);
    IIIsStep(st, x, 48, 61, 11, 10, 0xbd3af235);
    d := II(d, a, b, c, x[11], 10, 0xbd3af235);
    IIIsStep(st, x, 48, 62, 2, 15, 0x2ad7d2bb);
    c := II(c, d, a, b, x[2], 15, 0x2ad7d2bb);
    IIIsStep(st, x, 48, 63, 9, 21, 0xeb86d391);
    b := II(b, c, d, a, x[9], 21, 0xeb86d391);
    r := State(a, b, c, d);
  }

  lemma StepsNone(st: State, x: seq<Word>, i: nat)
    requires |x| == 16 && i <= 64
    ensures Steps(st, x, i, i) == st
  {
  }

  // ---------- words and bytes ----------

  /** MD5Decode. */
  method Decode(input: seq<Byte>) returns (output: array<Word>)
    requires |input| == 64
    ensures output[..] == Words(input)
  {
    hide Word4;
    output := new Word[16];
    var i, j := 0, 0;
    while j < 64
      invariant j == 4 * i && i <= 16
      invariant forall k :: 0 <= k < i ==> output[k] == Words(input)[k]
    {
      Joined(input[j], input[j + 1], input[j + 2], input[j + 3]);
      output[i] := (input[j] as bv32) | (input[j + 1] as bv32 << 8) | (input[j + 2] as bv32 << 16) | (input[j + 3] as bv32 << 24);
      i, j := i + 1, j + 4;
    }
  }

  lemma Joined(b0: Byte, b1: Byte, b2: Byte, b3: Byte)
    ensures Word4(b0, b1, b2, b3) == (b0 as bv32) | (b1 as bv32 << 8) | (b2 as bv32 << 16) | (b3 as bv32 << 24)
  {
  }

  function Flat(ws: seq<Word>): (s: seq<Byte>)
    ensures |s| == 4 * |ws|
  {
    if ws == [] then [] else Flat(ws[..|ws| - 1]) + WordBytes(ws[|ws| - 1])
  }

  /** MD5Encode, of state words. */
  method Encode(input: seq<Word>) returns (output: array<Byte>)
    ensures fresh(output) && output[..] == Flat(input)
  {
    output := new Byte[4 * |input|];
    var i, j := 0, 0;
    while j < output.Length
      invariant j == 4 * i && i <= |input| && output[..j] == Flat(input[..i])
    {
      output[j] := (input[i] & 0xFF) as bv8;
      output[j + 1] := ((input[i] >> 8) & 0xFF) as bv8;
      output[j + 2] := ((input[i] >> 16) & 0xFF) as bv8;
      output[j + 3] := ((input[i] >> 24) & 0xFF) as bv8;
      assert input[..i + 1][..i] == input[..i];
      assert output[..j + 4] == output[..j] + WordBytes(input[i]);
      i, j := i + 1, j + 4;
    }
    assert input[..i] == input;
  }

  // ---------- MD5Transform ----------

  lemma StepsJoin(st: State, x: seq<Word>, i: nat, j: nat, n: nat)
    requires |x| == 16 && i <= j <= n <= 64
    ensures Steps(Steps(st, x, i, j), x, j, n) == Steps(st, x, i, n)
    decreases n
  {
    hide Step;
    if j < n {
      StepsJoin(st, x, i, j, n - 1);
    }
  }

  method Transform(state: State, block: seq<Byte>) returns (r: State)
    requires |block| == 64
    ensures r == Compress(state, block)
  {
    hide Step, Steps, Add;
    var x := Decode(block);
    r := Round1(state, x[..]);
    r := Round2(r, x[..]);
    r := Round3(r, x[..]);
    r := Round4(r, x[..]);
    StepsJoin(state, x[..], 0, 16, 32);
    StepsJoin(state, x[..], 0, 32, 48);
    StepsJoin(state, x[..], 0, 48, 64);
    r := State(Add(state.a, r.a), Add(state.b, r.b), Add(state.c, r.c), Add(state.d, r.d));
  }
}
